# ShitLang interpreter core in Dafny

ShitLang is a small line-oriented calculator language written in C++. Each input
line is tokenized, the tokens are parsed into a syntax tree by a
recursive-descent parser, and the root of the tree is evaluated. Variables
declared with `let x = …` live in one `std::map<std::string, double>` owned by
`main` and shared through pointers by the tokenizer and the parser. `print e`
writes the value of `e`.

The project models that core: the tokens and their debug rendering (Token.h),
the tokenizer object (Tokenizer.h, Tokenizer.cpp), the syntax tree and its
evaluation (Node.h), the parser object (Parser.h), and `interpret` together
with `main`'s per-line loop (main.cpp). Modules, in dependency order:

- `Decimal`: decimal digit strings, the values `stoi`/`stod` give for the
  numerals the tokenizer keeps, and the text `ostream` writes for an `int`.
- `Tokens`: `TokenType`, the `std::any` payload as a tagged datatype,
  `Token` as a value with its setters, and `type_to_str`, `any_to_str` and
  `to_str`.
- `Environment`: class `Env`, the shared variable map, updated in place.
- `Lexer`: the tokenizer as pure functions over a `State` (cursor, tokens,
  messages reported so far). One function per helper of Tokenizer.cpp.
- `Tokenizer`: class `Tokenizer` with the source's fields, its methods
  written as loops. Each method is proved to leave the object in the state
  the matching `Lexer` function describes.
- `LexerFacts`: the decision table of `tokenize` rule by rule, and
  whole-run properties: errors never stop lexing, every token list the lexer
  produces is well formed, and `n` equals signs lex to `n - 1` EQEQ tokens.
- `Nodes`: the six node classes as one datatype, and `evaluate` as a
  function returning the printed values and either a value or the exception.
- `Grammar`: the parser as pure functions over a token list and a cursor.
  A C++ exception is a `Fail` result.
- `Parser`: class `Parser` with the source's cursor and map pointer. Each
  method is proved to return what the matching `Grammar` function returns and
  to leave the cursor where that function says.
- `GrammarFacts`: the parser inverts a printer of syntax trees (precedence
  and left associativity), declarations bind once, and `parse` only adds
  bindings.
- `Interpreter`: `interpret` as a method over the shared map, proved equal
  to a function of the map's value. It yields the lines written to the output
  and error streams as events. `main`'s file loop is modelled as a method
  over a sequence of lines.
- `Examples`: concrete token lists and what the parser and `evaluate` make
  of them.
- `LineExamples`: concrete input lines, from their characters to the events
  `interpret` writes and the map it leaves.

Numbers are `real`. IEEE rounding is not modelled. `std::pow` and division
by zero are parameters (`Nodes.Arith`), and so is the decimal text
`ostream` writes for a `double` (`fmt: real -> string`).

Some consequences of the code that a reader of the grammar alone might not
expect:

- `-5 + 3` is a parse error. A `-` with no token before it is the MINUS
  operator (Tokenizer.cpp:27), and no factor starts with MINUS (Parser.h:158-161).
  See `Examples.LeadingMinusFails`.
- `3 - -2` is a parse error. The second `-` follows a MINUS token, so it is an
  operator too.
- `5-3` lexes as the two numbers 5 and -3. A `-` after a number and before a
  digit starts a negative numeral (`Examples.MinusAfterNumberIsASign`).
- `3 + 2 * 4` is 11. `parseTerm` handles `*`, `/` and `^`, so they bind
  tighter than `+` and `-` (`Examples.ProductBindsTighter`).
- `print 5-3` writes no value. It lexes to PRINT, 5, -3, which are two
  statements, `print 5` and `-3`. Only the last statement's node is
  evaluated (Parser.h:16-22), and it is the number -3
  (`LineExamples.PrintFiveMinusThreePrintsNothing`).
- A statement that throws does not undo the bindings of the statements before
  it on the same line (`LineExamples.BindingBeforeFailureStays`).
- The comparisons share the loosest level with `+` and `-`, so `1 < 2 + 3`
  is `(1 < 2) + 3` (`Examples.ComparisonSharesLevelWithSum`).
- A quote character is skipped silently (Tokenizer.cpp:47-49). Other
  unknown characters are reported, and lexing goes on.
- Tokenizer errors never stop the line (`LexerFacts.LexIgnoresReports`).
  The tokens lexed so far are still parsed.
- Trailing whitespace makes the last loop iteration read the string's end
  sentinel, which is reported as an unknown character
  (`LexerFacts.TrailingSpacesReportSentinel`).
- `==` pushes EQEQ but does not consume the second `=`. So `===` lexes to two
  EQEQ tokens (`LexerFacts.EqualsRun`).
- In `(*variables)[varName] = value->evaluate()`, C++17 evaluates the right
  operand first. An exception therefore inserts nothing
  (`GrammarFacts.DeclarationBindsOnce`).

## Model

| member | source | states |
|---|---|---|
| Decimal.DigitValue | ShitLang/Tokenizer.cpp:147 | a digit's value is below ten |
| Decimal.DigitChar | ShitLang/Token.h:121 | the digit character for `d < 10` is a digit whose value is `d` (inverse of `DigitValue`) |
| Decimal.Tenths | ShitLang/Tokenizer.cpp:143 | dividing a non-negative value by ten repeatedly keeps it non-negative |
| Decimal.NatToString | ShitLang/Token.h:121 | `os << n` writes a non-empty digit string with no leading zero |
| Decimal.NatToStringRoundTrip | ShitLang/Token.h:121 | reading back the digits `os << n` writes gives `n` |
| Decimal.IntToString | ShitLang/Token.h:120-121 | `os << i` writes a non-empty text that starts with `-` exactly when `i` is negative |
| Decimal.DotIndex | ShitLang/Tokenizer.cpp:142-144 | the index of the first point of a numeral, or its length when there is none |
| Decimal.NumeralValue | ShitLang/Tokenizer.cpp:142-147 | the exact value `stoi` or `stod` gives for a numeral; stated by `Decimal.NumeralValueOfNat` and `LexerFacts.NumberValueNonNegative` |
| Decimal.NumeralValueOfNat | ShitLang/Tokenizer.cpp:146 | `stoi` of the text of a natural number gives that number |
| Tokens.Token.SetType | ShitLang/Token.h:110-112 | `set_type` changes the kind and keeps the payload |
| Tokens.Token.SetValue | ShitLang/Token.h:113-115 | `set_value` changes the payload and keeps the kind |
| Tokens.TypeToStrNamesKind | ShitLang/Token.h:45-94 | every named kind renders as a name that reads back to it, and exactly the unnamed kinds render as "NONE" |
| Tokens.TypeToStrHasNoBlank | ShitLang/Token.h:45-94 | no kind name contains a blank |
| Tokens.TypeToStr | ShitLang/Token.h:45-94 | `type_to_str`: the name of each kind; its properties are stated by `Tokens.TypeToStrNamesKind` and `Tokens.TypeToStrHasNoBlank` |
| Tokens.AnyToStr | ShitLang/Token.h:117-143 | `any_to_str`: the text of each payload type; what a debug line shows of it is stated by `Tokens.DebugLinePayload` |
| Tokens.ToStr | ShitLang/Token.h:145-149 | `to_str`: the kind's name, " \| ", the payload's text; stated by `Tokens.DebugLineNamesKind` and `Tokens.DebugLinePayload` |
| Tokens.SeparatorIndex | ShitLang/Token.h:147 | the index of the first " \| " in a line, or its length when there is none |
| Tokens.PayloadOfLine | ShitLang/Token.h:147 | the text after the first " \| " of a line, or nothing when there is none |
| Tokens.SeparatorAfterName | ShitLang/Token.h:147 | the first " \| " of a debug line is the one right after the kind's name |
| Tokens.DebugLinePayload | ShitLang/Token.h:117-149 | the text after the first " \| " of `to_str` is `any_to_str` of the payload: a string's own characters, `fmt` of a double, the decimal text of an int, "null" for no payload |
| Tokens.DebugLineNamesKind | ShitLang/Token.h:145-149 | the text before the first " \| " of `to_str` names the token's kind, whatever the payload renders as |
| Environment.Env.constructor | ShitLang/main.cpp:45 | the shared map starts empty |
| Lexer.At | ShitLang/Tokenizer.cpp:20 | `text[position]`, the terminating NUL when `position` is the size |
| Lexer.IsAlpha | ShitLang/Tokenizer.cpp:22 | `isalpha` in the C locale: the ASCII letters |
| Lexer.IsAlnum | ShitLang/Tokenizer.cpp:152 | `isalnum` in the C locale: the ASCII letters and digits |
| Lexer.IsSpace | ShitLang/Tokenizer.cpp:159 | `isspace` in the C locale: blank, tab, newline, vertical tab, form feed, carriage return |
| Lexer.MinusIsOperator | ShitLang/Tokenizer.cpp:27 | the condition that makes `-` the MINUS operator; what each outcome does is stated by `LexerFacts.MinusRule` |
| Lexer.WholeNumbersAreIntegers | ShitLang/Tokenizer.h:27-30 | `is_whole_number` holds exactly for the integers, whatever `epsilon` is |
| Lexer.SkipSpaces | ShitLang/Tokenizer.cpp:158-162 | the first non-space index at or after the cursor, every index passed being a space |
| Lexer.GetWord | ShitLang/Tokenizer.cpp:150-156 | the maximal alphanumeric run from the cursor, and the index just past it |
| Lexer.ScanNumeral | ShitLang/Tokenizer.cpp:119-139 | the number loop ends at or after its start, within the text |
| Lexer.NumberToken | ShitLang/Tokenizer.cpp:38 | the token pushed for a value carries it as a double and is INTEGER exactly when the value is whole, FLOAT otherwise |
| Lexer.ScanNumeralRun | ShitLang/Tokenizer.cpp:119-139 | the loop passes only digits and points, stops at the first other character, and every character passed is kept or reported at its own index as a second point |
| Lexer.ScanNumeralKept | ShitLang/Tokenizer.cpp:119-139 | the loop keeps every digit it passes, in order, and at most one point (none once a point was seen) |
| Lexer.ScanFromDigit | ShitLang/Tokenizer.cpp:119-148 | a scan starting at a digit keeps a well-formed numeral |
| Lexer.GetNumber | ShitLang/Tokenizer.cpp:116-148 | `get_number` and the push of its token; stated by `Tokenizer.Tokenizer.GetNumber` and `LexerFacts.NegativeNumber` |
| Lexer.InvalidReports | ShitLang/Tokenizer.cpp:129-130 | one "Invalid number" report per extra point, at that point's index, in order |
| Lexer.HandleWord | ShitLang/Tokenizer.cpp:164-189 | `handle_word` only moves the cursor forward, within the text |
| Lexer.Step | ShitLang/Tokenizer.cpp:18-105 | one loop iteration advances the cursor and only appends tokens and reports |
| Lexer.Dispatch | ShitLang/Tokenizer.cpp:20-102 | the branches of one iteration advance the cursor and only append tokens and reports |
| Lexer.DispatchNumber | ShitLang/Tokenizer.cpp:31-46 | a `-` that is no operator, or a digit, starts a numeral at the next digit, read by `get_number` with the sign as `is_neg` |
| Lexer.LexFrom | ShitLang/Tokenizer.cpp:18-105 | the loop only appends, ends with the cursor at or past the end, and does nothing once the cursor is there |
| Lexer.LexFromUnfold | ShitLang/Tokenizer.cpp:18-20 | while the cursor is inside the text, the loop skips spaces, runs the branches and goes on |
| Lexer.TokenizeFrom | ShitLang/Tokenizer.cpp:13-108 | `tokenize` only appends to the tokens and the reports |
| Lexer.Lex | ShitLang/Tokenizer.cpp:13-108 | `tokenize` on a fresh tokenizer; stated by `LexerFacts.LexIsLexed` and `LexerFacts.LexIgnoresReports` |
| Tokenizer.Tokenizer.FromText | ShitLang/Tokenizer.cpp:3-6 | the one-argument constructor stores the text, starts at position 0 with no tokens, and allocates a fresh empty map |
| Tokenizer.Tokenizer.constructor | ShitLang/Tokenizer.cpp:8-11 | the two-argument constructor stores the text and keeps the caller's map pointer |
| Tokenizer.Tokenizer.GetVariables | ShitLang/Tokenizer.h:19-21 | `get_variables` returns the pointer the tokenizer holds |
| Tokenizer.Tokenizer.Error | ShitLang/Tokenizer.cpp:111-114 | `error` appends its message with the current position and changes nothing else |
| Tokenizer.Tokenizer.SkipSpaces | ShitLang/Tokenizer.cpp:158-162 | the loop leaves the cursor where `Lexer.SkipSpaces` says |
| Tokenizer.Tokenizer.GetWord | ShitLang/Tokenizer.cpp:150-156 | the loop returns the word and leaves the cursor where `Lexer.GetWord` says |
| Tokenizer.Tokenizer.GetNumber | ShitLang/Tokenizer.cpp:116-148 | the value is the numeral's `stoi`/`stod` value, negated for `is_neg`; the cursor is left on the numeral's last character; each extra point is reported |
| Tokenizer.Tokenizer.HandleWord | ShitLang/Tokenizer.cpp:164-189 | the object ends in the state `Lexer.HandleWord` describes |
| Tokenizer.Tokenizer.ScanAt | ShitLang/Tokenizer.cpp:20-102 | the branches leave the object in the state `Lexer.Dispatch` describes, one before the closing `position++` |
| Tokenizer.Tokenizer.Tokenize | ShitLang/Tokenizer.cpp:13-108 | `tokenize` returns its token list and leaves the object as `Lexer.TokenizeFrom` says; the map is untouched |
| LexerFacts.SymbolKindInjective | ShitLang/Tokenizer.cpp:50-67 | distinct one-character operators push distinct kinds |
| LexerFacts.SymbolRule | ShitLang/Tokenizer.cpp:50-67 | `^ + / * ( )` each push their one token carrying the character, and consume only it |
| LexerFacts.MinusRule | ShitLang/Tokenizer.cpp:27-39 | `-` is the MINUS operator exactly when there are no tokens, or no digit follows, or the previous token is `(`, `+`, `-`, `*` or `/`; otherwise it starts a negative number |
| LexerFacts.MinusOperator | ShitLang/Tokenizer.cpp:27-30 | the MINUS branch pushes one MINUS token and consumes only the `-` |
| LexerFacts.NegativeNumber | ShitLang/Tokenizer.cpp:31-39 | the negative-number branch pushes one number token holding minus the numeral's value, and stops where the numeral ends |
| LexerFacts.NumberValueNonNegative | ShitLang/Tokenizer.cpp:143-147 | a numeral's value is non-negative, and `is_neg` negates it |
| LexerFacts.ComparisonRule | ShitLang/Tokenizer.cpp:73-98 | `<=` and `>=` consume two characters and push one token with payload `,` or `.`; a lone `<` or `>` consumes one |
| LexerFacts.EqualsRule | ShitLang/Tokenizer.cpp:68-72 | `=` pushes EQEQ exactly when another `=` follows, and consumes only itself |
| LexerFacts.WordRule | ShitLang/Tokenizer.cpp:22-26 | a word pushes PRINT for `print`, nothing for `if`, a VARIABLE holding it otherwise, and the cursor ends just past it |
| LexerFacts.LetRule | ShitLang/Tokenizer.cpp:164-176 | `let` pushes LET and a VARIABLE holding the next word, then ASSIGN exactly when `=` follows after spaces, and otherwise reports a missing `=` |
| LexerFacts.UnknownCharacterRule | ShitLang/Tokenizer.cpp:47-102 | an unhandled character pushes nothing and is reported at its position, except a quote, which is skipped silently |
| LexerFacts.TrailingSpacesReportSentinel | ShitLang/Tokenizer.cpp:18-105 | an iteration that meets only spaces reports the end sentinel as an unknown character and ends the loop |
| LexerFacts.DispatchRebased | ShitLang/Tokenizer.cpp:20-102 | one iteration's cursor and tokens do not depend on what was reported before, and it appends the same reports |
| LexerFacts.GetNumberRebased | ShitLang/Tokenizer.cpp:116-148 | `get_number` does not depend on earlier reports |
| LexerFacts.OperatorRebased | ShitLang/Tokenizer.cpp:47-102 | the operator branches do not depend on earlier reports |
| LexerFacts.HandleWordRebased | ShitLang/Tokenizer.cpp:164-189 | `handle_word` does not depend on earlier reports |
| LexerFacts.StepRebased | ShitLang/Tokenizer.cpp:18-105 | an iteration keeps two states that differ only by earlier reports in that relation |
| LexerFacts.LexRebased | ShitLang/Tokenizer.cpp:18-105 | the whole loop keeps that relation |
| LexerFacts.LexIgnoresReports | ShitLang/Tokenizer.cpp:111-114 | errors do not stop or steer lexing: the run's cursor and tokens are those of the run with nothing reported, its reports only extend the earlier ones |
| LexerFacts.StepProgresses | ShitLang/Tokenizer.cpp:18-105 | every iteration moves the cursor forward and only appends, so `tokenize` terminates |
| LexerFacts.DispatchPushesLexed | ShitLang/Tokenizer.cpp:20-102 | the tokens one iteration pushes are well formed: numbers hold doubles, variables strings, and every LET is followed by a VARIABLE |
| LexerFacts.NumberPushesLexed | ShitLang/Tokenizer.cpp:31-46 | a numeral branch pushes one well-formed number token |
| LexerFacts.HandleWordPushesLexed | ShitLang/Tokenizer.cpp:164-189 | `handle_word` pushes well-formed tokens, LET always directly before a VARIABLE |
| LexerFacts.OperatorPushesLexed | ShitLang/Tokenizer.cpp:47-102 | the operator branches push well-formed tokens |
| LexerFacts.DispatchKeepsLexed | ShitLang/Tokenizer.cpp:20-102 | an iteration keeps the token list well formed |
| LexerFacts.LexFromKeepsLexed | ShitLang/Tokenizer.cpp:18-105 | the loop keeps the token list well formed |
| LexerFacts.LexIsLexed | ShitLang/Tokenizer.cpp:13-108 | every token list `tokenize` returns is well formed and holds no AND or OR |
| LexerFacts.EqualsRunFrom | ShitLang/Tokenizer.cpp:68-105 | from the `i`-th of `n` equals signs the loop pushes one EQEQ per sign that has another after it |
| LexerFacts.EqualsRun | ShitLang/Tokenizer.cpp:68-72 | `n` equals signs lex to exactly `n - 1` EQEQ tokens |
| Nodes.Eval | ShitLang/Node.h:11-119 | normal completion writes one value per PrintNode and never more; a tree whose tags are all handled never throws; a relational node returns 0 or 1 |
| Nodes.PrintFreeIsSilent | ShitLang/Node.h:53-57 | a tree without PrintNodes writes nothing |
| Nodes.Compares | ShitLang/Node.h:77-82 | the comparison each relational tag stands for; stated by `Nodes.RelationalValue` |
| Nodes.Apply | ShitLang/Node.h:104-109 | the arithmetic of each binary tag, with `std::pow` and division as parameters; stated by `Nodes.BinaryValue` |
| Nodes.RelationalValue | ShitLang/Node.h:74-85 | a relational node returns 1 exactly when its tag's comparison holds and 0 exactly when it fails; the operands' output is kept in order |
| Nodes.BinaryValue | ShitLang/Node.h:103-112 | a binary node returns its tag's arithmetic of the left and right values, with their output in order |
| Nodes.PrintWritesOnce | ShitLang/Node.h:53-57 | a PrintNode writes its child's value once after the child's output and returns it |
| Nodes.UnsupportedTagsThrow | ShitLang/Node.h:34-111 | an unhandled tag throws its class's message before evaluating anything |
| Nodes.LeftThrowStops | ShitLang/Node.h:74-112 | an exception in the left operand is the node's result, and the right one is never evaluated |
| Grammar.Factor | ShitLang/Parser.h:135-162 | `parseFactor` on success consumes at least one token and builds an expression tree |
| Grammar.TermLoop | ShitLang/Parser.h:118-130 | the loop of `parseTerm` stops at a token that is no `*`, `/`, `^` and keeps building expression trees |
| Grammar.Term | ShitLang/Parser.h:116-132 | `parseTerm` on success consumes at least one token and builds an expression tree |
| Grammar.ExprLoop | ShitLang/Parser.h:81-111 | the loop of `parseExpression` stops at a token that is none of its nine operators and keeps building expression trees |
| Grammar.Expression | ShitLang/Parser.h:78-114 | `parseExpression` on success consumes at least one token and builds an expression tree |
| Grammar.ExprNode | ShitLang/Parser.h:93-109 | the node `parseExpression` builds for each of its operators; stated by `GrammarFacts.OperatorToken` and `GrammarFacts.LooseFound` |
| Grammar.TermNode | ShitLang/Parser.h:123-128 | the node `parseTerm` builds for each of its operators; stated by `GrammarFacts.OperatorToken` and `GrammarFacts.TightFound` |
| Grammar.Message | ShitLang/Parser.h:37-160 | the `what()` text of each exception the parser throws |
| Grammar.Eat | ShitLang/Parser.h:32-39 | `eatToken` succeeds exactly when the current token has the kind, and then advances by one |
| Grammar.Declaration | ShitLang/Parser.h:55-75 | a declaration returns a NoOpNode, never drops or rebinds a name, and adds only the name it declares, and only on success |
| Grammar.Statement | ShitLang/Parser.h:41-53 | a statement consumes at least one token, never drops or rebinds a name, adds only the name a declaration at the cursor declares, and leaves the map as it was when it throws |
| Grammar.ParseFrom | ShitLang/Parser.h:16-22 | the loop of `parse`: statements until the tokens end, the last node is the root, an exception stops it; stated by `GrammarFacts.ParseKeepsBindings`, `GrammarFacts.ParseChain` and `GrammarFacts.LastStatementIsRoot` |
| Grammar.ParseProgram | ShitLang/Parser.h:14-22 | `parse` on a fresh parser, at position 0 with no result yet |
| GrammarFacts.OperatorToken | ShitLang/Parser.h:93-128 | each operator node has a token for which the parser loops build exactly that node |
| GrammarFacts.TermLoopStops | ShitLang/Parser.h:118-119 | the loop of `parseTerm` does nothing at a token that is none of its operators |
| GrammarFacts.ReadsStop | ShitLang/Parser.h:81-85 | an expression read up to a token that is no operator ends there |
| GrammarFacts.TightStep | ShitLang/Parser.h:118-130 | one turn of `parseTerm`'s loop combines the term so far with the next factor |
| GrammarFacts.LooseStep | ShitLang/Parser.h:81-111 | one turn of `parseExpression`'s loop combines the expression so far with the next term |
| GrammarFacts.FactorIsTerm | ShitLang/Parser.h:117 | a factor starts a term |
| GrammarFacts.TermIsExpr | ShitLang/Parser.h:79 | a term ending before a non-operator starts an expression |
| GrammarFacts.LooseFound | ShitLang/Parser.h:90-95 | a printed `+ - < > <= >= ==` node is its left expression, its operator token, then its right term |
| GrammarFacts.LooseSpells | ShitLang/Parser.h:90-95 | a loose node is spelled where its parts are |
| GrammarFacts.TightFound | ShitLang/Parser.h:121-128 | a printed `* / ^` node is its left term, its operator token, then its right factor |
| GrammarFacts.TightSpells | ShitLang/Parser.h:121-128 | a tight node is spelled where its parts are |
| GrammarFacts.ParenFound | ShitLang/Parser.h:152-156 | a printed operator node at factor level is `(`, the expression, `)` |
| GrammarFacts.ParenSpells | ShitLang/Parser.h:152-156 | a parenthesised node is spelled where its parts are |
| GrammarFacts.NotLoose | ShitLang/Parser.h:79 | a node that is no loose one is printed and spelled as a term |
| GrammarFacts.NotTight | ShitLang/Parser.h:117 | a node that is no tight one is printed and spelled as a factor |
| GrammarFacts.FoundSpellsExpr | ShitLang/Parser.h:78-114 | a printed expression found in a token list is spelled there, with its printed width |
| GrammarFacts.FoundSpellsTerm | ShitLang/Parser.h:116-132 | a printed term found in a token list is spelled there |
| GrammarFacts.FoundSpellsFactor | ShitLang/Parser.h:135-162 | a printed factor found in a token list is spelled there |
| GrammarFacts.ParenStep | ShitLang/Parser.h:152-156 | `(`, an expression ending before `)`, and `)` is one factor |
| GrammarFacts.LooseParts | ShitLang/Parser.h:81-111 | a spelled loose node has its operator after its left expression, which is no `*`, `/`, `^` |
| GrammarFacts.TightParts | ShitLang/Parser.h:118-130 | a spelled tight node has its operator after its left term |
| GrammarFacts.ParenParts | ShitLang/Parser.h:152-156 | a spelled parenthesised node has its `)` after its expression |
| GrammarFacts.FactorReadsBack | ShitLang/Parser.h:135-162 | `parseFactor` reads a spelled factor back, whatever follows it |
| GrammarFacts.TightReadsPrefix | ShitLang/Parser.h:116-132 | `parseTerm` reads a spelled tight node as its loop's last turn |
| GrammarFacts.TermReadsPrefix | ShitLang/Parser.h:116-132 | `parseTerm` reads a spelled term back and leaves its loop after it |
| GrammarFacts.LooseReadsPrefix | ShitLang/Parser.h:78-114 | `parseExpression` reads a spelled loose node as its loop's last turn |
| GrammarFacts.ExprReadsPrefix | ShitLang/Parser.h:78-114 | `parseExpression` reads a spelled expression back and leaves its loop after it |
| GrammarFacts.ExprReadsBack | ShitLang/Parser.h:78-162 | `parseExpression` inverts the printer: a printed tree followed by a non-operator parses back to the same tree, so `* / ^` bind tighter and both levels group to the left |
| GrammarFacts.ExprParsesPrinted | ShitLang/Parser.h:78-162 | a whole token list printed from a tree parses to that tree and ends at the list's end |
| GrammarFacts.ExprTreeIsSilent | ShitLang/Parser.h:78-162 | the trees the expression methods build contain no PrintNode |
| GrammarFacts.DeclarationBindsOnce | ShitLang/Parser.h:55-75 | an unbound name gains exactly its expression's value, and the result is a NoOpNode; a bound name throws "Variable redeclaration" and keeps the map; an exception in the value binds nothing |
| GrammarFacts.SelfReferenceFails | ShitLang/Parser.h:55-150 | `let x = x` with `x` unbound throws "Undefined variable" and binds nothing |
| GrammarFacts.ParseKeepsBindings | ShitLang/Parser.h:16-22 | `parse` never drops or rebinds a binding, and every binding it adds was declared by one of its statements |
| GrammarFacts.Reaches | ShitLang/Parser.h:18-20 | successive statements that do not throw lead from one cursor and map to another |
| GrammarFacts.ParseChain | ShitLang/Parser.h:16-22 | `parse` of a non-empty list reaches, through statements that do not throw, one last statement: on success it ends the list, its node is the root and its map the final one; on failure it is the one that throws, with the map the earlier statements left |
| GrammarFacts.RootIgnoresLast | ShitLang/Parser.h:17-21 | on a non-empty list the result of `parse` does not depend on the initial value of `result` |
| GrammarFacts.LastStatementIsRoot | ShitLang/Parser.h:16-22 | a successful `parse` of a non-empty list returns the node of the statement, reached through statements that do not throw, that ends at the list's end, and the map that statement leaves |
| GrammarFacts.EmptyProgram | ShitLang/Parser.h:16-22 | `parse` of no tokens returns no root and binds nothing |
| Parser.Parser.constructor | ShitLang/Parser.h:14 | the parser holds the tokens and the caller's map pointer, at position 0 |
| Parser.Parser.EatToken | ShitLang/Parser.h:32-39 | `eatToken` advances exactly when the current token has the kind, and throws otherwise |
| Parser.Parser.ParseFactor | ShitLang/Parser.h:135-162 | `parseFactor` returns what `Grammar.Factor` does and leaves the cursor after it |
| Parser.Parser.ParseTerm | ShitLang/Parser.h:116-132 | `parseTerm` returns what `Grammar.Term` does and leaves the cursor after it |
| Parser.Parser.ParseExpression | ShitLang/Parser.h:78-114 | `parseExpression` returns what `Grammar.Expression` does and leaves the cursor after it |
| Parser.Parser.ParseVariableDeclaration | ShitLang/Parser.h:55-75 | the declaration's result and the map afterwards are those `Grammar.Declaration` gives |
| Parser.Parser.ParseStatement | ShitLang/Parser.h:41-53 | the statement's result and the map afterwards are those `Grammar.Statement` gives |
| Parser.Parser.Parse | ShitLang/Parser.h:16-22 | `parse` returns what `Grammar.ParseFrom` gives, and the shared map holds its bindings |
| Interpreter.ReportEvents | ShitLang/Tokenizer.cpp:111-114 | one error-stream event per report, in order |
| Interpreter.TokenLines | ShitLang/main.cpp:17-19 | one debug line per token, in order, each being its `to_str` |
| Interpreter.PrintedLines | ShitLang/Node.h:55 | one output line per printed value, in order |
| Interpreter.RunEvents | ShitLang/main.cpp:26-41 | the lines of the `try` block: the parse failure, after the token `parseFactor` wrote if any, or the root's evaluation, or the no-expression notice; stated by `Interpreter.RunFailsLast` |
| Interpreter.Respond | ShitLang/main.cpp:21-41 | no tokens write nothing; otherwise `parse` and the `try` block; stated by `Interpreter.EmptyLineIsSilent` and `Interpreter.RunFailsLast` |
| Interpreter.Interpretation | ShitLang/main.cpp:13-42 | `interpret` as a function of the map's value; stated by `Interpreter.Interpret`, `Interpreter.InterpretationExtends` and `Interpreter.AtMostOneFailure` |
| Interpreter.WriteTokenLines | ShitLang/main.cpp:17-19 | the loop writes exactly the token lines `TokenLines` gives |
| Interpreter.Interpret | ShitLang/main.cpp:13-42 | `interpret` writes the events and leaves the map `Interpretation` gives: reports, token lines, then the parse failure, printed values, evaluation failure or the no-expression notice |
| Interpreter.InterpretationExtends | ShitLang/main.cpp:13-42 | a line never drops or rebinds a variable |
| Interpreter.NewBindingsAreDeclared | ShitLang/main.cpp:13-42 | a name a line newly binds was declared on that line |
| Interpreter.EmptyLineIsSilent | ShitLang/main.cpp:21-24 | an empty line writes nothing and binds nothing |
| Interpreter.RunFailsLast | ShitLang/main.cpp:26-41 | the `try` block writes at most one "Error: " line, and it is the last |
| Interpreter.AtMostOneFailure | ShitLang/main.cpp:13-42 | one line writes at most one "Error: " line, and it is the last thing the line writes |
| Interpreter.FileLine | ShitLang/main.cpp:58-60 | file mode on one line: an empty line is skipped |
| Interpreter.Session | ShitLang/main.cpp:56-61 | file mode: every line in turn on one map; stated by `Interpreter.SessionExtends` and `Interpreter.RunFile` |
| Interpreter.Replay | ShitLang/main.cpp:66-75 | interactive mode before "exit": every line in turn, empty ones included; stated by `Interpreter.SkippingEmptyLinesIsHarmless` |
| Interpreter.SkippingEmptyLinesIsHarmless | ShitLang/main.cpp:56-61 | skipping empty lines in file mode gives the same result as interpreting every line |
| Interpreter.SessionExtends | ShitLang/main.cpp:56-61 | over a whole file the map only grows: a variable keeps its first value |
| Interpreter.RunFile | ShitLang/main.cpp:56-61 | the file loop writes the events and leaves the map `Session` gives |
| Examples.MinusAfterNumberIsASign | ShitLang/Tokenizer.cpp:27-46 | `5-3` lexes to the numbers 5 and -3 with no report |
| Examples.FirstNumber | ShitLang/Tokenizer.cpp:40-46 | in `5-3` the first iteration pushes the number 5 |
| Examples.SignedNumber | ShitLang/Tokenizer.cpp:31-39 | in `5-3` the second iteration pushes the number -3 |
| Examples.NumberFactor | ShitLang/Parser.h:136-140 | a number token is a whole factor |
| Examples.NumberTerm | ShitLang/Parser.h:116-132 | a number token not followed by `*`, `/`, `^` is a whole term |
| Examples.ProductBindsTighter | ShitLang/Parser.h:78-132 | `3 + 2 * 4` parses as `3 + (2 * 4)` and evaluates to 11 |
| Examples.PowerGroupsLeft | ShitLang/Parser.h:118-130 | `2 ^ 2 ^ 3` parses as `(2 ^ 2) ^ 3` |
| Examples.ComparisonSharesLevelWithSum | ShitLang/Parser.h:81-111 | `1 < 2 + 3` parses as `(1 < 2) + 3` and evaluates to 4 |
| Examples.LeadingMinusFails | ShitLang/Parser.h:158-161 | a leading MINUS makes `parse` throw "Unexpected token in factor", reporting that token |
| Examples.UnboundVariableFails | ShitLang/Parser.h:141-150 | `print y` with `y` unbound throws "Undefined variable: y" |
| Examples.RedeclarationFails | ShitLang/Parser.h:66-71 | `let x = 1` with `x` bound throws and keeps the old value |
| Examples.DeclarationThenUse | ShitLang/Parser.h:16-22 | `let x = 5 x + 1` binds `x` to 5, and the root is `5 + 1` |
| Examples.DeclareX | ShitLang/Parser.h:55-75 | the declaration in that line binds `x` to 5 and ends after the 5 |
| Examples.UseX | ShitLang/Parser.h:141-147 | the expression after it reads `x` as the number 5 |
| Examples.DoubleEqualsIsOneToken | ShitLang/Tokenizer.cpp:68-72 | `==` lexes to one EQEQ token |
| LineExamples.WordDispatch | ShitLang/Tokenizer.cpp:22-26 | a word other than `let` and `if` pushes PRINT for `print` and a VARIABLE otherwise, and the cursor ends past it |
| LineExamples.DigitDispatch | ShitLang/Tokenizer.cpp:40-46 | a one-digit numeral pushes the INTEGER token of its value |
| LineExamples.SignedDigitDispatch | ShitLang/Tokenizer.cpp:31-39 | a `-` that is a sign, before one digit, pushes the INTEGER token of minus its value |
| LineExamples.WholeNumberToken | ShitLang/Tokenizer.cpp:38 | the token of a whole value is INTEGER |
| LineExamples.LetXDispatch | ShitLang/Tokenizer.cpp:164-176 | `let x = ` at the start of a line pushes LET, the VARIABLE `x` and ASSIGN |
| LineExamples.PrintFirst | ShitLang/Tokenizer.cpp:180-181 | `print` at the start of a line pushes PRINT |
| LineExamples.CleanLine | ShitLang/main.cpp:13-19 | a line lexed without a report writes its token lines, then what the parse writes |
| LineExamples.LexPrintFiveMinusThree | ShitLang/Tokenizer.cpp:13-108 | `print 5-3` lexes to PRINT, 5, -3 with no report |
| LineExamples.ParsePrintFiveMinusThree | ShitLang/Parser.h:16-53 | those tokens are two statements, `print 5` and `-3`; the root is the number -3, and the `try` block writes nothing |
| LineExamples.PrintFiveMinusThreePrintsNothing | ShitLang/main.cpp:13-42 | the line `print 5-3` writes its token lines and no printed value, and binds nothing |
| LineExamples.LexLeadingMinus | ShitLang/Tokenizer.cpp:13-108 | `-5 + 3` lexes to MINUS, 5, PLUS, 3 with no report |
| LineExamples.RespondLeadingMinus | ShitLang/Parser.h:158-161 | those tokens make `parseFactor` write the MINUS token's debug line and throw "Unexpected token in factor" |
| LineExamples.LeadingMinusLine | ShitLang/main.cpp:13-42 | the line `-5 + 3` writes its token lines, the MINUS token's line again, then one "Error: Unexpected token in factor" line, and binds nothing |
| LineExamples.LexDeclarationThenUse | ShitLang/Tokenizer.cpp:13-108 | `let x = 5 x + 1` lexes to LET, `x`, ASSIGN, 5, `x`, PLUS, 1 with no report |
| LineExamples.RespondDeclarationThenUse | ShitLang/Parser.h:16-75 | those tokens bind `x` to 5, and evaluating the root `5 + 1` writes nothing |
| LineExamples.DeclarationThenUseLine | ShitLang/main.cpp:13-42 | the line `let x = 5 x + 1` on an empty map binds `x` to 5 and writes only its token lines |
| LineExamples.LexBindingThenFailure | ShitLang/Tokenizer.cpp:13-108 | `let x = 5 print y` lexes to LET, `x`, ASSIGN, 5, PRINT, `y` with no report |
| LineExamples.DeclareFive | ShitLang/Parser.h:55-75 | the first statement of those tokens binds `x` to 5 and ends before PRINT |
| LineExamples.PrintUnbound | ShitLang/Parser.h:141-150 | the second statement throws "Undefined variable: y" and keeps the map |
| LineExamples.BindThenFail | ShitLang/Parser.h:16-22 | `parse` of those tokens throws "Undefined variable: y" with `x` already bound to 5, and the `try` block writes that one error |
| LineExamples.BindingBeforeFailureStays | ShitLang/main.cpp:13-42 | the line `let x = 5 print y` on an empty map leaves `x` bound to 5 and writes its token lines and exactly one "Error: " line, "Undefined variable: y" |

## Left out

- Console I/O. The output and error streams are modelled as a sequence of
  events (`Interpreter.Event`), not as text. The exact wording of the
  "Error occurred at position" lines and of the "Current Character" echo
  (Tokenizer.cpp:100) is folded into the `LexError` event.
- Floating point. Values are exact reals. `std::pow`, division by zero
  (`Nodes.Arith`) and the text `ostream` writes for a double (`fmt`) are
  parameters.
- `stoi` overflow (`std::out_of_range` for long digit runs), and the
  `int`-to-`double` conversion of `get_number`'s variant, which loses nothing
  for the values `stoi` accepts.
- Pointers, `delete` and the memory leaks of the node trees. Trees are
  values.
- `Decimal.Tenths`: it states only non-negativity. What is proved of the
  value of a numeral is its sign and its value for digit runs
  (`Decimal.NumeralValueOfNat`).
- Reading `currentToken()` at the end of the token list is undefined in C++.
  The model treats it as "no current token". The loop guards then see no
  operator, `eatToken` throws "Unexpected token", and `parseFactor` throws
  "Unexpected token in factor" with nothing written before it.
- The default constructor `Token()` and the member `current_token` of the
  tokenizer are never used.
- `Parser::set_variables` is declared but never defined.
- `Tokenizer::run` and `Tokenizer::create_variable` have empty bodies.
- The null map pointer that `parseFactor` tests for. This can never happen
  here: `interpret` always passes the address of `main`'s map.
- `isalpha`, `isalnum`, `isspace` and `isdigit` are taken in the C locale
  (ASCII).
- Text is modelled as a sequence of characters, not of bytes. In C++ a
  UTF-8 character such as `é` is two bytes, each reported as "Unknown Token";
  the model reports it once. Passing such a byte, a negative `char`, to
  `isalpha` is undefined behaviour in C++; the model treats it as no letter.
- The order of evaluation of the two operands of a binary or relational
  node is unspecified in C++. The model evaluates the left one first.
- The interactive loop of `main` (main.cpp:64-76) and its "exit" line are
  not modelled as a loop. `Interpreter.Replay` gives the effect of the lines
  before "exit", and the prompt text is left out.
- The file-open failure of `main` (main.cpp:51-54) is I/O.
- AND and OR tokens are never produced by the lexer (`LexerFacts.LexIsLexed`).
  Their relational tags would make the node throw "Unsupported relational
  operation" (`Nodes.UnsupportedTagsThrow`).
- `UnaryOperationNode` is never built by the parser. Its `evaluate` is
  modelled (`Nodes.Eval`), but no lemma is specific to it beyond its
  unsupported-tag case.
