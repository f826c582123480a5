/** Whole lines through `interpret`: the text is tokenized, every token's
    debug line is written, and the tokens are parsed and evaluated against
    the caller's map. */
module LineExamples {
  import opened Decimal
  import opened Tokens
  import opened Lexer
  import opened LexerFacts
  import opened Nodes
  import opened Grammar
  import opened Environment
  import opened Interpreter
  import opened Examples

  const PrintToken := Token(TokenType.Print, CStringVal("print"))
  const LetToken := Token(Let, CStringVal("LET"))

  function Var(name: string): Token { Token(Variable, StringVal(name)) }

  /** `text` is the line `s`, character by character. */
  predicate Spells(text: string, s: string)
  {
    |text| == |s| && forall i :: 0 <= i < |s| ==> text[i] == s[i]
  }

  /** One space at `k`, and no space after it. */
  lemma OneSpace(text: string, k: nat)
    requires k + 1 < |text| && text[k] == ' ' && !IsSpace(text[k + 1])
    ensures SkipSpaces(text, k) == k + 1
  {
    assert SkipSpaces(text, k + 1) == k + 1;
  }

  /** The word from `i` ends at `j`. */
  lemma WordAt(text: string, i: nat, j: nat)
    requires i < j <= |text|
    requires forall k :: i <= k < j ==> IsAlnum(text[k])
    requires j == |text| || !IsAlnum(text[j])
    ensures GetWord(text, i) == (text[i..j], j)
  {
    var r := GetWord(text, i);
    if r.1 < j {
      assert IsAlnum(text[r.1]);
    }
  }

  /** A word other than `let` and `if`: PRINT for `print`, else a VARIABLE. */
  lemma WordDispatch(text: string, st: State, j: nat)
    requires st.pos < j <= |text| && IsAlpha(text[st.pos])
    requires forall k :: st.pos <= k < j ==> IsAlnum(text[k])
    requires j == |text| || !IsAlnum(text[j])
    requires text[st.pos..j] != "let" && text[st.pos..j] != "if"
    ensures var word := text[st.pos..j];
      Dispatch(text, st) == State(j, st.tokens + [if word == "print" then PrintToken else Var(word)], st.reports)
  {
    WordAt(text, st.pos, j);
    WordRule(text, st);
  }

  /** A one-digit numeral at the cursor. */
  lemma DigitDispatch(text: string, st: State)
    requires st.pos < |text| && IsDigit(text[st.pos])
    requires st.pos + 1 == |text| || (!IsDigit(text[st.pos + 1]) && text[st.pos + 1] != '.')
    ensures Dispatch(text, st) == State(st.pos + 1, st.tokens + [Num(DigitValue(text[st.pos]) as real)], st.reports)
  {
    var i, negative := DispatchNumber(text, st);
    var scan := DigitAt(text, st.pos);
    WholeNumberToken(DigitValue(text[st.pos]));
    assert st.reports + InvalidReports([]) == st.reports;
  }

  /** A `-` that is a sign, before a one-digit numeral. */
  lemma SignedDigitDispatch(text: string, st: State)
    requires st.pos + 1 < |text| && text[st.pos] == '-' && IsDigit(text[st.pos + 1])
    requires !MinusIsOperator(text, st.pos, st.tokens)
    requires st.pos + 2 == |text| || (!IsDigit(text[st.pos + 2]) && text[st.pos + 2] != '.')
    ensures Dispatch(text, st) == State(st.pos + 2, st.tokens + [Num(-(DigitValue(text[st.pos + 1]) as real))], st.reports)
  {
    var i, negative := DispatchNumber(text, st);
    var scan := DigitAt(text, st.pos + 1);
    WholeNumberToken(-(DigitValue(text[st.pos + 1]) as int));
    assert st.reports + InvalidReports([]) == st.reports;
  }

  /** The token of a whole value is an INTEGER token. */
  lemma WholeNumberToken(n: int)
    ensures NumberToken(n as real) == Num(n as real)
  {
    WholeNumbersAreIntegers(n as real, DefaultEpsilon, n);
  }

  /** `let x = ` at the start of a line pushes LET, the name and ASSIGN. */
  lemma LetXDispatch(text: string)
    requires |text| > 8 && !IsSpace(text[8])
    requires text[0] == 'l' && text[1] == 'e' && text[2] == 't' && text[3] == ' '
    requires text[4] == 'x' && text[5] == ' ' && text[6] == '=' && text[7] == ' '
    ensures Dispatch(text, State(0, [], [])) == State(7, [LetToken, Var("x"), Sym(Assign, '=')], [])
  {
    WordAt(text, 0, 3);
    assert text[0..3] == "let";
    OneSpace(text, 3);
    WordAt(text, 4, 5);
    assert text[4..5] == "x";
    OneSpace(text, 5);
    LetRule(text, State(0, [], []));
    var r := Dispatch(text, State(0, [], []));
    assert r.tokens == r.tokens[..2] + [r.tokens[2]];
  }

  /** One iteration of `tokenize`'s loop, in the form the steps below use:
      skip to `at`, then act on what is there. */
  lemma Advance(text: string, st: State, at: nat, next: State)
    requires st.pos < |text| && SkipSpaces(text, st.pos) == at
    requires Dispatch(text, State(at, st.tokens, st.reports)) == next
    ensures LexFrom(text, st) == LexFrom(text, next)
  {
    LexFromUnfold(text, st);
  }

  lemma DigitStep(text: string, st: State, at: nat)
    requires st.pos < |text| && SkipSpaces(text, st.pos) == at && at < |text| && IsDigit(text[at])
    requires at + 1 == |text| || (!IsDigit(text[at + 1]) && text[at + 1] != '.')
    ensures LexFrom(text, st) == LexFrom(text, State(at + 1, st.tokens + [Num(DigitValue(text[at]) as real)], st.reports))
  {
    DigitDispatch(text, State(at, st.tokens, st.reports));
    Advance(text, st, at, State(at + 1, st.tokens + [Num(DigitValue(text[at]) as real)], st.reports));
  }

  lemma SignedDigitStep(text: string, st: State, at: nat)
    requires st.pos < |text| && SkipSpaces(text, st.pos) == at && at + 1 < |text|
    requires text[at] == '-' && IsDigit(text[at + 1]) && !MinusIsOperator(text, at, st.tokens)
    requires at + 2 == |text| || (!IsDigit(text[at + 2]) && text[at + 2] != '.')
    ensures LexFrom(text, st) == LexFrom(text, State(at + 2, st.tokens + [Num(-(DigitValue(text[at + 1]) as real))], st.reports))
  {
    var here := State(at, st.tokens, st.reports);
    var next := State(at + 2, st.tokens + [Num(-(DigitValue(text[at + 1]) as real))], st.reports);
    SignedDigitDispatch(text, here);
    Advance(text, st, at, next);
  }

  lemma MinusStep(text: string, st: State, at: nat)
    requires st.pos < |text| && SkipSpaces(text, st.pos) == at && at < |text|
    requires text[at] == '-' && MinusIsOperator(text, at, st.tokens)
    ensures LexFrom(text, st) == LexFrom(text, State(at + 1, st.tokens + [Sym(Minus, '-')], st.reports))
  {
    MinusOperator(text, State(at, st.tokens, st.reports));
    Advance(text, st, at, State(at + 1, st.tokens + [Sym(Minus, '-')], st.reports));
  }

  lemma PlusStep(text: string, st: State, at: nat)
    requires st.pos < |text| && SkipSpaces(text, st.pos) == at && at < |text| && text[at] == '+'
    ensures LexFrom(text, st) == LexFrom(text, State(at + 1, st.tokens + [Sym(Plus, '+')], st.reports))
  {
    SymbolRule(text, State(at, st.tokens, st.reports));
    Advance(text, st, at, State(at + 1, st.tokens + [Sym(Plus, '+')], st.reports));
  }

  lemma WordStep(text: string, st: State, at: nat, j: nat)
    requires st.pos < |text| && SkipSpaces(text, st.pos) == at && at < j <= |text| && IsAlpha(text[at])
    requires forall k :: at <= k < j ==> IsAlnum(text[k])
    requires j == |text| || !IsAlnum(text[j])
    requires text[at..j] != "let" && text[at..j] != "if"
    ensures var word := text[at..j];
      LexFrom(text, st) == LexFrom(text, State(j, st.tokens + [if word == "print" then PrintToken else Var(word)], st.reports))
  {
    var word := text[at..j];
    WordDispatch(text, State(at, st.tokens, st.reports), j);
    Advance(text, st, at, State(j, st.tokens + [if word == "print" then PrintToken else Var(word)], st.reports));
  }

  /** A line that starts with `let x = ` and a character that is no space. */
  lemma LetXStep(text: string)
    requires |text| > 8 && !IsSpace(text[8])
    requires text[0] == 'l' && text[1] == 'e' && text[2] == 't' && text[3] == ' '
    requires text[4] == 'x' && text[5] == ' ' && text[6] == '=' && text[7] == ' '
    ensures Lex(text) == LexFrom(text, State(7, [LetToken, Var("x"), Sym(Assign, '=')], []))
  {
    assert Lex(text) == LexFrom(text, State(0, [], []));
    assert SkipSpaces(text, 0) == 0;
    LetXDispatch(text);
    Advance(text, State(0, [], []), 0, State(7, [LetToken, Var("x"), Sym(Assign, '=')], []));
  }

  /** A line the tokenizer reads without a report writes its token lines,
      then what the parse of its tokens writes. */
  lemma CleanLine(text: string, ts: seq<Token>, env: Bindings, arith: Arith, fmt: real -> string)
    requires Lex(text).tokens == ts && Lex(text).reports == []
    ensures var after := Respond(ts, env, arith, fmt);
      Interpretation(text, env, arith, fmt) == Effect(after.env, TokenLines(ts, fmt) + after.events)
  {
    var after := Respond(ts, env, arith, fmt);
    assert Interpretation(text, env, arith, fmt)
      == Effect(after.env, ReportEvents(Lex(text).reports) + TokenLines(ts, fmt) + after.events);
    assert ReportEvents([]) + TokenLines(ts, fmt) == TokenLines(ts, fmt);
  }

  /** `print 5-3` is PRINT, 5 and -3: the `-` after a number is a sign. */
  lemma LexPrintFiveMinusThree(text: string)
    requires Spells(text, "print 5-3")
    ensures Lex(text) == State(9, [PrintToken, Num(5.0), Num(-3.0)], [])
  {
    assert text[0] == 'p' && text[1] == 'r' && text[2] == 'i' && text[3] == 'n' && text[4] == 't';
    assert text[5] == ' ' && text[6] == '5' && text[7] == '-' && text[8] == '3';
    LexPrintWord(text);
    LexFiveBeforeSign(text);
    LexSignedThree(text);
  }

  lemma LexPrintWord(text: string)
    requires |text| > 5 && text[0] == 'p' && text[1] == 'r' && text[2] == 'i' && text[3] == 'n' && text[4] == 't' && text[5] == ' '
    ensures Lex(text) == LexFrom(text, State(5, [PrintToken], []))
  {
    assert Lex(text) == LexFrom(text, State(0, [], []));
    assert SkipSpaces(text, 0) == 0;
    PrintFirst(text);
    Advance(text, State(0, [], []), 0, State(5, [PrintToken], []));
  }

  /** `print` at the start of a line pushes PRINT. */
  lemma PrintFirst(text: string)
    requires |text| > 5 && text[0] == 'p' && text[1] == 'r' && text[2] == 'i' && text[3] == 'n' && text[4] == 't' && text[5] == ' '
    ensures Dispatch(text, State(0, [], [])) == State(5, [PrintToken], [])
  {
    assert text[0..5] == "print";
    WordDispatch(text, State(0, [], []), 5);
    assert [] + [PrintToken] == [PrintToken];
  }

  lemma LexFiveBeforeSign(text: string)
    requires |text| > 7 && text[5] == ' ' && text[6] == '5' && text[7] == '-'
    ensures LexFrom(text, State(5, [PrintToken], [])) == LexFrom(text, State(7, [PrintToken, Num(5.0)], []))
  {
    OneSpace(text, 5);
    DigitStep(text, State(5, [PrintToken], []), 6);
    assert [PrintToken] + [Num(DigitValue('5') as real)] == [PrintToken, Num(5.0)];
  }

  lemma LexSignedThree(text: string)
    requires |text| == 9 && text[7] == '-' && text[8] == '3'
    ensures LexFrom(text, State(7, [PrintToken, Num(5.0)], [])) == State(9, [PrintToken, Num(5.0), Num(-3.0)], [])
  {
    var s2 := State(7, [PrintToken, Num(5.0)], []);
    assert SkipSpaces(text, 7) == 7;
    assert !MinusIsOperator(text, 7, s2.tokens);
    SignedDigitStep(text, s2, 7);
    assert s2.tokens + [Num(-(DigitValue('3') as real))] == [PrintToken, Num(5.0), Num(-3.0)];
  }

  /** The statements of `print 5-3`: `print 5`, then `-3`, which is the root. */
  lemma ParsePrintFiveMinusThree(ts: seq<Token>, env: Bindings, arith: Arith, fmt: real -> string)
    requires ts == [PrintToken, Num(5.0), Num(-3.0)]
    ensures ParseProgram(ts, env, arith) == Done(env, Some(Number(-3.0)))
    ensures Respond(ts, env, arith, fmt) == Effect(env, [])
  {
    NumberTerm(ts, 1, env, 5.0);
    NumberTerm(ts, 2, env, -3.0);
    assert ExprLoop(ts, 2, env, Number(5.0)) == Ok(Number(5.0), 2);
    assert Expression(ts, 1, env) == Ok(Number(5.0), 2);
    assert Statement(ts, 0, env, arith) == Stmt(env, Ok(Nodes.Print(Number(5.0)), 2));
    assert ExprLoop(ts, 3, env, Number(-3.0)) == Ok(Number(-3.0), 3);
    assert Expression(ts, 2, env) == Ok(Number(-3.0), 3);
    assert Statement(ts, 2, env, arith) == Stmt(env, Ok(Number(-3.0), 3));
    assert ParseFrom(ts, 3, env, arith, Some(Number(-3.0))) == Done(env, Some(Number(-3.0)));
    assert ParseFrom(ts, 2, env, arith, Some(Nodes.Print(Number(5.0)))) == Done(env, Some(Number(-3.0)));
    assert EvalEvents(Eval(Number(-3.0), arith)) == [];
  }

  /** `print 5-3` writes no value: only the last statement, the number -3,
      is evaluated, so the line writes its token lines and nothing else. */
  lemma PrintFiveMinusThreePrintsNothing(text: string, env: Bindings, arith: Arith, fmt: real -> string)
    requires Spells(text, "print 5-3")
    ensures var ts := [PrintToken, Num(5.0), Num(-3.0)];
      var r := Interpretation(text, env, arith, fmt);
      && r == Effect(env, TokenLines(ts, fmt))
      && forall i :: 0 <= i < |r.events| ==> !r.events[i].Printed?
  {
    var ts := [PrintToken, Num(5.0), Num(-3.0)];
    LexPrintFiveMinusThree(text);
    ParsePrintFiveMinusThree(ts, env, arith, fmt);
    CleanLine(text, ts, env, arith, fmt);
    assert TokenLines(ts, fmt) + [] == TokenLines(ts, fmt);
  }

  /** `-5 + 3` is MINUS, 5, PLUS, 3: a `-` that starts a line is the operator. */
  lemma LexLeadingMinus(text: string)
    requires Spells(text, "-5 + 3")
    ensures Lex(text) == State(6, [Sym(Minus, '-'), Num(5.0), Sym(Plus, '+'), Num(3.0)], [])
  {
    assert text[0] == '-' && text[1] == '5' && text[2] == ' ' && text[3] == '+' && text[4] == ' ' && text[5] == '3';
    LexMinusFirst(text);
    LexFiveAfterMinus(text);
    LexPlusAt3(text);
    LexThreeAt5(text);
  }

  lemma LexMinusFirst(text: string)
    requires |text| > 1 && text[0] == '-' && text[1] == '5'
    ensures Lex(text) == LexFrom(text, State(1, [Sym(Minus, '-')], []))
  {
    assert Lex(text) == LexFrom(text, State(0, [], []));
    assert SkipSpaces(text, 0) == 0;
    MinusStep(text, State(0, [], []), 0);
    assert [] + [Sym(Minus, '-')] == [Sym(Minus, '-')];
  }

  lemma LexFiveAfterMinus(text: string)
    requires |text| > 2 && text[1] == '5' && text[2] == ' '
    ensures LexFrom(text, State(1, [Sym(Minus, '-')], [])) == LexFrom(text, State(2, [Sym(Minus, '-'), Num(5.0)], []))
  {
    assert SkipSpaces(text, 1) == 1;
    DigitStep(text, State(1, [Sym(Minus, '-')], []), 1);
    assert [Sym(Minus, '-')] + [Num(DigitValue('5') as real)] == [Sym(Minus, '-'), Num(5.0)];
  }

  lemma LexPlusAt3(text: string)
    requires |text| > 4 && text[2] == ' ' && text[3] == '+'
    ensures LexFrom(text, State(2, [Sym(Minus, '-'), Num(5.0)], []))
      == LexFrom(text, State(4, [Sym(Minus, '-'), Num(5.0), Sym(Plus, '+')], []))
  {
    OneSpace(text, 2);
    PlusStep(text, State(2, [Sym(Minus, '-'), Num(5.0)], []), 3);
    assert [Sym(Minus, '-'), Num(5.0)] + [Sym(Plus, '+')] == [Sym(Minus, '-'), Num(5.0), Sym(Plus, '+')];
  }

  lemma LexThreeAt5(text: string)
    requires |text| == 6 && text[4] == ' ' && text[5] == '3'
    ensures LexFrom(text, State(4, [Sym(Minus, '-'), Num(5.0), Sym(Plus, '+')], []))
      == State(6, [Sym(Minus, '-'), Num(5.0), Sym(Plus, '+'), Num(3.0)], [])
  {
    var s3 := State(4, [Sym(Minus, '-'), Num(5.0), Sym(Plus, '+')], []);
    OneSpace(text, 4);
    DigitStep(text, s3, 5);
    assert s3.tokens + [Num(DigitValue('3') as real)] == [Sym(Minus, '-'), Num(5.0), Sym(Plus, '+'), Num(3.0)];
  }

  /** `-5 + 3`: `parseFactor` writes the MINUS token's debug line and throws;
      the map is left as it was. */
  lemma LeadingMinusLine(text: string, env: Bindings, arith: Arith, fmt: real -> string)
    requires Spells(text, "-5 + 3")
    ensures var ts := [Sym(Minus, '-'), Num(5.0), Sym(Plus, '+'), Num(3.0)];
      Interpretation(text, env, arith, fmt)
        == Effect(env, TokenLines(ts, fmt) + [Unexpected(ToStr(Sym(Minus, '-'), fmt)), Failure("Unexpected token in factor")])
  {
    var ts := [Sym(Minus, '-'), Num(5.0), Sym(Plus, '+'), Num(3.0)];
    LexLeadingMinus(text);
    RespondLeadingMinus(ts, env, arith, fmt);
    CleanLine(text, ts, env, arith, fmt);
  }

  lemma RespondLeadingMinus(ts: seq<Token>, env: Bindings, arith: Arith, fmt: real -> string)
    requires ts == [Sym(Minus, '-'), Num(5.0), Sym(Plus, '+'), Num(3.0)]
    ensures Respond(ts, env, arith, fmt) == Effect(env, [Unexpected(ToStr(Sym(Minus, '-'), fmt)), Failure("Unexpected token in factor")])
  {
    var e := UnexpectedInFactor(Some(Sym(Minus, '-')));
    assert Factor(ts, 0, env) == Fail(e);
    assert Term(ts, 0, env) == Fail(e);
    assert Expression(ts, 0, env) == Fail(e);
    assert Statement(ts, 0, env, arith) == Stmt(env, Fail(e));
    assert ParseProgram(ts, env, arith) == Aborted(env, e);
  }

  /** `let x = 5 x + 1` is LET, `x`, ASSIGN, 5, `x`, PLUS, 1. */
  lemma LexDeclarationThenUse(text: string)
    requires Spells(text, "let x = 5 x + 1")
    ensures Lex(text) == State(15, [LetToken, Var("x"), Sym(Assign, '='), Num(5.0), Var("x"), Sym(Plus, '+'), Num(1.0)], [])
  {
    assert text[0] == 'l' && text[1] == 'e' && text[2] == 't' && text[3] == ' ' && text[4] == 'x';
    assert text[5] == ' ' && text[6] == '=' && text[7] == ' ' && text[8] == '5' && text[9] == ' ';
    assert text[10] == 'x' && text[11] == ' ' && text[12] == '+' && text[13] == ' ' && text[14] == '1';
    LetXStep(text);
    LexFiveAfterLet(text);
    LexXAt10(text);
    LexPlusAt12(text);
    LexOneAt14(text);
  }

  /** The 5 of `let x = 5 `. */
  lemma LexFiveAfterLet(text: string)
    requires |text| > 9 && text[7] == ' ' && text[8] == '5' && text[9] == ' '
    ensures LexFrom(text, State(7, [LetToken, Var("x"), Sym(Assign, '=')], []))
      == LexFrom(text, State(9, [LetToken, Var("x"), Sym(Assign, '='), Num(5.0)], []))
  {
    OneSpace(text, 7);
    DigitStep(text, State(7, [LetToken, Var("x"), Sym(Assign, '=')], []), 8);
    assert [LetToken, Var("x"), Sym(Assign, '=')] + [Num(DigitValue('5') as real)] == [LetToken, Var("x"), Sym(Assign, '='), Num(5.0)];
  }

  lemma LexXAt10(text: string)
    requires |text| > 11 && text[9] == ' ' && text[10] == 'x' && text[11] == ' '
    ensures LexFrom(text, State(9, [LetToken, Var("x"), Sym(Assign, '='), Num(5.0)], []))
      == LexFrom(text, State(11, [LetToken, Var("x"), Sym(Assign, '='), Num(5.0), Var("x")], []))
  {
    OneSpace(text, 9);
    assert text[10..11] == "x";
    WordStep(text, State(9, [LetToken, Var("x"), Sym(Assign, '='), Num(5.0)], []), 10, 11);
    assert [LetToken, Var("x"), Sym(Assign, '='), Num(5.0)] + [Var("x")] == [LetToken, Var("x"), Sym(Assign, '='), Num(5.0), Var("x")];
  }

  lemma LexPlusAt12(text: string)
    requires |text| > 13 && text[11] == ' ' && text[12] == '+'
    ensures LexFrom(text, State(11, [LetToken, Var("x"), Sym(Assign, '='), Num(5.0), Var("x")], []))
      == LexFrom(text, State(13, [LetToken, Var("x"), Sym(Assign, '='), Num(5.0), Var("x"), Sym(Plus, '+')], []))
  {
    var ts := [LetToken, Var("x"), Sym(Assign, '='), Num(5.0), Var("x")];
    OneSpace(text, 11);
    PlusStep(text, State(11, ts, []), 12);
    assert ts + [Sym(Plus, '+')] == [LetToken, Var("x"), Sym(Assign, '='), Num(5.0), Var("x"), Sym(Plus, '+')];
  }

  lemma LexOneAt14(text: string)
    requires |text| == 15 && text[13] == ' ' && text[14] == '1'
    ensures LexFrom(text, State(13, [LetToken, Var("x"), Sym(Assign, '='), Num(5.0), Var("x"), Sym(Plus, '+')], []))
      == State(15, [LetToken, Var("x"), Sym(Assign, '='), Num(5.0), Var("x"), Sym(Plus, '+'), Num(1.0)], [])
  {
    var ts := [LetToken, Var("x"), Sym(Assign, '='), Num(5.0), Var("x"), Sym(Plus, '+')];
    OneSpace(text, 13);
    DigitStep(text, State(13, ts, []), 14);
    assert ts + [Num(DigitValue('1') as real)] == [LetToken, Var("x"), Sym(Assign, '='), Num(5.0), Var("x"), Sym(Plus, '+'), Num(1.0)];
  }

  /** `let x = 5 x + 1`: the declaration binds `x` before the sum reads it;
      the sum is the root, and evaluating it prints nothing. */
  lemma DeclarationThenUseLine(text: string, arith: Arith, fmt: real -> string)
    requires Spells(text, "let x = 5 x + 1")
    ensures var ts := [LetToken, Var("x"), Sym(Assign, '='), Num(5.0), Var("x"), Sym(Plus, '+'), Num(1.0)];
      Interpretation(text, map[], arith, fmt) == Effect(map["x" := 5.0], TokenLines(ts, fmt))
  {
    var ts := [LetToken, Var("x"), Sym(Assign, '='), Num(5.0), Var("x"), Sym(Plus, '+'), Num(1.0)];
    LexDeclarationThenUse(text);
    RespondDeclarationThenUse(ts, arith, fmt);
    CleanLine(text, ts, map[], arith, fmt);
    assert TokenLines(ts, fmt) + [] == TokenLines(ts, fmt);
  }

  lemma RespondDeclarationThenUse(ts: seq<Token>, arith: Arith, fmt: real -> string)
    requires ts == [LetToken, Var("x"), Sym(Assign, '='), Num(5.0), Var("x"), Sym(Plus, '+'), Num(1.0)]
    ensures Respond(ts, map[], arith, fmt) == Effect(map["x" := 5.0], [])
  {
    DeclarationThenUse(arith);
    BinaryValue(Number(5.0), Number(1.0), '+', arith);
    assert EvalEvents(Eval(Binary(Number(5.0), Number(1.0), '+'), arith)) == [];
  }

  /** `let x = 5 print y` is LET, `x`, ASSIGN, 5, PRINT, `y`. */
  lemma LexBindingThenFailure(text: string)
    requires Spells(text, "let x = 5 print y")
    ensures Lex(text) == State(17, [LetToken, Var("x"), Sym(Assign, '='), Num(5.0), PrintToken, Var("y")], [])
  {
    assert text[0] == 'l' && text[1] == 'e' && text[2] == 't' && text[3] == ' ' && text[4] == 'x';
    assert text[5] == ' ' && text[6] == '=' && text[7] == ' ' && text[8] == '5' && text[9] == ' ';
    assert text[10] == 'p' && text[11] == 'r' && text[12] == 'i' && text[13] == 'n' && text[14] == 't';
    assert text[15] == ' ' && text[16] == 'y';
    LetXStep(text);
    LexFiveAfterLet(text);
    LexPrintAt10(text);
    LexYAt16(text);
  }

  lemma LexPrintAt10(text: string)
    requires |text| > 15 && text[9] == ' ' && text[10] == 'p' && text[11] == 'r' && text[12] == 'i'
    requires text[13] == 'n' && text[14] == 't' && text[15] == ' '
    ensures LexFrom(text, State(9, [LetToken, Var("x"), Sym(Assign, '='), Num(5.0)], []))
      == LexFrom(text, State(15, [LetToken, Var("x"), Sym(Assign, '='), Num(5.0), PrintToken], []))
  {
    var ts := [LetToken, Var("x"), Sym(Assign, '='), Num(5.0)];
    OneSpace(text, 9);
    assert text[10..15] == "print";
    WordStep(text, State(9, ts, []), 10, 15);
    assert ts + [PrintToken] == [LetToken, Var("x"), Sym(Assign, '='), Num(5.0), PrintToken];
  }

  lemma LexYAt16(text: string)
    requires |text| == 17 && text[15] == ' ' && text[16] == 'y'
    ensures LexFrom(text, State(15, [LetToken, Var("x"), Sym(Assign, '='), Num(5.0), PrintToken], []))
      == State(17, [LetToken, Var("x"), Sym(Assign, '='), Num(5.0), PrintToken, Var("y")], [])
  {
    var ts := [LetToken, Var("x"), Sym(Assign, '='), Num(5.0), PrintToken];
    OneSpace(text, 15);
    assert text[16..17] == "y";
    WordStep(text, State(15, ts, []), 16, 17);
    assert ts + [Var("y")] == [LetToken, Var("x"), Sym(Assign, '='), Num(5.0), PrintToken, Var("y")];
  }

  /** The statements of `let x = 5 print y` with no bindings: the
      declaration binds `x`, then `y` is unbound and the print throws. */
  lemma BindThenFail(ts: seq<Token>, arith: Arith, fmt: real -> string)
    requires ts == [LetToken, Var("x"), Sym(Assign, '='), Num(5.0), PrintToken, Var("y")]
    ensures ParseProgram(ts, map[], arith) == Aborted(map["x" := 5.0], UndefinedVariable("y"))
    ensures Respond(ts, map[], arith, fmt) == Effect(map["x" := 5.0], [Failure("Undefined variable: y")])
  {
    var env1 := map["x" := 5.0];
    DeclareFive(ts, arith);
    PrintUnbound(ts, arith);
    assert ParseFrom(ts, 4, env1, arith, Some(NoOp)) == Aborted(env1, UndefinedVariable("y"));
    assert Message(UndefinedVariable("y")) == "Undefined variable: y";
  }

  lemma DeclareFive(ts: seq<Token>, arith: Arith)
    requires ts == [LetToken, Var("x"), Sym(Assign, '='), Num(5.0), PrintToken, Var("y")]
    ensures Statement(ts, 0, map[], arith) == Stmt(map["x" := 5.0], Ok(NoOp, 4))
  {
    var env: Bindings := map[];
    FiveAfterAssign(ts);
    assert Eval(Number(5.0), arith).outcome == Returned(5.0);
    assert Eat(ts, 0, Let) == Some(1) && Eat(ts, 1, Variable) == Some(2) && Eat(ts, 2, Assign) == Some(3);
    assert Declaration(ts, 0, env, arith) == Stmt(map["x" := 5.0], Ok(NoOp, 4));
  }

  lemma FiveAfterAssign(ts: seq<Token>)
    requires ts == [LetToken, Var("x"), Sym(Assign, '='), Num(5.0), PrintToken, Var("y")]
    ensures Expression(ts, 3, map[]) == Ok(Number(5.0), 4)
  {
    NumberTerm(ts, 3, map[], 5.0);
  }

  lemma PrintUnbound(ts: seq<Token>, arith: Arith)
    requires ts == [LetToken, Var("x"), Sym(Assign, '='), Num(5.0), PrintToken, Var("y")]
    ensures Statement(ts, 4, map["x" := 5.0], arith) == Stmt(map["x" := 5.0], Fail(UndefinedVariable("y")))
  {
    var env1 := map["x" := 5.0];
    assert "y" !in env1;
    assert Factor(ts, 5, env1) == Fail(UndefinedVariable("y"));
    assert Term(ts, 5, env1) == Fail(UndefinedVariable("y"));
    assert Expression(ts, 5, env1) == Fail(UndefinedVariable("y"));
  }

  /** `let x = 5 print y` with no bindings: the binding the declaration made
      stays in the map after the print statement throws, and the line
      reports exactly one exception, last. */
  lemma BindingBeforeFailureStays(text: string, arith: Arith, fmt: real -> string)
    requires Spells(text, "let x = 5 print y")
    ensures var ts := [LetToken, Var("x"), Sym(Assign, '='), Num(5.0), PrintToken, Var("y")];
      var r := Interpretation(text, map[], arith, fmt);
      && r == Effect(map["x" := 5.0], TokenLines(ts, fmt) + [Failure("Undefined variable: y")])
      && FailureCount(r.events) == 1
  {
    var ts := [LetToken, Var("x"), Sym(Assign, '='), Num(5.0), PrintToken, Var("y")];
    LexBindingThenFailure(text);
    BindThenFail(ts, arith, fmt);
    CleanLine(text, ts, map[], arith, fmt);
    NoFailureIn(TokenLines(ts, fmt));
    FailureCountAppend(TokenLines(ts, fmt), [Failure("Undefined variable: y")]);
  }
}
