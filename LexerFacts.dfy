/** The decision table of `Tokenizer::tokenize`, stated rule by rule against
    the functions of module Lexer, and what holds of every token list the
    lexer produces. */
module LexerFacts {
  import opened Decimal
  import opened Tokens
  import opened Lexer

  /** The kind each one-character operator stands for. */
  function SymbolKind(c: char): Option<TokenType>
  {
    match c
    case '^' => Some(Exponent)
    case '+' => Some(Plus)
    case '/' => Some(Divide)
    case '*' => Some(Mult)
    case '(' => Some(LParen)
    case ')' => Some(RParen)
    case _ => None
  }

  /** Distinct operator characters stand for distinct kinds. */
  lemma SymbolKindInjective(c: char, d: char)
    requires SymbolKind(c).Some? && SymbolKind(c) == SymbolKind(d)
    ensures c == d
  {
  }

  /** `^ + / * ( )` each push their one token, carrying the character, and
      consume exactly that character. */
  lemma SymbolRule(text: string, st: State)
    requires st.pos < |text| && SymbolKind(text[st.pos]).Some?
    ensures Dispatch(text, st)
      == State(st.pos + 1, st.tokens + [Token(SymbolKind(text[st.pos]).value, CharVal(text[st.pos]))], st.reports)
  {
  }

  /** The `-` rule: the MINUS operator exactly when the token list is empty,
      or no digit follows, or the previous token is `(`, `+`, `-`, `*` or
      `/`; otherwise one negative number token for the numeral after it. */
  lemma MinusRule(text: string, st: State)
    requires st.pos < |text| && text[st.pos] == '-'
    ensures var r := Dispatch(text, st);
      && |r.tokens| == |st.tokens| + 1
      && (r.tokens[|st.tokens|].kind == Minus <==> MinusIsOperator(text, st.pos, st.tokens))
      && (MinusIsOperator(text, st.pos, st.tokens) ==>
            r == State(st.pos + 1, st.tokens + [Token(Minus, CharVal('-'))], st.reports))
      && (!MinusIsOperator(text, st.pos, st.tokens) ==>
            && st.pos + 1 < |text| && IsDigit(text[st.pos + 1])
            && r.tokens[|st.tokens|] == NumberToken(-NumberValue(text, st.pos + 1, false))
            && r.pos == ScanNumeral(text, st.pos + 1, false).end)
  {
    if MinusIsOperator(text, st.pos, st.tokens) {
      MinusOperator(text, st);
    } else {
      var t := NegativeNumber(text, st);
      assert t.kind != Minus;
    }
  }

  lemma MinusOperator(text: string, st: State)
    requires st.pos < |text| && text[st.pos] == '-' && MinusIsOperator(text, st.pos, st.tokens)
    ensures Dispatch(text, st) == State(st.pos + 1, st.tokens + [Token(Minus, CharVal('-'))], st.reports)
  {
    assert At(text, st.pos) == '-' && !IsAlpha('-');
  }

  lemma NegativeNumber(text: string, st: State) returns (t: Token)
    requires st.pos < |text| && text[st.pos] == '-' && !MinusIsOperator(text, st.pos, st.tokens)
    ensures st.pos + 1 < |text| && IsDigit(text[st.pos + 1])
    ensures t == NumberToken(-NumberValue(text, st.pos + 1, false)) && (t.kind == Integer || t.kind == Float)
    ensures Dispatch(text, st).tokens == st.tokens + [t]
    ensures Dispatch(text, st).pos == ScanNumeral(text, st.pos + 1, false).end
  {
    assert At(text, st.pos) == '-' && !IsAlpha('-');
    var i, negative := DispatchNumber(text, st);
    assert i == st.pos + 1 && negative;
    NumberValueNonNegative(text, i);
    t := NumberToken(NumberValue(text, i, true));
    GetNumberPushes(text, i, true, st);
  }

  lemma GetNumberPushes(text: string, i: nat, negative: bool, st: State)
    requires i < |text| && IsDigit(text[i])
    ensures GetNumber(text, i, negative, st).tokens == st.tokens + [NumberToken(NumberValue(text, i, negative))]
    ensures GetNumber(text, i, negative, st).pos == ScanNumeral(text, i, false).end
  {
  }

  /** A numeral scan starting at a digit keeps a non-negative value. */
  lemma NumberValueNonNegative(text: string, i: nat)
    requires i < |text| && IsDigit(text[i])
    ensures NumberValue(text, i, false) >= 0.0
    ensures NumberValue(text, i, true) == -NumberValue(text, i, false)
  {
    ScanFromDigit(text, i);
  }

  /** `<=` and `>=` consume both characters and push one token; a lone `<`
      or `>` consumes one. The payloads swap the parser's tags: `<=` carries
      ',' and `>=` carries '.'. */
  lemma ComparisonRule(text: string, st: State)
    requires st.pos < |text| && (text[st.pos] == '<' || text[st.pos] == '>')
    ensures var r := Dispatch(text, st);
      var c := text[st.pos];
      var two := st.pos + 1 < |text| && text[st.pos + 1] == '=';
      && r.reports == st.reports
      && r.pos == st.pos + (if two then 2 else 1)
      && r.tokens == st.tokens + [
           if c == '<' then (if two then Token(LessThanEq, CharVal(',')) else Token(LessThan, CharVal('<')))
           else (if two then Token(GreaterThanEq, CharVal('.')) else Token(GreaterThan, CharVal('>')))]
  {
  }

  /** `=` pushes EQEQ only when another `=` follows, and consumes only
      itself either way; a lone `=` pushes nothing and reports nothing. */
  lemma EqualsRule(text: string, st: State)
    requires st.pos < |text| && text[st.pos] == '='
    ensures var two := st.pos + 1 < |text| && text[st.pos + 1] == '=';
      Dispatch(text, st) == State(st.pos + 1, st.tokens + (if two then [Token(EqEq, CharVal('='))] else []), st.reports)
  {
  }

  /** A word is a maximal alphanumeric run from a letter. `print` pushes
      PRINT, `if` pushes nothing, a word other than `let` pushes a VARIABLE
      holding it; the cursor ends just past the word. */
  lemma WordRule(text: string, st: State)
    requires st.pos < |text| && IsAlpha(text[st.pos])
    ensures var word := GetWord(text, st.pos).0;
      var q := GetWord(text, st.pos).1;
      var r := Dispatch(text, st);
      && st.pos < q && word == text[st.pos..q] && (q == |text| || !IsAlnum(text[q]))
      && (word == "print" ==> r == State(q, st.tokens + [Token(Print, CStringVal("print"))], st.reports))
      && (word == "if" ==> r == State(q, st.tokens, st.reports))
      && (word != "let" && word != "print" && word != "if" ==>
            r == State(q, st.tokens + [Token(Variable, StringVal(word))], st.reports))
  {
  }

  /** `let` pushes LET and a VARIABLE holding the next word (possibly empty,
      after spaces); then ASSIGN, consuming the `=`, exactly when `=` comes
      next after spaces, and otherwise a report and no ASSIGN. */
  lemma LetRule(text: string, st: State)
    requires st.pos < |text| && GetWord(text, st.pos).0 == "let"
    ensures var q := GetWord(text, st.pos).1;
      var name := GetWord(text, SkipSpaces(text, q)).0;
      var p2 := GetWord(text, SkipSpaces(text, q)).1;
      var p3 := SkipSpaces(text, p2);
      var hasAssign := p3 < |text| && text[p3] == '=';
      var r := Dispatch(text, st);
      && name == text[SkipSpaces(text, q)..p2]
      && r.tokens[..|st.tokens| + 2] == st.tokens + [Token(Let, CStringVal("LET")), Token(Variable, StringVal(name))]
      && (hasAssign <==> |r.tokens| == |st.tokens| + 3)
      && (hasAssign ==> r.tokens[|st.tokens| + 2] == Token(Assign, CharVal('=')) && r.pos == p3 + 1 && r.reports == st.reports)
      && (!hasAssign ==> |r.tokens| == |st.tokens| + 2 && r.pos == p3 && r.reports == st.reports + [Report(ExpectedAssign, p3)])
  {
    assert IsAlpha(text[st.pos]);
    var q := GetWord(text, st.pos).1;
    var name := GetWord(text, SkipSpaces(text, q)).0;
    var toks := st.tokens + [Token(Let, CStringVal("LET")), Token(Variable, StringVal(name))];
    assert (toks + [Token(Assign, CharVal('='))])[..|st.tokens| + 2] == toks;
    assert toks[..|st.tokens| + 2] == toks;
  }

  /** A character no branch handles is reported and skipped: no token, and
      lexing goes on with the next character. A quote is skipped silently. */
  lemma UnknownCharacterRule(text: string, st: State)
    requires st.pos <= |text|
    requires var c := At(text, st.pos);
      !IsAlpha(c) && !IsDigit(c) && c != '-' && SymbolKind(c).None? && c != '=' && c != '<' && c != '>' && c != ' '
    ensures var c := At(text, st.pos);
      Dispatch(text, st) == State(st.pos + 1, st.tokens,
                                  st.reports + (if c == '\'' then [] else [Report(UnknownToken(c), st.pos)]))
  {
  }

  /** Trailing whitespace makes the last iteration meet the end sentinel,
      which is reported as an unknown character. */
  lemma TrailingSpacesReportSentinel(text: string, st: State)
    requires st.pos < |text| && SkipSpaces(text, st.pos) == |text|
    ensures Step(text, st) == State(|text| + 1, st.tokens, st.reports + [Report(UnknownToken(Sentinel), |text|)])
  {
    var at := st.(pos := |text|);
    assert Step(text, st) == Dispatch(text, at);
    assert At(text, |text|) == Sentinel;
    assert Dispatch(text, at) == State(|text| + 1, st.tokens, st.reports + [Report(UnknownToken(Sentinel), |text|)]);
  }

  /** `a` is `b` with `base` reported before. */
  predicate Rebased(a: State, b: State, base: seq<Report>)
  {
    a.pos == b.pos && a.tokens == b.tokens && a.reports == base + b.reports
  }

  /** Reports never steer the lexer: one iteration from the same cursor and
      tokens reaches the same cursor and tokens whatever was reported
      before, and appends the same reports. */
  lemma DispatchRebased(text: string, p: nat, tokens: seq<Token>, rs: seq<Report>, base: seq<Report>)
    requires p <= |text|
    ensures Rebased(Dispatch(text, State(p, tokens, base + rs)), Dispatch(text, State(p, tokens, rs)), base)
  {
    var c := At(text, p);
    if IsAlpha(c) {
      var w := GetWord(text, p);
      HandleWordRebased(text, w.0, w.1, tokens, rs, base);
    } else if c == '-' && MinusIsOperator(text, p, tokens) {
    } else if c == '-' || IsDigit(c) {
      var i, negative := DispatchNumber(text, State(p, tokens, rs));
      var _, _ := DispatchNumber(text, State(p, tokens, base + rs));
      GetNumberRebased(text, i, negative, p, tokens, rs, base);
    } else {
      OperatorRebased(text, p, tokens, rs, base);
    }
  }

  lemma GetNumberRebased(text: string, i: nat, negative: bool, p: nat, tokens: seq<Token>, rs: seq<Report>, base: seq<Report>)
    requires i < |text| && IsDigit(text[i])
    ensures Rebased(GetNumber(text, i, negative, State(p, tokens, base + rs)), GetNumber(text, i, negative, State(p, tokens, rs)), base)
  {
    var more := InvalidReports(ScanNumeral(text, i, false).invalid);
    assert base + rs + more == base + (rs + more);
  }

  lemma OperatorRebased(text: string, p: nat, tokens: seq<Token>, rs: seq<Report>, base: seq<Report>)
    requires p <= |text|
    requires var c := At(text, p); !IsAlpha(c) && c != '-' && !IsDigit(c)
    ensures Rebased(Dispatch(text, State(p, tokens, base + rs)), Dispatch(text, State(p, tokens, rs)), base)
  {
    var c := At(text, p);
    var more := if c != ' ' then [Report(UnknownToken(c), p)] else [];
    assert base + rs + more == base + (rs + more);
  }

  lemma HandleWordRebased(text: string, word: string, q: nat, tokens: seq<Token>, rs: seq<Report>, base: seq<Report>)
    requires q <= |text|
    ensures Rebased(HandleWord(text, word, State(q, tokens, base + rs)), HandleWord(text, word, State(q, tokens, rs)), base)
  {
    if word == "let" {
      var p3 := SkipSpaces(text, GetWord(text, SkipSpaces(text, q)).1);
      assert base + rs + [Report(ExpectedAssign, p3)] == base + (rs + [Report(ExpectedAssign, p3)]);
    }
  }

  lemma StepRebased(text: string, a: State, b: State, base: seq<Report>)
    requires Rebased(a, b, base) && a.pos < |text|
    ensures Rebased(Step(text, a), Step(text, b), base)
  {
    DispatchRebased(text, SkipSpaces(text, a.pos), a.tokens, b.reports, base);
    assert a.(pos := SkipSpaces(text, a.pos)) == State(SkipSpaces(text, a.pos), a.tokens, base + b.reports);
    assert b.(pos := SkipSpaces(text, b.pos)) == State(SkipSpaces(text, a.pos), a.tokens, b.reports);
  }

  lemma {:induction false} LexRebased(text: string, a: State, b: State, base: seq<Report>)
    requires Rebased(a, b, base)
    ensures Rebased(LexFrom(text, a), LexFrom(text, b), base)
    decreases |text| - a.pos
  {
    if a.pos < |text| {
      StepRebased(text, a, b, base);
      LexRebased(text, Step(text, a), Step(text, b), base);
    }
  }

  /** Errors do not stop lexing: a run's cursor and tokens are those of the
      same run with nothing reported before, and its reports only extend
      the earlier ones. */
  lemma LexIgnoresReports(text: string, p: nat, tokens: seq<Token>, reports: seq<Report>)
    ensures var d := LexFrom(text, State(p, tokens, []));
      LexFrom(text, State(p, tokens, reports)) == State(d.pos, d.tokens, reports + d.reports)
  {
    assert reports + [] == reports;
    LexRebased(text, State(p, tokens, reports), State(p, tokens, []), reports);
  }

  /** Every iteration moves the cursor forward and only appends: it is the
      measure `text.size() - position` that makes `tokenize` terminate. */
  lemma StepProgresses(text: string, st: State)
    requires st.pos < |text|
    ensures var r := Step(text, st);
      && |text| - r.pos < |text| - st.pos
      && r.tokens[..|st.tokens|] == st.tokens
      && r.reports[..|st.reports|] == st.reports
  {
  }

  /** What a token the lexer pushes looks like: numbers carry a double,
      variables a string, and no token is AND, OR, CHAR, IF, UNARY_OP or EoF. */
  predicate Lexical(t: Token)
  {
    && !(t.kind.And? || t.kind.Or? || t.kind.Char? || t.kind.If? || t.kind.UnaryOp? || t.kind.EoF?)
    && ((t.kind == Integer || t.kind == Float) ==> t.value.DoubleVal?)
    && (t.kind == Variable ==> t.value.StringVal?)
  }

  /** A token list the lexer can produce: lexical tokens, and every LET
      directly followed by a VARIABLE. */
  predicate Lexed(ts: seq<Token>)
  {
    && (forall i :: 0 <= i < |ts| ==> Lexical(ts[i]))
    && (forall i :: 0 <= i < |ts| && ts[i].kind == Let ==> i + 1 < |ts| && ts[i + 1].kind == Variable)
  }

  lemma LexedAppend(ts: seq<Token>, extra: seq<Token>)
    requires Lexed(ts) && Lexed(extra)
    ensures Lexed(ts + extra)
  {
    var all := ts + extra;
    forall i | 0 <= i < |all| && all[i].kind == Let
      ensures i + 1 < |all| && all[i + 1].kind == Variable
    {
      if i < |ts| {
        assert all[i + 1] == ts[i + 1];
      } else {
        assert all[i] == extra[i - |ts|] && all[i + 1] == extra[i - |ts| + 1];
      }
    }
  }

  /** The tokens one iteration pushes form a `Lexed` list of their own. */
  lemma DispatchPushesLexed(text: string, st: State) returns (extra: seq<Token>)
    requires st.pos <= |text|
    ensures Dispatch(text, st).tokens == st.tokens + extra && Lexed(extra)
  {
    var p := st.pos;
    var c := At(text, p);
    if IsAlpha(c) {
      var w := GetWord(text, p);
      assert Dispatch(text, st) == HandleWord(text, w.0, State(w.1, st.tokens, st.reports));
      extra := HandleWordPushesLexed(text, w.0, State(w.1, st.tokens, st.reports));
    } else if c == '-' && MinusIsOperator(text, p, st.tokens) {
      extra := [Token(Minus, CharVal('-'))];
      assert Dispatch(text, st) == Push(st, p + 1, extra[0]);
    } else if c == '-' || IsDigit(c) {
      extra := NumberPushesLexed(text, st);
    } else {
      extra := OperatorPushesLexed(text, st);
    }
  }

  lemma NumberPushesLexed(text: string, st: State) returns (extra: seq<Token>)
    requires st.pos <= |text|
    requires var c := At(text, st.pos); !IsAlpha(c) && (c == '-' || IsDigit(c)) && !(c == '-' && MinusIsOperator(text, st.pos, st.tokens))
    ensures Dispatch(text, st).tokens == st.tokens + extra && Lexed(extra)
  {
    var i, negative := DispatchNumber(text, st);
    extra := [NumberToken(NumberValue(text, i, negative))];
  }

  lemma HandleWordPushesLexed(text: string, word: string, st: State) returns (extra: seq<Token>)
    requires st.pos <= |text|
    ensures HandleWord(text, word, st).tokens == st.tokens + extra && Lexed(extra)
  {
    if word == "let" {
      var name := GetWord(text, SkipSpaces(text, st.pos)).0;
      var pair := [Token(Let, CStringVal("LET")), Token(Variable, StringVal(name))];
      var r := HandleWord(text, word, st);
      extra := if |r.tokens| == |st.tokens| + 3 then pair + [Token(Assign, CharVal('='))] else pair;
      assert st.tokens + pair + [Token(Assign, CharVal('='))] == st.tokens + extra || r.tokens == st.tokens + pair;
    } else if word == "print" {
      extra := [Token(Print, CStringVal("print"))];
    } else if word == "if" {
      extra := [];
    } else {
      extra := [Token(Variable, StringVal(word))];
    }
  }

  lemma OperatorPushesLexed(text: string, st: State) returns (extra: seq<Token>)
    requires st.pos <= |text|
    requires var c := At(text, st.pos); !IsAlpha(c) && c != '-' && !IsDigit(c)
    ensures Dispatch(text, st).tokens == st.tokens + extra && Lexed(extra)
  {
    var r := Dispatch(text, st);
    extra := r.tokens[|st.tokens|..];
    assert r.tokens == st.tokens + extra;
    assert |extra| <= 1 && forall i :: 0 <= i < |extra| ==> extra[i].value.CharVal?;
  }

  lemma DispatchKeepsLexed(text: string, st: State)
    requires st.pos <= |text| && Lexed(st.tokens)
    ensures Lexed(Dispatch(text, st).tokens)
  {
    var extra := DispatchPushesLexed(text, st);
    LexedAppend(st.tokens, extra);
  }

  lemma {:induction false} LexFromKeepsLexed(text: string, st: State)
    requires Lexed(st.tokens)
    ensures Lexed(LexFrom(text, st).tokens)
    decreases |text| - st.pos
  {
    if st.pos < |text| {
      DispatchKeepsLexed(text, st.(pos := SkipSpaces(text, st.pos)));
      LexFromKeepsLexed(text, Step(text, st));
    }
  }

  /** Every token list the lexer produces is `Lexed`; in particular it
      never holds AND or OR, whose relational tags the evaluator rejects. */
  lemma LexIsLexed(text: string)
    ensures Lexed(Lex(text).tokens)
  {
    LexFromKeepsLexed(text, State(0, [], []));
  }

  /** `n` equals signs in a row. */
  function Equals(n: nat): (s: string)
    ensures |s| == n
  {
    if n == 0 then "" else Equals(n - 1) + "="
  }

  function EqEqs(n: nat): (ts: seq<Token>)
    ensures |ts| == n
  {
    if n == 0 then [] else EqEqs(n - 1) + [Token(EqEq, CharVal('='))]
  }

  lemma {:induction false} EqualsLength(n: nat)
    ensures |Equals(n)| == n && forall i :: 0 <= i < n ==> Equals(n)[i] == '='
  {
    if n > 0 {
      EqualsLength(n - 1);
    }
  }

  lemma {:induction false} EqualsRunFrom(n: nat, i: nat, tokens: seq<Token>)
    requires i < n
    ensures LexFrom(Equals(n), State(i, tokens, [])) == State(n, tokens + EqEqs(n - 1) [i..], [])
    decreases n - i
  {
    EqualsLength(n);
    EqEqsLength(n - 1);
    var text := Equals(n);
    var st := State(i, tokens, []);
    assert SkipSpaces(text, i) == i;
    LexFromUnfold(text, st);
    EqualsRule(text, st);
    var d := Dispatch(text, st);
    if i + 1 < n {
      assert d == State(i + 1, tokens + [Token(EqEq, CharVal('='))], []);
      EqualsRunFrom(n, i + 1, d.tokens);
      assert EqEqs(n - 1)[i..] == [Token(EqEq, CharVal('='))] + EqEqs(n - 1)[i + 1..];
      assert tokens + [Token(EqEq, CharVal('='))] + EqEqs(n - 1)[i + 1..] == tokens + EqEqs(n - 1)[i..];
    } else {
      assert d == State(n, tokens, []);
      assert EqEqs(n - 1)[i..] == [];
    }
  }

  lemma {:induction false} EqEqsLength(n: nat)
    ensures |EqEqs(n)| == n && forall i :: 0 <= i < n ==> EqEqs(n)[i] == Token(EqEq, CharVal('='))
  {
    if n > 0 {
      EqEqsLength(n - 1);
    }
  }

  /** Because the second `=` is not consumed, a run of `n` equals signs
      lexes to `n - 1` EQEQ tokens: `==` is one, `===` two. */
  lemma EqualsRun(n: nat)
    requires n > 0
    ensures Lex(Equals(n)).tokens == EqEqs(n - 1)
  {
    assert Lex(Equals(n)) == LexFrom(Equals(n), State(0, [], []));
    EqualsRunFrom(n, 0, []);
    EqEqsLength(n - 1);
    assert EqEqs(n - 1)[0..] == EqEqs(n - 1);
  }
}
