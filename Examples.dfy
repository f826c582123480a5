/** Worked inputs of the interpreter, each stated as what the lexer, the
    parser or `evaluate` gives for it. */
module Examples {
  import opened Decimal
  import opened Tokens
  import opened Lexer
  import opened Nodes
  import opened Grammar
  import opened LexerFacts
  import opened Environment

  function Num(v: real): Token { Token(Integer, DoubleVal(v)) }

  function Sym(k: TokenType, c: char): Token { Token(k, CharVal(c)) }

  /** `5-3`: a `-` after a number and before a digit is a sign, so the
      line is two numbers and no operator. */
  lemma MinusAfterNumberIsASign()
    ensures Lex("5-3").tokens == [Num(5.0), Num(-3.0)]
    ensures Lex("5-3").reports == []
  {
    var text := "5-3";
    var s0 := State(0, [], []);
    var s1 := State(1, [Num(5.0)], []);
    var s2 := State(3, [Num(5.0), Num(-3.0)], []);
    assert Lex(text) == LexFrom(text, s0);
    LexFromUnfold(text, s0);
    assert SkipSpaces(text, 0) == 0;
    FirstNumber();
    LexFromUnfold(text, s1);
    assert SkipSpaces(text, 1) == 1;
    SignedNumber();
    assert LexFrom(text, s2) == s2;
  }

  lemma FirstNumber()
    ensures Dispatch("5-3", State(0, [], [])) == State(1, [Num(5.0)], [])
  {
    var text := "5-3";
    var i, negative := DispatchNumber(text, State(0, [], []));
    var scan := DigitAt(text, 0);
    assert NumberValue(text, 0, false) == 5.0;
    assert NumberToken(5.0) == Num(5.0);
  }

  lemma SignedNumber()
    ensures Dispatch("5-3", State(1, [Num(5.0)], [])) == State(3, [Num(5.0), Num(-3.0)], [])
  {
    var text := "5-3";
    assert At(text, 1) == '-' && At(text, 2) == '3' && !MinusFollows(Integer);
    assert !MinusIsOperator(text, 1, [Num(5.0)]);
    var i, negative := DispatchNumber(text, State(1, [Num(5.0)], []));
    var scan := DigitAt(text, 2);
    assert NumberValue(text, 2, true) == -3.0;
    assert NumberToken(-3.0) == Num(-3.0);
  }

  /** A lone digit followed by a character that continues no numeral. */
  lemma DigitAt(text: string, i: nat) returns (scan: Scan)
    requires i < |text| && IsDigit(text[i]) && (i + 1 == |text| || (!IsDigit(text[i + 1]) && text[i + 1] != '.'))
    ensures scan == ScanNumeral(text, i, false) == Scan([text[i]], i + 1, [])
    ensures NumberValue(text, i, false) == DigitValue(text[i]) as real
    ensures NumberValue(text, i, true) == -(DigitValue(text[i]) as real)
  {
    assert ScanNumeral(text, i + 1, false) == Scan([], i + 1, []);
    scan := ScanNumeral(text, i, false);
    assert DotIndex([text[i]]) == 1;
    assert DigitsValue([text[i]]) == DigitValue(text[i]) by {
      assert [text[i]][..0] == [];
    }
  }

  /** A number token is a whole factor. */
  lemma NumberFactor(ts: seq<Token>, p: nat, env: Bindings, v: real)
    requires p < |ts| && ts[p] == Num(v)
    ensures Factor(ts, p, env) == Ok(Number(v), p + 1)
  {
  }

  /** A number token not followed by `*`, `/` or `^` is a whole term. */
  lemma NumberTerm(ts: seq<Token>, p: nat, env: Bindings, v: real)
    requires p < |ts| && ts[p] == Num(v) && !TermOpAt(ts, p + 1)
    ensures Term(ts, p, env) == Ok(Number(v), p + 1)
  {
    NumberFactor(ts, p, env, v);
    assert TermLoop(ts, p + 1, env, Number(v)) == Ok(Number(v), p + 1);
  }

  /** `3 + 2 * 4`: `*` binds tighter than `+`, so the value is 11. */
  lemma ProductBindsTighter(arith: Arith)
    ensures var r := Expression([Num(3.0), Sym(Plus, '+'), Num(2.0), Sym(Mult, '*'), Num(4.0)], 0, map[]);
      && r == Ok(Binary(Number(3.0), Binary(Number(2.0), Number(4.0), '*'), '+'), 5)
      && Eval(r.node, arith) == Evaluation([], Returned(11.0))
  {
    var ts := [Num(3.0), Sym(Plus, '+'), Num(2.0), Sym(Mult, '*'), Num(4.0)];
    var env: Bindings := map[];
    var product := Binary(Number(2.0), Number(4.0), '*');
    var sum := Binary(Number(3.0), product, '+');
    NumberTerm(ts, 0, env, 3.0);
    NumberFactor(ts, 2, env, 2.0);
    NumberFactor(ts, 4, env, 4.0);
    assert TermLoop(ts, 5, env, product) == Ok(product, 5);
    assert TermLoop(ts, 3, env, Number(2.0)) == Ok(product, 5);
    assert Term(ts, 2, env) == Ok(product, 5);
    assert ExprLoop(ts, 5, env, sum) == Ok(sum, 5);
    assert ExprLoop(ts, 1, env, Number(3.0)) == Ok(sum, 5);
    BinaryValue(Number(2.0), Number(4.0), '*', arith);
    BinaryValue(Number(3.0), product, '+', arith);
  }

  /** `2 ^ 2 ^ 3`: `^` is one of the term operators and groups to the left. */
  lemma PowerGroupsLeft()
    ensures Expression([Num(2.0), Sym(Exponent, '^'), Num(2.0), Sym(Exponent, '^'), Num(3.0)], 0, map[])
      == Ok(Binary(Binary(Number(2.0), Number(2.0), '^'), Number(3.0), '^'), 5)
  {
    var ts := [Num(2.0), Sym(Exponent, '^'), Num(2.0), Sym(Exponent, '^'), Num(3.0)];
    var env: Bindings := map[];
    var inner := Binary(Number(2.0), Number(2.0), '^');
    var outer := Binary(inner, Number(3.0), '^');
    NumberFactor(ts, 0, env, 2.0);
    NumberFactor(ts, 2, env, 2.0);
    NumberFactor(ts, 4, env, 3.0);
    assert TermLoop(ts, 5, env, outer) == Ok(outer, 5);
    assert TermLoop(ts, 3, env, inner) == Ok(outer, 5);
    assert TermLoop(ts, 1, env, Number(2.0)) == Ok(outer, 5);
    assert ExprLoop(ts, 5, env, outer) == Ok(outer, 5);
  }

  /** `1 < 2 + 3`: the comparison operators share the loosest level with `+`,
      so the line compares 1 with 2 and adds 3 to the result, giving 4. */
  lemma ComparisonSharesLevelWithSum(arith: Arith)
    ensures var r := Expression([Num(1.0), Sym(LessThan, '<'), Num(2.0), Sym(Plus, '+'), Num(3.0)], 0, map[]);
      && r == Ok(Binary(Relational(Number(1.0), Number(2.0), '<'), Number(3.0), '+'), 5)
      && Eval(r.node, arith) == Evaluation([], Returned(4.0))
  {
    var ts := [Num(1.0), Sym(LessThan, '<'), Num(2.0), Sym(Plus, '+'), Num(3.0)];
    var env: Bindings := map[];
    var less := Relational(Number(1.0), Number(2.0), '<');
    var sum := Binary(less, Number(3.0), '+');
    NumberTerm(ts, 0, env, 1.0);
    NumberTerm(ts, 2, env, 2.0);
    NumberTerm(ts, 4, env, 3.0);
    assert ExprLoop(ts, 5, env, sum) == Ok(sum, 5);
    assert ExprLoop(ts, 3, env, less) == Ok(sum, 5);
    assert ExprLoop(ts, 1, env, Number(1.0)) == Ok(sum, 5);
    RelationalValue(Number(1.0), Number(2.0), '<', arith);
    BinaryValue(less, Number(3.0), '+', arith);
  }

  /** `-5 + 3`: a leading `-` is the MINUS operator, which no factor starts
      with, so the line throws from `parseFactor`. */
  lemma LeadingMinusFails(arith: Arith)
    ensures ParseProgram([Sym(Minus, '-'), Num(5.0), Sym(Plus, '+'), Num(3.0)], map[], arith)
      == Aborted(map[], UnexpectedInFactor(Some(Sym(Minus, '-'))))
  {
  }

  /** `print y` with `y` unbound throws, binding nothing. */
  lemma UnboundVariableFails(arith: Arith)
    ensures ParseProgram([Token(TokenType.Print, CStringVal("print")), Token(Variable, StringVal("y"))], map[], arith)
      == Aborted(map[], UndefinedVariable("y"))
  {
    var ts := [Token(TokenType.Print, CStringVal("print")), Token(Variable, StringVal("y"))];
    var env: Bindings := map[];
    assert "y" !in env;
    assert Factor(ts, 1, env) == Fail(UndefinedVariable("y"));
    assert Expression(ts, 1, env) == Fail(UndefinedVariable("y"));
    assert Statement(ts, 0, env, arith) == Stmt(env, Fail(UndefinedVariable("y")));
  }

  /** `let x = 1` when `x` is bound throws and keeps the old value. */
  lemma RedeclarationFails(arith: Arith)
    ensures var ts := [Token(Let, CStringVal("LET")), Token(Variable, StringVal("x")), Sym(Assign, '='), Num(1.0)];
      ParseProgram(ts, map["x" := 5.0], arith) == Aborted(map["x" := 5.0], Redeclaration("x"))
  {
  }

  /** `let x = 5 x + 1` on one line: the declaration binds `x`, then the
      expression reads it, and the root is the last statement's node. */
  lemma DeclarationThenUse(arith: Arith)
    ensures var ts := [Token(Let, CStringVal("LET")), Token(Variable, StringVal("x")), Sym(Assign, '='), Num(5.0),
                       Token(Variable, StringVal("x")), Sym(Plus, '+'), Num(1.0)];
      ParseProgram(ts, map[], arith) == Done(map["x" := 5.0], Some(Binary(Number(5.0), Number(1.0), '+')))
  {
    var ts := [Token(Let, CStringVal("LET")), Token(Variable, StringVal("x")), Sym(Assign, '='), Num(5.0),
               Token(Variable, StringVal("x")), Sym(Plus, '+'), Num(1.0)];
    var env1 := map["x" := 5.0];
    var sum := Binary(Number(5.0), Number(1.0), '+');
    DeclareX(ts, arith);
    UseX(ts, arith);
    assert ParseFrom(ts, 7, env1, arith, Some(sum)) == Done(env1, Some(sum));
    assert ParseFrom(ts, 4, env1, arith, Some(NoOp)) == Done(env1, Some(sum));
  }

  lemma DeclareX(ts: seq<Token>, arith: Arith)
    requires ts == [Token(Let, CStringVal("LET")), Token(Variable, StringVal("x")), Sym(Assign, '='), Num(5.0),
                    Token(Variable, StringVal("x")), Sym(Plus, '+'), Num(1.0)]
    ensures Statement(ts, 0, map[], arith) == Stmt(map["x" := 5.0], Ok(NoOp, 4))
  {
    var env: Bindings := map[];
    NumberTerm(ts, 3, env, 5.0);
    assert Expression(ts, 3, env) == Ok(Number(5.0), 4);
    assert Eat(ts, 0, Let) == Some(1) && Eat(ts, 1, Variable) == Some(2) && Eat(ts, 2, Assign) == Some(3);
    assert Declaration(ts, 0, env, arith) == Stmt(map["x" := 5.0], Ok(NoOp, 4));
  }

  lemma UseX(ts: seq<Token>, arith: Arith)
    requires ts == [Token(Let, CStringVal("LET")), Token(Variable, StringVal("x")), Sym(Assign, '='), Num(5.0),
                    Token(Variable, StringVal("x")), Sym(Plus, '+'), Num(1.0)]
    ensures Statement(ts, 4, map["x" := 5.0], arith) == Stmt(map["x" := 5.0], Ok(Binary(Number(5.0), Number(1.0), '+'), 7))
  {
    var env1 := map["x" := 5.0];
    var sum := Binary(Number(5.0), Number(1.0), '+');
    assert Factor(ts, 4, env1) == Ok(Number(5.0), 5);
    assert Term(ts, 4, env1) == Ok(Number(5.0), 5);
    NumberTerm(ts, 6, env1, 1.0);
    assert ExprLoop(ts, 7, env1, sum) == Ok(sum, 7);
    assert Expression(ts, 4, env1) == Ok(sum, 7);
  }

  /** `==` is one EQEQ token. */
  lemma DoubleEqualsIsOneToken()
    ensures Lex("==").tokens == [Sym(EqEq, '=')]
  {
    EqualsRun(2);
    assert Equals(2) == "==";
  }
}
