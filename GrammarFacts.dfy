/** What the parser functions of module Grammar promise: they invert a
    printer of expression trees (which pins down precedence and left
    associativity), declarations bind once, bindings persist, and the
    program's root is its last statement. */
module GrammarFacts {
  import opened Tokens
  import opened Nodes
  import opened Grammar
  import Lexer

  /** A node `parseExpression`'s loop builds: arithmetic at the loose level
      (`+`, `-`) or relational, `&` and `|` included. */
  predicate IsLoose(e: Node)
  {
    (e.Binary? && (e.op == '+' || e.op == '-'))
    || (e.Relational? && (IsRelationalTag(e.op) || e.op == '&' || e.op == '|'))
  }

  /** A node `parseTerm`'s loop builds: arithmetic at the tight level (`*`, `/`, `^`). */
  predicate IsTight(e: Node)
  {
    e.Binary? && (e.op == '*' || e.op == '/' || e.op == '^')
  }

  /** The token the lexer produces for an operator tag (the payloads are the
      lexer's, which the parser never reads). */
  function OperatorToken(e: Node): (t: Token)
    requires IsLoose(e) || IsTight(e)
    ensures IsLoose(e) ==> IsExprOp(t.kind) && ExprNode(t.kind, e.left, e.right) == e
    ensures IsTight(e) ==> IsTermOp(t.kind) && TermNode(t.kind, e.left, e.right) == e
  {
    match e.op
    case '+' => Token(Plus, CharVal('+'))
    case '-' => Token(Minus, CharVal('-'))
    case '*' => Token(Mult, CharVal('*'))
    case '/' => Token(Divide, CharVal('/'))
    case '^' => Token(Exponent, CharVal('^'))
    case '<' => Token(LessThan, CharVal('<'))
    case '>' => Token(GreaterThan, CharVal('>'))
    case '.' => Token(LessThanEq, CharVal(','))
    case ',' => Token(GreaterThanEq, CharVal('.'))
    case '=' => Token(EqEq, CharVal('='))
    case '&' => Token(And, CharVal('&'))
    case '|' => Token(Or, CharVal('|'))
  }

  /** The order in which one tree is printed at the three levels: each
      level either prints an operator of its own or hands the tree down,
      and a factor hands down only to the loose level. */
  function Rank(e: Node, level: nat): nat
    requires level < 3
  {
    if IsLoose(e) then (if level == 0 then 1 else if level == 1 then 3 else 2)
    else if IsTight(e) then (if level == 0 then 2 else if level == 1 then 1 else 3)
    else 3 - level
  }

  /** Tokens of an expression tree at the loose level: a loose root becomes
      its left side, the operator and its right side at the tight level. */
  function UnparseExpr(e: Node): seq<Token>
    decreases e, Rank(e, 0)
  {
    if IsLoose(e) then UnparseExpr(e.left) + [OperatorToken(e)] + UnparseTerm(e.right)
    else UnparseTerm(e)
  }

  /** Tokens at the tight level. */
  function UnparseTerm(e: Node): seq<Token>
    decreases e, Rank(e, 1)
  {
    if IsTight(e) then UnparseTerm(e.left) + [OperatorToken(e)] + UnparseFactor(e.right)
    else UnparseFactor(e)
  }

  /** Tokens of a factor: a number as the lexer tokenizes it, an operator
      node in parentheses. No expression method builds any other node, and
      none is printed. */
  function UnparseFactor(e: Node): seq<Token>
    decreases e, Rank(e, 2)
  {
    if e.Number? then [Lexer.NumberToken(e.value)]
    else if IsLoose(e) || IsTight(e) then [Token(LParen, CharVal('('))] + UnparseExpr(e) + [Token(RParen, CharVal(')'))]
    else []
  }

  /** `u` is found in `ts` at `p`, token by token. */
  predicate Found(ts: seq<Token>, p: nat, u: seq<Token>)
    ensures Found(ts, p, u) ==> p + |u| <= |ts|
    decreases |u|
  {
    if u == [] then p <= |ts| else p < |ts| && ts[p] == u[0] && Found(ts, p + 1, u[1..])
  }

  lemma {:induction false} FoundSplit(ts: seq<Token>, p: nat, a: seq<Token>, b: seq<Token>)
    requires Found(ts, p, a + b)
    ensures Found(ts, p, a) && Found(ts, p + |a|, b)
    decreases |a|
  {
    if a == [] {
      assert a + b == b;
    } else {
      assert (a + b)[0] == a[0] && (a + b)[1..] == a[1..] + b;
      FoundSplit(ts, p + 1, a[1..], b);
    }
  }

  /** A list found in three parts, the middle one a single token. */
  lemma AroundToken(ts: seq<Token>, p: nat, a: seq<Token>, t: Token, b: seq<Token>)
    requires Found(ts, p, a + [t] + b)
    ensures Found(ts, p, a) && p + |a| < |ts| && ts[p + |a|] == t && Found(ts, p + |a| + 1, b)
  {
    FoundSplit(ts, p, a + [t], b);
    FoundSplit(ts, p, a, [t]);
  }

  /** Every suffix of a list is found where it starts. */
  lemma {:induction false} FoundSuffix(ts: seq<Token>, p: nat)
    requires p <= |ts|
    ensures Found(ts, p, ts[p..])
    decreases |ts| - p
  {
    if p < |ts| {
      assert ts[p..][1..] == ts[p + 1..];
      FoundSuffix(ts, p + 1);
    }
  }

  /** No operator of either loop as the current token. */
  predicate Stops(ts: seq<Token>, p: nat)
  {
    !ExprOpAt(ts, p) && !TermOpAt(ts, p)
  }

  /** `parseFactor` from `p` builds `e` and ends at `q`. */
  predicate FactorReads(ts: seq<Token>, p: nat, q: nat, env: Bindings, e: Node)
  {
    p <= |ts| && Factor(ts, p, env) == Ok(e, q)
  }

  /** `parseTerm` from `p` ends as its loop does from `q` with `e` built. */
  predicate TermReads(ts: seq<Token>, p: nat, q: nat, env: Bindings, e: Node)
  {
    p <= |ts| && q <= |ts| && Term(ts, p, env) == TermLoop(ts, q, env, e)
  }

  /** `parseExpression` from `p` ends as its loop does from `q` with `e` built. */
  predicate ExprReads(ts: seq<Token>, p: nat, q: nat, env: Bindings, e: Node)
  {
    p <= |ts| && q <= |ts| && Expression(ts, p, env) == ExprLoop(ts, q, env, e)
  }

  /** `parseTerm`'s loop ends at a token that is not one of its operators. */
  lemma TermLoopStops(ts: seq<Token>, p: nat, env: Bindings, left: Node)
    requires p <= |ts| && !TermOpAt(ts, p)
    ensures TermLoop(ts, p, env, left) == Ok(left, p)
  {
  }

  /** An expression read up to a token that is no operator ends there. */
  lemma ReadsStop(ts: seq<Token>, p: nat, q: nat, env: Bindings, e: Node)
    requires !ExprOpAt(ts, q) && ExprReads(ts, p, q, env, e)
    ensures Expression(ts, p, env) == Ok(e, q)
  {
  }

  /** One turn of `parseTerm`'s loop after a term read up to the operator
      at `i`, over a factor that ends at `j`. */
  lemma TightStep(ts: seq<Token>, p: nat, i: nat, j: nat, env: Bindings, left: Node, right: Node, e: Node)
    requires TermOpAt(ts, i) && TermNode(ts[i].kind, left, right) == e
    requires TermReads(ts, p, i, env, left) && FactorReads(ts, i + 1, j, env, right)
    ensures TermReads(ts, p, j, env, e)
  {
    assert TermLoop(ts, i, env, left) == TermLoop(ts, j, env, e);
  }

  /** One turn of `parseExpression`'s loop after an expression read up to
      the operator at `i`, over a term that ends at `j`. */
  lemma LooseStep(ts: seq<Token>, p: nat, i: nat, j: nat, env: Bindings, left: Node, right: Node, e: Node)
    requires ExprOpAt(ts, i) && ExprNode(ts[i].kind, left, right) == e
    requires !TermOpAt(ts, j) && ExprReads(ts, p, i, env, left) && TermReads(ts, i + 1, j, env, right)
    ensures ExprReads(ts, p, j, env, e)
  {
    TermLoopStops(ts, j, env, right);
    assert ExprLoop(ts, i, env, left) == ExprLoop(ts, j, env, e);
  }

  /** A factor read up to `j` starts a term whose loop goes on from `j`. */
  lemma FactorIsTerm(ts: seq<Token>, p: nat, j: nat, env: Bindings, e: Node)
    requires FactorReads(ts, p, j, env, e)
    ensures TermReads(ts, p, j, env, e)
  {
  }

  /** A term read up to a token that is no operator of its level is an
      expression read up to there. */
  lemma TermIsExpr(ts: seq<Token>, p: nat, j: nat, env: Bindings, e: Node)
    requires !TermOpAt(ts, j) && TermReads(ts, p, j, env, e)
    ensures ExprReads(ts, p, j, env, e)
  {
    TermLoopStops(ts, j, env, e);
  }

  /** The number of tokens each printer gives. */
  function ExprWidth(e: Node): nat
    decreases e, Rank(e, 0)
  {
    if IsLoose(e) then ExprWidth(e.left) + 1 + TermWidth(e.right) else TermWidth(e)
  }

  function TermWidth(e: Node): nat
    decreases e, Rank(e, 1)
  {
    if IsTight(e) then TermWidth(e.left) + 1 + FactorWidth(e.right) else FactorWidth(e)
  }

  function FactorWidth(e: Node): nat
    decreases e, Rank(e, 2)
  {
    if e.Number? then 1 else if IsLoose(e) || IsTight(e) then ExprWidth(e) + 2 else 0
  }

  /** The tokens at `p` spell `e` as `UnparseExpr` prints it, stated part
      by part and only as far as the parser looks: the left side, an
      operator of the level that rebuilds the root, the right side. */
  predicate SpellsExpr(ts: seq<Token>, p: nat, e: Node)
    ensures SpellsExpr(ts, p, e) ==> p + ExprWidth(e) <= |ts|
    decreases e, Rank(e, 0)
  {
    if IsLoose(e) then
      var i := p + ExprWidth(e.left);
      SpellsExpr(ts, p, e.left) && ExprOpAt(ts, i) && ExprNode(ts[i].kind, e.left, e.right) == e
      && SpellsTerm(ts, i + 1, e.right)
    else SpellsTerm(ts, p, e)
  }

  predicate SpellsTerm(ts: seq<Token>, p: nat, e: Node)
    ensures SpellsTerm(ts, p, e) ==> p + TermWidth(e) <= |ts|
    decreases e, Rank(e, 1)
  {
    if IsTight(e) then
      var i := p + TermWidth(e.left);
      SpellsTerm(ts, p, e.left) && TermOpAt(ts, i) && TermNode(ts[i].kind, e.left, e.right) == e
      && SpellsFactor(ts, i + 1, e.right)
    else SpellsFactor(ts, p, e)
  }

  predicate SpellsFactor(ts: seq<Token>, p: nat, e: Node)
    ensures SpellsFactor(ts, p, e) ==> p + FactorWidth(e) <= |ts|
    decreases e, Rank(e, 2)
  {
    if e.Number? then p < |ts| && (ts[p].kind == Integer || ts[p].kind == Float) && ts[p].value == DoubleVal(e.value)
    else if IsLoose(e) || IsTight(e) then
      var q := p + 1 + ExprWidth(e);
      p < |ts| && ts[p].kind == LParen && SpellsExpr(ts, p + 1, e) && q < |ts| && ts[q].kind == RParen
    else false
  }

  /** The parts of a printed loose node found in a token list. */
  lemma LooseFound(e: Node, ts: seq<Token>, p: nat)
    requires IsExprTree(e) && IsLoose(e) && Found(ts, p, UnparseExpr(e))
    ensures IsExprTree(e.left) && IsExprTree(e.right)
    ensures Found(ts, p, UnparseExpr(e.left)) && Found(ts, p + |UnparseExpr(e.left)| + 1, UnparseTerm(e.right))
    ensures p + |UnparseExpr(e.left)| < |ts| && ts[p + |UnparseExpr(e.left)|] == OperatorToken(e)
  {
    AroundToken(ts, p, UnparseExpr(e.left), OperatorToken(e), UnparseTerm(e.right));
  }

  /** A loose node is spelled where its parts are. */
  lemma LooseSpells(e: Node, ts: seq<Token>, p: nat)
    requires IsLoose(e) && |UnparseExpr(e.left)| == ExprWidth(e.left) && |UnparseTerm(e.right)| == TermWidth(e.right)
    requires SpellsExpr(ts, p, e.left) && p + |UnparseExpr(e.left)| < |ts| && ts[p + |UnparseExpr(e.left)|] == OperatorToken(e)
    requires SpellsTerm(ts, p + |UnparseExpr(e.left)| + 1, e.right)
    ensures SpellsExpr(ts, p, e) && |UnparseExpr(e)| == ExprWidth(e)
  {
  }

  /** The parts of a printed tight node found in a token list. */
  lemma TightFound(e: Node, ts: seq<Token>, p: nat)
    requires IsExprTree(e) && IsTight(e) && Found(ts, p, UnparseTerm(e))
    ensures IsExprTree(e.left) && IsExprTree(e.right)
    ensures Found(ts, p, UnparseTerm(e.left)) && Found(ts, p + |UnparseTerm(e.left)| + 1, UnparseFactor(e.right))
    ensures p + |UnparseTerm(e.left)| < |ts| && ts[p + |UnparseTerm(e.left)|] == OperatorToken(e)
  {
    AroundToken(ts, p, UnparseTerm(e.left), OperatorToken(e), UnparseFactor(e.right));
  }

  /** A tight node is spelled where its parts are. */
  lemma TightSpells(e: Node, ts: seq<Token>, p: nat)
    requires IsTight(e) && |UnparseTerm(e.left)| == TermWidth(e.left) && |UnparseFactor(e.right)| == FactorWidth(e.right)
    requires SpellsTerm(ts, p, e.left) && p + |UnparseTerm(e.left)| < |ts| && ts[p + |UnparseTerm(e.left)|] == OperatorToken(e)
    requires SpellsFactor(ts, p + |UnparseTerm(e.left)| + 1, e.right)
    ensures SpellsTerm(ts, p, e) && |UnparseTerm(e)| == TermWidth(e)
  {
  }

  /** The parts of a printed parenthesised factor found in a token list. */
  lemma ParenFound(e: Node, ts: seq<Token>, p: nat)
    requires IsExprTree(e) && !e.Number? && Found(ts, p, UnparseFactor(e))
    ensures IsLoose(e) || IsTight(e)
    ensures Found(ts, p + 1, UnparseExpr(e))
    ensures p + 1 + |UnparseExpr(e)| < |ts| && ts[p].kind == LParen && ts[p + 1 + |UnparseExpr(e)|].kind == RParen
  {
    var open, inner, close := Token(LParen, CharVal('(')), UnparseExpr(e), Token(RParen, CharVal(')'));
    assert UnparseFactor(e) == [open] + inner + [close];
    FoundSplit(ts, p, [open] + inner, [close]);
    FoundSplit(ts, p, [open], inner);
  }

  /** A parenthesised factor is spelled where its parts are. */
  lemma ParenSpells(e: Node, ts: seq<Token>, p: nat)
    requires (IsLoose(e) || IsTight(e)) && |UnparseExpr(e)| == ExprWidth(e)
    requires SpellsExpr(ts, p + 1, e)
    requires p + 1 + |UnparseExpr(e)| < |ts| && ts[p].kind == LParen && ts[p + 1 + |UnparseExpr(e)|].kind == RParen
    ensures SpellsFactor(ts, p, e) && |UnparseFactor(e)| == FactorWidth(e)
  {
  }

  /** A node that is no loose one is printed, spelled and measured as a term. */
  lemma NotLoose(e: Node, ts: seq<Token>, p: nat)
    requires !IsLoose(e)
    ensures UnparseExpr(e) == UnparseTerm(e) && ExprWidth(e) == TermWidth(e)
    ensures SpellsTerm(ts, p, e) <==> SpellsExpr(ts, p, e)
  {
  }

  /** A node that is no tight one is printed, spelled and measured as a factor. */
  lemma NotTight(e: Node, ts: seq<Token>, p: nat)
    requires !IsTight(e)
    ensures UnparseTerm(e) == UnparseFactor(e) && TermWidth(e) == FactorWidth(e)
    ensures SpellsFactor(ts, p, e) <==> SpellsTerm(ts, p, e)
  {
  }

  /** A printed expression found in a token list is spelled there, and
      its width is its length. */
  lemma {:induction false} FoundSpellsExpr(e: Node, ts: seq<Token>, p: nat)
    requires IsExprTree(e) && Found(ts, p, UnparseExpr(e))
    ensures SpellsExpr(ts, p, e) && |UnparseExpr(e)| == ExprWidth(e)
    decreases e, Rank(e, 0)
  {
    if IsLoose(e) {
      LooseFound(e, ts, p);
      FoundSpellsExpr(e.left, ts, p);
      FoundSpellsTerm(e.right, ts, p + |UnparseExpr(e.left)| + 1);
      LooseSpells(e, ts, p);
    } else {
      NotLoose(e, ts, p);
      FoundSpellsTerm(e, ts, p);
    }
  }

  lemma {:induction false} FoundSpellsTerm(e: Node, ts: seq<Token>, p: nat)
    requires IsExprTree(e) && Found(ts, p, UnparseTerm(e))
    ensures SpellsTerm(ts, p, e) && |UnparseTerm(e)| == TermWidth(e)
    decreases e, Rank(e, 1)
  {
    if IsTight(e) {
      TightFound(e, ts, p);
      FoundSpellsTerm(e.left, ts, p);
      FoundSpellsFactor(e.right, ts, p + |UnparseTerm(e.left)| + 1);
      TightSpells(e, ts, p);
    } else {
      NotTight(e, ts, p);
      FoundSpellsFactor(e, ts, p);
    }
  }

  lemma {:induction false} FoundSpellsFactor(e: Node, ts: seq<Token>, p: nat)
    requires IsExprTree(e) && Found(ts, p, UnparseFactor(e))
    ensures SpellsFactor(ts, p, e) && |UnparseFactor(e)| == FactorWidth(e)
    decreases e, Rank(e, 2)
  {
    if !e.Number? {
      ParenFound(e, ts, p);
      FoundSpellsExpr(e, ts, p + 1);
      ParenSpells(e, ts, p);
    }
  }

  /** A parenthesised expression that parses and ends at `q`, before the
      closing parenthesis. */
  lemma ParenStep(ts: seq<Token>, p: nat, env: Bindings, e: Node, q: nat)
    requires p < |ts| && ts[p].kind == LParen && q < |ts| && ts[q].kind == RParen
    requires ExprReads(ts, p + 1, q, env, e)
    ensures FactorReads(ts, p, q + 1, env, e)
  {
    assert ExprLoop(ts, q, env, e) == Ok(e, q);
  }

  /** A spelled loose node: where its operator is, where it ends, and its
      parts spelled where the parser looks for them. */
  lemma LooseParts(e: Node, ts: seq<Token>, p: nat) returns (i: nat, j: nat)
    requires IsLoose(e) && SpellsExpr(ts, p, e)
    ensures i == p + ExprWidth(e.left) && j == i + 1 + TermWidth(e.right) && j == p + ExprWidth(e)
    ensures SpellsExpr(ts, p, e.left) && SpellsTerm(ts, i + 1, e.right)
    ensures ExprOpAt(ts, i) && !TermOpAt(ts, i) && ExprNode(ts[i].kind, e.left, e.right) == e
  {
    i, j := p + ExprWidth(e.left), p + ExprWidth(e);
  }

  /** A spelled tight node: where its operator is, where it ends, and its
      parts spelled where the parser looks for them. */
  lemma TightParts(e: Node, ts: seq<Token>, p: nat) returns (i: nat, j: nat)
    requires IsTight(e) && SpellsTerm(ts, p, e)
    ensures i == p + TermWidth(e.left) && j == i + 1 + FactorWidth(e.right) && j == p + TermWidth(e)
    ensures SpellsTerm(ts, p, e.left) && SpellsFactor(ts, i + 1, e.right)
    ensures TermOpAt(ts, i) && TermNode(ts[i].kind, e.left, e.right) == e
  {
    i, j := p + TermWidth(e.left), p + TermWidth(e);
  }

  /** A spelled parenthesised node: where its closing parenthesis is, and
      its inside spelled after the opening one. */
  lemma ParenParts(e: Node, ts: seq<Token>, p: nat) returns (q: nat)
    requires !e.Number? && SpellsFactor(ts, p, e)
    ensures IsLoose(e) || IsTight(e)
    ensures q == p + 1 + ExprWidth(e) && q + 1 == p + FactorWidth(e)
    ensures SpellsExpr(ts, p + 1, e) && !TermOpAt(ts, q)
    ensures p < |ts| && ts[p].kind == LParen && q < |ts| && ts[q].kind == RParen
  {
    q := p + 1 + ExprWidth(e);
  }

  /** `parseFactor` reads a spelled factor back, whatever follows it. */
  lemma {:induction false} FactorReadsBack(e: Node, ts: seq<Token>, p: nat, env: Bindings)
    requires SpellsFactor(ts, p, e)
    ensures FactorReads(ts, p, p + FactorWidth(e), env, e)
    decreases e, Rank(e, 2), 1
  {
    if !e.Number? {
      var q := ParenParts(e, ts, p);
      ExprReadsPrefix(e, ts, p + 1, env);
      ParenStep(ts, p, env, e, q);
    }
  }

  /** `parseTerm` reads a spelled tight node as its loop's last turn. */
  lemma {:induction false} TightReadsPrefix(e: Node, ts: seq<Token>, p: nat, env: Bindings)
    requires IsTight(e) && SpellsTerm(ts, p, e)
    ensures TermReads(ts, p, p + TermWidth(e), env, e)
    decreases e, Rank(e, 1), 0
  {
    var i, j := TightParts(e, ts, p);
    TermReadsPrefix(e.left, ts, p, env);
    FactorReadsBack(e.right, ts, i + 1, env);
    TightStep(ts, p, i, j, env, e.left, e.right, e);
  }

  /** `parseTerm` reads a spelled term and leaves its loop after it. */
  lemma {:induction false} TermReadsPrefix(e: Node, ts: seq<Token>, p: nat, env: Bindings)
    requires SpellsTerm(ts, p, e)
    ensures TermReads(ts, p, p + TermWidth(e), env, e)
    decreases e, Rank(e, 1), 1
  {
    if IsTight(e) {
      TightReadsPrefix(e, ts, p, env);
    } else {
      NotTight(e, ts, p);
      var j := p + FactorWidth(e);
      FactorReadsBack(e, ts, p, env);
      FactorIsTerm(ts, p, j, env, e);
      assert j == p + TermWidth(e);
    }
  }

  /** `parseExpression` reads a spelled loose node as its loop's last turn. */
  lemma {:induction false} LooseReadsPrefix(e: Node, ts: seq<Token>, p: nat, env: Bindings)
    requires IsLoose(e) && SpellsExpr(ts, p, e)
    requires !TermOpAt(ts, p + ExprWidth(e))
    ensures ExprReads(ts, p, p + ExprWidth(e), env, e)
    decreases e, Rank(e, 0), 0
  {
    var i, j := LooseParts(e, ts, p);
    ExprReadsPrefix(e.left, ts, p, env);
    TermReadsPrefix(e.right, ts, i + 1, env);
    LooseStep(ts, p, i, j, env, e.left, e.right, e);
  }

  /** `parseExpression` reads a spelled expression and leaves its loop
      after it, if no tight operator follows. */
  lemma {:induction false} ExprReadsPrefix(e: Node, ts: seq<Token>, p: nat, env: Bindings)
    requires SpellsExpr(ts, p, e)
    requires !TermOpAt(ts, p + ExprWidth(e))
    ensures ExprReads(ts, p, p + ExprWidth(e), env, e)
    decreases e, Rank(e, 0), 1
  {
    if IsLoose(e) {
      LooseReadsPrefix(e, ts, p, env);
    } else {
      NotLoose(e, ts, p);
      TermReadsPrefix(e, ts, p, env);
      TermIsExpr(ts, p, p + ExprWidth(e), env, e);
    }
  }

  /** `parseExpression` is a left inverse of the printer: a printed tree
      followed by anything but an operator parses back to the same tree.
      So `*`, `/`, `^` bind tighter than the other operators, and both
      levels associate to the left. */
  lemma ExprReadsBack(e: Node, ts: seq<Token>, p: nat, env: Bindings)
    requires IsExprTree(e) && Found(ts, p, UnparseExpr(e))
    requires Stops(ts, p + |UnparseExpr(e)|)
    ensures Expression(ts, p, env) == Ok(e, p + |UnparseExpr(e)|)
  {
    FoundSpellsExpr(e, ts, p);
    ExprReadsPrefix(e, ts, p, env);
    ReadsStop(ts, p, p + ExprWidth(e), env, e);
  }

  /** The whole token list is one printed expression. */
  lemma ExprParsesPrinted(e: Node, env: Bindings)
    requires IsExprTree(e)
    ensures Expression(UnparseExpr(e), 0, env) == Ok(e, |UnparseExpr(e)|)
  {
    FoundSuffix(UnparseExpr(e), 0);
    assert UnparseExpr(e)[0..] == UnparseExpr(e);
    ExprReadsBack(e, UnparseExpr(e), 0, env);
  }

  /** The trees the expression methods build contain no PrintNode, so
      evaluating them (as a declaration does) writes nothing. */
  lemma {:induction false} ExprTreeIsSilent(e: Node)
    requires IsExprTree(e)
    ensures PrintCount(e) == 0
  {
    match e
    case Number(_) =>
    case Binary(l, r, _) => ExprTreeIsSilent(l); ExprTreeIsSilent(r);
    case Relational(l, r, _) => ExprTreeIsSilent(l); ExprTreeIsSilent(r);
  }

  /** LET VARIABLE(name) ASSIGN followed by an expression that parses:
      an absent name gains exactly the expression's value and the result is
      a NoOpNode; a present name throws and leaves the map unchanged. */
  lemma DeclarationBindsOnce(ts: seq<Token>, p: nat, env: Bindings, arith: Arith, name: string)
    requires DeclaresAt(ts, p, name) && p + 2 < |ts| && ts[p + 2].kind == Assign
    requires Expression(ts, p + 3, env).Ok?
    ensures var value := Expression(ts, p + 3, env);
      var r := Statement(ts, p, env, arith);
      && (name in env ==> r == Stmt(env, Fail(Redeclaration(name))))
      && (name !in env ==>
            var ev := Eval(value.node, arith);
            && ev.out == []
            && (ev.outcome.Returned? ==> r == Stmt(env[name := ev.outcome.v], Ok(NoOp, value.next)))
            && (ev.outcome.Threw? ==> r == Stmt(env, Fail(EvalFailure(ev.outcome.message)))))
  {
    ExprTreeIsSilent(Expression(ts, p + 3, env).node);
  }

  /** The right-hand side is parsed before the name is bound: `let x = x`
      with `x` unbound throws "Undefined variable" and binds nothing. */
  lemma SelfReferenceFails(x: string, env: Bindings, arith: Arith)
    requires x !in env
    ensures var ts := [Token(Let, CStringVal("LET")), Token(Variable, StringVal(x)),
                       Token(Assign, CharVal('=')), Token(Variable, StringVal(x))];
      Statement(ts, 0, env, arith) == Stmt(env, Fail(UndefinedVariable(x)))
  {
    var ts := [Token(Let, CStringVal("LET")), Token(Variable, StringVal(x)),
               Token(Assign, CharVal('=')), Token(Variable, StringVal(x))];
    assert Factor(ts, 3, env) == Fail(UndefinedVariable(x));
    assert Expression(ts, 3, env) == Fail(UndefinedVariable(x));
  }

  /** `parse` never drops or changes a binding, and every binding it adds
      was declared by one of its statements. */
  lemma {:induction false} ParseKeepsBindings(ts: seq<Token>, p: nat, env: Bindings, arith: Arith, last: Option<Node>)
    requires p <= |ts|
    ensures var r := ParseFrom(ts, p, env, arith, last);
      && (forall k :: k in env ==> k in r.env && r.env[k] == env[k])
      && (forall k :: k in r.env && k !in env ==> exists i :: p <= i < |ts| && DeclaresAt(ts, i, k))
    decreases |ts| - p
  {
    if p < |ts| {
      var s := Statement(ts, p, env, arith);
      if s.result.Ok? {
        ParseKeepsBindings(ts, s.result.next, s.env, arith, Some(s.result.node));
        var r := ParseFrom(ts, p, env, arith, last);
        forall k | k in r.env && k !in env
          ensures exists i :: p <= i < |ts| && DeclaresAt(ts, i, k)
        {
          if k in s.env {
            assert DeclaresAt(ts, p, k);
          }
        }
      }
    }
  }

  /** The statements of `parse`'s loop, started at `p` with the map `env`,
      all succeed up to the statement boundary `q`, where the map is `envq`. */
  predicate Reaches(ts: seq<Token>, p: nat, env: Bindings, arith: Arith, q: nat, envq: Bindings)
    decreases |ts| - p
  {
    || (q == p && envq == env)
    || (p < q && p < |ts| &&
        var s := Statement(ts, p, env, arith);
        s.result.Ok? && Reaches(ts, s.result.next, s.env, arith, q, envq))
  }

  /** `parse` is decided by the last statement it starts, at a boundary `q`
      that the statements before it reach: if that statement throws, the
      exception is its error and the map keeps every binding the earlier
      statements made; if it succeeds, it ends at the end of the tokens and
      its node is the root. */
  lemma {:induction false} ParseChain(ts: seq<Token>, p: nat, env: Bindings, arith: Arith, last: Option<Node>)
    returns (q: nat, envq: Bindings)
    requires p < |ts|
    ensures p <= q < |ts| && Reaches(ts, p, env, arith, q, envq)
    ensures var s := Statement(ts, q, envq, arith);
      match ParseFrom(ts, p, env, arith, last)
      case Done(e, root) => s.result.Ok? && s.result.next == |ts| && e == s.env && root == Some(s.result.node)
      case Aborted(e, err) => s.result == Fail(err) && e == envq
    decreases |ts| - p
  {
    var s := Statement(ts, p, env, arith);
    if s.result.Ok? && s.result.next < |ts| {
      q, envq := ParseChain(ts, s.result.next, s.env, arith, Some(s.result.node));
    } else {
      q, envq := p, env;
    }
  }

  /** Once a statement has been parsed, the node `parse` started with plays
      no part: the result is the same for any `last`. */
  lemma RootIgnoresLast(ts: seq<Token>, p: nat, env: Bindings, arith: Arith, last: Option<Node>, other: Option<Node>)
    requires p < |ts|
    ensures ParseFrom(ts, p, env, arith, last) == ParseFrom(ts, p, env, arith, other)
  {
  }

  /** A successful `parse` returns the node of the statement, reached by the
      statements before it, that ends at the end of the tokens. */
  lemma LastStatementIsRoot(ts: seq<Token>, p: nat, env: Bindings, arith: Arith, last: Option<Node>)
    requires p < |ts| && ParseFrom(ts, p, env, arith, last).Done?
    ensures var r := ParseFrom(ts, p, env, arith, last);
      && r.root.Some?
      && exists i, before :: p <= i < |ts| && Reaches(ts, p, env, arith, i, before)
           && Statement(ts, i, before, arith) == Stmt(r.env, Ok(r.root.value, |ts|))
  {
    var i, before := ParseChain(ts, p, env, arith, last);
    var s := Statement(ts, i, before, arith);
    assert s == Stmt(s.env, Ok(s.result.node, s.result.next));
  }

  /** An empty token list parses to no root and binds nothing. */
  lemma EmptyProgram(env: Bindings, arith: Arith)
    ensures ParseProgram([], env, arith) == Done(env, None)
  {
  }
}
