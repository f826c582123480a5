/** The recursive-descent parser of Parser.h as pure functions over the
    token list: one function per parsing method, each taking the cursor and
    the variable map it reads, and giving the node it builds with the
    cursor after it, or the exception it throws. The imperative class in
    module Parser is proved to compute exactly these. */
module Grammar {
  import opened Tokens
  import opened Nodes

  /** The shared variable map, as a value. */
  type Bindings = map<string, real>

  /** The exceptions the parser throws. `UnexpectedInFactor` carries the
      token `parseFactor` writes to the output stream before throwing, if
      there is one; `EvalFailure` is an exception of `evaluate` during a
      declaration. */
  datatype ParseError =
    | UnexpectedToken
    | BadAnyCast
    | UndefinedVariable(name: string)
    | Redeclaration(name: string)
    | UnexpectedInFactor(found: Option<Token>)
    | EvalFailure(message: string)

  /** `what()` of each exception (`std::bad_any_cast` as libstdc++ words it). */
  function Message(e: ParseError): string
  {
    match e
    case UnexpectedToken => "Unexpected token"
    case BadAnyCast => "bad any_cast"
    case UndefinedVariable(name) => "Undefined variable: " + name
    case Redeclaration(name) => "Variable redeclaration: " + name
    case UnexpectedInFactor(_) => "Unexpected token in factor"
    case EvalFailure(message) => message
  }

  /** A parsing method's result: the node and the cursor after it, or a throw. */
  datatype Parse = Ok(node: Node, next: nat) | Fail(error: ParseError)

  /** `parseStatement`'s result together with the map after it. */
  datatype Stmt = Stmt(env: Bindings, result: Parse)

  /** `parse`'s result: the map after it and the last statement's node
      (none for an empty token list), or the map at the throw and the exception. */
  datatype Run = Done(env: Bindings, root: Option<Node>) | Aborted(env: Bindings, error: ParseError)

  /** The operators of `parseExpression`'s loop. */
  predicate IsExprOp(k: TokenType)
  {
    k == Plus || k == Minus || k == GreaterThan || k == LessThan
    || k == GreaterThanEq || k == LessThanEq || k == EqEq || k == And || k == Or
  }

  /** The operators of `parseTerm`'s loop. */
  predicate IsTermOp(k: TokenType)
  {
    k == Mult || k == Divide || k == Exponent
  }

  /** An operator of the loop's kind is the current token. A cursor at the
      end has no current token, which no loop takes for an operator. */
  predicate ExprOpAt(ts: seq<Token>, p: nat) { p < |ts| && IsExprOp(ts[p].kind) }

  predicate TermOpAt(ts: seq<Token>, p: nat) { p < |ts| && IsTermOp(ts[p].kind) }

  /** The node `parseExpression` builds for an operator and its operands:
      `+` and `-` are arithmetic, the rest relational with their tags. */
  function ExprNode(k: TokenType, left: Node, right: Node): Node
    requires IsExprOp(k)
  {
    match k
    case Plus => Binary(left, right, '+')
    case Minus => Binary(left, right, '-')
    case GreaterThan => Relational(left, right, '>')
    case LessThan => Relational(left, right, '<')
    case GreaterThanEq => Relational(left, right, ',')
    case LessThanEq => Relational(left, right, '.')
    case EqEq => Relational(left, right, '=')
    case And => Relational(left, right, '&')
    case Or => Relational(left, right, '|')
  }

  /** The node `parseTerm` builds for an operator and its operands. */
  function TermNode(k: TokenType, left: Node, right: Node): Node
    requires IsTermOp(k)
  {
    match k
    case Mult => Binary(left, right, '*')
    case Divide => Binary(left, right, '/')
    case Exponent => Binary(left, right, '^')
  }

  /** The number of nodes in a tree that no expression method builds:
      anything but numbers, arithmetic nodes and relational nodes, the
      latter including the `&` and `|` tags. */
  function Strays(n: Node): nat
  {
    match n
    case Number(_) => 0
    case Binary(l, r, op) => (if IsBinaryTag(op) then 0 else 1) + Strays(l) + Strays(r)
    case Relational(l, r, op) =>
      (if IsRelationalTag(op) || op == '&' || op == '|' then 0 else 1) + Strays(l) + Strays(r)
    case _ => 1
  }

  /** The trees the expression methods build: those without a stray node. */
  predicate IsExprTree(n: Node)
  {
    Strays(n) == 0
  }

  /** `parseFactor`: a number, a bound variable's current value, or a
      parenthesised expression; any other current token throws. */
  function Factor(ts: seq<Token>, p: nat, env: Bindings): (r: Parse)
    requires p <= |ts|
    ensures r.Ok? ==> p < r.next <= |ts| && IsExprTree(r.node)
    decreases |ts| - p, 0
  {
    if p == |ts| then Fail(UnexpectedInFactor(None))
    else
      var t := ts[p];
      if t.kind == Integer || t.kind == Float then
        if t.value.DoubleVal? then Ok(Number(t.value.d), p + 1) else Fail(BadAnyCast)
      else if t.kind == Variable then
        if !t.value.StringVal? then Fail(BadAnyCast)
        else if t.value.s in env then Ok(Number(env[t.value.s]), p + 1)
        else Fail(UndefinedVariable(t.value.s))
      else if t.kind == LParen then
        match Expression(ts, p + 1, env)
        case Fail(e) => Fail(e)
        case Ok(n, q) => if q < |ts| && ts[q].kind == RParen then Ok(n, q + 1) else Fail(UnexpectedToken)
      else Fail(UnexpectedInFactor(Some(t)))
  }

  /** `parseTerm`'s loop, `left` being the node built so far. */
  function TermLoop(ts: seq<Token>, p: nat, env: Bindings, left: Node): (r: Parse)
    requires p <= |ts|
    ensures r.Ok? ==> p <= r.next <= |ts| && !TermOpAt(ts, r.next)
    ensures r.Ok? && IsExprTree(left) ==> IsExprTree(r.node)
    decreases |ts| - p, 1
  {
    if TermOpAt(ts, p) then
      match Factor(ts, p + 1, env)
      case Fail(e) => Fail(e)
      case Ok(right, q) => TermLoop(ts, q, env, TermNode(ts[p].kind, left, right))
    else Ok(left, p)
  }

  /** `parseTerm`: factors joined left-associatively by `*`, `/` and `^`. */
  function Term(ts: seq<Token>, p: nat, env: Bindings): (r: Parse)
    requires p <= |ts|
    ensures r.Ok? ==> p < r.next <= |ts| && IsExprTree(r.node)
    decreases |ts| - p, 2
  {
    match Factor(ts, p, env)
    case Fail(e) => Fail(e)
    case Ok(n, q) => TermLoop(ts, q, env, n)
  }

  /** `parseExpression`'s loop, `left` being the node built so far. */
  function ExprLoop(ts: seq<Token>, p: nat, env: Bindings, left: Node): (r: Parse)
    requires p <= |ts|
    ensures r.Ok? ==> p <= r.next <= |ts| && !ExprOpAt(ts, r.next)
    ensures r.Ok? && IsExprTree(left) ==> IsExprTree(r.node)
    decreases |ts| - p, 3
  {
    if ExprOpAt(ts, p) then
      match Term(ts, p + 1, env)
      case Fail(e) => Fail(e)
      case Ok(right, q) => ExprLoop(ts, q, env, ExprNode(ts[p].kind, left, right))
    else Ok(left, p)
  }

  /** `parseExpression`: terms joined left-associatively by the looser operators. */
  function Expression(ts: seq<Token>, p: nat, env: Bindings): (r: Parse)
    requires p <= |ts|
    ensures r.Ok? ==> p < r.next <= |ts| && IsExprTree(r.node)
    decreases |ts| - p, 4
  {
    match Term(ts, p, env)
    case Fail(e) => Fail(e)
    case Ok(n, q) => ExprLoop(ts, q, env, n)
  }

  /** `eatToken(kind)` at `p`: the cursor after it, or the throw. */
  function Eat(ts: seq<Token>, p: nat, kind: TokenType): (r: Option<nat>)
    ensures r.Some? <==> p < |ts| && ts[p].kind == kind
    ensures r.Some? ==> r.value == p + 1
  {
    if p < |ts| && ts[p].kind == kind then Some(p + 1) else None
  }

  /** `parseVariableDeclaration`: LET, a VARIABLE whose payload is the name,
      ASSIGN, an expression. An absent name is bound to the expression's
      value; a present one throws and the map is left as it was. The value
      is evaluated before the map entry is created, so a throw there binds
      nothing. */
  function Declaration(ts: seq<Token>, p: nat, env: Bindings, arith: Arith): (r: Stmt)
    requires p <= |ts|
    ensures r.result.Ok? ==> p < r.result.next <= |ts| && r.result.node == NoOp
    ensures forall k :: k in env ==> k in r.env && r.env[k] == env[k]
    ensures forall k :: k in r.env && k !in env ==> DeclaresAt(ts, p, k) && r.result.Ok?
  {
    match Eat(ts, p, Let)
    case None => Stmt(env, Fail(UnexpectedToken))
    case Some(p1) =>
      if p1 == |ts| then Stmt(env, Fail(UnexpectedToken))
      else if !ts[p1].value.StringVal? then Stmt(env, Fail(BadAnyCast))
      else
        var name := ts[p1].value.s;
        match Eat(ts, p1, Variable)
        case None => Stmt(env, Fail(UnexpectedToken))
        case Some(p2) =>
          match Eat(ts, p2, Assign)
          case None => Stmt(env, Fail(UnexpectedToken))
          case Some(p3) =>
            match Expression(ts, p3, env)
            case Fail(e) => Stmt(env, Fail(e))
            case Ok(value, q) =>
              if name in env then Stmt(env, Fail(Redeclaration(name)))
              else
                var ev := Eval(value, arith);
                if ev.outcome.Threw? then Stmt(env, Fail(EvalFailure(ev.outcome.message)))
                else Stmt(env[name := ev.outcome.v], Ok(NoOp, q))
  }

  /** The name a declaration at `p` binds: the payload of the token after LET. */
  predicate DeclaresAt(ts: seq<Token>, p: nat, name: string)
  {
    p + 1 < |ts| && ts[p].kind == Let && ts[p + 1].kind == Variable && ts[p + 1].value == StringVal(name)
  }

  /** `parseStatement`: a declaration, PRINT and an expression, or an expression. */
  function Statement(ts: seq<Token>, p: nat, env: Bindings, arith: Arith): (r: Stmt)
    requires p < |ts|
    ensures r.result.Ok? ==> p < r.result.next <= |ts|
    ensures forall k :: k in env ==> k in r.env && r.env[k] == env[k]
    ensures forall k :: k in r.env && k !in env ==> DeclaresAt(ts, p, k) && r.result.Ok?
    ensures r.result.Fail? ==> r.env == env
  {
    if ts[p].kind == Let then Declaration(ts, p, env, arith)
    else if ts[p].kind == TokenType.Print then
      match Expression(ts, p + 1, env)
      case Fail(e) => Stmt(env, Fail(e))
      case Ok(n, q) => Stmt(env, Ok(Nodes.Print(n), q))
    else Stmt(env, Expression(ts, p, env))
  }

  /** `parse`'s loop from cursor `p`, `last` being the node of the statement
      parsed last. */
  function ParseFrom(ts: seq<Token>, p: nat, env: Bindings, arith: Arith, last: Option<Node>): (r: Run)
    requires p <= |ts|
    decreases |ts| - p
  {
    if p < |ts| then
      var s := Statement(ts, p, env, arith);
      match s.result
      case Fail(e) => Aborted(s.env, e)
      case Ok(n, q) => ParseFrom(ts, q, s.env, arith, Some(n))
    else Done(env, last)
  }

  /** `parse` on a fresh parser. */
  function ParseProgram(ts: seq<Token>, env: Bindings, arith: Arith): Run
  {
    ParseFrom(ts, 0, env, arith, None)
  }
}
