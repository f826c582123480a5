/** The parser object of Parser.h: a cursor over the token list and the
    shared variable map, both updated in place. A C++ exception is a `Fail`
    result here, returned at once by every caller up to `Parse`. Each method
    is proved to compute what the matching function of module Grammar
    describes, and to leave the cursor after what that function consumed. */
module Parser {
  import opened Tokens
  import opened Nodes
  import opened Grammar
  import opened Environment

  class Parser {
    const tokens: seq<Token>
    var position: nat
    /** The map pointer shared with the caller; declarations write through it. */
    const variables: Env

    constructor (tokens: seq<Token>, varMap: Env)
      ensures this.tokens == tokens && position == 0 && variables == varMap
    {
      this.tokens := tokens;
      position := 0;
      variables := varMap;
    }

    /** `eatToken`: steps over a current token of the given kind, and
        otherwise throws "Unexpected token" (`ok` false). */
    method EatToken(kind: TokenType) returns (ok: bool)
      modifies this`position
      ensures ok == Eat(tokens, old(position), kind).Some?
      ensures position == if ok then old(position) + 1 else old(position)
    {
      ok := position < |tokens| && tokens[position].kind == kind;
      if ok {
        position := position + 1;
      }
    }

    /** `parseFactor`. */
    method ParseFactor() returns (r: Parse)
      requires position <= |tokens|
      modifies this`position
      ensures r == Factor(tokens, old(position), variables.vars)
      ensures r.Ok? ==> position == r.next
      decreases |tokens| - position, 0
    {
      if position == |tokens| {
        return Fail(UnexpectedInFactor(None));
      }
      var t := tokens[position];
      if t.kind == Integer || t.kind == Float {
        if !t.value.DoubleVal? {
          return Fail(BadAnyCast);
        }
        var value := t.value.d;
        var _ := EatToken(t.kind);
        r := Ok(Number(value), position);
      } else if t.kind == Variable {
        if !t.value.StringVal? {
          return Fail(BadAnyCast);
        }
        var varName := t.value.s;
        if varName in variables.vars {
          var value := variables.vars[varName];
          var _ := EatToken(Variable);
          r := Ok(Number(value), position);
        } else {
          r := Fail(UndefinedVariable(varName));
        }
      } else if t.kind == LParen {
        var _ := EatToken(LParen);
        var node := ParseExpression();
        if node.Fail? {
          return node;
        }
        var ok := EatToken(RParen);
        if !ok {
          return Fail(UnexpectedToken);
        }
        r := Ok(node.node, position);
      } else {
        r := Fail(UnexpectedInFactor(Some(t)));
      }
    }

    /** `parseTerm`. */
    method ParseTerm() returns (r: Parse)
      requires position <= |tokens|
      modifies this`position
      ensures r == Term(tokens, old(position), variables.vars)
      ensures r.Ok? ==> position == r.next
      decreases |tokens| - position, 2
    {
      ghost var p0 := position;
      var first := ParseFactor();
      if first.Fail? {
        return first;
      }
      var node := first.node;
      while position < |tokens| && IsTermOp(tokens[position].kind)
        invariant p0 < position <= |tokens|
        invariant Term(tokens, p0, variables.vars) == TermLoop(tokens, position, variables.vars, node)
        decreases |tokens| - position
      {
        var opType := tokens[position].kind;
        var _ := EatToken(opType);
        var right := ParseFactor();
        if right.Fail? {
          return right;
        }
        if opType == Exponent {
          node := Binary(node, right.node, '^');
        } else {
          node := Binary(node, right.node, if opType == Mult then '*' else '/');
        }
      }
      r := Ok(node, position);
    }

    /** `parseExpression`. The loop's guard, read with its misplaced
        parentheses and with an end-of-input cursor having no current token,
        accepts exactly the nine operators while a token is left. */
    method ParseExpression() returns (r: Parse)
      requires position <= |tokens|
      modifies this`position
      ensures r == Expression(tokens, old(position), variables.vars)
      ensures r.Ok? ==> position == r.next
      decreases |tokens| - position, 4
    {
      ghost var p0 := position;
      var first := ParseTerm();
      if first.Fail? {
        return first;
      }
      var node := first.node;
      while position < |tokens| && IsExprOp(tokens[position].kind)
        invariant p0 < position <= |tokens|
        invariant Expression(tokens, p0, variables.vars) == ExprLoop(tokens, position, variables.vars, node)
        decreases |tokens| - position
      {
        var opType := tokens[position].kind;
        var _ := EatToken(opType);
        var right := ParseTerm();
        if right.Fail? {
          return right;
        }
        if opType == Plus || opType == Minus {
          node := Binary(node, right.node, if opType == Plus then '+' else '-');
        } else {
          var op := match opType
            case GreaterThan => '>'
            case LessThan => '<'
            case GreaterThanEq => ','
            case LessThanEq => '.'
            case EqEq => '='
            case And => '&'
            case _ => '|';
          node := Relational(node, right.node, op);
        }
      }
      r := Ok(node, position);
    }

    /** `parseVariableDeclaration`: binds a new name to its value through
        the shared map, or throws having left the map as it was. */
    method ParseVariableDeclaration(arith: Arith) returns (r: Parse)
      requires position <= |tokens|
      modifies this`position, variables`vars
      ensures Stmt(variables.vars, r) == Declaration(tokens, old(position), old(variables.vars), arith)
      ensures r.Ok? ==> position == r.next
    {
      ghost var p0 := position;
      ghost var env0 := variables.vars;
      var ok := EatToken(Let);
      if !ok {
        return Fail(UnexpectedToken);
      }
      if position == |tokens| {
        return Fail(UnexpectedToken);
      }
      if !tokens[position].value.StringVal? {
        return Fail(BadAnyCast);
      }
      var varName := tokens[position].value.s;
      ok := EatToken(Variable);
      if !ok {
        return Fail(UnexpectedToken);
      }
      ok := EatToken(Assign);
      if !ok {
        return Fail(UnexpectedToken);
      }
      assert Eat(tokens, p0, Let) == Some(p0 + 1) && Eat(tokens, p0 + 1, Variable) == Some(p0 + 2)
        && Eat(tokens, p0 + 2, Assign) == Some(p0 + 3);
      var value := ParseExpression();
      if value.Fail? {
        return value;
      }
      if varName !in variables.vars {
        var ev := Eval(value.node, arith);
        if ev.outcome.Threw? {
          return Fail(EvalFailure(ev.outcome.message));
        }
        variables.vars := variables.vars[varName := ev.outcome.v];
      } else {
        return Fail(Redeclaration(varName));
      }
      r := Ok(NoOp, position);
    }

    /** `parseStatement`. */
    method ParseStatement(arith: Arith) returns (r: Parse)
      requires position < |tokens|
      modifies this`position, variables`vars
      ensures Stmt(variables.vars, r) == Statement(tokens, old(position), old(variables.vars), arith)
      ensures r.Ok? ==> position == r.next
    {
      if tokens[position].kind == Let {
        r := ParseVariableDeclaration(arith);
      } else if tokens[position].kind == TokenType.Print {
        var _ := EatToken(TokenType.Print);
        var expr := ParseExpression();
        if expr.Fail? {
          return expr;
        }
        r := Ok(Nodes.Print(expr.node), position);
      } else {
        r := ParseExpression();
      }
    }

    /** `parse`: statements until the tokens run out; the last one's node
        is the root. A throw ends the run with the declarations made before
        it kept in the shared map. */
    method Parse(arith: Arith) returns (r: Run)
      requires position <= |tokens|
      modifies this`position, variables`vars
      ensures r == ParseFrom(tokens, old(position), old(variables.vars), arith, None)
      ensures variables.vars == r.env
    {
      ghost var goal := ParseFrom(tokens, position, variables.vars, arith, None);
      var result: Option<Node> := None;
      while position < |tokens|
        invariant position <= |tokens|
        invariant ParseFrom(tokens, position, variables.vars, arith, result) == goal
        decreases |tokens| - position
      {
        var s := ParseStatement(arith);
        if s.Fail? {
          return Aborted(variables.vars, s.error);
        }
        result := Some(s.node);
      }
      r := Done(variables.vars, result);
    }
  }
}
