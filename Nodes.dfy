/** The syntax tree of Node.h and its `evaluate`: one datatype for the six
    node classes, and one function that yields the value a node evaluates
    to (or the exception it throws) together with the values its PrintNodes
    wrote to the output stream, in order. */
module Nodes {

  datatype Node =
    | Number(value: real)
    | NoOp
    | UnaryOp(operand: Node, op: char)
    | Print(expr: Node)
    | Relational(left: Node, right: Node, op: char)
    | Binary(left: Node, right: Node, op: char)

  /** The two numeric operations the model does not compute exactly:
      `std::pow`, and what `x / 0.0` gives for each `x` under IEEE doubles. */
  datatype Arith = Arith(pow: (real, real) -> real, divByZero: real -> real)

  /** What `evaluate` does: return a value or throw `std::invalid_argument`. */
  datatype Outcome = Returned(v: real) | Threw(message: string)

  /** An evaluation: the values printed on the way, then the outcome. */
  datatype Evaluation = Evaluation(out: seq<real>, outcome: Outcome)

  /** The tags `RelationalOperationNode` has a case for. */
  predicate IsRelationalTag(op: char)
  {
    op == '<' || op == '>' || op == '.' || op == ',' || op == '='
  }

  /** The tags `BinaryOperationNode` has a case for. */
  predicate IsBinaryTag(op: char)
  {
    op == '+' || op == '-' || op == '*' || op == '/' || op == '^'
  }

  /** The comparison each relational tag stands for: `.` is at most, `,` is at least. */
  predicate Compares(op: char, a: real, b: real)
    requires IsRelationalTag(op)
  {
    match op
    case '<' => a < b
    case '>' => a > b
    case '.' => a <= b
    case ',' => a >= b
    case _ => a == b
  }

  /** The arithmetic of each binary tag. */
  function Apply(op: char, a: real, b: real, arith: Arith): real
    requires IsBinaryTag(op)
  {
    match op
    case '+' => a + b
    case '-' => a - b
    case '*' => a * b
    case '/' => if b != 0.0 then a / b else arith.divByZero(a)
    case _ => arith.pow(a, b)
  }

  /** The number of PrintNodes in a tree. */
  function PrintCount(n: Node): nat
  {
    match n
    case Number(_) => 0
    case NoOp => 0
    case UnaryOp(x, _) => PrintCount(x)
    case Print(x) => 1 + PrintCount(x)
    case Relational(l, r, _) => PrintCount(l) + PrintCount(r)
    case Binary(l, r, _) => PrintCount(l) + PrintCount(r)
  }

  /** Every tag in the tree is one its node class handles. */
  predicate WellTagged(n: Node)
  {
    match n
    case Number(_) => true
    case NoOp => true
    case UnaryOp(x, op) => op == '-' && WellTagged(x)
    case Print(x) => WellTagged(x)
    case Relational(l, r, op) => IsRelationalTag(op) && WellTagged(l) && WellTagged(r)
    case Binary(l, r, op) => IsBinaryTag(op) && WellTagged(l) && WellTagged(r)
  }

  /** `evaluate`. Every node class switches on its tag before evaluating any
      child, so an unsupported tag throws before anything is printed. A
      two-operand node evaluates its left operand first and its right one
      only if the left returned. */
  function Eval(n: Node, arith: Arith): (r: Evaluation)
    ensures r.outcome.Returned? ==> |r.out| == PrintCount(n)
    ensures |r.out| <= PrintCount(n)
    ensures WellTagged(n) ==> r.outcome.Returned?
    ensures n.Relational? && r.outcome.Returned? ==> r.outcome.v == 0.0 || r.outcome.v == 1.0
  {
    match n
    case Number(v) => Evaluation([], Returned(v))
    case NoOp => Evaluation([], Returned(0.0))
    case UnaryOp(x, op) =>
      if op == '-' then
        var e := Eval(x, arith);
        if e.outcome.Returned? then Evaluation(e.out, Returned(-e.outcome.v)) else e
      else Evaluation([], Threw("Unsupported unary operation"))
    case Print(x) =>
      var e := Eval(x, arith);
      if e.outcome.Returned? then Evaluation(e.out + [e.outcome.v], e.outcome) else e
    case Relational(l, r, op) =>
      if !IsRelationalTag(op) then Evaluation([], Threw("Unsupported relational operation"))
      else
        var el := Eval(l, arith);
        if el.outcome.Threw? then el
        else
          var er := Eval(r, arith);
          if er.outcome.Threw? then Evaluation(el.out + er.out, er.outcome)
          else Evaluation(el.out + er.out, Returned(if Compares(op, el.outcome.v, er.outcome.v) then 1.0 else 0.0))
    case Binary(l, r, op) =>
      if !IsBinaryTag(op) then Evaluation([], Threw("Unsupported operation"))
      else
        var el := Eval(l, arith);
        if el.outcome.Threw? then el
        else
          var er := Eval(r, arith);
          if er.outcome.Threw? then Evaluation(el.out + er.out, er.outcome)
          else Evaluation(el.out + er.out, Returned(Apply(op, el.outcome.v, er.outcome.v, arith)))
  }

  /** A tree without PrintNodes writes nothing. */
  lemma PrintFreeIsSilent(n: Node, arith: Arith)
    requires PrintCount(n) == 0
    ensures Eval(n, arith).out == []
  {
  }

  /** A relational node whose operands return `a` and `b` returns 1 exactly
      when the comparison its tag names holds, and 0 otherwise. */
  lemma RelationalValue(l: Node, r: Node, op: char, arith: Arith)
    requires IsRelationalTag(op)
    requires Eval(l, arith).outcome.Returned? && Eval(r, arith).outcome.Returned?
    ensures var e := Eval(Relational(l, r, op), arith);
      && e.outcome.Returned?
      && (e.outcome.v == 1.0 <==> Compares(op, Eval(l, arith).outcome.v, Eval(r, arith).outcome.v))
      && (e.outcome.v == 0.0 <==> !Compares(op, Eval(l, arith).outcome.v, Eval(r, arith).outcome.v))
      && e.out == Eval(l, arith).out + Eval(r, arith).out
  {
  }

  /** A binary node whose operands return `a` and `b` returns the tag's
      arithmetic of `a` (left) and `b` (right). */
  lemma BinaryValue(l: Node, r: Node, op: char, arith: Arith)
    requires IsBinaryTag(op)
    requires Eval(l, arith).outcome.Returned? && Eval(r, arith).outcome.Returned?
    ensures var e := Eval(Binary(l, r, op), arith);
      && e.outcome == Returned(Apply(op, Eval(l, arith).outcome.v, Eval(r, arith).outcome.v, arith))
      && e.out == Eval(l, arith).out + Eval(r, arith).out
  {
  }

  /** A PrintNode evaluates its child once, writes its value once and returns it. */
  lemma PrintWritesOnce(x: Node, arith: Arith)
    requires Eval(x, arith).outcome.Returned?
    ensures Eval(Print(x), arith).out == Eval(x, arith).out + [Eval(x, arith).outcome.v]
    ensures Eval(Print(x), arith).outcome == Eval(x, arith).outcome
  {
  }

  /** An unsupported tag throws its class's message and writes nothing,
      whatever the children are. */
  lemma UnsupportedTagsThrow(l: Node, r: Node, op: char, arith: Arith)
    ensures op != '-' ==> Eval(UnaryOp(l, op), arith) == Evaluation([], Threw("Unsupported unary operation"))
    ensures !IsRelationalTag(op) ==> Eval(Relational(l, r, op), arith) == Evaluation([], Threw("Unsupported relational operation"))
    ensures !IsBinaryTag(op) ==> Eval(Binary(l, r, op), arith) == Evaluation([], Threw("Unsupported operation"))
  {
  }

  /** A throw in the left operand is the node's result: the right one is
      not evaluated. */
  lemma LeftThrowStops(l: Node, r: Node, op: char, arith: Arith)
    requires Eval(l, arith).outcome.Threw?
    ensures IsRelationalTag(op) ==> Eval(Relational(l, r, op), arith) == Eval(l, arith)
    ensures IsBinaryTag(op) ==> Eval(Binary(l, r, op), arith) == Eval(l, arith)
  {
  }
}
