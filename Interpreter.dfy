/** `interpret` of main.cpp: one line through a fresh tokenizer and a fresh
    parser, both sharing the caller's variable map, then the evaluation of
    the root. The observable behaviour is the sequence of lines written to
    the two output streams, as events, and the map afterwards. */
module Interpreter {
  import opened Tokens
  import opened Nodes
  import opened Lexer
  import opened Grammar
  import opened GrammarFacts
  import opened Environment
  import opened Tokenizer
  import opened Parser

  /** One line of output, in the order the program writes them. */
  datatype Event =
    /** `Tokenizer::error` on the error stream (an unknown character is also
        echoed on the output stream first, Tokenizer.cpp:100). */
    | LexError(report: Report)
    /** The debug line `interpret` writes for each token. */
    | TokenLine(line: string)
    /** `parseFactor` writes the offending token before it throws. */
    | Unexpected(line: string)
    /** A PrintNode writes its value (in `ostream`'s default format). */
    | Printed(value: real)
    /** A line whose tokens parse to no root. */
    | NoExpression
    /** The handler's "Error: " line for an exception. */
    | Failure(message: string)

  /** What one call of `interpret` does: the map afterwards and the lines written. */
  datatype Effect = Effect(env: Bindings, events: seq<Event>)

  function ReportEvents(rs: seq<Report>): (es: seq<Event>)
    ensures |es| == |rs|
    ensures forall i :: 0 <= i < |rs| ==> es[i] == LexError(rs[i])
  {
    if rs == [] then [] else [LexError(rs[0])] + ReportEvents(rs[1..])
  }

  function TokenLines(ts: seq<Token>, fmt: real -> string): (es: seq<Event>)
    ensures |es| == |ts|
    ensures forall i :: 0 <= i < |ts| ==> es[i] == TokenLine(ToStr(ts[i], fmt))
  {
    if ts == [] then [] else TokenLines(ts[..|ts| - 1], fmt) + [TokenLine(ToStr(ts[|ts| - 1], fmt))]
  }

  /** The lines `evaluate` writes, then the handler's line if it threw. */
  function EvalEvents(ev: Evaluation): seq<Event>
  {
    PrintedLines(ev.out) + (if ev.outcome.Threw? then [Failure(ev.outcome.message)] else [])
  }

  function PrintedLines(vs: seq<real>): (es: seq<Event>)
    ensures |es| == |vs|
    ensures forall i :: 0 <= i < |vs| ==> es[i] == Printed(vs[i])
  {
    if vs == [] then [] else [Printed(vs[0])] + PrintedLines(vs[1..])
  }

  /** The lines of the `try` block: a parse failure (preceded by the token
      `parseFactor` wrote, if any), or the root's evaluation, or the notice
      that there is no root. */
  function RunEvents(run: Run, arith: Arith, fmt: real -> string): seq<Event>
  {
    match run
    case Aborted(_, e) =>
      (if e.UnexpectedInFactor? && e.found.Some? then [Unexpected(ToStr(e.found.value, fmt))] else [])
      + [Failure(Message(e))]
    case Done(_, None) => [NoExpression]
    case Done(_, Some(root)) => EvalEvents(Eval(root, arith))
  }

  /** What `interpret` does once the line is tokenized: nothing for an
      empty token list, otherwise the `try` block on a fresh parser. */
  function Respond(tokens: seq<Token>, env: Bindings, arith: Arith, fmt: real -> string): Effect
  {
    if tokens == [] then Effect(env, [])
    else
      var run := ParseProgram(tokens, env, arith);
      Effect(run.env, RunEvents(run, arith, fmt))
  }

  /** `interpret(line, variables)` as a function of the map's value: the
      tokenizer's reports, a debug line per token, then the response. */
  function Interpretation(line: string, env: Bindings, arith: Arith, fmt: real -> string): Effect
  {
    var lexed := Lex(line);
    var after := Respond(lexed.tokens, env, arith, fmt);
    Effect(after.env, ReportEvents(lexed.reports) + TokenLines(lexed.tokens, fmt) + after.events)
  }

  /** The loop of `interpret` that writes each token's debug line. */
  method WriteTokenLines(tokens: seq<Token>, fmt: real -> string) returns (events: seq<Event>)
    ensures events == TokenLines(tokens, fmt)
  {
    events := [];
    for i := 0 to |tokens|
      invariant events == TokenLines(tokens[..i], fmt)
    {
      assert tokens[..i + 1][..i] == tokens[..i];
      events := events + [TokenLine(ToStr(tokens[i], fmt))];
    }
    assert tokens[..|tokens|] == tokens;
  }

  /** `interpret`: the events it writes, and the caller's map updated in place. */
  method Interpret(input: string, variables: Env, arith: Arith, fmt: real -> string) returns (events: seq<Event>)
    modifies variables
    ensures Effect(variables.vars, events) == Interpretation(input, old(variables.vars), arith, fmt)
  {
    var toker := new Tokenizer(input, variables);
    var tokens := toker.Tokenize();
    assert toker.Snapshot() == Lex(input);
    var lines := WriteTokenLines(tokens, fmt);
    events := ReportEvents(toker.reports) + lines;
    if tokens == [] {
      return;
    }
    var parser := new Parser(tokens, variables);
    var run := parser.Parse(arith);
    var tail: seq<Event>;
    match run {
      case Aborted(_, e) =>
        tail := if e.UnexpectedInFactor? && e.found.Some? then [Unexpected(ToStr(e.found.value, fmt))] else [];
        tail := tail + [Failure(Message(e))];
      case Done(_, root) =>
        if root.Some? {
          var result := Eval(root.value, arith);
          tail := EvalEvents(result);
        } else {
          tail := [NoExpression];
        }
    }
    assert tail == RunEvents(run, arith, fmt);
    events := events + tail;
  }

  /** A line of input never drops or rebinds a variable: the map only grows. */
  lemma InterpretationExtends(line: string, env: Bindings, arith: Arith, fmt: real -> string)
    ensures Extends(env, Interpretation(line, env, arith, fmt).env)
  {
    var lexed := Lex(line);
    if lexed.tokens != [] {
      ParseKeepsBindings(lexed.tokens, 0, env, arith, None);
    }
  }

  /** A name the line newly binds was declared on that line. */
  lemma NewBindingsAreDeclared(line: string, env: Bindings, arith: Arith, fmt: real -> string, name: string)
    requires name !in env && name in Interpretation(line, env, arith, fmt).env
    ensures var ts := Lex(line).tokens; exists i :: 0 <= i < |ts| && DeclaresAt(ts, i, name)
  {
    var lexed := Lex(line);
    if lexed.tokens != [] {
      ParseKeepsBindings(lexed.tokens, 0, env, arith, None);
    }
  }

  /** An empty line writes nothing and binds nothing. */
  lemma EmptyLineIsSilent(env: Bindings, arith: Arith, fmt: real -> string)
    ensures Interpretation("", env, arith, fmt) == Effect(env, [])
  {
    assert Lex("") == State(0, [], []);
  }

  function FailureCount(es: seq<Event>): nat
  {
    if es == [] then 0 else (if es[0].Failure? then 1 else 0) + FailureCount(es[1..])
  }

  lemma {:induction false} FailureCountAppend(a: seq<Event>, b: seq<Event>)
    ensures FailureCount(a + b) == FailureCount(a) + FailureCount(b)
    decreases |a|
  {
    if a != [] {
      assert (a + b)[0] == a[0] && (a + b)[1..] == a[1..] + b;
      FailureCountAppend(a[1..], b);
    } else {
      assert a + b == b;
    }
  }

  lemma {:induction false} NoFailureIn(es: seq<Event>)
    requires forall i :: 0 <= i < |es| ==> !es[i].Failure?
    ensures FailureCount(es) == 0
    decreases |es|
  {
    if es != [] {
      NoFailureIn(es[1..]);
    }
  }

  /** The `try` block writes at most one "Error: " line, and nothing after it. */
  lemma RunFailsLast(run: Run, arith: Arith, fmt: real -> string)
    ensures var es := RunEvents(run, arith, fmt);
      && FailureCount(es) <= 1
      && (FailureCount(es) == 1 ==> es != [] && es[|es| - 1].Failure?)
  {
    match run
    case Aborted(_, e) =>
      var pre := if e.UnexpectedInFactor? && e.found.Some? then [Unexpected(ToStr(e.found.value, fmt))] else [];
      NoFailureIn(pre);
      FailureCountAppend(pre, [Failure(Message(e))]);
    case Done(_, None) =>
    case Done(_, Some(root)) =>
      var ev := Eval(root, arith);
      NoFailureIn(PrintedLines(ev.out));
      FailureCountAppend(PrintedLines(ev.out), if ev.outcome.Threw? then [Failure(ev.outcome.message)] else []);
  }

  /** The handler reports at most one exception per line, and it is the
      last thing the line writes. */
  lemma AtMostOneFailure(line: string, env: Bindings, arith: Arith, fmt: real -> string)
    ensures var es := Interpretation(line, env, arith, fmt).events;
      && FailureCount(es) <= 1
      && (FailureCount(es) == 1 ==> es != [] && es[|es| - 1].Failure?)
  {
    var lexed := Lex(line);
    var before := ReportEvents(lexed.reports) + TokenLines(lexed.tokens, fmt);
    var after := Respond(lexed.tokens, env, arith, fmt);
    NoFailureIn(ReportEvents(lexed.reports));
    NoFailureIn(TokenLines(lexed.tokens, fmt));
    FailureCountAppend(ReportEvents(lexed.reports), TokenLines(lexed.tokens, fmt));
    if lexed.tokens != [] {
      RunFailsLast(ParseProgram(lexed.tokens, env, arith), arith, fmt);
    }
    FailureCountAppend(before, after.events);
    assert Interpretation(line, env, arith, fmt).events == before + after.events;
  }

  /** main's file mode on one line: an empty line is skipped. */
  function FileLine(line: string, env: Bindings, arith: Arith, fmt: real -> string): Effect
  {
    if line == "" then Effect(env, []) else Interpretation(line, env, arith, fmt)
  }

  /** main's file mode: every non-empty line in turn, on one map. */
  function Session(lines: seq<string>, env: Bindings, arith: Arith, fmt: real -> string): (r: Effect)
    decreases |lines|
  {
    if lines == [] then Effect(env, [])
    else
      var first := FileLine(lines[0], env, arith, fmt);
      var rest := Session(lines[1..], first.env, arith, fmt);
      Effect(rest.env, first.events + rest.events)
  }

  /** Skipping the empty lines changes nothing: interpreting them is silent. */
  lemma {:induction false} SkippingEmptyLinesIsHarmless(lines: seq<string>, env: Bindings, arith: Arith, fmt: real -> string)
    ensures Session(lines, env, arith, fmt) == Replay(lines, env, arith, fmt)
    decreases |lines|
  {
    if lines != [] {
      if lines[0] == "" {
        EmptyLineIsSilent(env, arith, fmt);
      }
      var first := Interpretation(lines[0], env, arith, fmt);
      SkippingEmptyLinesIsHarmless(lines[1..], first.env, arith, fmt);
    }
  }

  /** Every line in turn, the empty ones included (main's interactive mode
      before "exit"). */
  function Replay(lines: seq<string>, env: Bindings, arith: Arith, fmt: real -> string): (r: Effect)
    decreases |lines|
  {
    if lines == [] then Effect(env, [])
    else
      var first := Interpretation(lines[0], env, arith, fmt);
      var rest := Replay(lines[1..], first.env, arith, fmt);
      Effect(rest.env, first.events + rest.events)
  }

  /** Across a session the map only grows: a variable keeps the value of
      its first declaration until the program ends. */
  lemma {:induction false} SessionExtends(lines: seq<string>, env: Bindings, arith: Arith, fmt: real -> string)
    ensures Extends(env, Session(lines, env, arith, fmt).env)
    decreases |lines|
  {
    if lines != [] {
      var first := FileLine(lines[0], env, arith, fmt);
      if lines[0] != "" {
        InterpretationExtends(lines[0], env, arith, fmt);
      }
      SessionExtends(lines[1..], first.env, arith, fmt);
    }
  }

  /** main's file mode as a loop over the lines, on one map. */
  method RunFile(lines: seq<string>, variables: Env, arith: Arith, fmt: real -> string) returns (events: seq<Event>)
    modifies variables
    ensures Effect(variables.vars, events) == Session(lines, old(variables.vars), arith, fmt)
  {
    ghost var goal := Session(lines, variables.vars, arith, fmt);
    events := [];
    var i := 0;
    while i < |lines|
      invariant 0 <= i <= |lines|
      invariant SessionStep(goal, events, lines[i..], variables.vars, arith, fmt)
    {
      ghost var before := variables.vars;
      var lineEvents := [];
      if lines[i] != "" {
        lineEvents := Interpret(lines[i], variables, arith, fmt);
      }
      SessionAdvance(goal, events, lines[i..], before, Effect(variables.vars, lineEvents), arith, fmt);
      assert lines[i..][1..] == lines[i + 1..];
      events := events + lineEvents;
      i := i + 1;
    }
  }

  /** `goal` is what is written so far followed by the session on the lines left. */
  ghost predicate SessionStep(goal: Effect, events: seq<Event>, rest: seq<string>, env: Bindings, arith: Arith, fmt: real -> string)
  {
    var s := Session(rest, env, arith, fmt);
    goal == Effect(s.env, events + s.events)
  }

  lemma SessionAdvance(goal: Effect, events: seq<Event>, rest: seq<string>, env: Bindings, step: Effect, arith: Arith, fmt: real -> string)
    requires rest != [] && step == FileLine(rest[0], env, arith, fmt)
    requires SessionStep(goal, events, rest, env, arith, fmt)
    ensures SessionStep(goal, events + step.events, rest[1..], step.env, arith, fmt)
  {
    var later := Session(rest[1..], step.env, arith, fmt);
    assert Session(rest, env, arith, fmt) == Effect(later.env, step.events + later.events);
    assert events + (step.events + later.events) == events + step.events + later.events;
  }
}
