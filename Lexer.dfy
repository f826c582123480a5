/** The lexer as pure functions: one function per helper of Tokenizer.cpp
    and one per iteration of the main loop of `Tokenizer::tokenize`. The
    imperative class in module Tokenizer is proved to compute exactly these. */
module Lexer {
  import opened Decimal
  import opened Tokens

  /** What `text[text.size()]` yields on a `std::string`. */
  const Sentinel: char := '\0'

  /** `text[i]` for `i <= text.size()`. */
  function At(text: string, i: nat): char
    requires i <= |text|
  {
    if i < |text| then text[i] else Sentinel
  }

  predicate IsAlpha(c: char) { 'a' <= c <= 'z' || 'A' <= c <= 'Z' }

  predicate IsAlnum(c: char) { IsAlpha(c) || IsDigit(c) }

  /** `isspace` in the C locale. */
  predicate IsSpace(c: char)
  {
    c == ' ' || c == '\t' || c == '\n' || c == '\r' || c as int == 11 || c as int == 12
  }

  /** The default `epsilon` of `is_whole_number`. */
  const DefaultEpsilon: real := 0.00000001

  /** `is_whole_number`: `floor(number) == number`; `epsilon` takes no part. */
  function IsWholeNumber(number: real, epsilon: real): bool
  {
    number.Floor as real == number
  }

  /** The whole numbers are exactly the integers, whatever `epsilon` is. */
  lemma WholeNumbersAreIntegers(number: real, epsilon: real, k: int)
    ensures IsWholeNumber(k as real, epsilon)
    ensures IsWholeNumber(number, epsilon) ==> number == number.Floor as real
    ensures !IsWholeNumber(number, epsilon) ==> number.Floor as real < number < number.Floor as real + 1.0
  {
  }

  /** The messages `Tokenizer::error` writes, with the char of "Unknown Token"
      (which line 100 writes to the output stream just before). */
  datatype ReportKind = NoTokens | UnknownToken(c: char) | InvalidNumber | ExpectedAssign

  /** One call of `Tokenizer::error`: the message and the position it reports. */
  datatype Report = Report(kind: ReportKind, position: nat)

  /** The tokenizer's mutable state: the `position` cursor, the `tokens`
      vector and the messages reported so far. */
  datatype State = State(pos: nat, tokens: seq<Token>, reports: seq<Report>)

  /** `skip_spaces`: the first non-space index at or after `i`. */
  function SkipSpaces(text: string, i: nat): (j: nat)
    requires i <= |text|
    ensures i <= j <= |text|
    ensures forall k :: i <= k < j ==> IsSpace(text[k])
    ensures j == |text| || !IsSpace(text[j])
    decreases |text| - i
  {
    if i < |text| && IsSpace(text[i]) then SkipSpaces(text, i + 1) else i
  }

  /** `get_word`: the maximal alphanumeric run starting at `i`, and its end. */
  function GetWord(text: string, i: nat): (r: (string, nat))
    requires i <= |text|
    ensures i <= r.1 <= |text| && r.0 == text[i..r.1]
    ensures forall k :: i <= k < r.1 ==> IsAlnum(text[k])
    ensures r.1 == |text| || !IsAlnum(text[r.1])
    decreases |text| - i
  {
    if i < |text| && IsAlnum(text[i]) then
      var (w, j) := GetWord(text, i + 1);
      ([text[i]] + w, j)
    else ([], i)
  }

  /** The outcome of `get_number`'s scanning loop from some index on: the
      characters it kept, where it stopped, and where it reported a second point. */
  datatype Scan = Scan(kept: string, end: nat, invalid: seq<nat>)

  /** The characters of `s` that are not a point. */
  function Undotted(s: string): string
  {
    if s == [] then [] else (if s[0] == '.' then [] else [s[0]]) + Undotted(s[1..])
  }

  /** `get_number`'s loop from index `i`, `dotSeen` being its `is_floating`
      flag: a maximal run of digits and points; the first point is kept,
      every later one is reported and dropped. */
  function ScanNumeral(text: string, i: nat, dotSeen: bool): (r: Scan)
    requires i <= |text|
    ensures i <= r.end <= |text|
    decreases |text| - i
  {
    if i < |text| && IsDigit(text[i]) then
      var rest := ScanNumeral(text, i + 1, dotSeen);
      Scan([text[i]] + rest.kept, rest.end, rest.invalid)
    else if i < |text| && text[i] == '.' then
      var rest := ScanNumeral(text, i + 1, true);
      if dotSeen then Scan(rest.kept, rest.end, [i] + rest.invalid)
      else Scan([text[i]] + rest.kept, rest.end, rest.invalid)
    else Scan([], i, [])
  }

  /** A scan from some index on, after `kept` was kept and `invalid` reported. */
  function ScanJoin(kept: string, invalid: seq<nat>, rest: Scan): Scan
  {
    Scan(kept + rest.kept, rest.end, invalid + rest.invalid)
  }

  lemma ScanJoinKeep(kept: string, c: char, invalid: seq<nat>, rest: Scan)
    ensures ScanJoin(kept, invalid, Scan([c] + rest.kept, rest.end, rest.invalid)) == ScanJoin(kept + [c], invalid, rest)
  {
    assert kept + ([c] + rest.kept) == (kept + [c]) + rest.kept;
  }

  lemma ScanJoinDrop(kept: string, invalid: seq<nat>, p: nat, rest: Scan)
    ensures ScanJoin(kept, invalid, Scan(rest.kept, rest.end, [p] + rest.invalid)) == ScanJoin(kept, invalid + [p], rest)
  {
    assert invalid + ([p] + rest.invalid) == (invalid + [p]) + rest.invalid;
  }

  lemma InvalidReportsAppend(ps: seq<nat>, p: nat)
    ensures InvalidReports(ps + [p]) == InvalidReports(ps) + [Report(InvalidNumber, p)]
  {
  }

  /** The token `tokenize` pushes for a numeric value. */
  function NumberToken(v: real): (t: Token)
    ensures t.value == DoubleVal(v)
    ensures t.kind == Integer <==> v.Floor as real == v
    ensures t.kind == Integer || t.kind == Float
  {
    Token(if IsWholeNumber(v, DefaultEpsilon) then Integer else Float, DoubleVal(v))
  }

  lemma UndottedCons(c: char, s: string)
    ensures Undotted([c] + s) == (if c == '.' then [] else [c]) + Undotted(s)
  {
    assert ([c] + s)[1..] == s;
  }

  /** The scan stops at the first character that is neither a digit nor a
      point, and every character it passes is either kept or reported (at
      its own index) as a second point. */
  lemma {:induction false} ScanNumeralRun(text: string, i: nat, dotSeen: bool, r: Scan)
    requires i <= |text| && r == ScanNumeral(text, i, dotSeen)
    ensures forall k :: i <= k < r.end ==> IsDigit(text[k]) || text[k] == '.'
    ensures r.end == |text| || !(IsDigit(text[r.end]) || text[r.end] == '.')
    ensures |r.kept| + |r.invalid| == r.end - i
    ensures forall k :: 0 <= k < |r.invalid| ==> i <= r.invalid[k] < r.end && text[r.invalid[k]] == '.'
    decreases |text| - i
  {
    if i < |text| && IsDigit(text[i]) {
      ScanNumeralRun(text, i + 1, dotSeen, ScanNumeral(text, i + 1, dotSeen));
    } else if i < |text| && text[i] == '.' {
      ScanNumeralRun(text, i + 1, true, ScanNumeral(text, i + 1, true));
    }
  }

  /** The scan keeps every digit it passes, in order, and at most one point
      (none once `dotSeen`). */
  lemma {:induction false} ScanNumeralKept(text: string, i: nat, dotSeen: bool, r: Scan)
    requires i <= |text| && r == ScanNumeral(text, i, dotSeen)
    ensures Undotted(r.kept) == Undotted(text[i..r.end])
    ensures forall k :: 0 <= k < |r.kept| ==> IsDigit(r.kept[k]) || r.kept[k] == '.'
    ensures forall k, l :: 0 <= k < l < |r.kept| && r.kept[k] == '.' ==> r.kept[l] != '.'
    ensures dotSeen ==> forall k :: 0 <= k < |r.kept| ==> r.kept[k] != '.'
    decreases |text| - i
  {
    if i < |text| && IsDigit(text[i]) {
      var rest := ScanNumeral(text, i + 1, dotSeen);
      ScanNumeralKept(text, i + 1, dotSeen, rest);
      assert text[i..r.end] == [text[i]] + text[i + 1..r.end];
      UndottedCons(text[i], text[i + 1..r.end]);
      UndottedCons(text[i], rest.kept);
    } else if i < |text| && text[i] == '.' {
      var rest := ScanNumeral(text, i + 1, true);
      ScanNumeralKept(text, i + 1, true, rest);
      assert text[i..r.end] == [text[i]] + text[i + 1..r.end];
      UndottedCons(text[i], text[i + 1..r.end]);
      if !dotSeen {
        UndottedCons(text[i], rest.kept);
      }
    }
  }

  /** A numeral scanned from a digit is a well-formed numeral. */
  lemma ScanFromDigit(text: string, i: nat)
    requires i < |text| && IsDigit(text[i])
    ensures IsNumeral(ScanNumeral(text, i, false).kept)
  {
    ScanNumeralKept(text, i, false, ScanNumeral(text, i, false));
  }

  /** The value `get_number(is_neg)` returns for the numeral at digit index `i`. */
  function NumberValue(text: string, i: nat, negative: bool): real
    requires i < |text| && IsDigit(text[i])
  {
    ScanFromDigit(text, i);
    var v := NumeralValue(ScanNumeral(text, i, false).kept);
    if negative then -v else v
  }

  /** `get_number(is_neg)` called at digit index `i`, and the push of its
      token: the cursor ends past the numeral, the extra points are reported. */
  function GetNumber(text: string, i: nat, negative: bool, st: State): (r: State)
    requires i < |text| && IsDigit(text[i])
  {
    var scan := ScanNumeral(text, i, false);
    State(scan.end, st.tokens + [NumberToken(NumberValue(text, i, negative))],
          st.reports + InvalidReports(scan.invalid))
  }

  function InvalidReports(ps: seq<nat>): (rs: seq<Report>)
    ensures |rs| == |ps|
    ensures forall k :: 0 <= k < |ps| ==> rs[k] == Report(InvalidNumber, ps[k])
  {
    if ps == [] then [] else [Report(InvalidNumber, ps[0])] + InvalidReports(ps[1..])
  }

  /** `handle_word` with the cursor just past `word`. */
  function HandleWord(text: string, word: string, st: State): (r: State)
    requires st.pos <= |text|
    ensures st.pos <= r.pos <= |text|
  {
    if word == "let" then
      var p1 := SkipSpaces(text, st.pos);
      var (name, p2) := GetWord(text, p1);
      var p3 := SkipSpaces(text, p2);
      var toks := st.tokens + [Token(Let, CStringVal("LET")), Token(Variable, StringVal(name))];
      if p3 < |text| && text[p3] == '=' then State(p3 + 1, toks + [Token(Assign, CharVal('='))], st.reports)
      else State(p3, toks, st.reports + [Report(ExpectedAssign, p3)])
    else if word == "print" then State(st.pos, st.tokens + [Token(Print, CStringVal("print"))], st.reports)
    else if word == "if" then st
    else State(st.pos, st.tokens + [Token(Variable, StringVal(word))], st.reports)
  }

  /** The kinds after which a `-` followed by a digit is still the operator. */
  predicate MinusFollows(k: TokenType)
  {
    k == LParen || k == Plus || k == Minus || k == Mult || k == Divide
  }

  /** The condition of Tokenizer.cpp:27: `-` at index `p` is the MINUS operator. */
  predicate MinusIsOperator(text: string, p: nat, tokens: seq<Token>)
    requires p < |text|
  {
    tokens == [] || !IsDigit(At(text, p + 1)) || MinusFollows(tokens[|tokens| - 1].kind)
  }

  function Push(st: State, p: nat, t: Token): State
  {
    State(p, st.tokens + [t], st.reports)
  }

  /** One iteration of the main loop of `tokenize`, from `skip_spaces` to the
      closing `position++`. */
  function Step(text: string, st: State): (r: State)
    requires st.pos < |text|
    ensures st.pos < r.pos <= |text| + 1
    ensures st.tokens <= r.tokens && st.reports <= r.reports
  {
    Dispatch(text, st.(pos := SkipSpaces(text, st.pos)))
  }

  /** The branches of one iteration, entered with the cursor where
      `skip_spaces` stopped; the result's cursor includes the closing `position++`. */
  function Dispatch(text: string, st: State): (r: State)
    requires st.pos <= |text|
    ensures st.pos < r.pos <= |text| + 1
    ensures st.tokens <= r.tokens && st.reports <= r.reports
  {
    var p := st.pos;
    var c := At(text, p);
    if IsAlpha(c) then
      var (word, q) := GetWord(text, p);
      HandleWord(text, word, State(q, st.tokens, st.reports))
    else if c == '-' && MinusIsOperator(text, p, st.tokens) then Push(st, p + 1, Token(Minus, CharVal('-')))
    else if c == '-' then GetNumber(text, p + 1, true, st)
    else if IsDigit(c) then GetNumber(text, p, false, st)
    else if c == '\'' then State(p + 1, st.tokens, st.reports)
    else if c == '^' then Push(st, p + 1, Token(Exponent, CharVal('^')))
    else if c == '+' then Push(st, p + 1, Token(Plus, CharVal('+')))
    else if c == '/' then Push(st, p + 1, Token(Divide, CharVal('/')))
    else if c == '*' then Push(st, p + 1, Token(Mult, CharVal('*')))
    else if c == '(' then Push(st, p + 1, Token(LParen, CharVal('(')))
    else if c == ')' then Push(st, p + 1, Token(RParen, CharVal(')')))
    else if c == '=' then
      if At(text, p + 1) == '=' then Push(st, p + 1, Token(EqEq, CharVal('='))) else State(p + 1, st.tokens, st.reports)
    else if c == '<' then
      if At(text, p + 1) == '=' then Push(st, p + 2, Token(LessThanEq, CharVal(',')))
      else Push(st, p + 1, Token(LessThan, CharVal('<')))
    else if c == '>' then
      if At(text, p + 1) == '=' then Push(st, p + 2, Token(GreaterThanEq, CharVal('.')))
      else Push(st, p + 1, Token(GreaterThan, CharVal('>')))
    else State(p + 1, st.tokens, st.reports + (if c != ' ' then [Report(UnknownToken(c), p)] else []))
  }

  /** The numeral branches of `Dispatch`: a `-` that is not an operator, or
      a digit, is the start of a numeral read by `get_number`. */
  lemma DispatchNumber(text: string, st: State) returns (i: nat, negative: bool)
    requires st.pos <= |text|
    requires var c := At(text, st.pos); !IsAlpha(c) && (c == '-' || IsDigit(c)) && !(c == '-' && MinusIsOperator(text, st.pos, st.tokens))
    ensures negative == (At(text, st.pos) == '-') && i == if negative then st.pos + 1 else st.pos
    ensures i < |text| && IsDigit(text[i])
    ensures Dispatch(text, st) == GetNumber(text, i, negative, st)
  {
    negative := At(text, st.pos) == '-';
    i := if negative then st.pos + 1 else st.pos;
    if negative {
      assert At(text, st.pos + 1) == text[st.pos + 1];
    }
  }

  /** The main loop of `tokenize`: iterate `Step` while `position < size`. */
  function LexFrom(text: string, st: State): (r: State)
    ensures st.tokens <= r.tokens && st.reports <= r.reports
    ensures r.pos >= |text| && (st.pos >= |text| ==> r == st)
    decreases |text| - st.pos
  {
    if st.pos < |text| then LexFrom(text, Step(text, st)) else st
  }

  lemma LexFromUnfold(text: string, st: State)
    requires st.pos < |text|
    ensures LexFrom(text, st) == LexFrom(text, Dispatch(text, st.(pos := SkipSpaces(text, st.pos))))
  {
  }

  /** `tokenize` from any state: the guard of Tokenizer.cpp:14, then the loop. */
  function TokenizeFrom(text: string, st: State): (r: State)
    ensures st.tokens <= r.tokens && st.reports <= r.reports
  {
    var st1 := if st.pos > |text| then State(st.pos, st.tokens, st.reports + [Report(NoTokens, st.pos)]) else st;
    LexFrom(text, st1)
  }

  /** A fresh tokenizer's `tokenize()` on `text`. */
  function Lex(text: string): State
  {
    TokenizeFrom(text, State(0, [], []))
  }
}
