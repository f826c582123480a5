/** Tokens: the kind enumeration, the payload a token carries, and the
    debug rendering `type_to_str` / `any_to_str` / `to_str` (Token.h). */
module Tokens {
  import opened Decimal

  datatype TokenType =
    | Integer | Float | Char
    | Plus | Minus | Mult | Divide | Exponent
    | LessThan | LessThanEq | GreaterThan | GreaterThanEq | EqEq | And | Or
    | LParen | RParen
    | Let | Variable | Assign | UnaryOp | Print | If
    | EoF

  /** The payload a token's `std::any` holds, tagged by its dynamic type.
      `CStringVal` is a `const char*` (the literals stored by LET and PRINT). */
  datatype Payload =
    | Empty
    | IntVal(i: int)
    | FloatVal(f: real)
    | DoubleVal(d: real)
    | StringVal(s: string)
    | CharVal(c: char)
    | CStringVal(cs: string)

  /** A token is a value: the C++ class is copied into and out of vectors,
      so the getters are the fields and the setters return the updated copy. */
  datatype Token = Token(kind: TokenType, value: Payload)
  {
    function SetType(k: TokenType): (t: Token)
      ensures t.kind == k && t.value == value
    {
      this.(kind := k)
    }

    function SetValue(v: Payload): (t: Token)
      ensures t.kind == kind && t.value == v
    {
      this.(value := v)
    }
  }

  /** The kinds `type_to_str` has a case for; the others fall to "NONE". */
  predicate Named(k: TokenType)
  {
    !(k.Char? || k.EqEq? || k.If?)
  }

  function TypeToStr(k: TokenType): string
  {
    match k
    case Integer => "INTEGER"
    case Float => "FLOAT"
    case Plus => "PLUS"
    case EoF => "EoF"
    case Minus => "MINUS"
    case Mult => "MULT"
    case Divide => "DIVIDE"
    case Exponent => "EXPONENT"
    case LParen => "LPAREN"
    case RParen => "RPAREN"
    case Let => "LET"
    case LessThan => "LESS_THAN"
    case GreaterThan => "GREATER_THAN"
    case Variable => "VARIABLE"
    case Assign => "ASSIGN"
    case UnaryOp => "UNARY_OP"
    case Print => "PRINT"
    case GreaterThanEq => "GREATER_THAN_EQ"
    case LessThanEq => "LESS_THAN_EQ"
    case And => "AND"
    case Or => "OR"
    case _ => "NONE"
  }

  /** Reads a kind name back: the inverse of `TypeToStr` on the named kinds. */
  function KindOfName(s: string): Option<TokenType>
  {
    if s == "INTEGER" then Some(Integer)
    else if s == "FLOAT" then Some(Float)
    else if s == "PLUS" then Some(Plus)
    else if s == "EoF" then Some(EoF)
    else if s == "MINUS" then Some(Minus)
    else if s == "MULT" then Some(Mult)
    else if s == "DIVIDE" then Some(Divide)
    else if s == "EXPONENT" then Some(Exponent)
    else if s == "LPAREN" then Some(LParen)
    else if s == "RPAREN" then Some(RParen)
    else if s == "LET" then Some(Let)
    else if s == "LESS_THAN" then Some(LessThan)
    else if s == "GREATER_THAN" then Some(GreaterThan)
    else if s == "VARIABLE" then Some(Variable)
    else if s == "ASSIGN" then Some(Assign)
    else if s == "UNARY_OP" then Some(UnaryOp)
    else if s == "PRINT" then Some(Print)
    else if s == "GREATER_THAN_EQ" then Some(GreaterThanEq)
    else if s == "LESS_THAN_EQ" then Some(LessThanEq)
    else if s == "AND" then Some(And)
    else if s == "OR" then Some(Or)
    else None
  }

  datatype Option<T> = None | Some(value: T)

  /** Every named kind renders as its own name, and distinct named kinds
      render differently (the name determines the kind). */
  lemma TypeToStrNamesKind(k: TokenType)
    ensures Named(k) ==> KindOfName(TypeToStr(k)) == Some(k)
    ensures !Named(k) <==> TypeToStr(k) == "NONE"
  {
  }

  /** The kind names hold no blank, so " | " never occurs inside one. */
  lemma TypeToStrHasNoBlank(k: TokenType)
    ensures forall i :: 0 <= i < |TypeToStr(k)| ==> TypeToStr(k)[i] != ' '
  {
  }

  /** `any_to_str`: the payload as text. Doubles and floats are written by
      `ostream`'s default formatting, which is the parameter `fmt`. */
  function AnyToStr(a: Payload, fmt: real -> string): string
  {
    match a
    case IntVal(i) => IntToString(i)
    case FloatVal(f) => fmt(f)
    case DoubleVal(d) => fmt(d)
    case StringVal(s) => s
    case Empty => "null"
    case CharVal(_) => "char"
    case CStringVal(_) => "Unsupported type"
  }

  /** `to_str`: the kind's name, " | ", then the payload's text. */
  function ToStr(t: Token, fmt: real -> string): string
  {
    TypeToStr(t.kind) + " | " + AnyToStr(t.value, fmt)
  }

  /** " | " starts at index i of s. */
  predicate SeparatorAt(s: string, i: nat)
  {
    i + 3 <= |s| && s[i] == ' ' && s[i + 1] == '|' && s[i + 2] == ' '
  }

  /** The index of the first " | " in `s`, or |s| when there is none. */
  function SeparatorIndex(s: string): (k: nat)
    ensures k <= |s|
    ensures k < |s| ==> SeparatorAt(s, k)
    ensures forall i :: 0 <= i < k ==> !SeparatorAt(s, i)
  {
    if |s| < 3 then |s|
    else if SeparatorAt(s, 0) then 0
    else
      var k := 1 + SeparatorIndex(s[1..]);
      assert forall i :: 1 <= i < k ==> SeparatorAt(s, i) == SeparatorAt(s[1..], i - 1);
      k
  }

  /** The kind a debug line names: the text before its first " | ". */
  function KindOfLine(line: string): Option<TokenType>
  {
    KindOfName(line[..SeparatorIndex(line)])
  }

  /** The payload a debug line shows: the text after its first " | ",
      or nothing when it has none. */
  function PayloadOfLine(line: string): string
  {
    var k := SeparatorIndex(line);
    if k < |line| then line[k + 3..] else ""
  }

  /** The first " | " of a debug line is the one right after the kind's name. */
  lemma SeparatorAfterName(t: Token, fmt: real -> string)
    ensures SeparatorIndex(ToStr(t, fmt)) == |TypeToStr(t.kind)|
  {
    var name := TypeToStr(t.kind);
    var line := ToStr(t, fmt);
    TypeToStrHasNoBlank(t.kind);
    assert SeparatorAt(line, |name|);
    forall i | 0 <= i < |name|
      ensures !SeparatorAt(line, i)
    {
      assert line[i] == name[i];
    }
  }

  /** A debug line names its token's kind, whatever the payload renders as. */
  lemma DebugLineNamesKind(t: Token, fmt: real -> string)
    requires Named(t.kind)
    ensures KindOfLine(ToStr(t, fmt)) == Some(t.kind)
  {
    SeparatorAfterName(t, fmt);
    TypeToStrNamesKind(t.kind);
    assert ToStr(t, fmt)[..|TypeToStr(t.kind)|] == TypeToStr(t.kind);
  }

  /** What a debug line shows after " | " is the payload's text: a word's
      own characters, a number's rendering by `fmt`, "null" for no payload. */
  lemma DebugLinePayload(t: Token, fmt: real -> string)
    ensures PayloadOfLine(ToStr(t, fmt)) == AnyToStr(t.value, fmt)
    ensures t.value.StringVal? ==> PayloadOfLine(ToStr(t, fmt)) == t.value.s
    ensures t.value.DoubleVal? ==> PayloadOfLine(ToStr(t, fmt)) == fmt(t.value.d)
    ensures t.value.IntVal? ==> PayloadOfLine(ToStr(t, fmt)) == IntToString(t.value.i)
    ensures t.value.Empty? ==> PayloadOfLine(ToStr(t, fmt)) == "null"
  {
    SeparatorAfterName(t, fmt);
    assert ToStr(t, fmt)[|TypeToStr(t.kind)| + 3..] == AnyToStr(t.value, fmt);
  }
}
