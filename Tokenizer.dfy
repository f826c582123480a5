/** The tokenizer object of Tokenizer.h / Tokenizer.cpp: a cursor over the
    line that appends tokens in place. Each method is proved to leave the
    object in the state the matching function of module Lexer describes. */
module Tokenizer {
  import opened Decimal
  import opened Tokens
  import opened Lexer
  import opened Environment

  class Tokenizer {
    const text: string
    /** The map pointer; stored, handed out by `GetVariables`, never used. */
    const variables: Env
    var tokens: seq<Token>
    var position: nat
    var currentChar: char
    /** The messages `error` has written to the error stream, in order. */
    var reports: seq<Report>

    /** The part of the object the lexer functions describe. */
    function Snapshot(): State
      reads this
    {
      State(position, tokens, reports)
    }

    /** `Tokenizer(text)`: the tokenizer allocates a map of its own. */
    constructor FromText(text: string)
      ensures this.text == text && position == 0 && tokens == [] && reports == []
      ensures fresh(variables) && variables.vars == map[]
    {
      this.text := text;
      variables := new Env();
      tokens, position, reports := [], 0, [];
      currentChar := Sentinel;
    }

    /** `Tokenizer(text, map)`: the tokenizer keeps the caller's map pointer. */
    constructor (text: string, map_: Env)
      ensures this.text == text && position == 0 && tokens == [] && reports == []
      ensures variables == map_
    {
      this.text := text;
      variables := map_;
      tokens, position, reports := [], 0, [];
      currentChar := Sentinel;
    }

    /** `get_variables`: the very pointer the tokenizer was constructed with. */
    function GetVariables(): (e: Env)
      ensures e == variables
    {
      variables
    }

    /** `error`: the message and the current position go to the error stream. */
    method Error(kind: ReportKind)
      modifies this`reports
      ensures reports == old(reports) + [Report(kind, position)]
    {
      reports := reports + [Report(kind, position)];
    }

    method SkipSpaces()
      requires position <= |text|
      modifies this`position
      ensures position == Lexer.SkipSpaces(text, old(position))
    {
      while position < |text| && IsSpace(text[position])
        invariant old(position) <= position <= |text|
        invariant Lexer.SkipSpaces(text, position) == Lexer.SkipSpaces(text, old(position))
        decreases |text| - position
      {
        position := position + 1;
      }
    }

    method GetWord() returns (output: string)
      requires position <= |text|
      modifies this`position
      ensures (output, position) == Lexer.GetWord(text, old(position))
    {
      output := "";
      while position < |text| && IsAlnum(text[position])
        invariant old(position) <= position <= |text|
        invariant output == text[old(position)..position]
        invariant Lexer.GetWord(text, position).1 == Lexer.GetWord(text, old(position)).1
        decreases |text| - position
      {
        output := output + [text[position]];
        position := position + 1;
      }
    }

    /** `get_number`: scans from a digit, leaves the cursor on the numeral's
        last character, and returns the (negated) value as a double. */
    method GetNumber(isNeg: bool) returns (value: real)
      requires position < |text| && IsDigit(text[position])
      modifies this`position, this`reports
      ensures position + 1 == ScanNumeral(text, old(position), false).end
      ensures reports == old(reports) + InvalidReports(ScanNumeral(text, old(position), false).invalid)
      ensures value == NumberValue(text, old(position), isNeg)
    {
      ghost var whole := ScanNumeral(text, position, false);
      ghost var bad: seq<nat> := [];
      var isFloating := false;
      var num := "";
      while position < |text|
        invariant old(position) <= position <= |text|
        invariant reports == old(reports) + InvalidReports(bad)
        invariant whole == ScanJoin(num, bad, ScanNumeral(text, position, isFloating))
        decreases |text| - position
      {
        ghost var rest := ScanNumeral(text, position + 1, isFloating || text[position] == '.');
        if IsDigit(text[position]) {
          ScanJoinKeep(num, text[position], bad, rest);
          num := num + [text[position]];
        } else if text[position] == '.' {
          if !isFloating {
            ScanJoinKeep(num, text[position], bad, rest);
            num := num + [text[position]];
            isFloating := true;
          } else {
            ScanJoinDrop(num, bad, position, rest);
            InvalidReportsAppend(bad, position);
            Error(InvalidNumber);
            bad := bad + [position];
          }
        } else {
          break;
        }
        position := position + 1;
      }
      assert num == whole.kept && bad == whole.invalid;
      ScanFromDigit(text, old(position));
      position := position - 1;
      if isNeg {
        value := NumeralValue(num) * -1.0;
      } else {
        value := NumeralValue(num);
      }
    }

    method HandleWord(word: string)
      requires position <= |text|
      modifies this`position, this`tokens, this`reports
      ensures Snapshot() == Lexer.HandleWord(text, word, old(Snapshot()))
    {
      if word == "let" {
        tokens := tokens + [Token(Let, CStringVal("LET"))];
        SkipSpaces();
        var varName := GetWord();
        tokens := tokens + [Token(Variable, StringVal(varName))];
        SkipSpaces();
        if position < |text| && text[position] == '=' {
          position := position + 1;
          tokens := tokens + [Token(Assign, CharVal('='))];
        } else {
          Error(ExpectedAssign);
        }
      } else if word == "print" {
        tokens := tokens + [Token(Print, CStringVal("print"))];
      } else if word == "if" {
      } else {
        tokens := tokens + [Token(Variable, StringVal(word))];
      }
    }

    /** The branches of one iteration of `tokenize`, entered with the cursor
        where `skip_spaces` left it; the loop's closing `position++` is left
        to the caller. */
    method ScanAt()
      requires position <= |text|
      modifies this`position, this`tokens, this`reports, this`currentChar
      ensures State(position + 1, tokens, reports) == Dispatch(text, old(Snapshot()))
    {
      ghost var before := Snapshot();
      ghost var p := position;
      var c := At(text, position);
      currentChar := c;
      if IsAlpha(c) {
        var word := GetWord();
        HandleWord(word);
        position := position - 1;
      } else if c == '-' && (tokens == [] || !IsDigit(At(text, position + 1)) || MinusFollows(tokens[|tokens| - 1].kind)) {
        tokens := tokens + [Token(Minus, CharVal('-'))];
      } else if c == '-' && IsDigit(At(text, position + 1)) {
        position := position + 1;
        var newVal := GetNumber(true);
        tokens := tokens + [Token(if IsWholeNumber(newVal, DefaultEpsilon) then Integer else Float, DoubleVal(newVal))];
      } else if IsDigit(c) {
        var newVal := GetNumber(false);
        tokens := tokens + [Token(if IsWholeNumber(newVal, DefaultEpsilon) then Integer else Float, DoubleVal(newVal))];
      } else if c == '\'' {
        // reserved for character literals: nothing happens
      } else if c == '^' {
        tokens := tokens + [Token(Exponent, CharVal('^'))];
      } else if c == '+' {
        tokens := tokens + [Token(Plus, CharVal('+'))];
      } else if c == '/' {
        tokens := tokens + [Token(Divide, CharVal('/'))];
      } else if c == '*' {
        tokens := tokens + [Token(Mult, CharVal('*'))];
      } else if c == '(' {
        tokens := tokens + [Token(LParen, CharVal('('))];
      } else if c == ')' {
        tokens := tokens + [Token(RParen, CharVal(')'))];
      } else if c == '=' {
        if At(text, position + 1) == '=' {
          tokens := tokens + [Token(EqEq, CharVal('='))];
        }
      } else if c == '<' {
        if At(text, position + 1) == '=' {
          tokens := tokens + [Token(LessThanEq, CharVal(','))];
          position := position + 1;
        } else {
          tokens := tokens + [Token(LessThan, CharVal('<'))];
        }
      } else if c == '>' {
        if At(text, position + 1) == '=' {
          tokens := tokens + [Token(GreaterThanEq, CharVal('.'))];
          position := position + 1;
        } else {
          tokens := tokens + [Token(GreaterThan, CharVal('>'))];
        }
      } else if c != ' ' {
        Error(UnknownToken(c));
      }
    }

    /** `tokenize`: the token list the lexer functions give for this state. */
    method Tokenize() returns (result: seq<Token>)
      modifies this`position, this`tokens, this`reports, this`currentChar
      ensures Snapshot() == TokenizeFrom(text, old(Snapshot()))
      ensures result == tokens
      ensures unchanged(variables)
    {
      ghost var goal := TokenizeFrom(text, Snapshot());
      if position > |text| {
        Error(NoTokens);
      }
      assert goal == LexFrom(text, Snapshot());
      while position < |text|
        invariant goal == LexFrom(text, Snapshot())
        decreases |text| - position
      {
        ghost var st := Snapshot();
        LexFromUnfold(text, st);
        SkipSpaces();
        assert Snapshot() == st.(pos := Lexer.SkipSpaces(text, st.pos));
        ScanAt();
        position := position + 1;
        assert Snapshot() == Step(text, st);
      }
      result := tokens;
    }
  }
}
