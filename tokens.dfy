/**
 * The tokenizer of the symbolic-expression reader.
 *
 * `Scan(s, i)` is the specification: starting with the stream positioned at
 * `i`, it says which token `Next` produces and where the stream stands
 * afterwards, or which error `Next` throws.  `Tokenizer` is the stateful
 * object, whose `Next` reads character by character as the source does and is
 * proved to agree with `Scan`.
 */
module Tokens {
  import opened Wrappers
  import opened CLib

  datatype Bracket = Open | Close

  datatype Token =
    | BracketToken(bracket: Bracket)
    | SymbolToken(name: string)
    | ConstantToken(value: int)
    | DotToken
    | QuoteToken

  /** The exceptions `Next` lets escape: `SyntaxError` and the `std::out_of_range` of `std::stoi`. */
  datatype Error = SyntaxError(message: string) | NumberOutOfRange

  /** The token `Next` leaves behind (`None` at end of input) and the stream position after it. */
  datatype Step = Step(token: Option<Token>, next: nat)

  /**
   * The token `operator==`s, with `std::variant` comparison on top: tokens of
   * different kinds differ, symbols compare by name, constants by value, and
   * all dots, and all quotes, are equal.
   */
  function SameToken(a: Token, b: Token): (r: bool)
    ensures r <==> a == b
  {
    match (a, b)
    case (BracketToken(x), BracketToken(y)) => x == y
    case (SymbolToken(x), SymbolToken(y)) => x == y
    case (ConstantToken(x), ConstantToken(y)) => x == y
    case (DotToken, DotToken) => true
    case (QuoteToken, QuoteToken) => true
    case _ => false
  }

  // Characters that open a symbol: letters and `<>=*/#!?`.
  predicate IsSymbolStart(c: char) {
    IsAlpha(c) || c in "<>=*/#!?"
  }

  // Characters that continue a symbol: letters, digits and `<>=*/#!-?`.
  predicate IsSymbolChar(c: char) {
    IsAlnum(c) || c in "<>=*/#!-?"
  }

  /** The end of the run of symbol characters that starts at `i`. */
  function SymbolRunEnd(s: string, i: nat): (j: nat)
    requires i <= |s|
    ensures i <= j <= |s|
    ensures j < |s| ==> !IsSymbolChar(s[j])
    ensures forall k | i <= k < j :: IsSymbolChar(s[k])
    decreases |s| - i
  {
    if i < |s| && IsSymbolChar(s[i]) then SymbolRunEnd(s, i + 1) else i
  }

  /**
   * What `Next` does with the stream positioned at `i`: skip white space;
   * at the end report no token; map `(`, `)`, `.` and `'` to their tokens;
   * reject `@`; read a sign or digit followed by digits as a constant (or as
   * a symbol when `std::stoi` finds no digits); read a symbol run; and make
   * any other character a one-character symbol.
   */
  function Scan(s: string, i: nat): (r: Result<Step, Error>)
    requires i <= |s|
    ensures r.Success? ==> i <= r.value.next <= |s|
    ensures r.Success? && r.value.token.Some? ==> i < r.value.next
    ensures r.Success? && r.value.token.None? ==> r.value.next == |s|
  {
    var j := SpaceRunEnd(s, i);
    if j == |s| then
      Success(Step(None, |s|))
    else
      var c := s[j];
      if c == '(' then Success(Step(Some(BracketToken(Open)), j + 1))
      else if c == ')' then Success(Step(Some(BracketToken(Close)), j + 1))
      else if c == '.' then Success(Step(Some(DotToken), j + 1))
      else if c == '\'' then Success(Step(Some(QuoteToken), j + 1))
      else if c == '@' then Failure(SyntaxError("invalid character"))
      else if IsDigit(c) || c == '-' || c == '+' then NumberAt(s, j)
      else if IsSymbolStart(c) then
        var e := SymbolRunEnd(s, j + 1);
        Success(Step(Some(SymbolToken(s[j..e])), e))
      else
        Success(Step(Some(SymbolToken([c])), j + 1))
  }

  /**
   * A sign or digit at `j` and the digits after it, read by `std::stoi`: a
   * constant, a symbol when there is no digit, or the overflow error.
   */
  function NumberAt(s: string, j: nat): (r: Result<Step, Error>)
    requires j < |s|
    ensures r.Success? ==> j < r.value.next <= |s| && r.value.token.Some?
  {
    var e := DigitRunEnd(s, j + 1);
    var text := s[j..e];
    match Stoi(text)
    case Success(v) => Success(Step(Some(ConstantToken(v)), e))
    case Failure(InvalidArgument) => Success(Step(Some(SymbolToken(text)), e))
    case Failure(OutOfRange) => Failure(NumberOutOfRange)
  }

  class Tokenizer {
    /** The whole input stream `*in_`. */
    const input: string
    /** How many characters of the stream have been consumed. */
    var pos: nat
    /** `char_`: the character last read, `None` for `EOF`. */
    var current: Option<char>
    /** `token_`. */
    var token: Option<Token>
    /** Where the stream stood when the current token's scan began. */
    ghost var start: nat

    /** The current token and position are what `Scan` gives from `start`. */
    ghost predicate Valid()
      reads this
    {
      start <= pos <= |input| && Scan(input, start) == Success(Step(token, pos))
    }

    /** The token and stream position as one value. */
    function State(): Step
      reads this
    {
      Step(token, pos)
    }

    /** The member initialisers: nothing read yet, `char_` is `-1`, no token. */
    constructor Init(text: string)
      ensures input == text && pos == 0 && current.None? && token.None? && start == 0
    {
      input, pos, current, token, start := text, 0, None, None, 0;
    }

    /**
     * `Tokenizer(std::istream*)`: positions the tokenizer on the first token,
     * so construction fails exactly when scanning the first token does.
     */
    static method Create(text: string) returns (r: Result<Tokenizer, Error>)
      ensures r.Failure? <==> Scan(text, 0).Failure?
      ensures r.Failure? ==> r.error == Scan(text, 0).error
      ensures r.Success? ==> fresh(r.value) && r.value.Valid() && r.value.input == text && r.value.start == 0
    {
      var t := new Tokenizer.Init(text);
      var failure := t.Next();
      if failure.Some? {
        return Failure(failure.value);
      }
      return Success(t);
    }

    /** `Read()`: one character from the stream, or `EOF` at its end. */
    method ReadChar()
      requires pos <= |input|
      modifies this
      ensures old(pos) < |input| ==> pos == old(pos) + 1 && current == Some(input[old(pos)])
      ensures old(pos) == |input| ==> pos == old(pos) && current.None?
      ensures token == old(token) && start == old(start)
    {
      if pos < |input| {
        current := Some(input[pos]);
        pos := pos + 1;
      } else {
        current := None;
      }
    }

    /** `in_->peek()`: the next character without consuming it, `None` at the end. */
    function Peek(): (r: Option<char>)
      reads this
      requires pos <= |input|
      ensures r.Some? <==> pos < |input|
      ensures r.Some? ==> r.value == input[pos]
    {
      if pos < |input| then Some(input[pos]) else None
    }

    /**
     * `Next()`: drops the current token and scans the next one from the
     * stream.  It returns the exception it throws, if any; after one the token
     * is left empty.
     */
    method Next() returns (failure: Option<Error>)
      requires pos <= |input|
      modifies this
      ensures pos <= |input| && start == old(pos)
      ensures Scan(input, old(pos)).Success? ==> failure.None? && Valid()
      ensures Scan(input, old(pos)).Failure? ==>
        failure == Some(Scan(input, old(pos)).error) && token.None?
    {
      token := None;
      start := pos;
      while true
        invariant start == old(pos) <= pos <= |input| && token.None?
        invariant SpaceRunEnd(input, start) == SpaceRunEnd(input, pos)
        decreases |input| - pos
      {
        ReadChar();
        if current.Some? && IsSpace(current.value) {
          continue;
        }
        if current.None? {
          return None;
        }
        failure := Classify();
        return;
      }
    }

    /**
     * The body of `Next` once a character other than white space has been
     * read: a one-character token, the `@` error, a number or a symbol.
     */
    method Classify() returns (failure: Option<Error>)
      requires start < pos <= |input| && SpaceRunEnd(input, start) == pos - 1
      requires current == Some(input[pos - 1]) && token.None?
      modifies this
      ensures pos <= |input| && start == old(start)
      ensures Scan(input, start).Success? ==> failure.None? && Valid()
      ensures Scan(input, start).Failure? ==>
        failure == Some(Scan(input, start).error) && token.None?
    {
      var c := current.value;
      if c == '(' {
        token := Some(BracketToken(Open));
        return None;
      } else if c == ')' {
        token := Some(BracketToken(Close));
        return None;
      } else if c == '.' {
        token := Some(DotToken);
        return None;
      } else if c == '\'' {
        token := Some(QuoteToken);
        return None;
      } else if c == '@' {
        return Some(SyntaxError("invalid character"));
      }
      if IsDigit(c) || c == '-' || c == '+' {
        var text := ReadDigits();
        var number := Stoi(text);
        if number.Success? {
          token := Some(ConstantToken(number.value));
          return None;
        } else if number.error == InvalidArgument {
          token := Some(SymbolToken(text));
          return None;
        } else {
          return Some(NumberOutOfRange);
        }
      }
      if IsSymbolStart(c) {
        var text := ReadSymbolChars();
        token := Some(SymbolToken(text));
        return None;
      }
      token := Some(SymbolToken([c]));
      return None;
    }

    /** The `number_str` loop: the character read so far, then every digit that follows. */
    method ReadDigits() returns (text: string)
      requires 0 < pos <= |input| && current == Some(input[pos - 1])
      modifies this
      ensures pos == DigitRunEnd(input, old(pos))
      ensures text == input[old(pos) - 1..pos]
      ensures token == old(token) && start == old(start)
    {
      text := [current.value];
      while Peek().Some? && IsDigit(Peek().value)
        invariant old(pos) <= pos <= |input| && token == old(token) && start == old(start)
        invariant text == input[old(pos) - 1..pos]
        invariant forall k | old(pos) <= k < pos :: IsDigit(input[k])
        decreases |input| - pos
      {
        ReadChar();
        text := text + [current.value];
      }
    }

    /** The `symbol_str` loop: the character read so far, then every symbol character that follows. */
    method ReadSymbolChars() returns (text: string)
      requires 0 < pos <= |input| && current == Some(input[pos - 1])
      modifies this
      ensures pos == SymbolRunEnd(input, old(pos))
      ensures text == input[old(pos) - 1..pos]
      ensures token == old(token) && start == old(start)
    {
      text := [current.value];
      while Peek().Some? && IsSymbolChar(Peek().value)
        invariant old(pos) <= pos <= |input| && token == old(token) && start == old(start)
        invariant text == input[old(pos) - 1..pos]
        invariant forall k | old(pos) <= k < pos :: IsSymbolChar(input[k])
        decreases |input| - pos
      {
        ReadChar();
        text := text + [current.value];
      }
    }

    /** `IsEnd()`: no current token. */
    predicate IsEnd()
      reads this
    {
      token.None?
    }

    /**
     * White space is skipped: the tokenizer is at its end exactly when only
     * white space followed the position its last scan started from, and then
     * the whole input is consumed and `GetToken` gives the empty symbol.
     */
    lemma EndOfInput()
      requires Valid()
      ensures IsEnd() <==> SpaceRunEnd(input, start) == |input|
      ensures IsEnd() ==> pos == |input| && GetToken() == SymbolToken("")
    {
    }

    /** `GetToken()`: the current token, or the empty symbol at the end. */
    function GetToken(): (r: Token)
      reads this
      ensures token.Some? ==> r == token.value
      ensures token.None? ==> r == SymbolToken("")
    {
      if token.Some? then token.value else SymbolToken("")
    }
  }
}
