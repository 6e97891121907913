/** The character scanner of src/lexer.rs.

    The pure functions below say what one scanning step and a whole scan produce on
    the remaining input; the class `Lexer` is the cursor-based scanner itself, and
    each of its methods is proved to agree with those functions. */
module Lexing {
  import opened Wrappers
  import opened Tokens

  /** The three ways a scan can fail ("Unexpected end of input", "Invalid constant: …",
      "Invalid character: …"). */
  datatype LexError =
    | UnexpectedEndOfInput
    | InvalidConstant(text: string)
    | InvalidCharacter(ch: char)

  /** ASCII digits; the model is restricted to ASCII input. */
  predicate IsDigit(c: char) {
    '0' <= c <= '9'
  }

  predicate IsWhitespace(c: char) {
    c == ' ' || c == '\t' || c == '\n' || c == '\r'
  }

  /** Characters that continue a number once it has started. */
  predicate IsNumberChar(c: char) {
    IsDigit(c) || c == '.'
  }

  /** The single-character punctuation tokens. */
  function Punctuation(c: char): Option<Token> {
    match c
    case '{' => Some(LeftBrace)
    case '}' => Some(RightBrace)
    case '[' => Some(LeftBracket)
    case ']' => Some(RightBracket)
    case ',' => Some(Comma)
    case ':' => Some(Colon)
    case _ => None
  }

  /** The body of a string, read after its opening quote: the characters up to the next
      `"`, and what follows that quote; None when no quote is left. */
  function StringBody(s: string): (r: Option<(string, string)>)
    ensures r.None? <==> '"' !in s
    ensures r.Some? ==> '"' !in r.value.0 && s == r.value.0 + ['"'] + r.value.1
  {
    if s == [] then None
    else if s[0] == '"' then Some(([], s[1..]))
    else
      match StringBody(s[1..])
      case None => None
      case Some((body, rest)) => Some(([s[0]] + body, rest))
  }

  /** The length of the longest prefix of `s` made of digits and dots. */
  function NumberRunLength(s: string): (n: nat)
    ensures n <= |s|
    ensures forall i :: 0 <= i < n ==> IsNumberChar(s[i])
    ensures n == |s| || !IsNumberChar(s[n])
  {
    if s == [] || !IsNumberChar(s[0]) then 0 else 1 + NumberRunLength(s[1..])
  }

  /** How many characters a keyword probe takes after its first letter. */
  function ProbeLength(initial: char): nat {
    if initial == 'n' || initial == 't' then 3 else 4
  }

  /** The token a completed keyword probe denotes. */
  function Keyword(text: string): Result<Token, LexError> {
    if text == "true" then Success(Boolean(true))
    else if text == "false" then Success(Boolean(false))
    else if text == "null" then Success(Null)
    else Failure(InvalidConstant(text))
  }

  /** A string token, scanned after its opening quote. An unterminated string is not an
      error: it yields an empty string token and leaves no input. */
  function ScanString(rest: string): (r: (Token, string))
    ensures |r.1| <= |rest|
  {
    match StringBody(rest)
    case Some((body, after)) => (String(body), after)
    case None => (String(""), [])
  }

  /** A number token: `initial` and the maximal run of digits and dots after it. */
  function ScanNumber(initial: char, rest: string): (r: (Token, string))
    ensures |r.1| <= |rest|
  {
    var n := NumberRunLength(rest);
    (Number([initial] + rest[..n]), rest[n..])
  }

  /** A keyword probe after `initial`: exactly `ProbeLength(initial)` more characters. */
  function ScanKeyword(initial: char, rest: string): (r: Result<(Token, string), LexError>)
    ensures r.Success? ==> |r.value.1| <= |rest|
  {
    var k := ProbeLength(initial);
    if |rest| < k then Failure(UnexpectedEndOfInput)
    else
      match Keyword([initial] + rest[..k])
      case Success(t) => Success((t, rest[k..]))
      case Failure(e) => Failure(e)
  }

  /** The scanning step that starts with character `c`, given the input after it. */
  function ScanFrom(c: char, rest: string): (r: Result<(Token, string), LexError>)
    ensures r.Success? ==> |r.value.1| <= |rest|
  {
    if Punctuation(c).Some? then Success((Punctuation(c).value, rest))
    else if c == '"' then Success(ScanString(rest))
    else if IsWhitespace(c) then Success((Whitespace, rest))
    else if IsDigit(c) then Success(ScanNumber(c, rest))
    else if c == 't' || c == 'f' || c == 'n' then ScanKeyword(c, rest)
    else Failure(InvalidCharacter(c))
  }

  /** One scanning step on the remaining input: the token and the input left after it. */
  function ScanToken(s: string): (r: Result<(Token, string), LexError>)
    ensures r.Success? ==> |r.value.1| < |s|
  {
    if s == [] then Failure(UnexpectedEndOfInput) else ScanFrom(s[0], s[1..])
  }

  /** A whole scan: the tokens of `s` in order, or the first error met. */
  function Lex(s: string): (r: Result<seq<Token>, LexError>)
    decreases |s|
  {
    if s == [] then Success([])
    else
      match ScanToken(s)
      case Failure(e) => Failure(e)
      case Success((t, rest)) =>
        match Lex(rest)
        case Success(ts) => Success([t] + ts)
        case Failure(e) => Failure(e)
  }

  /** `prefix` followed by the tokens of `r`, or `r`'s error. */
  function Prepend(prefix: seq<Token>, r: Result<seq<Token>, LexError>): Result<seq<Token>, LexError> {
    match r
    case Success(ts) => Success(prefix + ts)
    case Failure(e) => Failure(e)
  }

  lemma PrependAssociative(a: seq<Token>, b: seq<Token>, r: Result<seq<Token>, LexError>)
    ensures Prepend(a, Prepend(b, r)) == Prepend(a + b, r)
    ensures Prepend([], r) == r
  {
    match r {
      case Success(ts) =>
        assert a + (b + ts) == (a + b) + ts;
        assert [] + ts == ts;
      case Failure(_) =>
    }
  }

  /** `prefix` in front of the body that `r` found, if any. */
  function PrependBody(prefix: string, r: Option<(string, string)>): Option<(string, string)> {
    match r
    case Some((body, rest)) => Some((prefix + body, rest))
    case None => None
  }

  lemma PrependBodyAssociative(a: string, b: string, r: Option<(string, string)>)
    ensures PrependBody(a, PrependBody(b, r)) == PrependBody(a + b, r)
    ensures PrependBody([], r) == r
  {
    match r {
      case Some((body, rest)) =>
        assert a + (b + body) == (a + b) + body;
        assert [] + body == body;
      case None =>
    }
  }

  /** The scanner: a cursor `index` into `input`, advanced one character at a time. */
  class Lexer {
    const input: string
    var index: nat

    ghost predicate Valid()
      reads this
    {
      index <= |input|
    }

    /** The input not yet scanned. */
    function Rest(): string
      reads this
      requires Valid()
    {
      input[index..]
    }

    constructor (input: string)
      ensures Valid() && this.input == input && index == 0
    {
      this.input := input;
      index := 0;
    }

    function HasNext(): (b: bool)
      reads this
      requires Valid()
      ensures b <==> Rest() != []
    {
      index < |input|
    }

    function PeekChar(): (ch: Option<char>)
      reads this
      requires Valid()
      ensures ch.None? <==> Rest() == []
      ensures ch.Some? ==> ch.value == Rest()[0]
    {
      if index < |input| then Some(input[index]) else None
    }

    method NextChar() returns (ch: Option<char>)
      requires Valid()
      modifies this
      ensures Valid()
      ensures old(Rest()) == [] ==> ch.None? && index == old(index)
      ensures old(Rest()) != [] ==> ch == Some(old(Rest())[0]) && Rest() == old(Rest())[1..]
    {
      if index < |input| {
        ch := Some(input[index]);
        index := index + 1;
      } else {
        ch := None;
      }
    }

    /** Takes `initial` and exactly `len` more characters; None (with the input used up)
        when fewer than `len` are left. */
    method ReadConstant(initial: char, len: nat) returns (r: Option<string>)
      requires Valid()
      modifies this
      ensures Valid()
      ensures |old(Rest())| < len ==> r.None? && Rest() == []
      ensures |old(Rest())| >= len ==> r == Some([initial] + old(Rest())[..len]) && Rest() == old(Rest())[len..]
    {
      var s := [initial];
      var i := 0;
      while i < len
        invariant Valid()
        invariant 0 <= i <= len
        invariant index == old(index) + i
        invariant s == [initial] + input[old(index)..index]
      {
        var ch := NextChar();
        match ch {
          case Some(c) =>
            s := s + [c];
          case None =>
            assert |old(Rest())| == i;
            return None;
        }
        i := i + 1;
      }
      assert old(Rest())[..len] == input[old(index)..index];
      r := Some(s);
    }

    /** Reads a string body after its opening quote, consuming the closing quote. */
    method ReadString() returns (r: Option<string>)
      requires Valid()
      modifies this
      ensures Valid()
      ensures StringBody(old(Rest())).None? ==> r.None? && Rest() == []
      ensures StringBody(old(Rest())).Some? ==>
                r == Some(StringBody(old(Rest())).value.0) && Rest() == StringBody(old(Rest())).value.1
    {
      var s := "";
      PrependBodyAssociative([], [], StringBody(Rest()));
      while true
        invariant Valid() && old(index) <= index
        invariant StringBody(old(Rest())) == PrependBody(s, StringBody(Rest()))
        decreases |input| - index
      {
        ghost var before := Rest();
        var ch := NextChar();
        match ch {
          case Some(c) =>
            if c == '"' {
              assert StringBody(before) == Some(([], Rest()));
              assert s + [] == s;
              break;
            }
            PrependBodyAssociative(s, [c], StringBody(Rest()));
            s := s + [c];
          case None =>
            return None;
        }
      }
      r := Some(s);
    }

    /** Reads the maximal run of digits and dots that follows `initial`. */
    method ReadNumber(initial: char) returns (num: string)
      requires Valid()
      modifies this
      ensures Valid()
      ensures num == [initial] + old(Rest())[..NumberRunLength(old(Rest()))]
      ensures Rest() == old(Rest())[NumberRunLength(old(Rest()))..]
    {
      num := [initial];
      while true
        invariant Valid() && old(index) <= index
        invariant num == [initial] + input[old(index)..index]
        invariant forall i :: old(index) <= i < index ==> IsNumberChar(input[i])
        decreases |input| - index
      {
        var next := PeekChar();
        if next.Some? && IsNumberChar(next.value) {
          var ch := NextChar();
          num := num + [ch.value];
        } else {
          break;
        }
      }
      ghost var taken := index - old(index);
      assert old(Rest())[taken..] == Rest();
      assert forall i :: 0 <= i < taken ==> IsNumberChar(old(Rest())[i]);
      assert NumberRunLength(old(Rest())) == taken;
    }

    /** One scanning step. */
    method NextToken() returns (r: Result<Token, LexError>)
      requires Valid()
      modifies this
      ensures Valid()
      ensures ScanToken(old(Rest())).Failure? ==> r == Failure(ScanToken(old(Rest())).error)
      ensures ScanToken(old(Rest())).Success? ==>
                r == Success(ScanToken(old(Rest())).value.0) && Rest() == ScanToken(old(Rest())).value.1
    {
      var next := NextChar();
      if next.None? {
        return Failure(UnexpectedEndOfInput);
      }
      var c := next.value;
      var punctuation := Punctuation(c);
      if punctuation.Some? {
        r := Success(punctuation.value);
      } else if c == '"' {
        var s := ReadString();
        r := Success(String(if s.Some? then s.value else ""));
        assert r.value == ScanString(old(Rest())[1..]).0;
      } else if IsWhitespace(c) {
        r := Success(Whitespace);
      } else if IsDigit(c) {
        var num := ReadNumber(c);
        r := Success(Number(num));
      } else if c == 't' || c == 'f' || c == 'n' {
        var probe := ReadConstant(c, ProbeLength(c));
        match probe {
          case Some(text) =>
            r := Keyword(text);
          case None =>
            r := Failure(UnexpectedEndOfInput);
        }
      } else {
        r := Failure(InvalidCharacter(c));
      }
    }

    /** Scans the rest of the input; on success the whole input has been consumed. */
    method Tokenize() returns (r: Result<seq<Token>, LexError>)
      requires Valid()
      modifies this
      ensures Valid()
      ensures r == Lex(old(Rest()))
      ensures r.Success? ==> index == |input|
    {
      var tokens := [];
      PrependAssociative([], [], Lex(Rest()));
      while HasNext()
        invariant Valid() && old(index) <= index
        invariant Lex(old(Rest())) == Prepend(tokens, Lex(Rest()))
        decreases |input| - index
      {
        var token := NextToken();
        match token {
          case Failure(e) =>
            return Failure(e);
          case Success(t) =>
            PrependAssociative(tokens, [t], Lex(Rest()));
            tokens := tokens + [t];
        }
      }
      assert tokens + [] == tokens;
      r := Success(tokens);
    }
  }

  /** `Lexer::new(input).tokenize()`: the tokens of the whole input. */
  method TokenizeText(input: string) returns (r: Result<seq<Token>, LexError>)
    ensures r == Lex(input)
  {
    var lexer := new Lexer(input);
    r := lexer.Tokenize();
  }
}


