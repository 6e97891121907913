/** The parser of src/parser.rs.

    `SkipWs`, `ObjectSpec`, `ValueSpec` and `ParseSpec` say what the parser does to a
    token sequence: each returns the value it builds together with the tokens it leaves
    unread. The class `Parser` is the parser itself, a cursor `pos` into the token
    sequence, and each of its methods is proved to agree with the matching function. */
module Parsing {
  import opened Wrappers
  import opened Tokens
  import opened Values

  /** The kinds of error `parse` reports (its messages, without their text). */
  datatype ParseError =
    | NoTokensToParse                // "No tokens to parse"
    | ExpectedStringKeyOrRightBrace  // "Expected string key or right brace"
    | ExpectedColon                  // "Expected colon after key in object"
    | ExpectedCommaOrRightBrace      // "Expected comma or right brace"
    | UnexpectedRightBrace           // "Unexpected right brace"
    | UnexpectedToken                // "Unexpected token"

  /** How a parse ends: a result, an error, or a panic of `.parse().unwrap()` on a
      numeral that is not a float. */
  datatype Outcome<+T> = Done(value: T) | Failed(error: ParseError) | Panicked(numeral: string)

  /** A parse step: the value read and the tokens left after it. */
  type Step = Outcome<(JsonValue, seq<Token>)>

  /** The outcome of a step without the tokens it left. */
  function OutcomeOf(s: Step): Outcome<JsonValue> {
    match s
    case Done((v, _)) => Done(v)
    case Failed(e) => Failed(e)
    case Panicked(n) => Panicked(n)
  }

  /** `ts` without its leading whitespace tokens. */
  function SkipWs(ts: seq<Token>): (r: seq<Token>)
    ensures |r| <= |ts|
    ensures r == [] || r[0] != Whitespace
  {
    if ts != [] && ts[0] == Whitespace then SkipWs(ts[1..]) else ts
  }

  /** The object loop of `parse_object`, entered with the pairs `obj` already read and
      `ts` left to read: a key, or a `}` that closes an object still empty. */
  function ObjectSpec(parseF64: string -> Option<F64>, ts: seq<Token>, obj: seq<(string, JsonValue)>): (r: Step)
    ensures r.Done? ==> |r.value.1| < |ts|
    decreases |ts|, 1
  {
    var t := SkipWs(ts);
    if t == [] then Failed(ExpectedStringKeyOrRightBrace)
    else match t[0]
      case String(key) => PairSpec(parseF64, t[1..], obj, key)
      case RightBrace => if obj == [] then Done((JsonObject([]), t[1..])) else Failed(UnexpectedRightBrace)
      case _ => Failed(ExpectedStringKeyOrRightBrace)
  }

  /** The rest of a pass of the object loop once the key `key` is read: a `:`, then a
      value. */
  function PairSpec(parseF64: string -> Option<F64>, ts: seq<Token>, obj: seq<(string, JsonValue)>, key: string): (r: Step)
    ensures r.Done? ==> |r.value.1| < |ts|
    decreases |ts|, 0
  {
    var u := SkipWs(ts);
    if u == [] || u[0] != Colon then Failed(ExpectedColon)
    else match ValueSpec(parseF64, u[1..])
      case Done((value, rest)) => AfterPairSpec(parseF64, rest, obj + [(key, value)])
      case Failed(e) => Failed(e)
      case Panicked(n) => Panicked(n)
  }

  /** The end of a pass of the object loop, with the pairs `obj` read: a `,` is read and
      the loop goes on; a `}` is peeked, left unread, and ends the object. */
  function AfterPairSpec(parseF64: string -> Option<F64>, ts: seq<Token>, obj: seq<(string, JsonValue)>): (r: Step)
    ensures r.Done? ==> |r.value.1| <= |ts|
    decreases |ts|, 3
  {
    var w := SkipWs(ts);
    if w != [] && w[0] == Comma then ObjectSpec(parseF64, w[1..], obj)
    else if w != [] && w[0] == RightBrace then Done((JsonObject(obj), w))
    else Failed(ExpectedCommaOrRightBrace)
  }

  /** `parse_value` on `ts`. A `{` is peeked, not read, before the object loop starts. */
  function ValueSpec(parseF64: string -> Option<F64>, ts: seq<Token>): (r: Step)
    ensures r.Done? ==> |r.value.1| < |ts|
    decreases |ts|, 2
  {
    var t := SkipWs(ts);
    if t == [] then Failed(UnexpectedToken)
    else match t[0]
      case LeftBrace => ObjectSpec(parseF64, t, [])
      case String(s) => Done((JsonValue.String(s), t[1..]))
      case Number(numeral) =>
        (match parseF64(numeral)
         case Some(x) => Done((JsonValue.Number(x), t[1..]))
         case None => Panicked(numeral))
      case Boolean(b) => Done((JsonValue.Boolean(b), t[1..]))
      case Null => Done((JsonValue.Null, t[1..]))
      case _ => Failed(UnexpectedToken)
  }

  /** `parse` on `ts`: a `{`, after whitespace, and then the object loop. */
  function ParseSpec(parseF64: string -> Option<F64>, ts: seq<Token>): (r: Step)
    ensures r.Done? ==> |r.value.1| < |ts|
  {
    var t := SkipWs(ts);
    if t != [] && t[0] == LeftBrace then ObjectSpec(parseF64, t[1..], []) else Failed(NoTokensToParse)
  }

  /** The parser: a cursor `pos` into `tokens`, as the `Peekable` iterator is. The float
      conversion `str::parse::<f64>` is the parameter `parseF64`. */
  class Parser {
    const tokens: seq<Token>
    const parseF64: string -> Option<F64>
    var pos: nat

    ghost predicate Valid()
      reads this
    {
      pos <= |tokens|
    }

    /** The tokens not yet read. */
    function Rest(): seq<Token>
      reads this
      requires Valid()
    {
      tokens[pos..]
    }

    /** `Parser::new`: the cursor at the first token. */
    constructor (tokens: seq<Token>, parseF64: string -> Option<F64>)
      ensures Valid() && this.tokens == tokens && this.parseF64 == parseF64 && pos == 0
    {
      this.tokens := tokens;
      this.parseF64 := parseF64;
      pos := 0;
    }

    /** `peek`: the next token, left unread. */
    function Peek(): (t: Option<Token>)
      reads this
      requires Valid()
      ensures t.None? <==> Rest() == []
      ensures t.Some? ==> t.value == Rest()[0]
    {
      if pos < |tokens| then Some(tokens[pos]) else None
    }

    /** `next`: reads the next token; at the end it reads nothing. */
    method Next() returns (t: Option<Token>)
      requires Valid()
      modifies this
      ensures Valid()
      ensures old(Rest()) == [] ==> t.None? && pos == old(pos)
      ensures old(Rest()) != [] ==> t == Some(old(Rest())[0]) && Rest() == old(Rest())[1..]
    {
      if pos < |tokens| {
        t := Some(tokens[pos]);
        pos := pos + 1;
      } else {
        t := None;
      }
    }

    /** `skip_whitespace`: reads whitespace tokens while the next token is one. */
    method SkipWhitespace()
      requires Valid()
      modifies this
      ensures Valid() && old(pos) <= pos && Rest() == SkipWs(old(Rest()))
    {
      while Peek() == Some(Whitespace)
        invariant Valid() && old(pos) <= pos
        invariant SkipWs(old(Rest())) == SkipWs(Rest())
        decreases |tokens| - pos
      {
        var _ := Next();
      }
    }

    /** `parse`: a `{` after whitespace, then the object; anything else is
        "No tokens to parse". Tokens after the object are left unread. */
    method Parse() returns (r: Outcome<JsonValue>)
      requires Valid()
      modifies this
      ensures Valid()
      ensures r == OutcomeOf(ParseSpec(parseF64, old(Rest())))
      ensures r.Done? ==> Rest() == ParseSpec(parseF64, old(Rest())).value.1
    {
      SkipWhitespace();
      var t := Next();
      if t == Some(LeftBrace) {
        r := ParseObject();
      } else {
        r := Failed(NoTokensToParse);
      }
    }

    /** `parse_object`: the loop that reads `key : value` pairs into `obj`. */
    method ParseObject() returns (r: Outcome<JsonValue>)
      requires Valid()
      modifies this
      ensures Valid() && old(pos) <= pos
      ensures r == OutcomeOf(ObjectSpec(parseF64, old(Rest()), []))
      ensures r.Done? ==> Rest() == ObjectSpec(parseF64, old(Rest()), []).value.1
      decreases |tokens| - pos, 0
    {
      var obj: seq<(string, JsonValue)> := [];
      ghost var goal := ObjectSpec(parseF64, Rest(), []);
      while true
        invariant Valid() && old(pos) <= pos
        invariant ObjectSpec(parseF64, Rest(), obj) == goal
        decreases |tokens| - pos
      {
        SkipWhitespace();
        var t := Next();
        if t.Some? && t.value.String? {
          var key := t.value.text;
          assert goal == PairSpec(parseF64, Rest(), obj, key);
          var value := ParseMember(obj, key);
          if !value.Done? {
            return if value.Failed? then Failed(value.error) else Panicked(value.numeral);
          }
          obj := obj + [(key, value.value)];
          SkipWhitespace();
          var next := Peek();
          if next == Some(Comma) {
            var _ := Next();
          } else if next == Some(RightBrace) {
            return Done(JsonObject(obj));
          } else {
            return Failed(ExpectedCommaOrRightBrace);
          }
        } else if t == Some(RightBrace) {
          if obj == [] {
            return Done(JsonObject(obj));
          } else {
            return Failed(UnexpectedRightBrace);
          }
        } else {
          return Failed(ExpectedStringKeyOrRightBrace);
        }
      }
    }

    /** The arm of the object loop that follows a key `key`: a `:` after whitespace, then
        a value. On success the value returned is the one `ValueSpec` reads after the `:`,
        the cursor stands where that read ends, and the loop goes on as `AfterPairSpec`
        says, with the pair added to `obj`. */
    method ParseMember(ghost obj: seq<(string, JsonValue)>, key: string) returns (r: Outcome<JsonValue>)
      requires Valid()
      modifies this
      ensures Valid() && old(pos) <= pos
      ensures r.Failed? ==> PairSpec(parseF64, old(Rest()), obj, key) == Failed(r.error)
      ensures r.Panicked? ==> PairSpec(parseF64, old(Rest()), obj, key) == Panicked(r.numeral)
      ensures r.Done? ==> PairSpec(parseF64, old(Rest()), obj, key) == AfterPairSpec(parseF64, Rest(), obj + [(key, r.value)])
      ensures r.Done? ==>
                SkipWs(old(Rest())) != [] && SkipWs(old(Rest()))[0] == Colon
                && ValueSpec(parseF64, SkipWs(old(Rest()))[1..]) == Done((r.value, Rest()))
      decreases |tokens| - pos, 2
    {
      SkipWhitespace();
      var c := Next();
      if c != Some(Colon) {
        return Failed(ExpectedColon);
      }
      ghost var vs := ValueSpec(parseF64, Rest());
      r := ParseValue();
      assert r.Done? ==> vs == Done((r.value, Rest()));
    }

    /** `parse_value`: one value after whitespace. A `{` is peeked and the object loop
        starts on it. */
    method ParseValue() returns (r: Outcome<JsonValue>)
      requires Valid()
      modifies this
      ensures Valid() && old(pos) <= pos
      ensures r == OutcomeOf(ValueSpec(parseF64, old(Rest())))
      ensures r.Done? ==> Rest() == ValueSpec(parseF64, old(Rest())).value.1
      decreases |tokens| - pos, 1
    {
      SkipWhitespace();
      var t := Peek();
      match t {
        case Some(LeftBrace) =>
          r := ParseObject();
        case Some(String(s)) =>
          var _ := Next();
          r := Done(JsonValue.String(s));
        case Some(Number(numeral)) =>
          var _ := Next();
          var x := parseF64(numeral);
          if x.None? {
            return Panicked(numeral);
          }
          r := Done(JsonValue.Number(x.value));
        case Some(Boolean(b)) =>
          var _ := Next();
          r := Done(JsonValue.Boolean(b));
        case Some(Null) =>
          var _ := Next();
          r := Done(JsonValue.Null);
        case _ =>
          r := Failed(UnexpectedToken);
      }
    }
  }

  /** `Parser::new(&tokens).parse()`. */
  method ParseTokens(tokens: seq<Token>, parseF64: string -> Option<F64>) returns (r: Outcome<JsonValue>)
    ensures r == OutcomeOf(ParseSpec(parseF64, tokens))
  {
    var p := new Parser(tokens, parseF64);
    r := p.Parse();
  }
}
