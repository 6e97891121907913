/** The three stages together: the compact text of a flat object, scanned by the lexer
    and read back by the parser, gives the object again. Keys and strings must be free
    of `"` (the renderer does not escape them) and every number must render as a
    numeral the lexer and the float conversion accept back. */
module RoundTrip {
  import opened Wrappers
  import opened Tokens
  import opened Lexing
  import opened LexerProperties
  import opened Values
  import opened CompactProperties
  import opened Parsing
  import opened ParserProperties

  /** Text the lexer reads as one number token: a digit, then digits and dots. */
  predicate Numeral(t: string) {
    t != [] && IsDigit(t[0]) && forall i :: 0 <= i < |t| ==> IsNumberChar(t[i])
  }

  /** A scalar whose compact text scans back as one token. */
  predicate ScalarRenders(showF64: F64 -> string, v: JsonValue) {
    match v
    case String(s) => '"' !in s
    case Number(x) => Numeral(showF64(x))
    case Boolean(_) => true
    case Null => true
    case _ => false
  }

  /** Pairs whose compact text scans back token by token. */
  predicate Renders(showF64: F64 -> string, pairs: seq<(string, JsonValue)>) {
    forall i :: 0 <= i < |pairs| ==> '"' !in pairs[i].0 && ScalarRenders(showF64, pairs[i].1)
  }

  /** Numbers whose rendering converts back to the same number. */
  predicate Converts(parseF64: string -> Option<F64>, showF64: F64 -> string, pairs: seq<(string, JsonValue)>) {
    forall i :: 0 <= i < |pairs| && pairs[i].1.Number? ==> parseF64(showF64(pairs[i].1.n)) == Some(pairs[i].1.n)
  }

  /** The token a rendered scalar scans to. */
  function ValueToken(showF64: F64 -> string, v: JsonValue): Token
    requires IsScalar(v)
  {
    match v
    case String(s) => Token.String(s)
    case Number(x) => Token.Number(showF64(x))
    case Boolean(b) => Token.Boolean(b)
    case Null => Token.Null
  }

  /** The tokens of one rendered entry `"key": value`; the space is a token of its own. */
  function EntryTokens(showF64: F64 -> string, pair: (string, JsonValue)): seq<Token>
    requires IsScalar(pair.1)
  {
    [Token.String(pair.0), Colon, Whitespace, ValueToken(showF64, pair.1)]
  }

  /** The tokens of rendered entries, with `,` and a space between neighbours. */
  function MembersTokens(showF64: F64 -> string, pairs: seq<(string, JsonValue)>): seq<Token>
    requires Renders(showF64, pairs)
  {
    if pairs == [] then []
    else if |pairs| == 1 then EntryTokens(showF64, pairs[0])
    else EntryTokens(showF64, pairs[0]) + [Comma, Whitespace] + MembersTokens(showF64, pairs[1..])
  }

  /** The tokens of the compact text of the object with `pairs`. */
  function CompactTokens(showF64: F64 -> string, pairs: seq<(string, JsonValue)>): seq<Token>
    requires Renders(showF64, pairs)
  {
    [LeftBrace] + MembersTokens(showF64, pairs) + [RightBrace]
  }

  // ---------------------------------------------------------------------------
  // Scanning the compact text
  // ---------------------------------------------------------------------------

  lemma LexScalar(showF64: F64 -> string, v: JsonValue, s: string)
    requires ScalarRenders(showF64, v)
    requires s == [] || !IsNumberChar(s[0])
    ensures IsScalar(v)
    ensures Lex(Compact(showF64, v) + s) == Prepend([ValueToken(showF64, v)], Lex(s))
  {
    match v {
      case String(str) =>
        assert Compact(showF64, v) + s == ['"'] + str + ['"'] + s;
        LexString(str, s);
      case Number(x) =>
        LexNumber(showF64(x), s);
      case Boolean(b) =>
        LexConstants(s);
      case Null =>
        LexConstants(s);
    }
  }

  /** A punctuation character and a space before scanned text. */
  lemma LexSeparator(p: char, c: string, ts: seq<Token>, s: string)
    requires p == ':' || p == ','
    requires Lex(c) == Prepend(ts, Lex(s))
    ensures Lex([p] + (" " + c)) == Prepend([if p == ':' then Colon else Comma, Whitespace] + ts, Lex(s))
  {
    var t := if p == ':' then Colon else Comma;
    var spaced := " " + c;
    calc {
      Lex([p] + spaced);
      { LexPunctuation(p, spaced); }
      Prepend([t], Lex(spaced));
      { LexWhitespaceRun(" ", c); assert seq(1, _ => Whitespace) == [Whitespace]; }
      Prepend([t], Prepend([Whitespace], Lex(c)));
      Prepend([t], Prepend([Whitespace], Prepend(ts, Lex(s))));
      { PrependAssociative([Whitespace], ts, Lex(s)); }
      Prepend([t], Prepend([Whitespace] + ts, Lex(s)));
      { PrependAssociative([t], [Whitespace] + ts, Lex(s)); }
      Prepend([t] + ([Whitespace] + ts), Lex(s));
      { assert [t] + ([Whitespace] + ts) == [t, Whitespace] + ts; }
      Prepend([t, Whitespace] + ts, Lex(s));
    }
  }

  lemma EntryHeadShape(key: string, text: string, s: string)
    ensures EntryHead(key) + text + s == ['"'] + key + ['"'] + ([':'] + (" " + (text + s)))
  {
  }

  lemma LexEntry(showF64: F64 -> string, pair: (string, JsonValue), s: string)
    requires '"' !in pair.0 && ScalarRenders(showF64, pair.1)
    requires s == [] || !IsNumberChar(s[0])
    ensures IsScalar(pair.1)
    ensures Lex(EntryHead(pair.0) + Compact(showF64, pair.1) + s) == Prepend(EntryTokens(showF64, pair), Lex(s))
  {
    LexScalar(showF64, pair.1, s);
    var vt := ValueToken(showF64, pair.1);
    var c := Compact(showF64, pair.1) + s;
    var colon := [':'] + (" " + c);
    calc {
      Lex(EntryHead(pair.0) + Compact(showF64, pair.1) + s);
      { EntryHeadShape(pair.0, Compact(showF64, pair.1), s); }
      Lex(['"'] + pair.0 + ['"'] + colon);
      { LexString(pair.0, colon); }
      Prepend([Token.String(pair.0)], Lex(colon));
      { LexSeparator(':', c, [vt], s); }
      Prepend([Token.String(pair.0)], Prepend([Colon, Whitespace] + [vt], Lex(s)));
      { PrependAssociative([Token.String(pair.0)], [Colon, Whitespace] + [vt], Lex(s)); }
      Prepend([Token.String(pair.0)] + ([Colon, Whitespace] + [vt]), Lex(s));
      { assert [Token.String(pair.0)] + ([Colon, Whitespace] + [vt]) == EntryTokens(showF64, pair); }
      Prepend(EntryTokens(showF64, pair), Lex(s));
    }
  }

  lemma EntriesTail(showF64: F64 -> string, pairs: seq<(string, JsonValue)>)
    requires pairs != []
    ensures Entries(showF64, pairs)[0] == EntryHead(pairs[0].0) + Compact(showF64, pairs[0].1)
    ensures Entries(showF64, pairs)[1..] == Entries(showF64, pairs[1..])
  {
  }

  lemma JoinShape(xs: seq<string>, s: string)
    requires |xs| >= 2
    ensures Join(", ", xs) + s == xs[0] + ([','] + (" " + (Join(", ", xs[1..]) + s)))
  {
  }

  lemma RendersTail(showF64: F64 -> string, pairs: seq<(string, JsonValue)>)
    requires pairs != [] && Renders(showF64, pairs)
    ensures '"' !in pairs[0].0 && ScalarRenders(showF64, pairs[0].1)
    ensures Renders(showF64, pairs[1..])
  {
    assert 0 < |pairs|;
    forall i | 0 <= i < |pairs| - 1
      ensures '"' !in pairs[1..][i].0 && ScalarRenders(showF64, pairs[1..][i].1)
    {
      assert pairs[1..][i] == pairs[i + 1];
    }
  }

  lemma {:induction false} LexMembers(showF64: F64 -> string, pairs: seq<(string, JsonValue)>, s: string)
    requires pairs != [] && Renders(showF64, pairs)
    requires s == [] || !IsNumberChar(s[0])
    ensures Lex(Join(", ", Entries(showF64, pairs)) + s) == Prepend(MembersTokens(showF64, pairs), Lex(s))
  {
    var es := Entries(showF64, pairs);
    EntriesTail(showF64, pairs);
    RendersTail(showF64, pairs);
    if |pairs| == 1 {
      assert Join(", ", es) == es[0];
      LexEntry(showF64, pairs[0], s);
    } else {
      var rest := pairs[1..];
      var tail := Join(", ", Entries(showF64, rest)) + s;
      var x := [','] + (" " + tail);
      calc {
        Lex(Join(", ", es) + s);
        { JoinShape(es, s); }
        Lex(EntryHead(pairs[0].0) + Compact(showF64, pairs[0].1) + x);
        { LexEntry(showF64, pairs[0], x); }
        Prepend(EntryTokens(showF64, pairs[0]), Lex(x));
        { LexMembers(showF64, rest, s); LexSeparator(',', tail, MembersTokens(showF64, rest), s); }
        Prepend(EntryTokens(showF64, pairs[0]), Prepend([Comma, Whitespace] + MembersTokens(showF64, rest), Lex(s)));
        { PrependAssociative(EntryTokens(showF64, pairs[0]), [Comma, Whitespace] + MembersTokens(showF64, rest), Lex(s)); }
        Prepend(EntryTokens(showF64, pairs[0]) + ([Comma, Whitespace] + MembersTokens(showF64, rest)), Lex(s));
        { assert EntryTokens(showF64, pairs[0]) + ([Comma, Whitespace] + MembersTokens(showF64, rest))
                 == MembersTokens(showF64, pairs); }
        Prepend(MembersTokens(showF64, pairs), Lex(s));
      }
    }
  }

  /** The compact text of a flat object scans to `{`, the entries' tokens, `}`. */
  lemma LexCompactObject(showF64: F64 -> string, pairs: seq<(string, JsonValue)>)
    requires Renders(showF64, pairs)
    ensures Lex(Compact(showF64, JsonObject(pairs))) == Success(CompactTokens(showF64, pairs))
  {
    var body := Join(", ", Entries(showF64, pairs));
    var closed: Result<seq<Token>, LexError> := Success([RightBrace]);
    assert Lex("}") == closed by {
      LexPunctuation('}', "");
      assert ['}'] + "" == "}";
      assert Lex("") == Success([]);
      assert [RightBrace] + [] == [RightBrace];
    }
    calc {
      Lex(Compact(showF64, JsonObject(pairs)));
      { CompactObject(showF64, pairs); assert "{" + body + "}" == ['{'] + (body + "}"); }
      Lex(['{'] + (body + "}"));
      { LexPunctuation('{', body + "}"); }
      Prepend([LeftBrace], Lex(body + "}"));
      { if pairs == [] { assert body + "}" == "}"; PrependAssociative([], [], closed); } else { LexMembers(showF64, pairs, "}"); } }
      Prepend([LeftBrace], Prepend(MembersTokens(showF64, pairs), closed));
      { assert [LeftBrace] + (MembersTokens(showF64, pairs) + [RightBrace]) == CompactTokens(showF64, pairs); }
      Success(CompactTokens(showF64, pairs));
    }
  }

  // ---------------------------------------------------------------------------
  // Parsing the tokens back
  // ---------------------------------------------------------------------------

  lemma ObjectOnKey(parseF64: string -> Option<F64>, key: string, ts: seq<Token>, obj: seq<(string, JsonValue)>)
    ensures ObjectSpec(parseF64, [Token.String(key)] + ts, obj) == PairSpec(parseF64, ts, obj, key)
  {
    assert ([Token.String(key)] + ts)[1..] == ts;
  }

  lemma PairOnColon(parseF64: string -> Option<F64>, ts: seq<Token>, obj: seq<(string, JsonValue)>, key: string)
    requires ValueSpec(parseF64, ts).Done?
    ensures PairSpec(parseF64, [Colon] + ts, obj, key)
            == AfterPairSpec(parseF64, ValueSpec(parseF64, ts).value.1, obj + [(key, ValueSpec(parseF64, ts).value.0)])
  {
    assert ([Colon] + ts)[1..] == ts;
  }

  lemma ValueOnScalar(parseF64: string -> Option<F64>, showF64: F64 -> string, v: JsonValue, ts: seq<Token>)
    requires IsScalar(v)
    requires v.Number? ==> parseF64(showF64(v.n)) == Some(v.n)
    ensures ValueSpec(parseF64, [Whitespace, ValueToken(showF64, v)] + ts) == Done((v, ts))
  {
    var t := [Whitespace, ValueToken(showF64, v)] + ts;
    var u := [ValueToken(showF64, v)] + ts;
    assert t[1..] == u && u[0] != Whitespace;
    assert SkipWs(t) == u;
    assert u[1..] == ts;
  }

  lemma AfterPairOnBrace(parseF64: string -> Option<F64>, ts: seq<Token>, obj: seq<(string, JsonValue)>)
    ensures AfterPairSpec(parseF64, [RightBrace] + ts, obj) == Done((JsonObject(obj), [RightBrace] + ts))
  {
  }

  lemma AfterPairOnComma(parseF64: string -> Option<F64>, ts: seq<Token>, obj: seq<(string, JsonValue)>)
    ensures AfterPairSpec(parseF64, [Comma, Whitespace] + ts, obj) == ObjectSpec(parseF64, ts, obj)
  {
    var t := [Comma, Whitespace] + ts;
    assert t[1..] == [Whitespace] + ts;
    assert ([Whitespace] + ts)[1..] == ts;
    assert SkipWs([Whitespace] + ts) == SkipWs(ts);
  }

  lemma ConvertsTail(parseF64: string -> Option<F64>, showF64: F64 -> string, pairs: seq<(string, JsonValue)>)
    requires pairs != [] && Converts(parseF64, showF64, pairs)
    ensures pairs[0].1.Number? ==> parseF64(showF64(pairs[0].1.n)) == Some(pairs[0].1.n)
    ensures Converts(parseF64, showF64, pairs[1..])
  {
    assert 0 < |pairs|;
    forall i | 0 <= i < |pairs| - 1 && pairs[1..][i].1.Number?
      ensures parseF64(showF64(pairs[1..][i].1.n)) == Some(pairs[1..][i].1.n)
    {
      assert pairs[1..][i] == pairs[i + 1];
    }
  }

  lemma {:induction false} ParseMembers(parseF64: string -> Option<F64>, showF64: F64 -> string,
                                        pairs: seq<(string, JsonValue)>, obj: seq<(string, JsonValue)>, extra: seq<Token>)
    requires pairs != [] && Renders(showF64, pairs) && Converts(parseF64, showF64, pairs)
    ensures ObjectSpec(parseF64, MembersTokens(showF64, pairs) + ([RightBrace] + extra), obj)
            == Done((JsonObject(obj + pairs), [RightBrace] + extra))
  {
    RendersTail(showF64, pairs);
    ConvertsTail(parseF64, showF64, pairs);
    var key, v := pairs[0].0, pairs[0].1;
    var rest := pairs[1..];
    var tail := if |pairs| == 1 then [RightBrace] + extra
                else [Comma, Whitespace] + (MembersTokens(showF64, rest) + ([RightBrace] + extra));
    var head := [Colon] + ([Whitespace, ValueToken(showF64, v)] + tail);
    calc {
      ObjectSpec(parseF64, MembersTokens(showF64, pairs) + ([RightBrace] + extra), obj);
      { assert MembersTokens(showF64, pairs) + ([RightBrace] + extra) == [Token.String(key)] + head; }
      ObjectSpec(parseF64, [Token.String(key)] + head, obj);
      { ObjectOnKey(parseF64, key, head, obj); }
      PairSpec(parseF64, head, obj, key);
      { ValueOnScalar(parseF64, showF64, v, tail);
        PairOnColon(parseF64, [Whitespace, ValueToken(showF64, v)] + tail, obj, key); }
      AfterPairSpec(parseF64, tail, obj + [(key, v)]);
    }
    if |pairs| == 1 {
      AfterPairOnBrace(parseF64, extra, obj + [(key, v)]);
      assert obj + [(key, v)] == obj + pairs;
    } else {
      AfterPairOnComma(parseF64, MembersTokens(showF64, rest) + ([RightBrace] + extra), obj + [(key, v)]);
      ParseMembers(parseF64, showF64, rest, obj + [(key, v)], extra);
      assert obj + [(key, v)] + rest == obj + pairs;
    }
  }

  /** The tokens of a rendered flat object parse back to that object. */
  lemma ParseCompactTokens(parseF64: string -> Option<F64>, showF64: F64 -> string, pairs: seq<(string, JsonValue)>)
    requires Renders(showF64, pairs) && Converts(parseF64, showF64, pairs)
    ensures OutcomeOf(ParseSpec(parseF64, CompactTokens(showF64, pairs))) == Done(JsonObject(pairs))
  {
    var ts := CompactTokens(showF64, pairs);
    assert ts[1..] == MembersTokens(showF64, pairs) + ([RightBrace] + []);
    if pairs == [] {
      assert ts == [LeftBrace, RightBrace];
    } else {
      ParseMembers(parseF64, showF64, pairs, [], []);
      assert [] + pairs == pairs;
    }
  }

  /** Rendering a flat object, scanning the text and parsing the tokens gives the
      object back. */
  lemma RenderLexParse(parseF64: string -> Option<F64>, showF64: F64 -> string, pairs: seq<(string, JsonValue)>)
    requires Renders(showF64, pairs) && Converts(parseF64, showF64, pairs)
    ensures Lex(Compact(showF64, JsonObject(pairs))).Success?
    ensures OutcomeOf(ParseSpec(parseF64, Lex(Compact(showF64, JsonObject(pairs))).value)) == Done(JsonObject(pairs))
  {
    LexCompactObject(showF64, pairs);
    ParseCompactTokens(parseF64, showF64, pairs);
  }

  /** Numbers that render as numerals which convert back to the same number. */
  predicate NumbersRoundTrip(parseF64: string -> Option<F64>, showF64: F64 -> string, pairs: seq<(string, JsonValue)>) {
    forall i :: 0 <= i < |pairs| && pairs[i].1.Number? ==>
      Numeral(showF64(pairs[i].1.n)) && parseF64(showF64(pairs[i].1.n)) == Some(pairs[i].1.n)
  }

  /** A text that lexes and parses gives an object whose compact text lexes and parses
      back to it, provided its numbers render as numerals that convert back (there is
      nothing to provide when it has none). No key or string needs checking: the
      parser takes them from string tokens, and those never hold a `"`. */
  lemma LexParseRoundTrip(parseF64: string -> Option<F64>, showF64: F64 -> string, s: string)
    requires Lex(s).Success? && ParseSpec(parseF64, Lex(s).value).Done?
    requires ParseSpec(parseF64, Lex(s).value).value.0.JsonObject?
    requires NumbersRoundTrip(parseF64, showF64, ParseSpec(parseF64, Lex(s).value).value.0.pairs)
    ensures var v := ParseSpec(parseF64, Lex(s).value).value.0;
      && Lex(Compact(showF64, v)).Success?
      && OutcomeOf(ParseSpec(parseF64, Lex(Compact(showF64, v)).value)) == Done(v)
  {
    var ts := Lex(s).value;
    var pairs := ParseSpec(parseF64, ts).value.0.pairs;
    ParseIsFlatObject(parseF64, ts);
    ParsedTextsFromTokens(parseF64, ts);
    LexedStringsHaveNoQuote(s);
    forall i | 0 <= i < |pairs|
      ensures '"' !in pairs[i].0 && ScalarRenders(showF64, pairs[i].1)
    {
      TokenHasNoQuote(s, pairs[i].0);
      if pairs[i].1.String? {
        TokenHasNoQuote(s, pairs[i].1.s);
      }
    }
    RenderLexParse(parseF64, showF64, pairs);
  }

  /** A text that is a string token of a successful lex holds no `"`. */
  lemma TokenHasNoQuote(s: string, text: string)
    requires Lex(s).Success? && Token.String(text) in Lex(s).value
    ensures '"' !in text
  {
    LexedStringsHaveNoQuote(s);
    var j :| 0 <= j < |Lex(s).value| && Lex(s).value[j] == Token.String(text);
    assert Lex(s).value[j].String?;
  }
}
