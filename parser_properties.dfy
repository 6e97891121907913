/** What the parser of src/parser.rs accepts and builds, stated on the functions of
    `Parsing`. */
module ParserProperties {
  import opened Wrappers
  import opened Tokens
  import opened Values
  import opened Parsing

  // ---------------------------------------------------------------------------
  // Roots: only an object
  // ---------------------------------------------------------------------------

  /** No step inside an object or a value reports "No tokens to parse". */
  lemma {:induction false} NoRootErrorInObject(parseF64: string -> Option<F64>, ts: seq<Token>, obj: seq<(string, JsonValue)>)
    ensures ObjectSpec(parseF64, ts, obj) != Failed(NoTokensToParse)
    decreases |ts|, 1
  {
    var t := SkipWs(ts);
    if t != [] && t[0].String? {
      NoRootErrorInPair(parseF64, t[1..], obj, t[0].text);
    }
  }

  lemma {:induction false} NoRootErrorInPair(parseF64: string -> Option<F64>, ts: seq<Token>, obj: seq<(string, JsonValue)>, key: string)
    ensures PairSpec(parseF64, ts, obj, key) != Failed(NoTokensToParse)
    decreases |ts|, 0
  {
    var u := SkipWs(ts);
    if u != [] && u[0] == Colon {
      NoRootErrorInValue(parseF64, u[1..]);
      var vs := ValueSpec(parseF64, u[1..]);
      if vs.Done? {
        NoRootErrorAfterPair(parseF64, vs.value.1, obj + [(key, vs.value.0)]);
      }
    }
  }

  lemma {:induction false} NoRootErrorAfterPair(parseF64: string -> Option<F64>, ts: seq<Token>, obj: seq<(string, JsonValue)>)
    ensures AfterPairSpec(parseF64, ts, obj) != Failed(NoTokensToParse)
    decreases |ts|, 3
  {
    var w := SkipWs(ts);
    if w != [] && w[0] == Comma {
      NoRootErrorInObject(parseF64, w[1..], obj);
    }
  }

  lemma {:induction false} NoRootErrorInValue(parseF64: string -> Option<F64>, ts: seq<Token>)
    ensures ValueSpec(parseF64, ts) != Failed(NoTokensToParse)
    decreases |ts|, 2
  {
    var t := SkipWs(ts);
    if t != [] && t[0] == LeftBrace {
      NoRootErrorInObject(parseF64, t, []);
    }
  }

  /** `skip_whitespace` drops a prefix made only of whitespace tokens: what it leaves is
      a suffix of `ts`, and everything before that suffix is whitespace. */
  lemma {:induction false} SkipWsDropsOnlyWhitespace(ts: seq<Token>)
    ensures SkipWs(ts) == ts[|ts| - |SkipWs(ts)|..]
    ensures forall i :: 0 <= i < |ts| - |SkipWs(ts)| ==> ts[i] == Whitespace
  {
    if ts != [] && ts[0] == Whitespace {
      SkipWsDropsOnlyWhitespace(ts[1..]);
    }
  }

  /** "No tokens to parse" is exactly the case where the first token that is not
      whitespace is missing or is not `{`: a `[` root, a scalar root and an empty token
      sequence all give it. */
  lemma ParseNeedsObjectRoot(parseF64: string -> Option<F64>, ts: seq<Token>)
    ensures ParseSpec(parseF64, ts) == Failed(NoTokensToParse)
            <==> SkipWs(ts) == [] || SkipWs(ts)[0] != LeftBrace
  {
    var t := SkipWs(ts);
    if t != [] && t[0] == LeftBrace {
      NoRootErrorInObject(parseF64, t[1..], []);
    }
  }

  // ---------------------------------------------------------------------------
  // Values: no nesting
  // ---------------------------------------------------------------------------

  /** A `{` where a value is expected is peeked, and the object loop then reads it where
      a key belongs. */
  lemma NestedObjectFails(parseF64: string -> Option<F64>, ts: seq<Token>)
    requires SkipWs(ts) != [] && SkipWs(ts)[0] == LeftBrace
    ensures ValueSpec(parseF64, ts) == Failed(ExpectedStringKeyOrRightBrace)
  {
    var t := SkipWs(ts);
    assert SkipWs(t) == t;
  }

  /** A value that parses is a scalar: String, Number, Boolean or Null. */
  lemma ValueIsScalar(parseF64: string -> Option<F64>, ts: seq<Token>)
    requires ValueSpec(parseF64, ts).Done?
    ensures IsScalar(ValueSpec(parseF64, ts).value.0)
  {
    var t := SkipWs(ts);
    if t[0] == LeftBrace {
      NestedObjectFails(parseF64, ts);
    }
  }

  /** A value parses exactly when the next token that is not whitespace is a scalar
      token whose numeral, if any, converts; `[`, `]`, `}`, `,`, `:` and the end of the
      tokens are "Unexpected token". */
  lemma ValueCases(parseF64: string -> Option<F64>, ts: seq<Token>)
    ensures var t := SkipWs(ts);
      (t == [] || t[0] in {LeftBracket, RightBracket, RightBrace, Comma, Colon})
      ==> ValueSpec(parseF64, ts) == Failed(UnexpectedToken)
    ensures var t := SkipWs(ts);
      (t != [] && t[0].Number? && parseF64(t[0].numeral).None?)
      ==> ValueSpec(parseF64, ts) == Panicked(t[0].numeral)
    ensures var t := SkipWs(ts);
      ValueSpec(parseF64, ts).Done?
      <==> t != [] && (t[0].String? || t[0].Boolean? || t[0].Null? || (t[0].Number? && parseF64(t[0].numeral).Some?))
  {
    var t := SkipWs(ts);
    if t != [] && t[0] == LeftBrace {
      NestedObjectFails(parseF64, ts);
    }
  }

  // ---------------------------------------------------------------------------
  // Objects: the error cases
  // ---------------------------------------------------------------------------

  /** Where a key is expected: a `}` closes an object only while it is still empty, and
      any token other than a string key or `}`, or the end of the tokens, is an error. */
  lemma ObjectCases(parseF64: string -> Option<F64>, ts: seq<Token>, obj: seq<(string, JsonValue)>)
    ensures var t := SkipWs(ts);
      (t == [] || !(t[0].String? || t[0] == RightBrace))
      ==> ObjectSpec(parseF64, ts, obj) == Failed(ExpectedStringKeyOrRightBrace)
    ensures var t := SkipWs(ts);
      (t != [] && t[0] == RightBrace && obj == [])
      ==> ObjectSpec(parseF64, ts, obj) == Done((JsonObject([]), t[1..]))
    ensures var t := SkipWs(ts);
      (t != [] && t[0] == RightBrace && obj != [])
      ==> ObjectSpec(parseF64, ts, obj) == Failed(UnexpectedRightBrace)
  {
  }

  /** A key not followed by `:` is "Expected colon". */
  lemma PairCases(parseF64: string -> Option<F64>, ts: seq<Token>, obj: seq<(string, JsonValue)>, key: string)
    ensures var u := SkipWs(ts);
      (u == [] || u[0] != Colon) ==> PairSpec(parseF64, ts, obj, key) == Failed(ExpectedColon)
  {
  }

  /** After a value only `,` and `}` may follow; anything else, the end of the tokens
      included, is "Expected comma or right brace". */
  lemma AfterPairCases(parseF64: string -> Option<F64>, ts: seq<Token>, obj: seq<(string, JsonValue)>)
    ensures var w := SkipWs(ts);
      (w == [] || (w[0] != Comma && w[0] != RightBrace))
      ==> AfterPairSpec(parseF64, ts, obj) == Failed(ExpectedCommaOrRightBrace)
  {
  }

  /** A trailing comma: `,` then `}` after a pair is "Unexpected right brace", whatever
      whitespace lies between. */
  lemma TrailingCommaRejected(parseF64: string -> Option<F64>, ws: seq<Token>, rest: seq<Token>, obj: seq<(string, JsonValue)>)
    requires forall i :: 0 <= i < |ws| ==> ws[i] == Whitespace
    requires obj != []
    ensures AfterPairSpec(parseF64, [Comma] + ws + [RightBrace] + rest, obj) == Failed(UnexpectedRightBrace)
  {
    var ts := [Comma] + ws + [RightBrace] + rest;
    assert ts[0] == Comma;
    assert ts[1..] == ws + ([RightBrace] + rest);
    SkipWsRun(ws, [RightBrace] + rest);
  }

  lemma {:induction false} SkipWsRun(ws: seq<Token>, ts: seq<Token>)
    requires forall i :: 0 <= i < |ws| ==> ws[i] == Whitespace
    ensures SkipWs(ws + ts) == SkipWs(ts)
  {
    if ws != [] {
      assert (ws + ts)[0] == Whitespace;
      assert (ws + ts)[1..] == ws[1..] + ts;
      SkipWsRun(ws[1..], ts);
    } else {
      assert ws + ts == ts;
    }
  }

  /** `{}` is the empty object. */
  lemma ParseEmptyObject(parseF64: string -> Option<F64>)
    ensures ParseSpec(parseF64, [LeftBrace, RightBrace]) == Done((JsonObject([]), []))
  {
    assert [LeftBrace, RightBrace][1..] == [RightBrace];
  }

  /** `{"a": null,}` is rejected at the `}`. */
  lemma ParseTrailingComma(parseF64: string -> Option<F64>)
    ensures ParseSpec(parseF64, [LeftBrace, Token.String("a"), Colon, Token.Null, Comma, RightBrace])
            == Failed(UnexpectedRightBrace)
  {
    var ts := [LeftBrace, Token.String("a"), Colon, Token.Null, Comma, RightBrace];
    assert ts[1..][1..][1..] == [Token.Null, Comma, RightBrace];
    assert ValueSpec(parseF64, [Token.Null, Comma, RightBrace]) == Done((JsonValue.Null, [Comma, RightBrace]));
    TrailingCommaRejected(parseF64, [], [], [("a", JsonValue.Null)]);
    assert [Comma] + [] + [RightBrace] + [] == [Comma, RightBrace];
  }

  /** A numeral that does not convert makes the whole parse panic. */
  lemma ParseBadNumeral(parseF64: string -> Option<F64>)
    requires parseF64("1.2.3") == None
    ensures ParseSpec(parseF64, [LeftBrace, Token.String("a"), Colon, Token.Number("1.2.3"), RightBrace])
            == Panicked("1.2.3")
  {
    var ts := [LeftBrace, Token.String("a"), Colon, Token.Number("1.2.3"), RightBrace];
    assert ts[1..][1..][1..] == [Token.Number("1.2.3"), RightBrace];
  }

  // ---------------------------------------------------------------------------
  // Objects: flat, in order, duplicates kept
  // ---------------------------------------------------------------------------

  predicate FlatPairs(pairs: seq<(string, JsonValue)>) {
    forall i :: 0 <= i < |pairs| ==> IsScalar(pairs[i].1)
  }

  /** What the object loop builds from the pairs `obj` it already holds: an object whose
      pairs start with `obj`, in order, and whose values are all scalars. */
  predicate Extends(r: Step, obj: seq<(string, JsonValue)>) {
    r.Done? ==>
      && r.value.0.JsonObject? && obj <= r.value.0.pairs && FlatPairs(r.value.0.pairs)
      && (r.value.0.pairs != [] ==> r.value.1 != [] && r.value.1[0] == RightBrace)
  }

  lemma {:induction false} ObjectExtends(parseF64: string -> Option<F64>, ts: seq<Token>, obj: seq<(string, JsonValue)>)
    requires FlatPairs(obj)
    ensures Extends(ObjectSpec(parseF64, ts, obj), obj)
    decreases |ts|, 1
  {
    var t := SkipWs(ts);
    if t != [] && t[0].String? {
      PairExtends(parseF64, t[1..], obj, t[0].text);
    }
  }

  lemma {:induction false} PairExtends(parseF64: string -> Option<F64>, ts: seq<Token>, obj: seq<(string, JsonValue)>, key: string)
    requires FlatPairs(obj)
    ensures Extends(PairSpec(parseF64, ts, obj, key), obj)
    decreases |ts|, 0
  {
    var u := SkipWs(ts);
    if u != [] && u[0] == Colon {
      var vs := ValueSpec(parseF64, u[1..]);
      if vs.Done? {
        ValueIsScalar(parseF64, u[1..]);
        var more := obj + [(key, vs.value.0)];
        AfterPairExtends(parseF64, vs.value.1, more);
        var r := AfterPairSpec(parseF64, vs.value.1, more);
        if r.Done? {
          assert obj <= more;
        }
      }
    }
  }

  lemma {:induction false} AfterPairExtends(parseF64: string -> Option<F64>, ts: seq<Token>, obj: seq<(string, JsonValue)>)
    requires FlatPairs(obj)
    ensures Extends(AfterPairSpec(parseF64, ts, obj), obj)
    decreases |ts|, 3
  {
    var w := SkipWs(ts);
    if w != [] && w[0] == Comma {
      ObjectExtends(parseF64, w[1..], obj);
    }
  }

  /** Every successful parse is a flat object: no value is an object or an array. The
      `}` that closes a non-empty object is left unread. */
  lemma ParseIsFlatObject(parseF64: string -> Option<F64>, ts: seq<Token>)
    requires ParseSpec(parseF64, ts).Done?
    ensures ParseSpec(parseF64, ts).value.0.JsonObject?
    ensures FlatPairs(ParseSpec(parseF64, ts).value.0.pairs)
    ensures var r := ParseSpec(parseF64, ts);
      r.value.0.pairs != [] ==> r.value.1 != [] && r.value.1[0] == RightBrace
  {
    ObjectExtends(parseF64, SkipWs(ts)[1..], []);
  }

  // ---------------------------------------------------------------------------
  // Whitespace tokens do not matter
  // ---------------------------------------------------------------------------

  /** `ts` with every whitespace token removed. */
  function Strip(ts: seq<Token>): (r: seq<Token>)
    ensures Whitespace !in r
  {
    if ts == [] then []
    else if ts[0] == Whitespace then Strip(ts[1..])
    else [ts[0]] + Strip(ts[1..])
  }

  /** A step with whitespace removed from the tokens it leaves. */
  function StripRest(r: Step): Step {
    match r
    case Done((v, rest)) => Done((v, Strip(rest)))
    case Failed(e) => Failed(e)
    case Panicked(n) => Panicked(n)
  }

  lemma {:induction false} StripSkipWs(ts: seq<Token>)
    ensures Strip(SkipWs(ts)) == Strip(ts)
  {
    if ts != [] && ts[0] == Whitespace {
      StripSkipWs(ts[1..]);
    }
  }

  lemma SkipWsStripped(ts: seq<Token>)
    requires Whitespace !in ts
    ensures SkipWs(ts) == ts
  {
    if ts != [] {
      assert ts[0] in ts;
    }
  }

  /** Where the parser next looks in the stripped tokens: the same token, and after it
      the stripped remainder. */
  lemma StripFront(ts: seq<Token>)
    ensures SkipWs(Strip(ts)) == Strip(SkipWs(ts))
    ensures SkipWs(ts) == [] <==> Strip(ts) == []
    ensures SkipWs(ts) != [] ==> Strip(ts)[0] == SkipWs(ts)[0] && Strip(ts)[1..] == Strip(SkipWs(ts)[1..])
  {
    var t := SkipWs(ts);
    StripSkipWs(ts);
    SkipWsStripped(Strip(ts));
    if t != [] {
      assert Strip(t) == [t[0]] + Strip(t[1..]);
    }
  }

  lemma {:induction false} ObjectStrip(parseF64: string -> Option<F64>, ts: seq<Token>, obj: seq<(string, JsonValue)>)
    ensures ObjectSpec(parseF64, Strip(ts), obj) == StripRest(ObjectSpec(parseF64, ts, obj))
    decreases |ts|, 1
  {
    var t := SkipWs(ts);
    StripFront(ts);
    if t != [] && t[0].String? {
      PairStrip(parseF64, t[1..], obj, t[0].text);
    }
  }

  lemma {:induction false} PairStrip(parseF64: string -> Option<F64>, ts: seq<Token>, obj: seq<(string, JsonValue)>, key: string)
    ensures PairSpec(parseF64, Strip(ts), obj, key) == StripRest(PairSpec(parseF64, ts, obj, key))
    decreases |ts|, 0
  {
    var u := SkipWs(ts);
    StripFront(ts);
    if u != [] && u[0] == Colon {
      ValueStrip(parseF64, u[1..]);
      var vs := ValueSpec(parseF64, u[1..]);
      if vs.Done? {
        AfterPairStrip(parseF64, vs.value.1, obj + [(key, vs.value.0)]);
      }
    }
  }

  lemma {:induction false} AfterPairStrip(parseF64: string -> Option<F64>, ts: seq<Token>, obj: seq<(string, JsonValue)>)
    ensures AfterPairSpec(parseF64, Strip(ts), obj) == StripRest(AfterPairSpec(parseF64, ts, obj))
    decreases |ts|, 3
  {
    var w := SkipWs(ts);
    StripFront(ts);
    if w != [] && w[0] == Comma {
      ObjectStrip(parseF64, w[1..], obj);
    }
  }

  lemma {:induction false} ValueStrip(parseF64: string -> Option<F64>, ts: seq<Token>)
    ensures ValueSpec(parseF64, Strip(ts)) == StripRest(ValueSpec(parseF64, ts))
    decreases |ts|, 2
  {
    var t := SkipWs(ts);
    StripFront(ts);
    if t != [] && t[0] == LeftBrace {
      ObjectStrip(parseF64, t, []);
      StripSkipWs(ts);
    }
  }

  /** Removing every whitespace token changes nothing about the parse: the same value,
      the same error or the same panic. */
  lemma ParseIgnoresWhitespace(parseF64: string -> Option<F64>, ts: seq<Token>)
    ensures OutcomeOf(ParseSpec(parseF64, Strip(ts))) == OutcomeOf(ParseSpec(parseF64, ts))
  {
    var t := SkipWs(ts);
    StripFront(ts);
    if t != [] && t[0] == LeftBrace {
      ObjectStrip(parseF64, t[1..], []);
    }
  }

  // ---------------------------------------------------------------------------
  // Tokens after the object are never looked at
  // ---------------------------------------------------------------------------

  /** A step with `extra` after the tokens it leaves. */
  function AppendRest(r: Step, extra: seq<Token>): Step {
    match r
    case Done((v, rest)) => Done((v, rest + extra))
    case Failed(e) => Failed(e)
    case Panicked(n) => Panicked(n)
  }

  lemma {:induction false} SkipWsAppend(ts: seq<Token>, extra: seq<Token>)
    requires SkipWs(ts) != []
    ensures SkipWs(ts + extra) == SkipWs(ts) + extra
  {
    if ts[0] == Whitespace {
      assert (ts + extra)[1..] == ts[1..] + extra;
      SkipWsAppend(ts[1..], extra);
    }
  }

  /** The parser's next look at `ts + extra`, when `ts` still has a token that is not
      whitespace: the same token, with `extra` after the rest. */
  lemma AppendFront(ts: seq<Token>, extra: seq<Token>)
    requires SkipWs(ts) != []
    ensures SkipWs(ts + extra) != [] && SkipWs(ts + extra)[0] == SkipWs(ts)[0]
    ensures SkipWs(ts + extra)[1..] == SkipWs(ts)[1..] + extra
  {
    SkipWsAppend(ts, extra);
  }

  lemma {:induction false} ObjectAppend(parseF64: string -> Option<F64>, ts: seq<Token>, obj: seq<(string, JsonValue)>, extra: seq<Token>)
    requires ObjectSpec(parseF64, ts, obj).Done?
    ensures ObjectSpec(parseF64, ts + extra, obj) == AppendRest(ObjectSpec(parseF64, ts, obj), extra)
    decreases |ts|, 1
  {
    var t := SkipWs(ts);
    AppendFront(ts, extra);
    if t[0].String? {
      PairAppend(parseF64, t[1..], obj, t[0].text, extra);
    }
  }

  lemma {:induction false} PairAppend(parseF64: string -> Option<F64>, ts: seq<Token>, obj: seq<(string, JsonValue)>, key: string, extra: seq<Token>)
    requires PairSpec(parseF64, ts, obj, key).Done?
    ensures PairSpec(parseF64, ts + extra, obj, key) == AppendRest(PairSpec(parseF64, ts, obj, key), extra)
    decreases |ts|, 0
  {
    var u := SkipWs(ts);
    AppendFront(ts, extra);
    ValueAppend(parseF64, u[1..], extra);
    var vs := ValueSpec(parseF64, u[1..]);
    AfterPairAppend(parseF64, vs.value.1, obj + [(key, vs.value.0)], extra);
  }

  lemma {:induction false} AfterPairAppend(parseF64: string -> Option<F64>, ts: seq<Token>, obj: seq<(string, JsonValue)>, extra: seq<Token>)
    requires AfterPairSpec(parseF64, ts, obj).Done?
    ensures AfterPairSpec(parseF64, ts + extra, obj) == AppendRest(AfterPairSpec(parseF64, ts, obj), extra)
    decreases |ts|, 3
  {
    var w := SkipWs(ts);
    AppendFront(ts, extra);
    SkipWsAppend(ts, extra);
    if w[0] == Comma {
      ObjectAppend(parseF64, w[1..], obj, extra);
    }
  }

  lemma {:induction false} ValueAppend(parseF64: string -> Option<F64>, ts: seq<Token>, extra: seq<Token>)
    requires ValueSpec(parseF64, ts).Done?
    ensures ValueSpec(parseF64, ts + extra) == AppendRest(ValueSpec(parseF64, ts), extra)
    decreases |ts|, 2
  {
    var t := SkipWs(ts);
    AppendFront(ts, extra);
    if t[0] == LeftBrace {
      NestedObjectFails(parseF64, ts);
    }
  }

  /** `parse` never checks what follows the object: tokens appended after a successful
      parse are left unread and change nothing. */
  lemma ParseIgnoresTrailing(parseF64: string -> Option<F64>, ts: seq<Token>, extra: seq<Token>)
    requires ParseSpec(parseF64, ts).Done?
    ensures ParseSpec(parseF64, ts + extra) == AppendRest(ParseSpec(parseF64, ts), extra)
  {
    var t := SkipWs(ts);
    AppendFront(ts, extra);
    ObjectAppend(parseF64, t[1..], [], extra);
  }

  // ---------------------------------------------------------------------------
  // Keys and strings are token texts
  // ---------------------------------------------------------------------------

  /** Every token of `ts` is one of `all`. */
  predicate Within(ts: seq<Token>, all: seq<Token>) {
    forall i :: 0 <= i < |ts| ==> ts[i] in all
  }

  /** Every key, and every string value, of `pairs` is the text of a string token of
      `all`. */
  predicate FromTokens(pairs: seq<(string, JsonValue)>, all: seq<Token>) {
    forall i :: 0 <= i < |pairs| ==>
      && Token.String(pairs[i].0) in all
      && (pairs[i].1.String? ==> Token.String(pairs[i].1.s) in all)
  }

  /** A step that, when it succeeds, builds an object whose texts come from `all`. */
  predicate Sourced(r: Step, all: seq<Token>) {
    r.Done? ==> r.value.0.JsonObject? && FromTokens(r.value.0.pairs, all)
  }

  lemma SkipWsWithin(ts: seq<Token>, all: seq<Token>)
    requires Within(ts, all)
    ensures Within(SkipWs(ts), all)
  {
    SkipWsDropsOnlyWhitespace(ts);
  }

  /** A value step reads its string from a token and leaves a rest of the tokens. */
  lemma ValueTexts(parseF64: string -> Option<F64>, ts: seq<Token>, all: seq<Token>)
    requires Within(ts, all)
    ensures var r := ValueSpec(parseF64, ts);
      r.Done? ==> Within(r.value.1, all) && (r.value.0.String? ==> Token.String(r.value.0.s) in all)
  {
    var t := SkipWs(ts);
    SkipWsWithin(ts, all);
    if t != [] && t[0] == LeftBrace {
      NestedObjectFails(parseF64, ts);
    } else if t != [] {
      assert t[0] in all;
    }
  }

  lemma {:induction false} ObjectTexts(parseF64: string -> Option<F64>, ts: seq<Token>, obj: seq<(string, JsonValue)>, all: seq<Token>)
    requires Within(ts, all) && FromTokens(obj, all)
    ensures Sourced(ObjectSpec(parseF64, ts, obj), all)
    decreases |ts|, 1
  {
    var t := SkipWs(ts);
    SkipWsWithin(ts, all);
    if t != [] && t[0].String? {
      assert t[0] in all;
      PairTexts(parseF64, t[1..], obj, t[0].text, all);
    }
  }

  lemma {:induction false} PairTexts(parseF64: string -> Option<F64>, ts: seq<Token>, obj: seq<(string, JsonValue)>, key: string, all: seq<Token>)
    requires Within(ts, all) && FromTokens(obj, all) && Token.String(key) in all
    ensures Sourced(PairSpec(parseF64, ts, obj, key), all)
    decreases |ts|, 0
  {
    var u := SkipWs(ts);
    SkipWsWithin(ts, all);
    if u != [] && u[0] == Colon {
      ValueTexts(parseF64, u[1..], all);
      var vs := ValueSpec(parseF64, u[1..]);
      if vs.Done? {
        var more := obj + [(key, vs.value.0)];
        assert FromTokens(more, all);
        AfterPairTexts(parseF64, vs.value.1, more, all);
      }
    }
  }

  lemma {:induction false} AfterPairTexts(parseF64: string -> Option<F64>, ts: seq<Token>, obj: seq<(string, JsonValue)>, all: seq<Token>)
    requires Within(ts, all) && FromTokens(obj, all)
    ensures Sourced(AfterPairSpec(parseF64, ts, obj), all)
    decreases |ts|, 3
  {
    var w := SkipWs(ts);
    SkipWsWithin(ts, all);
    if w != [] && w[0] == Comma {
      ObjectTexts(parseF64, w[1..], obj, all);
    }
  }

  /** The parser copies texts and never makes them up: every key and every string value
      of a parsed object is the text of a string token it was given. */
  lemma ParsedTextsFromTokens(parseF64: string -> Option<F64>, ts: seq<Token>)
    requires ParseSpec(parseF64, ts).Done?
    ensures ParseSpec(parseF64, ts).value.0.JsonObject?
    ensures FromTokens(ParseSpec(parseF64, ts).value.0.pairs, ts)
  {
    SkipWsWithin(ts, ts);
    ObjectTexts(parseF64, SkipWs(ts)[1..], [], ts);
  }
}
