/** What a scan of src/lexer.rs produces, stated on the scanning functions of `Lexing`. */
module LexerProperties {
  import opened Wrappers
  import opened Tokens
  import opened Lexing

  /** Unfolds a successful scanning step that starts with character `c`. */
  lemma LexConsOk(c: char, rest: string)
    requires ScanFrom(c, rest).Success?
    ensures Lex([c] + rest) == Prepend([ScanFrom(c, rest).value.0], Lex(ScanFrom(c, rest).value.1))
  {
    assert ([c] + rest)[1..] == rest;
    assert ScanToken([c] + rest) == ScanFrom(c, rest);
  }

  /** Exactly the six characters `{ } [ ] , :` are punctuation, and each stands for a
      token that carries no text. */
  lemma PunctuationTokens(c: char)
    ensures Punctuation(c).Some? <==> c in "{}[],:"
    ensures Punctuation(c).Some? ==> !HasPayload(Punctuation(c).value) && Punctuation(c).value != Whitespace
  {
  }

  /** A probe takes as many characters after its first letter as the constant it can
      become has. */
  lemma ProbeLengths(initial: char)
    ensures initial == 't' ==> 1 + ProbeLength(initial) == |"true"|
    ensures initial == 'f' ==> 1 + ProbeLength(initial) == |"false"|
    ensures initial == 'n' ==> 1 + ProbeLength(initial) == |"null"|
  {
  }

  /** Only `true`, `false` and `null` are constants. */
  lemma KeywordTokens(text: string)
    ensures Keyword(text).Success? <==> text == "true" || text == "false" || text == "null"
    ensures Keyword(text).Failure? ==> Keyword(text).error == InvalidConstant(text)
  {
  }

  /** A string token never holds a quote, and without a closing quote it is empty and
      takes the rest of the input. */
  lemma ScanStringShape(rest: string)
    ensures ScanString(rest).0.String? && '"' !in ScanString(rest).0.text
    ensures '"' !in rest ==> ScanString(rest) == (String(""), [])
    ensures '"' in rest ==> rest == ScanString(rest).0.text + ['"'] + ScanString(rest).1
  {
  }

  /** A number token is its first digit and the characters it took, and what is left
      cannot continue it. */
  lemma ScanNumberShape(initial: char, rest: string)
    ensures ScanNumber(initial, rest).0.Number?
    ensures rest == ScanNumber(initial, rest).0.numeral[1..] + ScanNumber(initial, rest).1
    ensures ScanNumber(initial, rest).0.numeral[0] == initial
    ensures forall i :: 1 <= i < |ScanNumber(initial, rest).0.numeral| ==> IsNumberChar(ScanNumber(initial, rest).0.numeral[i])
    ensures ScanNumber(initial, rest).1 == [] || !IsNumberChar(ScanNumber(initial, rest).1[0])
  {
    var n := NumberRunLength(rest);
    assert rest == rest[..n] + rest[n..];
  }

  /** A probe with too little input left is "Unexpected end of input"; a successful one
      is a constant and leaves exactly the input after the probed text. */
  lemma ScanKeywordShape(initial: char, rest: string)
    ensures |rest| < ProbeLength(initial) ==> ScanKeyword(initial, rest) == Failure(UnexpectedEndOfInput)
    ensures ScanKeyword(initial, rest).Success? ==>
              var t := ScanKeyword(initial, rest).value.0;
              (t == Boolean(true) || t == Boolean(false) || t == Null)
              && ScanKeyword(initial, rest).value.1 == rest[ProbeLength(initial)..]
    ensures ScanKeyword(initial, rest).Failure? && |rest| >= ProbeLength(initial) ==>
              ScanKeyword(initial, rest).error == InvalidConstant([initial] + rest[..ProbeLength(initial)])
  {
  }

  /** What each first character leads to: whitespace is one token and nothing more, a
      failure comes only from a keyword probe or from a character that starts no token. */
  lemma ScanFromCases(c: char, rest: string)
    ensures IsWhitespace(c) ==> ScanFrom(c, rest) == Success((Whitespace, rest))
    ensures c in "{}[],:" ==> ScanFrom(c, rest) == Success((Punctuation(c).value, rest))
    ensures ScanFrom(c, rest).Failure? ==>
              c == 't' || c == 'f' || c == 'n' || ScanFrom(c, rest).error == InvalidCharacter(c)
    ensures ScanFrom(c, rest).Failure? && ScanFrom(c, rest).error.InvalidCharacter? ==>
              c !in "{}[],:\" \t\n\r" && !IsDigit(c) && c != 't' && c != 'f' && c != 'n'
  {
  }

  /** Each token takes at least one character, so a scan yields at most one token per
      character and, on input that is not empty, at least one. */
  lemma {:induction false} LexTokenCount(s: string)
    ensures Lex(s).Success? ==> |Lex(s).value| <= |s|
    ensures Lex(s).Success? && s != [] ==> Lex(s).value != []
    decreases |s|
  {
    if s != [] && ScanToken(s).Success? {
      LexTokenCount(ScanToken(s).value.1);
    }
  }

  /** Unfolds a failing scanning step that starts with character `c`. */
  lemma LexConsFail(c: char, rest: string)
    requires ScanFrom(c, rest).Failure?
    ensures Lex([c] + rest) == Failure(ScanFrom(c, rest).error)
  {
    assert ([c] + rest)[1..] == rest;
    assert ScanToken([c] + rest) == ScanFrom(c, rest);
  }

  /** Each of `{ } [ ] , :` consumes one character and yields its own token. */
  lemma LexPunctuation(c: char, s: string)
    requires c in "{}[],:"
    ensures Punctuation(c).Some?
    ensures Lex([c] + s) == Prepend([Punctuation(c).value], Lex(s))
  {
    LexConsOk(c, s);
  }

  /** Whitespace is not collapsed: every whitespace character yields its own token. */
  lemma {:induction false} LexWhitespaceRun(w: string, s: string)
    requires forall i :: 0 <= i < |w| ==> IsWhitespace(w[i])
    ensures Lex(w + s) == Prepend(seq(|w|, _ => Whitespace), Lex(s))
  {
    if w == [] {
      assert w + s == s;
      PrependAssociative([], [], Lex(s));
    } else {
      assert w + s == [w[0]] + (w[1..] + s);
      assert Punctuation(w[0]).None?;
      LexConsOk(w[0], w[1..] + s);
      LexWhitespaceRun(w[1..], s);
      PrependAssociative([Whitespace], seq(|w| - 1, _ => Whitespace), Lex(s));
      assert [Whitespace] + seq(|w| - 1, _ => Whitespace) == seq(|w|, _ => Whitespace);
    }
  }

  /** The body of a string is exactly the text up to the next quote. */
  lemma {:induction false} StringBodyOf(body: string, s: string)
    requires '"' !in body
    ensures StringBody(body + ['"'] + s) == Some((body, s))
  {
    var t := body + ['"'] + s;
    if body == [] {
      assert t == ['"'] + s;
      assert t[1..] == s;
    } else {
      assert t[1..] == body[1..] + ['"'] + s;
      StringBodyOf(body[1..], s);
      assert [body[0]] + body[1..] == body;
    }
  }

  /** A string token holds the characters between the quotes, uninterpreted, and the
      closing quote is consumed. */
  lemma LexString(body: string, s: string)
    requires '"' !in body
    ensures Lex(['"'] + body + ['"'] + s) == Prepend([String(body)], Lex(s))
  {
    assert ['"'] + body + ['"'] + s == ['"'] + (body + ['"'] + s);
    StringBodyOf(body, s);
    LexConsOk('"', body + ['"'] + s);
  }

  /** An unterminated string is not an error: it yields an empty string token and ends
      the scan. */
  lemma LexUnterminatedString(body: string)
    requires '"' !in body
    ensures Lex(['"'] + body) == Success([String("")])
  {
    LexConsOk('"', body);
    assert Lex([]) == Success([]);
    assert [String("")] + [] == [String("")];
  }

  /** No string token of a successful scan contains a quote. */
  lemma {:induction false} LexedStringsHaveNoQuote(s: string)
    requires Lex(s).Success?
    ensures forall i :: 0 <= i < |Lex(s).value| && Lex(s).value[i].String? ==> '"' !in Lex(s).value[i].text
    decreases |s|
  {
    if s != [] {
      var rest := ScanToken(s).value.1;
      LexedStringsHaveNoQuote(rest);
    }
  }

  /** The run of digits and dots that a number takes is exactly `run` when the text
      after it cannot continue a number. */
  lemma {:induction false} NumberRunOf(run: string, s: string)
    requires forall i :: 0 <= i < |run| ==> IsNumberChar(run[i])
    requires s == [] || !IsNumberChar(s[0])
    ensures NumberRunLength(run + s) == |run|
  {
    if run == [] {
      assert run + s == s;
    } else {
      assert (run + s)[1..] == run[1..] + s;
      NumberRunOf(run[1..], s);
    }
  }

  /** A number is the maximal run of digits and dots after a leading digit, taken as text
      and not validated. */
  lemma LexNumber(numeral: string, s: string)
    requires numeral != [] && IsDigit(numeral[0])
    requires forall i :: 0 <= i < |numeral| ==> IsNumberChar(numeral[i])
    requires s == [] || !IsNumberChar(s[0])
    ensures Lex(numeral + s) == Prepend([Number(numeral)], Lex(s))
  {
    var tail := numeral[1..] + s;
    assert numeral + s == [numeral[0]] + tail;
    NumberRunOf(numeral[1..], s);
    assert tail[..|numeral| - 1] == numeral[1..];
    assert [numeral[0]] + numeral[1..] == numeral;
    assert tail[|numeral| - 1..] == s;
    assert ScanNumber(numeral[0], tail) == (Number(numeral), s);
    assert ScanFrom(numeral[0], tail) == Success((Number(numeral), s));
    LexConsOk(numeral[0], tail);
  }

  /** Unfolds a scanning step that is a keyword probe. */
  lemma LexKeywordStep(c: char, s: string)
    requires c == 't' || c == 'f' || c == 'n'
    ensures ScanKeyword(c, s).Failure? ==> Lex([c] + s) == Failure(ScanKeyword(c, s).error)
    ensures ScanKeyword(c, s).Success? ==>
              Lex([c] + s) == Prepend([ScanKeyword(c, s).value.0], Lex(ScanKeyword(c, s).value.1))
  {
    assert ScanFrom(c, s) == ScanKeyword(c, s);
    if ScanKeyword(c, s).Failure? {
      LexConsFail(c, s);
    } else {
      LexConsOk(c, s);
    }
  }

  /** A keyword probe that runs out of input is "Unexpected end of input". */
  lemma LexProbeCutShort(c: char, s: string)
    requires c == 't' || c == 'f' || c == 'n'
    requires |s| < ProbeLength(c)
    ensures Lex([c] + s) == Failure(UnexpectedEndOfInput)
  {
    LexKeywordStep(c, s);
  }

  /** A keyword probe takes exactly three characters after `t` and `n` and four after
      `f`; probed text that is not a constant is "Invalid constant". */
  lemma LexProbeInvalid(c: char, s: string)
    requires c == 't' || c == 'f' || c == 'n'
    requires |s| >= ProbeLength(c)
    requires Keyword([c] + s[..ProbeLength(c)]).Failure?
    ensures Lex([c] + s) == Failure(InvalidConstant([c] + s[..ProbeLength(c)]))
  {
    LexKeywordStep(c, s);
  }

  /** A keyword probe whose text is a constant yields that constant's token. */
  lemma LexProbe(c: char, s: string)
    requires c == 't' || c == 'f' || c == 'n'
    requires |s| >= ProbeLength(c)
    requires Keyword([c] + s[..ProbeLength(c)]).Success?
    ensures Lex([c] + s) == Prepend([Keyword([c] + s[..ProbeLength(c)]).value], Lex(s[ProbeLength(c)..]))
  {
    LexKeywordStep(c, s);
  }

  /** `true`, `false` and `null` followed by anything become their tokens. */
  lemma LexConstants(s: string)
    ensures Lex("true" + s) == Prepend([Boolean(true)], Lex(s))
    ensures Lex("false" + s) == Prepend([Boolean(false)], Lex(s))
    ensures Lex("null" + s) == Prepend([Null], Lex(s))
  {
    LexTrue(s);
    LexFalse(s);
    LexNull(s);
  }

  lemma LexTrue(s: string)
    ensures Lex("true" + s) == Prepend([Boolean(true)], Lex(s))
  {
    LexProbe('t', "rue" + s);
    assert ['t'] + ("rue" + s) == "true" + s;
    assert ("rue" + s)[..3] == "rue" && ("rue" + s)[3..] == s;
  }

  lemma LexFalse(s: string)
    ensures Lex("false" + s) == Prepend([Boolean(false)], Lex(s))
  {
    LexProbe('f', "alse" + s);
    assert ['f'] + ("alse" + s) == "false" + s;
    assert ("alse" + s)[..4] == "alse" && ("alse" + s)[4..] == s;
  }

  lemma LexNull(s: string)
    ensures Lex("null" + s) == Prepend([Null], Lex(s))
  {
    LexProbe('n', "ull" + s);
    assert ['n'] + ("ull" + s) == "null" + s;
    assert ("ull" + s)[..3] == "ull" && ("ull" + s)[3..] == s;
  }

  /** Any character that starts no token aborts the scan, with no partial token list. */
  lemma LexInvalidCharacter(c: char, s: string)
    requires c !in "{}[],:\" \t\n\r" && !IsDigit(c) && c != 't' && c != 'f' && c != 'n'
    ensures Lex([c] + s) == Failure(InvalidCharacter(c))
  {
    LexConsFail(c, s);
  }

  /** `1.2.3` is a single number token. */
  lemma LexExampleNumber()
    ensures Lex("1.2.3") == Success([Number("1.2.3")])
  {
    LexNumber("1.2.3", "");
    assert "1.2.3" + "" == "1.2.3";
    assert Lex("") == Success([]);
    assert [Number("1.2.3")] + [] == [Number("1.2.3")];
  }

  /** `{ }` keeps its space as a token. */
  lemma LexExampleWhitespace()
    ensures Lex("{ }") == Success([LeftBrace, Whitespace, RightBrace])
  {
    LexPunctuation('}', "");
    assert Lex("") == Success([]);
    assert [RightBrace] + [] == [RightBrace];
    LexWhitespaceRun(" ", "}");
    assert seq(1, _ => Whitespace) == [Whitespace];
    LexPunctuation('{', " }");
    assert ['}'] + "" == "}";
    assert " " + "}" == " }";
    assert ['{'] + " }" == "{ }";
    assert Lex("}") == Success([RightBrace]);
    assert [Whitespace] + [RightBrace] == [Whitespace, RightBrace];
    assert Lex(" }") == Success([Whitespace, RightBrace]);
    assert [LeftBrace] + [Whitespace, RightBrace] == [LeftBrace, Whitespace, RightBrace];
  }

  /** A backslash inside a string is kept as it is. */
  lemma LexExampleNoEscapes()
    ensures Lex("\"a\\n\"") == Success([String("a\\n")])
  {
    LexString("a\\n", "");
    assert Lex("") == Success([]);
    assert [String("a\\n")] + [] == [String("a\\n")];
    assert ['"'] + "a\\n" + ['"'] + "" == "\"a\\n\"";
  }

  /** Errors: a cut-short probe, a wrong constant, a stray character. */
  lemma LexExampleErrors()
    ensures Lex("\"ab") == Success([String("")])
    ensures Lex("nul") == Failure(UnexpectedEndOfInput)
    ensures Lex("nil1") == Failure(InvalidConstant("nil1"))
    ensures Lex("[x]") == Failure(InvalidCharacter('x'))
  {
    LexUnterminatedString("ab");
    LexProbeCutShort('n', "ul");
    assert "il1"[..3] == "il1" && ['n'] + "il1" == "nil1";
    assert "nil1"[1] != "null"[1];
    LexProbeInvalid('n', "il1");
    LexPunctuation('[', "x]");
    LexInvalidCharacter('x', "]");
  }
}


