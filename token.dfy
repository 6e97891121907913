/** The closed set of lexical units produced by the lexer (`JsonToken` in src/token.rs). */
module Tokens {

  /** Six punctuation tokens and `Whitespace` carry no payload; `String` holds the raw
      text between the quotes, `Number` the raw numeral text (conversion is left to
      the parser), `Boolean` a truth value shared by `true` and `false`; `Null` is a
      unit variant. No token refers back to a position in the input. */
  datatype Token =
    | LeftBrace
    | RightBrace
    | LeftBracket
    | RightBracket
    | Whitespace
    | String(text: string)
    | Colon
    | Comma
    | Number(numeral: string)
    | Boolean(b: bool)
    | Null

  /** The tokens that carry data. */
  predicate HasPayload(t: Token) {
    t.String? || t.Number? || t.Boolean?
  }

  /** The tokens without payload are the six punctuation tokens, `Whitespace` and
      `Null`: each is fixed by its kind alone. */
  lemma PayloadFreeTokens(t: Token)
    ensures !HasPayload(t) <==> t in {LeftBrace, RightBrace, LeftBracket, RightBracket, Whitespace, Colon, Comma, Null}
  {
  }
}
