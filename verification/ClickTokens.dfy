/** The shape of a click token. */
module ClickTokens {
  const TOKEN_LENGTH := 12

  predicate IsBase62(c: char) {
    '0' <= c <= '9' || 'a' <= c <= 'z' || 'A' <= c <= 'Z'
  }

  predicate IsClickToken(t: string) {
    |t| == TOKEN_LENGTH && forall i :: 0 <= i < |t| ==> IsBase62(t[i])
  }
}
