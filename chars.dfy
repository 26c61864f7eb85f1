/**
 * The two character tests the tokenizer is built on, `char::is_numeric` and
 * `char::is_alphabetic`, restricted to ASCII: on ASCII text a character index and
 * a byte offset coincide, which the tokenizer's spans rely on.
 */
module CharClass {

  predicate IsNumeric(c: char) {
    '0' <= c <= '9'
  }

  predicate IsAlphabetic(c: char) {
    'a' <= c <= 'z' || 'A' <= c <= 'Z'
  }

  /** Every character of `s` is alphabetic. */
  predicate AllAlphabetic(s: string) {
    forall i :: 0 <= i < |s| ==> IsAlphabetic(s[i])
  }
}
