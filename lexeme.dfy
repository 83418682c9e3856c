/** The two character classes of the tokenizer (parse.hpp `isNumber` and `isDigit`). */
module Lexeme {

  /** A character that may stand in a number or variable token: ASCII letters, digits,
      '.', '_', and the two quote characters (which carry no special meaning). A token never
      swallows a parenthesis. */
  predicate IsNumber(c: char)
    ensures IsNumber(c) ==> c != '(' && c != ')'
  {
    ('a' <= c <= 'z') || ('A' <= c <= 'Z') || ('0' <= c <= '9')
    || c == '.' || c == '_' || c == '\'' || c == '\"'
  }

  /** A character of a numeric literal: an ASCII digit or '.'.
      Every such character is also a token character. */
  predicate IsDigit(c: char)
    ensures IsDigit(c) ==> IsNumber(c)
  {
    ('0' <= c <= '9') || c == '.'
  }

  /** `std::all_of(str.begin(), str.end(), isDigit)`: true of the empty token too. An
      all-digit string is made of token characters only. */
  predicate AllDigits(tok: string)
    ensures tok == [] ==> AllDigits(tok)
    ensures AllDigits(tok) ==> forall k | 0 <= k < |tok| :: IsNumber(tok[k])
  {
    forall k | 0 <= k < |tok| :: IsDigit(tok[k])
  }

  /** The token characters that are not digit characters are exactly the letters,
      '_' and the two quotes: a token holding one of them names a variable. */
  lemma NameCharacters(c: char)
    ensures IsNumber(c) && !IsDigit(c)
        <==> ('a' <= c <= 'z') || ('A' <= c <= 'Z') || c == '_' || c == '\'' || c == '\"'
  {
  }
}
