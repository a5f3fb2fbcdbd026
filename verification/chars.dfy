/**
 * Character classes used by the tokenizer and the case folding used for
 * every table and lexicon lookup.
 *
 * `\w` is taken as ASCII letters, digits and underscore; `\s` is the set of
 * characters Python's `str.isspace` accepts; lowercasing folds ASCII `A`-`Z`
 * only.
 */
module Chars {

  /** A character matched by the regular-expression class `\w`. */
  predicate IsWordChar(c: char) {
    ('a' <= c <= 'z') || ('A' <= c <= 'Z') || ('0' <= c <= '9') || c == '_'
  }

  /** A character matched by the regular-expression class `\s`. */
  predicate IsSpace(c: char) {
    ('\t' <= c <= '\r')                         // tab, newline, vertical tab, form feed, carriage return
    || ('\U{1C}' <= c <= '\U{1F}')              // information separators
    || c == ' ' || c == '\U{85}' || c == '\U{A0}' || c == '\U{1680}'
    || ('\U{2000}' <= c <= '\U{200A}')
    || c == '\U{2028}' || c == '\U{2029}' || c == '\U{202F}' || c == '\U{205F}' || c == '\U{3000}'
  }

  /** A character matched by `[^\w\s]`: it forms a token on its own. */
  predicate IsSymbol(c: char) {
    !IsWordChar(c) && !IsSpace(c)
  }

  lemma WordCharIsNotSpace(c: char)
    ensures IsWordChar(c) ==> !IsSpace(c)
  {}

  /** An ASCII capital letter: the only characters lowercasing changes. */
  predicate IsUpper(c: char) {
    'A' <= c <= 'Z'
  }

  /** The lowercase letters, in the order of the capitals they stand for. */
  const Alphabet: string := "abcdefghijklmnopqrstuvwxyz"

  /** Lowercasing one character: a capital becomes the lowercase letter of
      the same position in the alphabet, every other character is kept, and
      the result stays in the same character class, so case folding never
      moves a token boundary. */
  function LowerChar(c: char): (r: char)
    ensures IsUpper(c) ==> r == Alphabet[c as int - 'A' as int]
    ensures !IsUpper(c) ==> r == c
    ensures !IsUpper(r)
    ensures IsWordChar(r) <==> IsWordChar(c)
    ensures IsSpace(r) <==> IsSpace(c)
  {
    if IsUpper(c) then (c as int - 'A' as int + 'a' as int) as char else c
  }

  /** Python's `str.lower`, restricted to ASCII letters: every capital is
      replaced by its lowercase letter and every other character is kept, so
      the result has the same length, contains no capital, and lowercasing it
      again changes nothing. */
  function Lower(s: string): (r: string)
    ensures |r| == |s|
    ensures forall k :: 0 <= k < |s| ==> r[k] == (if IsUpper(s[k]) then Alphabet[s[k] as int - 'A' as int] else s[k])
    ensures forall k :: 0 <= k < |r| ==> !IsUpper(r[k])
    ensures forall k :: 0 <= k < |r| ==> (IsWordChar(r[k]) <==> IsWordChar(s[k]))
  {
    seq(|s|, k requires 0 <= k < |s| => LowerChar(s[k]))
  }

  /** Lowercasing is idempotent. */
  lemma LowerIsIdempotent(s: string)
    ensures Lower(Lower(s)) == Lower(s)
  {
    var r := Lower(s);
    assert forall k :: 0 <= k < |r| ==> Lower(r)[k] == r[k];
  }

  /** The characters of `s` that are not whitespace, in order. */
  function RemoveSpaces(s: string): string
  {
    if |s| == 0 then []
    else if IsSpace(s[0]) then RemoveSpaces(s[1..])
    else [s[0]] + RemoveSpaces(s[1..])
  }
}
