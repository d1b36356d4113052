/**
 * Character-level helpers: lower-casing as `String.prototype.toLowerCase`
 * does it on ASCII letters, and the "word" characters a SQL identifier or
 * keyword is made of.
 */
module Text {

  /** Lower-cases one ASCII capital; every other character is left alone. */
  function LowerChar(c: char): char {
    if 'A' <= c <= 'Z' then (c as int + 32) as char else c
  }

  /** Lower-cases a string character by character. */
  function ToLower(s: string): string {
    seq(|s|, i requires 0 <= i < |s| => LowerChar(s[i]))
  }

  /** A letter or an underscore: the characters of an unquoted SQL word. */
  predicate IsWordChar(c: char) {
    'a' <= c <= 'z' || 'A' <= c <= 'Z' || c == '_'
  }

  predicate IsWord(s: string) {
    forall i :: 0 <= i < |s| ==> IsWordChar(s[i])
  }

  /* Regrouping of concatenations, stated once so that proofs about long
     texts need not unfold the texts themselves. */

  lemma ConcatAssoc(a: string, b: string, c: string)
    ensures a + b + c == a + (b + c)
  {
  }

  lemma ConcatAssoc4(a: string, b: string, c: string, d: string)
    ensures a + (b + c) + d == a + b + (c + d)
  {
  }

  lemma ConcatAssoc5(a: string, b: string, c: string, d: string, e: string)
    ensures a + b + c + d + e == a + (b + c + d + e)
  {
  }

  /**
   * A string whose lower-case form is a word is itself a word: lower-casing
   * never turns a quote, a blank or a semicolon into a letter.
   */
  lemma WordUnderLower(s: string)
    requires IsWord(ToLower(s))
    ensures IsWord(s)
  {
    forall i | 0 <= i < |s|
      ensures IsWordChar(s[i])
    {
      assert IsWordChar(ToLower(s)[i]);
    }
  }
}
