/** ASCII character classifiers and case mapping (bx::isLower, bx::toLower, ...). */
module Chars {
  const Nul: char := '\0'

  const LowerLetters: seq<char> := "abcdefghijklmnopqrstuvwxyz"
  const UpperLetters: seq<char> := "ABCDEFGHIJKLMNOPQRSTUVWXYZ"
  const Digits: seq<char> := "0123456789"

  predicate IsLower(c: char) { 'a' <= c <= 'z' }

  predicate IsUpper(c: char) { 'A' <= c <= 'Z' }

  predicate IsAlpha(c: char) { IsLower(c) || IsUpper(c) }

  predicate IsNumeric(c: char) { '0' <= c <= '9' }

  predicate IsAlphaNum(c: char) { IsAlpha(c) || IsNumeric(c) }

  /** Space, tab, line feed and carriage return. */
  predicate IsSpace(c: char) { c == ' ' || c == '\t' || c == '\n' || c == '\r' }

  /** Upper-case letters move 32 code points up to their lower-case form; everything else is kept. */
  function ToLower(c: char): char
  {
    if IsUpper(c) then (c as int + 32) as char else c
  }

  /** Lower-case letters move 32 code points down to their upper-case form; everything else is kept. */
  function ToUpper(c: char): char
  {
    if IsLower(c) then (c as int - 32) as char else c
  }

  /** Each character of s lower-cased. */
  function LowerStr(s: seq<char>): (r: seq<char>)
    ensures |r| == |s|
    ensures forall i :: 0 <= i < |s| ==> r[i] == ToLower(s[i])
  {
    seq(|s|, i requires 0 <= i < |s| => ToLower(s[i]))
  }

  /** Every upper-case letter is alphabetic and alphanumeric, not lower-case, not a digit,
      and lower-cases to a lower-case letter. */
  lemma UpperClassification(ch: char)
    requires 'A' <= ch <= 'Z'
    ensures IsUpper(ch) && IsAlpha(ch) && IsAlphaNum(ch)
    ensures !IsLower(ch) && !IsNumeric(ch)
    ensures IsLower(ToLower(ch))
  {
  }

  /** ToLower and ToUpper are inverse on letters, idempotent, and never create or remove a terminator. */
  lemma CaseMapping(c: char)
    ensures IsUpper(c) ==> ToUpper(ToLower(c)) == c
    ensures IsLower(c) ==> ToLower(ToUpper(c)) == c
    ensures ToLower(ToLower(c)) == ToLower(c) && !IsUpper(ToLower(c))
    ensures IsAlpha(ToLower(c)) <==> IsAlpha(c)
    ensures ToLower(c) == Nul <==> c == Nul
  {
  }

  /** The classifiers accept exactly the letters and digits of the ASCII alphabets. */
  lemma Alphabets(c: char)
    ensures IsLower(c) <==> c in LowerLetters
    ensures IsUpper(c) <==> c in UpperLetters
    ensures IsNumeric(c) <==> c in Digits
    ensures IsAlpha(c) <==> c in LowerLetters + UpperLetters
    ensures IsAlphaNum(c) <==> c in LowerLetters + UpperLetters + Digits
  {
  }
}
