/**
  NUL-terminated strings. A `const char*` is modelled as the sequence of characters that
  memory holds from the pointer on; its content runs up to the first NUL (or to the end of
  the sequence, the end of readable memory, when there is none).
*/
module CString {
  import opened Chars

  /** (size_t)-1: the "no limit" default of the bounded functions. */
  const SizeMax: nat := 0xFFFF_FFFF_FFFF_FFFF
  const UInt16Max: nat := 0xFFFF
  const UInt32Max: nat := 0xFFFF_FFFF

  type uint32 = n: nat | n <= 0xFFFF_FFFF

  function Min(a: nat, b: nat): nat { if a <= b then a else b }

  predicate NoNul(s: seq<char>) { forall i :: 0 <= i < |s| ==> s[i] != Nul }

  /** strlen: the number of characters before the terminator. */
  function Strlen(s: seq<char>): (n: nat)
    ensures n <= |s|
    ensures NoNul(s[..n])
    ensures n < |s| ==> s[n] == Nul
  {
    if |s| == 0 || s[0] == Nul then 0 else 1 + Strlen(s[1..])
  }

  /** The characters of the string, without its terminator. */
  function Content(s: seq<char>): seq<char>
  {
    s[..Strlen(s)]
  }

  /** The character a scan reads at offset i: the content, then the terminator. */
  function At(s: seq<char>, i: nat): char
  {
    if i < Strlen(s) then s[i] else Nul
  }

  /** strnlen: the string's length, but never more than max. */
  function Strnlen(s: seq<char>, max: nat): (n: nat)
    ensures n == Min(max, Strlen(s))
  {
    if max == 0 || |s| == 0 || s[0] == Nul then 0 else 1 + Strnlen(s[1..], max - 1)
  }

  /** The buffer after `data` and a terminator were written at offset `at`. */
  function Place(buf: seq<char>, at: nat, data: seq<char>): seq<char>
    requires at + |data| < |buf|
  {
    buf[..at] + data + [Nul] + buf[at + |data| + 1..]
  }

  /** A string with no NUL in `c`, followed by a NUL, has exactly `c` as content. */
  lemma {:induction false} ContentOfTerminated(c: seq<char>, rest: seq<char>)
    requires NoNul(c)
    ensures Strlen(c + [Nul] + rest) == |c|
    ensures Content(c + [Nul] + rest) == c
  {
    if c != [] {
      assert (c + [Nul] + rest)[1..] == c[1..] + [Nul] + rest;
      ContentOfTerminated(c[1..], rest);
    }
  }

  /** Writing terminated data behind a terminator-free prefix yields prefix + data as content. */
  lemma ContentOfPlace(buf: seq<char>, at: nat, data: seq<char>)
    requires at + |data| < |buf|
    requires NoNul(buf[..at]) && NoNul(data)
    ensures Strlen(Place(buf, at, data)) == at + |data|
    ensures Content(Place(buf, at, data)) == buf[..at] + data
  {
    assert Place(buf, at, data) == (buf[..at] + data) + [Nul] + buf[at + |data| + 1..];
    ContentOfTerminated(buf[..at] + data, buf[at + |data| + 1..]);
  }

  /** Lower-casing neither moves nor removes the terminator. */
  lemma {:induction false} StrlenOfLower(s: seq<char>)
    ensures Strlen(LowerStr(s)) == Strlen(s)
    ensures Content(LowerStr(s)) == LowerStr(Content(s))
  {
    if |s| > 0 && s[0] != Nul {
      CaseMapping(s[0]);
      assert LowerStr(s)[1..] == LowerStr(s[1..]);
      StrlenOfLower(s[1..]);
    } else if |s| > 0 {
      CaseMapping(s[0]);
    }
  }

  /** Writing the first n characters of t, and a terminator, over a string's terminator
      appends them to its content. */
  lemma AppendCut(buf: seq<char>, t: seq<char>, n: nat)
    requires n <= Strlen(t) && Strlen(buf) + n < |buf|
    ensures Strlen(Place(buf, Strlen(buf), t[..n])) == Strlen(buf) + n
    ensures Content(Place(buf, Strlen(buf), t[..n])) == Content(buf) + Content(t)[..n]
  {
    assert NoNul(t[..n]) by {
      assert t[..n] == t[..Strlen(t)][..n];
    }
    ContentOfPlace(buf, Strlen(buf), t[..n]);
    assert Content(t)[..n] == t[..n];
  }
}
