/**
  Read-only scans over a NUL-terminated string. A returned pointer is an offset from the
  pointer passed in; `None` is NULL.
*/
module Scan {
  import opened Wrappers
  import opened Chars
  import opened CString

  /** First index in [i, n) that holds ch. */
  function FirstIndexFrom(s: seq<char>, ch: char, i: nat, n: nat): (r: Option<nat>)
    requires i <= n <= |s|
    ensures r.Some? ==> i <= r.value < n && s[r.value] == ch
    ensures r.Some? ==> forall j :: i <= j < r.value ==> s[j] != ch
    ensures r.None? ==> forall j :: i <= j < n ==> s[j] != ch
    decreases n - i
  {
    if i == n then None
    else if s[i] == ch then Some(i)
    else FirstIndexFrom(s, ch, i + 1, n)
  }

  /** Last index below n that holds ch. */
  function LastIndexBelow(s: seq<char>, ch: char, n: nat): (r: Option<nat>)
    requires n <= |s|
    ensures r.Some? ==> r.value < n && s[r.value] == ch
    ensures r.Some? ==> forall j :: r.value < j < n ==> s[j] != ch
    ensures r.None? ==> forall j :: 0 <= j < n ==> s[j] != ch
  {
    if n == 0 then None
    else if s[n - 1] == ch then Some(n - 1)
    else LastIndexBelow(s, ch, n - 1)
  }

  /** strnchr: the first occurrence of ch among the first max characters of the string. */
  function Strnchr(s: seq<char>, ch: char, max: nat): (r: Option<nat>)
    ensures r.Some? ==> r.value < Strnlen(s, max) && s[r.value] == ch
    ensures r.Some? ==> forall j :: 0 <= j < r.value ==> s[j] != ch
    ensures r.None? ==> forall j :: 0 <= j < Strnlen(s, max) ==> s[j] != ch
  {
    FirstIndexFrom(s, ch, 0, Strnlen(s, max))
  }

  /** strnrchr: the last occurrence of ch among the first max characters of the string. */
  function Strnrchr(s: seq<char>, ch: char, max: nat): (r: Option<nat>)
    ensures r.Some? ==> r.value < Strnlen(s, max) && s[r.value] == ch
    ensures r.Some? ==> forall j :: r.value < j < Strnlen(s, max) ==> s[j] != ch
    ensures r.None? ==> forall j :: 0 <= j < Strnlen(s, max) ==> s[j] != ch
  {
    LastIndexBelow(s, ch, Strnlen(s, max))
  }

  /** strws: skip a run of whitespace; the terminator is not whitespace. */
  function Strws(s: seq<char>): (r: nat)
    ensures r <= Strlen(s)
    ensures forall j :: 0 <= j < r ==> IsSpace(s[j])
    ensures !IsSpace(At(s, r))
  {
    if Strlen(s) > 0 && IsSpace(s[0]) then 1 + Strws(s[1..]) else 0
  }

  /** strnws: skip a run of non-whitespace, stopping at whitespace or at the terminator. */
  function Strnws(s: seq<char>): (r: nat)
    ensures r <= Strlen(s)
    ensures forall j :: 0 <= j < r ==> !IsSpace(s[j])
    ensures At(s, r) == Nul || IsSpace(At(s, r))
  {
    if Strlen(s) > 0 && !IsSpace(s[0]) then 1 + Strnws(s[1..]) else 0
  }

  /** strword: skip a run of alphanumeric characters. */
  function Strword(s: seq<char>): (r: nat)
    ensures r <= Strlen(s)
    ensures forall j :: 0 <= j < r ==> IsAlphaNum(s[j])
    ensures !IsAlphaNum(At(s, r))
  {
    if Strlen(s) > 0 && IsAlphaNum(s[0]) then 1 + Strword(s[1..]) else 0
  }

  /** A line ends at offset i: a '\n' or a '\r' is there. */
  predicate BreakAt(s: seq<char>, i: nat)
  {
    At(s, i) == '\n' || At(s, i) == '\r'
  }

  /** Length of the line terminator starting at i: 2 for "\r\n", 1 for a '\n' or a lone '\r'. */
  function BreakLength(s: seq<char>, i: nat): nat
  {
    if At(s, i) == '\r' && At(s, i + 1) == '\n' then 2 else 1
  }

  function EolFrom(s: seq<char>, i: nat): (r: nat)
    requires i <= Strlen(s)
    ensures i <= r <= Strlen(s)
    ensures r < Strlen(s) ==> BreakAt(s, r)
    ensures forall j :: i <= j < r ==> !BreakAt(s, j)
    decreases Strlen(s) - i
  {
    if i == Strlen(s) || BreakAt(s, i) then i else EolFrom(s, i + 1)
  }

  /** streol: offset of the first '\n' or '\r', or of the string's end when there is none. */
  function Streol(s: seq<char>): (r: nat)
    ensures r <= Strlen(s)
    ensures r < Strlen(s) ==> BreakAt(s, r)
    ensures forall j :: 0 <= j < r ==> !BreakAt(s, j)
  {
    EolFrom(s, 0)
  }

  /** strnl: offset just after the current line's terminator ("\r\n", "\n" or a lone '\r'),
      or of the string's end when the line has none; a "\r\n" is always stepped over whole. */
  function Strnl(s: seq<char>): (r: nat)
    ensures Streol(s) <= r <= Strlen(s)
    ensures r > Streol(s) <==> Streol(s) < Strlen(s)
    ensures r > Streol(s) ==> IsLineBreak(s[Streol(s)..r])
    ensures r > Streol(s) && At(s, Streol(s)) == '\r' && At(s, Streol(s) + 1) == '\n' ==>
              r == Streol(s) + 2
  {
    var e := Streol(s);
    if e == Strlen(s) then e
    else
      LineBreakText(s, e);
      e + BreakLength(s, e)
  }

  /** The three line terminators strnl steps over. */
  predicate IsLineBreak(t: seq<char>)
  {
    t == "\r\n" || t == "\n" || t == "\r"
  }

  /** The string splits into its first line, that line's terminator and the rest:
      strnl moves past a terminator exactly when the string holds a '\n' or a '\r'. */
  lemma {:induction false} LineSplit(s: seq<char>)
    ensures Strnl(s) > Streol(s) <==> exists j :: 0 <= j < Strlen(s) && BreakAt(s, j)
    ensures Content(s) == s[..Streol(s)] + s[Streol(s)..Strnl(s)] + Content(s[Strnl(s)..])
  {
    var e, n, len := Streol(s), Strnl(s), Strlen(s);
    assert n <= len;
    StrlenOfSuffix(s, n);
    assert s[..len] == s[..e] + s[e..n] + s[..len][n..];
  }

  /** A terminator found at e lies inside the string and is "\r\n", "\n" or a lone '\r'. */
  lemma LineBreakText(s: seq<char>, e: nat)
    requires e < Strlen(s) && BreakAt(s, e)
    ensures e + BreakLength(s, e) <= Strlen(s)
    ensures IsLineBreak(s[e..e + BreakLength(s, e)])
  {
    if BreakLength(s, e) == 2 {
      assert At(s, e + 1) == '\n';
      assert e + 1 < Strlen(s);
      assert s[e..e + 2] == "\r\n";
    } else {
      assert s[e..e + 1] == [s[e]];
    }
  }

  /** The content of a suffix that starts inside the string is the rest of the content. */
  lemma {:induction false} StrlenOfSuffix(s: seq<char>, k: nat)
    requires k <= Strlen(s)
    ensures Strlen(s[k..]) == Strlen(s) - k
    ensures Content(s[k..]) == Content(s)[k..]
  {
    if k > 0 {
      assert s[k..] == s[1..][k - 1..];
      StrlenOfSuffix(s[1..], k - 1);
    }
  }

  /** Nesting change of one character: +1 for open, -1 for close. */
  function Step(c: char, open: char, close: char): int
  {
    if c == open then 1 else if c == close then -1 else 0
  }

  /** Nesting depth after reading the first n characters of s. */
  function Depth(s: seq<char>, n: nat, open: char, close: char): int
    requires n <= |s|
  {
    if n == 0 then 0 else Depth(s, n - 1, open, close) + Step(s[n - 1], open, close)
  }

  /** Scans on from offset i, where the depth is `depth`, for the `close` that ends the nesting. */
  function MatchFrom(s: seq<char>, open: char, close: char, i: nat, depth: int): (r: Option<nat>)
    requires 1 <= i <= Strlen(s)
    requires depth == Depth(s, i, open, close) && depth > 0
    ensures r.Some? ==> i <= r.value < Strlen(s) && s[r.value] == close
    decreases Strlen(s) - i
  {
    if i == Strlen(s) then None
    else
    if s[i] == open then MatchFrom(s, open, close, i + 1, depth + 1)
    else if s[i] == close then
      if depth == 1 then Some(i) else MatchFrom(s, open, close, i + 1, depth - 1)
    else MatchFrom(s, open, close, i + 1, depth)
  }

  /** The scan stops exactly where the depth first returns to zero. */
  lemma {:induction false} MatchFromDepth(s: seq<char>, open: char, close: char, i: nat, depth: int)
    requires 1 <= i <= Strlen(s)
    requires depth == Depth(s, i, open, close) && depth > 0
    ensures var r := MatchFrom(s, open, close, i, depth);
      r.Some? ==> Depth(s, r.value + 1, open, close) == 0
    ensures var r := MatchFrom(s, open, close, i, depth);
      r.Some? ==> forall k :: i <= k <= r.value ==> Depth(s, k, open, close) > 0
    ensures MatchFrom(s, open, close, i, depth).None? ==>
      forall k :: i <= k <= Strlen(s) ==> Depth(s, k, open, close) > 0
    decreases Strlen(s) - i
  {
    if i < Strlen(s) {
        if s[i] == open {
        MatchFromDepth(s, open, close, i + 1, depth + 1);
      } else if s[i] == close {
        if depth != 1 {
          MatchFromDepth(s, open, close, i + 1, depth - 1);
        }
      } else {
        MatchFromDepth(s, open, close, i + 1, depth);
      }
    }
  }

  /** strmb: given a string that starts with `open`, the offset of the `close` that brings the
      nesting depth back to zero; None when the terminator comes first. */
  function Strmb(s: seq<char>, open: char, close: char): (r: Option<nat>)
    requires Strlen(s) > 0 && s[0] == open
    ensures r.Some? ==> 0 < r.value < Strlen(s) && s[r.value] == close
    ensures r.Some? ==> Depth(s, r.value + 1, open, close) == 0
    ensures r.Some? ==> forall k :: 1 <= k <= r.value ==> Depth(s, k, open, close) > 0
    ensures r.None? ==> forall k :: 1 <= k <= Strlen(s) ==> Depth(s, k, open, close) > 0
  {
    MatchFromDepth(s, open, close, 1, 1);
    MatchFrom(s, open, close, 1, 1)
  }
}
