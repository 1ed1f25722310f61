/** Bounded comparison and substring search (bx::strincmp, bx::stricmp, bx::strnstr, bx::stristr). */
module Search {
  import opened Wrappers
  import opened Chars
  import opened CString

  /** strincmp: compares at most max characters after lower-casing them; stops at the first
      difference or at a terminator, and returns the difference of the two lower-cased
      characters there (0 when the bound or both terminators are reached first). */
  function Strincmp(a: seq<char>, b: seq<char>, max: nat): int
    decreases max
  {
    if max == 0 then 0
    else
      var ca, cb := ToLower(At(a, 0)), ToLower(At(b, 0));
      if ca != cb then ca as int - cb as int
      else if At(a, 0) == Nul then 0
      else Strincmp(a[1..], b[1..], max - 1)
  }

  /** stricmp: Strincmp with no bound. */
  function Stricmp(a: seq<char>, b: seq<char>): (r: int)
    ensures Strlen(a) <= SizeMax && Strlen(b) <= SizeMax ==>
              (r == 0 <==> LowerStr(Content(a)) == LowerStr(Content(b)))
    ensures Strlen(a) <= SizeMax && Strlen(b) <= SizeMax ==>
              Sign(r) == LexCmp(LowerStr(Content(a)), LowerStr(Content(b)))
  {
    assert Content(a)[..Strlen(a)] == Content(a) && Content(b)[..Strlen(b)] == Content(b);
    StrincmpOrder(a, b, SizeMax);
    StrincmpZero(a, b, SizeMax);
    Strincmp(a, b, SizeMax)
  }

  function Sign(x: int): int { if x < 0 then -1 else if x > 0 then 1 else 0 }

  /** Lexicographic order by character code; a proper prefix comes first. */
  function LexCmp(x: seq<char>, y: seq<char>): int
  {
    if x == [] && y == [] then 0
    else if x == [] then -1
    else if y == [] then 1
    else if x[0] < y[0] then -1
    else if x[0] > y[0] then 1
    else LexCmp(x[1..], y[1..])
  }

  /** What strincmp compares: the lower-cased content, cut at max characters. */
  function Key(s: seq<char>, max: nat): seq<char>
  {
    LowerStr(Content(s)[..Min(max, Strlen(s))])
  }

  lemma {:induction false} LexCmpZero(x: seq<char>, y: seq<char>)
    ensures LexCmp(x, y) == 0 <==> x == y
  {
    if x != [] && y != [] && x[0] == y[0] {
      LexCmpZero(x[1..], y[1..]);
      assert x == [x[0]] + x[1..] && y == [y[0]] + y[1..];
    }
  }

  lemma {:induction false} LexCmpAntisymmetric(x: seq<char>, y: seq<char>)
    ensures LexCmp(x, y) == -LexCmp(y, x)
  {
    if x != [] && y != [] && x[0] == y[0] {
      LexCmpAntisymmetric(x[1..], y[1..]);
    }
  }

  /** Cutting off the first character: the key of a non-empty string is its lower-cased first
      character followed by the key of the rest; the key of an empty string is empty. */
  lemma {:induction false} KeyStep(s: seq<char>, max: nat)
    requires max > 0
    ensures Strlen(s) > 0 ==> Key(s, max) == [ToLower(s[0])] + Key(s[1..], max - 1)
    ensures Strlen(s) == 0 ==> Key(s, max) == []
  {
    if Strlen(s) == 0 {
      return;
    }
    var m := Min(max, Strlen(s));
    assert Strlen(s) == 1 + Strlen(s[1..]);
    assert Content(s)[..m] == s[..m];
    assert Content(s[1..])[..m - 1] == s[1..m];
    assert s[..m] == [s[0]] + s[1..m];
    var k, t := Key(s, max), [ToLower(s[0])] + Key(s[1..], max - 1);
    assert |k| == |t|;
    forall i | 0 <= i < |k| ensures k[i] == t[i] {
      if i > 0 {
        assert s[..m][i] == s[1..m][i - 1];
      }
    }
  }

  /** The sign of strincmp is the lexicographic order of the two keys: the case-folded
      strings cut at max characters, where a shorter string orders first. */
  lemma {:induction false} StrincmpOrder(a: seq<char>, b: seq<char>, max: nat)
    ensures Sign(Strincmp(a, b, max)) == LexCmp(Key(a, max), Key(b, max))
    decreases max
  {
    if max > 0 {
      var ca, cb := ToLower(At(a, 0)), ToLower(At(b, 0));
      CaseMapping(At(a, 0));
      CaseMapping(At(b, 0));
      KeyStep(a, max);
      KeyStep(b, max);
      if ca == cb && At(a, 0) != Nul {
        StrincmpOrder(a[1..], b[1..], max - 1);
        assert Key(a, max)[1..] == Key(a[1..], max - 1);
        assert Key(b, max)[1..] == Key(b[1..], max - 1);
      }
    }
  }

  /** strincmp reports equality exactly when the keys agree. */
  lemma StrincmpZero(a: seq<char>, b: seq<char>, max: nat)
    ensures Strincmp(a, b, max) == 0 <==> Key(a, max) == Key(b, max)
  {
    StrincmpOrder(a, b, max);
    LexCmpZero(Key(a, max), Key(b, max));
  }

  /** Swapping the arguments flips the sign of the result. */
  lemma StrincmpAntisymmetric(a: seq<char>, b: seq<char>, max: nat)
    ensures Sign(Strincmp(a, b, max)) == -Sign(Strincmp(b, a, max))
  {
    StrincmpOrder(a, b, max);
    StrincmpOrder(b, a, max);
    LexCmpAntisymmetric(Key(a, max), Key(b, max));
  }

  /** The empty string orders before every non-empty string. */
  lemma StrincmpEmpty(a: seq<char>, b: seq<char>, max: nat)
    requires Strlen(a) == 0 && Strlen(b) > 0 && max > 0
    ensures Strincmp(a, b, max) < 0
  {
    CaseMapping(b[0]);
  }

  /** f occurs in s at offset i. */
  predicate MatchAt(s: seq<char>, f: seq<char>, i: nat)
  {
    i + |f| <= |s| && s[i..i + |f|] == f
  }

  function SearchFrom(s: seq<char>, f: seq<char>, n: nat, i: nat): (r: Option<nat>)
    requires n <= |s| && i <= n
    ensures r.Some? ==> i <= r.value && r.value + |f| <= n && MatchAt(s, f, r.value)
    ensures r.Some? ==> forall j :: i <= j < r.value ==> !MatchAt(s, f, j)
    ensures r.None? ==> forall j :: i <= j && j + |f| <= n ==> !MatchAt(s, f, j)
    decreases n - i
  {
    if i + |f| > n then None
    else if s[i..i + |f|] == f then Some(i)
    else if i == n then None
    else SearchFrom(s, f, n, i + 1)
  }

  /** strnstr: the first offset where find's content occurs wholly inside the first size
      characters of the string. */
  function Strnstr(s: seq<char>, find: seq<char>, size: nat): (r: Option<nat>)
    ensures r.Some? ==> r.value + Strlen(find) <= Strnlen(s, size) && MatchAt(s, Content(find), r.value)
    ensures r.Some? ==> forall j :: 0 <= j < r.value ==> !MatchAt(s, Content(find), j)
    ensures r.None? ==> forall j: nat :: j + Strlen(find) <= Strnlen(s, size) ==> !MatchAt(s, Content(find), j)
  {
    SearchFrom(s, Content(find), Strnlen(s, size), 0)
  }

  /** f occurs in s at offset i when both are lower-cased. */
  predicate IMatchAt(s: seq<char>, f: seq<char>, i: nat)
  {
    i + |f| <= |s| && LowerStr(s[i..i + |f|]) == LowerStr(f)
  }

  lemma MatchLower(s: seq<char>, f: seq<char>, i: nat)
    ensures MatchAt(LowerStr(s), LowerStr(f), i) <==> IMatchAt(s, f, i)
  {
    if i + |f| <= |s| {
      assert LowerStr(s)[i..i + |f|] == LowerStr(s[i..i + |f|]);
    }
  }

  /** stristr: as strnstr, with both strings compared case-insensitively. */
  function Stristr(s: seq<char>, find: seq<char>, max: nat): (r: Option<nat>)
    ensures r.Some? ==> r.value + Strlen(find) <= Strnlen(s, max) && IMatchAt(s, Content(find), r.value)
    ensures r.Some? ==> forall j :: 0 <= j < r.value ==> !IMatchAt(s, Content(find), j)
    ensures r.None? ==> forall j: nat :: j + Strlen(find) <= Strnlen(s, max) ==> !IMatchAt(s, Content(find), j)
  {
    StrlenOfLower(s);
    StrlenOfLower(find);
    var f := Content(find);
    assert forall j: nat :: MatchAt(LowerStr(s), LowerStr(f), j) <==> IMatchAt(s, f, j) by {
      forall j: nat ensures MatchAt(LowerStr(s), LowerStr(f), j) <==> IMatchAt(s, f, j) {
        MatchLower(s, f, j);
      }
    }
    Strnstr(LowerStr(s), LowerStr(find), max)
  }
}
