/**
  Bounded copy and concatenation into a caller's buffer (bx::strlcpy, bx::strlcat,
  bx::strlncpy, bx::strlncat). The buffer is an array; the source string is a value.
*/
module Copy {
  import opened Chars
  import opened CString

  /** Copies data into dst at offset at and writes a terminator behind it. */
  method WriteAt(dst: array<char>, at: nat, data: seq<char>)
    requires at + |data| < dst.Length
    modifies dst
    ensures dst[..] == Place(old(dst[..]), at, data)
  {
    var i := 0;
    while i < |data|
      invariant 0 <= i <= |data|
      invariant forall k :: 0 <= k < dst.Length && !(at <= k < at + i) ==> dst[k] == old(dst[k])
      invariant forall k :: 0 <= k < i ==> dst[at + k] == data[k]
    {
      dst[at + i] := data[i];
      i := i + 1;
    }
    dst[at + |data|] := Nul;
    assert dst[..] == Place(old(dst[..]), at, data) by {
      var p := Place(old(dst[..]), at, data);
      forall k | 0 <= k < dst.Length ensures dst[k] == p[k] {
        if k < at { } else if k < at + |data| { assert dst[at + (k - at)] == data[k - at]; } else { }
      }
    }
  }

  /** The buffer strlcpy leaves: nothing written when siz is 0, otherwise the first
      min(siz - 1, strlen(src)) characters of src and a terminator. */
  function StrlcpyResult(buf: seq<char>, src: seq<char>, siz: nat): seq<char>
    requires siz <= |buf|
  {
    if siz == 0 then buf else Place(buf, 0, src[..Min(siz - 1, Strlen(src))])
  }

  /** strlcpy: at most siz - 1 characters are copied and the result is terminated whenever
      siz > 0; it is the whole of src exactly when strlen(src) < siz, so a return value
      >= siz means truncation. */
  lemma {:induction false} StrlcpyTruncation(buf: seq<char>, src: seq<char>, siz: nat)
    requires 0 < siz <= |buf|
    ensures Strlen(StrlcpyResult(buf, src, siz)) < siz
    ensures Content(StrlcpyResult(buf, src, siz)) == Content(src)[..Min(siz - 1, Strlen(src))]
    ensures Content(StrlcpyResult(buf, src, siz)) == Content(src) <==> Strlen(src) < siz
  {
    var n := Min(siz - 1, Strlen(src));
    ContentOfPlace(buf, 0, src[..n]);
    assert Content(src)[..n] == src[..n];
  }

  method Strlcpy(dst: array<char>, src: seq<char>, siz: nat) returns (r: nat)
    requires siz <= dst.Length
    modifies dst
    ensures r == Strlen(src)
    ensures dst[..] == StrlcpyResult(old(dst[..]), src, siz)
    ensures siz > 0 ==> Content(dst[..]) == src[..Min(siz - 1, r)]
  {
    r := Strlen(src);
    if siz > 0 {
      var n := Min(siz - 1, r);
      WriteAt(dst, 0, src[..n]);
      ContentOfPlace(old(dst[..]), 0, src[..n]);
    }
  }

  /** The buffer strlcat leaves: the string in the first siz characters of dst is extended
      by as much of src as keeps the total at siz - 1; nothing is written when those siz
      characters hold no terminator. */
  function StrlcatResult(buf: seq<char>, src: seq<char>, siz: nat): seq<char>
    requires siz <= |buf|
  {
    var dlen := Strnlen(buf, siz);
    if dlen == siz then buf else Place(buf, dlen, src[..Min(siz - dlen - 1, Strlen(src))])
  }

  /** strlcat: when dst's string is shorter than siz the result is terminated, holds at most
      siz - 1 characters, and is dst's string followed by a prefix of src, all of it exactly
      when strlen(src) + strlen(dst) < siz; otherwise the buffer is left as it was. */
  lemma {:induction false} StrlcatTruncation(buf: seq<char>, src: seq<char>, siz: nat)
    requires siz <= |buf|
    ensures siz <= Strlen(buf) ==> StrlcatResult(buf, src, siz) == buf
    ensures siz > Strlen(buf) ==>
              && Strlen(StrlcatResult(buf, src, siz)) < siz
              && Content(StrlcatResult(buf, src, siz))
                   == Content(buf) + Content(src)[..Min(siz - Strlen(buf) - 1, Strlen(src))]
              && (Content(StrlcatResult(buf, src, siz)) == Content(buf) + Content(src)
                  <==> Strlen(src) + Strlen(buf) < siz)
  {
    if siz > Strlen(buf) {
      var n := Min(siz - Strlen(buf) - 1, Strlen(src));
      assert StrlcatResult(buf, src, siz) == Place(buf, Strlen(buf), src[..n]);
      AppendCut(buf, src, n);
      CutEqualsWhole(Content(buf), Content(src), n);
    }
  }

  /** Appending a cut of t equals appending all of t only when nothing was cut. */
  lemma CutEqualsWhole(c: seq<char>, t: seq<char>, n: nat)
    requires n <= |t|
    ensures c + t[..n] == c + t <==> n == |t|
  {
    if c + t[..n] == c + t {
      assert |c + t[..n]| == |c + t|;
    }
  }

  method Strlcat(dst: array<char>, src: seq<char>, siz: nat) returns (r: nat)
    requires siz <= dst.Length
    modifies dst
    ensures r == Strlen(src) + Min(siz, Strlen(old(dst[..])))
    ensures dst[..] == StrlcatResult(old(dst[..]), src, siz)
  {
    var dlen := Strnlen(dst[..], siz);
    r := Strlen(src) + dlen;
    if dlen < siz {
      WriteAt(dst, dlen, src[..Min(siz - dlen - 1, Strlen(src))]);
    }
  }

  /** The number of characters strlncpy copies. */
  function StrlncpyCount(dstSize: nat, src: seq<char>, num: nat): nat
  {
    if dstSize == 0 then 0 else Min(Strnlen(src, num), dstSize - 1)
  }

  /** strlncpy copies min(num, strlen(src), dstSize - 1) characters: the content of the
      destination is that prefix of src, and it is all of src when num and the capacity allow. */
  lemma {:induction false} StrlncpyCopies(buf: seq<char>, dstSize: nat, src: seq<char>, num: nat)
    requires 0 < dstSize <= |buf|
    ensures StrlncpyCount(dstSize, src, num) == Min(Min(num, Strlen(src)), dstSize - 1)
    ensures Content(Place(buf, 0, src[..StrlncpyCount(dstSize, src, num)]))
              == Content(src)[..StrlncpyCount(dstSize, src, num)]
    ensures num >= Strlen(src) && dstSize > Strlen(src) ==>
              Content(Place(buf, 0, src[..StrlncpyCount(dstSize, src, num)])) == Content(src)
  {
    var n := StrlncpyCount(dstSize, src, num);
    ContentOfPlace(buf, 0, src[..n]);
    assert Content(src)[..n] == src[..n];
  }

  method Strlncpy(dst: array<char>, dstSize: nat, src: seq<char>, num: nat) returns (r: nat)
    requires dstSize <= dst.Length
    modifies dst
    ensures r == StrlncpyCount(dstSize, src, num)
    ensures dstSize == 0 ==> dst[..] == old(dst[..])
    ensures dstSize > 0 ==> dst[..] == Place(old(dst[..]), 0, src[..r])
    ensures dstSize > 0 ==> Content(dst[..]) == src[..r]
  {
    if dstSize == 0 {
      return 0;
    }
    var len := Strnlen(src, num);
    r := Min(len, dstSize - 1);
    WriteAt(dst, 0, src[..r]);
    ContentOfPlace(old(dst[..]), 0, src[..r]);
  }

  /** The number of characters strlncat appends: as strlncpy into the space behind
      dst's string, or 0 when the first dstSize characters hold no terminator. */
  function StrlncatCount(buf: seq<char>, dstSize: nat, src: seq<char>, num: nat): nat
  {
    StrlncpyCount(dstSize - Strnlen(buf, dstSize), src, num)
  }

  /** strlncat appends min(num, strlen(src), dstSize - 1 - strlen(dst)) characters of src
      behind dst's string and keeps it terminated. */
  lemma {:induction false} StrlncatAppends(buf: seq<char>, dstSize: nat, src: seq<char>, num: nat)
    requires dstSize <= |buf| && Strlen(buf) < dstSize
    ensures StrlncatCount(buf, dstSize, src, num) == Min(Min(num, Strlen(src)), dstSize - 1 - Strlen(buf))
    ensures Content(Place(buf, Strlen(buf), src[..StrlncatCount(buf, dstSize, src, num)]))
              == Content(buf) + Content(src)[..StrlncatCount(buf, dstSize, src, num)]
    ensures Strlen(Place(buf, Strlen(buf), src[..StrlncatCount(buf, dstSize, src, num)])) < dstSize
  {
    ContentOfPlace(buf, Strlen(buf), src[..StrlncatCount(buf, dstSize, src, num)]);
  }

  method Strlncat(dst: array<char>, dstSize: nat, src: seq<char>, num: nat) returns (r: nat)
    requires dstSize <= dst.Length
    modifies dst
    ensures r == StrlncatCount(old(dst[..]), dstSize, src, num)
    ensures Strlen(old(dst[..])) >= dstSize ==> r == 0 && dst[..] == old(dst[..])
    ensures Strlen(old(dst[..])) < dstSize ==>
              dst[..] == Place(old(dst[..]), Strlen(old(dst[..])), src[..r])
    ensures Strlen(old(dst[..])) < dstSize ==> Content(dst[..]) == Content(old(dst[..])) + src[..r]
  {
    var len := Strnlen(dst[..], dstSize);
    if len == dstSize {
      return 0;
    }
    r := Min(Strnlen(src, num), dstSize - len - 1);
    WriteAt(dst, len, src[..r]);
    ContentOfPlace(old(dst[..]), len, src[..r]);
  }
}
