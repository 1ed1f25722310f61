/**
  bx::StringView, a non-owning (pointer, length) pair, and bx::StringT, an owning,
  growable, NUL-terminated buffer. The memory a view points at is a value here (the
  characters from m_ptr on); the empty sequence stands for NULL.
*/
module Strings {
  import opened Chars
  import opened CString
  import opened Copy

  class StringView {
    /** m_ptr: the memory from the pointer on; the view does not own it. */
    var ptr: seq<char>
    /** m_len */
    var len: uint32

    /** The view covers readable memory and, its length being measured by strnlen, holds
        no terminator; nothing says the memory holds one at ptr[len]. */
    ghost predicate Valid()
      reads this
    {
      len <= |ptr| && NoNul(ptr[..len])
    }

    /** The characters the view stands for. */
    function Contents(): seq<char>
      reads this
      requires Valid()
    {
      ptr[..len]
    }

    constructor ()
      ensures Valid() && ptr == [] && len == 0
    {
      ptr, len := [], 0;
    }

    /** StringView(_rhs): a shallow copy that points at the same memory. */
    constructor Copy(rhs: StringView)
      requires rhs.Valid()
      ensures Valid() && ptr == rhs.ptr && len == rhs.len
    {
      ptr, len := rhs.ptr, rhs.len;
    }

    /** StringView(_ptr, _len): binds the view to p, measuring at most maxLen characters. */
    constructor FromPtr(p: seq<char>, maxLen: uint32)
      ensures Valid() && ptr == p && len == Strnlen(p, maxLen)
      ensures Contents() == Content(p)[..Min(maxLen, Strlen(p))]
    {
      ptr, len := p, Strnlen(p, maxLen);
    }

    /** operator=: re-points this view at rhs's memory. */
    method Assign(rhs: StringView)
      requires rhs.Valid()
      modifies this
      ensures Valid() && ptr == rhs.ptr && len == rhs.len
    {
      ptr, len := rhs.ptr, rhs.len;
    }

    method Set(p: seq<char>, maxLen: uint32)
      modifies this
      ensures Valid() && ptr == p && len == Strnlen(p, maxLen)
      ensures Contents() == Content(p)[..Min(maxLen, Strlen(p))]
    {
      ptr, len := p, Strnlen(p, maxLen);
    }

    method Clear()
      modifies this
      ensures Valid() && ptr == [] && len == 0
      ensures Contents() == [] && IsEmpty()
    {
      ptr, len := [], 0;
    }

    /** getPtr: the view's characters are the first getLength() characters there. */
    function GetPtr(): (p: seq<char>)
      reads this
      requires Valid()
      ensures Contents() <= p
    {
      ptr
    }

    function GetLength(): (n: uint32)
      reads this
      requires Valid()
      ensures n == |Contents()|
    {
      len
    }

    function IsEmpty(): (e: bool)
      reads this
      requires Valid()
      ensures e <==> Contents() == []
    {
      len == 0
    }
  }

  /** The allocator is not modelled: each allocation is a fresh array that never fails. */
  class StringT {
    /** The owned buffer m_ptr points at. */
    var buf: array<char>
    /** m_len */
    var len: nat

    /** The buffer holds len characters, none of them a terminator, and a terminator. */
    ghost predicate Valid()
      reads this, buf
    {
      len < buf.Length && buf[len] == Nul && NoNul(buf[..len])
    }

    function Contents(): seq<char>
      reads this, buf
      requires Valid()
    {
      buf[..len]
    }

    /** The empty string. */
    constructor ()
      ensures Valid() && fresh(buf) && Contents() == []
    {
      buf := new char[1][Nul];
      len := 0;
    }

    /** StringT(_ptr, _len): copies at most maxLen characters of p. */
    constructor FromPtr(p: seq<char>, maxLen: uint32)
      ensures Valid() && fresh(buf)
      ensures Contents() == Content(p)[..Min(maxLen, Strlen(p))]
    {
      var n := Strnlen(p, maxLen);
      var b := new char[n + 1];
      ghost var before := b[..];
      WriteAt(b, 0, p[..n]);
      ContentOfPlace(before, 0, p[..n]);
      buf, len := b, n;
    }

    /** StringT(const StringView&): an owning copy of the view's characters. */
    constructor FromView(v: StringView)
      requires v.Valid()
      ensures Valid() && fresh(buf) && Contents() == v.Contents()
    {
      var n := v.len;
      var b := new char[n + 1];
      ghost var before := b[..];
      WriteAt(b, 0, v.ptr[..n]);
      ContentOfPlace(before, 0, v.ptr[..n]);
      buf, len := b, n;
    }

    /** StringT(const StringT&): an owning copy of rhs's characters. */
    constructor Copy(rhs: StringT)
      requires rhs.Valid()
      ensures Valid() && fresh(buf) && Contents() == rhs.Contents()
    {
      var n := rhs.len;
      var b := new char[n + 1];
      ghost var before := b[..];
      WriteAt(b, 0, rhs.buf[..n]);
      ContentOfPlace(before, 0, rhs.buf[..n]);
      buf, len := b, n;
    }

    /** set: discards the old content and copies at most maxLen characters of p. */
    method Set(p: seq<char>, maxLen: uint32)
      modifies this
      ensures Valid() && fresh(buf)
      ensures Contents() == Content(p)[..Min(maxLen, Strlen(p))]
    {
      Clear();
      Append(p, maxLen);
    }

    /** append: grows the buffer and copies at most maxLen characters of p behind the content. */
    method Append(p: seq<char>, maxLen: uint32)
      requires Valid()
      modifies this
      ensures Valid() && fresh(buf)
      ensures Contents() == old(Contents()) + Content(p)[..Min(maxLen, Strlen(p))]
      ensures |Contents()| == old(|Contents()|) + Strnlen(p, maxLen)
    {
      var n := Strnlen(p, maxLen);
      var b := new char[len + n + 1];
      var data := buf[..len] + p[..n];
      ghost var before := b[..];
      WriteAt(b, 0, data);
      ContentOfPlace(before, 0, data);
      assert NoNul(data) by {
        assert NoNul(buf[..len]);
        assert NoNul(p[..n]);
      }
      assert Content(p)[..n] == p[..n];
      buf, len := b, len + n;
    }

    /** clear: drops the content; the buffer is released and the string is empty again. */
    method Clear()
      modifies this
      ensures Valid() && fresh(buf) && Contents() == []
      ensures IsEmpty()
    {
      buf := new char[1][Nul];
      len := 0;
    }

    /** getPtr: always a terminated string whose length is getLength(). */
    function GetPtr(): (p: seq<char>)
      reads this, buf
      requires Valid()
      ensures Strlen(p) == len && Content(p) == Contents()
    {
      ContentOfTerminated(buf[..len], buf[len + 1..]);
      assert buf[..] == buf[..len] + [Nul] + buf[len + 1..];
      buf[..]
    }

    function GetLength(): (n: nat)
      reads this, buf
      requires Valid()
      ensures n == |Contents()|
    {
      len
    }

    function IsEmpty(): (e: bool)
      reads this, buf
      requires Valid()
      ensures e <==> Contents() == []
    {
      len == 0
    }
  }
}
