/** The scenarios of bx's string unit tests, stated against the model. */
module StringTests {
  import opened Wrappers
  import opened Chars
  import opened CString
  import opened Scan
  import opened Search
  import opened Copy
  import opened Strings

  const Test: seq<char> := "test\0"
  const FoxText: seq<char> := "The Quick Brown Fox Jumps Over The Lazy Dog."
  const Fox: seq<char> := FoxText + [Nul]

  /** strnlen("test", max) for max 0, 2 and UINT32_MAX. */
  lemma StrnlenCases()
    ensures Strnlen(Test, 0) == 0
    ensures Strnlen(Test, 2) == 2
    ensures Strnlen(Test, UInt32Max) == 4
  {
  }

  /** strincmp on equal strings and on bounded prefixes. */
  lemma StrincmpEqualCases()
    ensures Strincmp("test\0", "test\0", SizeMax) == 0
  {
  }

  lemma StrincmpBoundedCases()
    ensures Strincmp("test\0", "testestes\0", 4) == 0
    ensures Strincmp("testestes\0", "test\0", 4) == 0
  {
    StrincmpAntisymmetric("test\0", "testestes\0", 4);
  }

  /** Strings that differ only after the bound compare equal. */
  lemma StrincmpPrefixCases()
    ensures Strincmp("abvgd\0", "abvgd\0", SizeMax) == 0
    ensures Strincmp("abvgd\0", "abvgx\0", 4) == 0
  {
  }

  lemma StrincmpDiffersCase()
    ensures Strincmp("preprocess\0", "platform\0", SizeMax) != 0
  {
  }

  /** strincmp's sign follows the first differing character. */
  lemma StrincmpOrderCases()
    ensures Strincmp("abvgd\0", "abvgx\0", SizeMax) < 0
  {
  }

  lemma StrincmpReverseOrderCase()
    ensures Strincmp("abvgx\0", "abvgd\0", SizeMax) > 0
  {
    StrincmpOrderCases();
    StrincmpAntisymmetric("abvgd\0", "abvgx\0", SizeMax);
  }

  /** The empty string orders first. */
  lemma StrincmpEmptyCases()
    ensures Strincmp("\0", "abvgd\0", SizeMax) < 0
    ensures Strincmp("abvgd\0", "\0", SizeMax) > 0
  {
    StrincmpAntisymmetric("\0", "abvgd\0", SizeMax);
  }

  /** strnchr and strnrchr find nothing outside the bound, and index 2 of "test" unbounded. */
  lemma StrnchrCases()
    ensures Strnchr(Test, 's', 0) == None
    ensures Strnchr(Test, 's', 2) == None
    ensures Strnchr(Test, 's', SizeMax) == Some(2)
    ensures Strnrchr(Test, 's', 0) == None
    ensures Strnrchr(Test, 's', 1) == None
    ensures Strnrchr(Test, 's', SizeMax) == Some(2)
  {
  }

  lemma FoxTextLength()
    ensures |FoxText| == 44 && NoNul(FoxText)
  {
  }

  lemma FoxTextWord()
    ensures FoxText[4..9] == "Quick" && FoxText[9] == ' '
  {
    assert FoxText[4] == 'Q' && FoxText[5] == 'u' && FoxText[6] == 'i' && FoxText[7] == 'c' && FoxText[8] == 'k';
  }

  lemma FoxTextOneQ()
    ensures forall i :: 0 <= i < |FoxText| && i != 4 ==> FoxText[i] != 'Q'
  {
  }

  lemma FoxTextOneFoldedQ()
    ensures forall i :: 0 <= i < |FoxText| && i != 4 ==> ToLower(FoxText[i]) != 'q'
  {
  }

  lemma FoxTextNoLowerQ()
    ensures forall i :: 0 <= i < |FoxText| ==> FoxText[i] != 'q'
  {
  }

  /** The facts about the test sentence that the substring cases rest on. */
  lemma FoxFacts()
    ensures Strlen(Fox) == 44 && Content(Fox) == FoxText
    ensures Fox[4..9] == "Quick" && Fox[9] == ' '
    ensures forall i :: 0 <= i < |Fox| && i != 4 ==> Fox[i] != 'Q' && ToLower(Fox[i]) != 'q'
    ensures forall i :: 0 <= i < |Fox| ==> Fox[i] != 'q'
  {
    FoxTextLength();
    FoxTextWord();
    FoxTextOneQ();
    FoxTextOneFoldedQ();
    FoxTextNoLowerQ();
    LiteralContent(FoxText, Fox);
    assert Fox[4..9] == FoxText[4..9];
    CaseMapping(Nul);
  }

  /** The content of a literal written with its terminator. */
  lemma LiteralContent(c: seq<char>, s: seq<char>)
    requires NoNul(c) && s == c + [Nul]
    ensures Content(s) == c && Strlen(s) == |c|
  {
    assert s == c + [Nul] + [];
    ContentOfTerminated(c, []);
  }

  lemma MatchStarts(s: seq<char>, f: seq<char>, j: nat)
    requires MatchAt(s, f, j) && |f| > 0
    ensures s[j] == f[0]
  {
    assert s[j..j + |f|][0] == s[j];
  }

  lemma IMatchStarts(s: seq<char>, f: seq<char>, j: nat)
    requires IMatchAt(s, f, j) && |f| > 0
    ensures ToLower(s[j]) == ToLower(f[0])
  {
    assert LowerStr(s[j..j + |f|])[0] == ToLower(s[j]);
  }

  /** Case-sensitively, "Quick" occurs in the sentence only at offset 4; "quick", "quick1"
      and "Quick1" nowhere. */
  lemma FoxMatches()
    ensures MatchAt(Fox, "Quick", 4)
    ensures forall j: nat :: MatchAt(Fox, "Quick", j) ==> j == 4
    ensures forall j: nat :: !MatchAt(Fox, "Quick1", j)
    ensures forall j: nat :: !MatchAt(Fox, "quick", j) && !MatchAt(Fox, "quick1", j)
  {
    FoxFacts();
    forall f: seq<char>, j: nat | f in {"quick", "quick1"} && MatchAt(Fox, f, j) ensures false {
      MatchStarts(Fox, f, j);
    }
    forall f: seq<char>, j: nat | f in {"Quick", "Quick1"} && MatchAt(Fox, f, j) ensures j == 4 {
      MatchStarts(Fox, f, j);
    }
    assert !MatchAt(Fox, "Quick1", 4) by {
      assert Fox[4..10][5] == Fox[9];
    }
  }

  /** strnstr is case-sensitive: the sentence holds "Quick", so "quick" is found under no bound. */
  lemma StrnstrCaseCases()
    ensures Strnstr(Fox, "quick\0", 8) == None
    ensures Strnstr(Fox, "quick1\0", SizeMax) == None
  {
    FoxFacts();
    FoxMatches();
    LiteralContent("quick", "quick\0");
    LiteralContent("quick1", "quick1\0");
  }

  lemma StrnstrCaseBoundCases()
    ensures Strnstr(Fox, "quick\0", 9) == None
    ensures Strnstr(Fox, "quick\0", SizeMax) == None
  {
    FoxFacts();
    FoxMatches();
    LiteralContent("quick", "quick\0");
  }

  /** "Quick" at offset 4 is not reported when the bound cuts it off; "Quick1" is nowhere. */
  lemma StrnstrBoundCases()
    ensures Strnstr(Fox, "Quick\0", 8) == None
    ensures Strnstr(Fox, "Quick1\0", SizeMax) == None
  {
    FoxFacts();
    FoxMatches();
    LiteralContent("Quick", "Quick\0");
    LiteralContent("Quick1", "Quick1\0");
  }

  /** "Quick" at offset 4 is found once the bound covers all of it. */
  lemma StrnstrFoundCases()
    ensures Strnstr(Fox, "Quick\0", 9) == Some(4)
    ensures Strnstr(Fox, "Quick\0", SizeMax) == Some(4)
  {
    FoxFacts();
    FoxMatches();
    LiteralContent("Quick", "Quick\0");
  }

  /** Case-insensitively, "quick" occurs in the sentence only at offset 4, and "quick1" nowhere. */
  lemma FoxIMatches()
    ensures IMatchAt(Fox, "quick", 4)
    ensures forall j: nat :: IMatchAt(Fox, "quick", j) ==> j == 4
    ensures forall j: nat :: !IMatchAt(Fox, "quick1", j)
  {
    FoxFacts();
    forall f: seq<char>, j: nat | f in {"quick", "quick1"} && IMatchAt(Fox, f, j) ensures j == 4 {
      IMatchStarts(Fox, f, j);
    }
    assert !IMatchAt(Fox, "quick1", 4) by {
      assert ToLower(Fox[9]) != ToLower('1');
      assert LowerStr(Fox[4..10])[5] == ToLower(Fox[9]);
    }
    assert IMatchAt(Fox, "quick", 4) by {
      assert LowerStr(Fox[4..9]) == LowerStr("quick");
    }
  }

  /** stristr finds no "quick" that would end past 8 characters. */
  lemma StristrBoundCase()
    ensures Stristr(Fox, "quick\0", 8) == None
  {
    FoxFacts();
    FoxIMatches();
    LiteralContent("quick", "quick\0");
  }

  /** stristr finds no "quick1" at all. */
  lemma StristrAbsentCase()
    ensures Stristr(Fox, "quick1\0", SizeMax) == None
  {
    FoxFacts();
    FoxIMatches();
    LiteralContent("quick1", "quick1\0");
  }

  /** stristr ignores case: "quick" is found at offset 4 once the bound admits all of it. */
  lemma StristrFoundCases()
    ensures Stristr(Fox, "quick\0", 9) == Some(4)
    ensures Stristr(Fox, "quick\0", SizeMax) == Some(4)
  {
    FoxFacts();
    FoxIMatches();
    LiteralContent("quick", "quick\0");
  }

  /** A lone '\r' ends a line as a '\n' does; strnl steps over "\r\n" as one terminator. */
  lemma LineEndCases()
    ensures Streol("a\rb\0") == 1 && Strnl("a\rb\0") == 2
    ensures Streol("a\rb\n\0") == 1
    ensures Streol("a\r\nb\0") == 1 && Strnl("a\r\nb\0") == 3
    ensures Streol("ab\0") == 2 && Strnl("ab\0") == 2
  {
  }

  /** strlncpy into a 128-character buffer: the capacity, num and the source's length
      each cap the copy, and the result is always terminated. */
  method StrlncpyScenario() returns (dst: array<char>)
    ensures dst.Length == 128 && Content(dst[..]) == "blah"
  {
    dst := new char[128];
    var num := Strlncpy(dst, 1, "blah\0", SizeMax);
    assert num == 0;
    num := Strlncpy(dst, 3, "blah\0", 3);
    assert num == 2;
    assert Content(dst[..]) == "bl";
    num := Strlncpy(dst, dst.Length, "blah\0", 3);
    assert num == 3;
    assert Content(dst[..]) == "bla";
    num := Strlncpy(dst, dst.Length, "blah\0", SizeMax);
    assert num == 4;
    assert Content(dst[..]) == "blah";
  }

  /** strlncat appends behind the current string within the buffer's capacity. */
  method StrlncatScenario() returns (dst: array<char>)
    ensures dst.Length == 128 && Content(dst[..]) == "copycat-cat"
  {
    dst := new char[128];
    dst[0] := Nul;
    var num := Strlncat(dst, 1, "cat\0", SizeMax);
    assert num == 0;
    num := Strlncpy(dst, 5, "copy\0", SizeMax);
    assert num == 4;
    LiteralContent("copy", "copy\0");
    StrlncatOntoCopy(dst);
    StrlncatContinued(dst);
  }

  /** Appending "cat" to "copy" in the first 8 characters of the buffer. */
  method StrlncatOntoCopy(dst: array<char>)
    requires dst.Length == 128 && Content(dst[..]) == "copy"
    modifies dst
    ensures Content(dst[..]) == "copycat"
  {
    var num := Strlncat(dst, 8, "cat\0", SizeMax);
    assert num == 3;
    LiteralContent("cat", "cat\0");
  }

  /** Appending one character of "------" and then "cat" to "copycat" in the whole buffer. */
  method StrlncatContinued(dst: array<char>)
    requires dst.Length == 128 && Content(dst[..]) == "copycat"
    modifies dst
    ensures Content(dst[..]) == "copycat-cat"
  {
    var num := Strlncat(dst, dst.Length, "------\0", 1);
    assert num == 1;
    assert "------\0"[..1] == "-" by {
      assert "------\0"[0] == '-';
    }
    assert Content(dst[..]) == "copycat-";
    num := Strlncat(dst, dst.Length, "cat\0", SizeMax);
    assert num == 3;
    LiteralContent("cat", "cat\0");
  }

  /** A view measured from "test"; an owning string copied from it and appended to; clearing
      the string leaves the view alone. */
  method StringViewScenario() returns (sv: StringView, st: StringT)
    ensures sv.Valid() && sv.GetLength() == 0 && sv.IsEmpty()
    ensures st.Valid() && st.GetLength() == 4 && st.Contents() == "test"
  {
    LiteralContent("test", Test);
    sv, st := ViewAndAppend();
    st.Clear();
    assert st.GetLength() == 0;
    assert sv.GetLength() == 4;
    st.Append(Test, UInt32Max as uint32);
    assert st.GetLength() == 4;
    sv.Clear();
    assert sv.GetLength() == 0;
  }

  /** A view of "test" up to 65535 characters, and a string built from it to which the whole of
      "test" and then two characters of it are appended. */
  method ViewAndAppend() returns (sv: StringView, st: StringT)
    ensures fresh(sv) && fresh(st)
    ensures sv.Valid() && sv.Contents() == "test"
    ensures st.Valid() && st.Contents() == "testtestte"
  {
    LiteralContent("test", Test);
    sv := new StringView.FromPtr(Test, UInt16Max as uint32);
    assert sv.GetLength() == 4;
    st := new StringT.FromView(sv);
    assert st.GetLength() == 4;
    st.Append(Test, UInt32Max as uint32);
    assert st.GetLength() == 8;
    st.Append(Test, 2);
    assert st.GetLength() == 10;
    assert Content(st.GetPtr()) == "testtestte";
  }

  /** A view carries no terminator of its own: two characters of "test" are followed by 's'. */
  method ViewWithoutTerminator() returns (sv: StringView)
    ensures sv.Valid() && sv.Contents() == "te"
    ensures sv.GetLength() < |sv.GetPtr()| && sv.GetPtr()[sv.GetLength()] != Nul
  {
    sv := new StringView.FromPtr(Test, 2);
  }
}
