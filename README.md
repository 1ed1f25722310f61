# bx string layer in Dafny

A model of the bounded ASCII string layer of the bx library: the character classifiers,
the bounded scans, comparisons and substring searches over NUL-terminated strings, the
`strlcpy`/`strlcat`/`strlncpy`/`strlncat` family that writes into a caller's buffer,
the non-owning `StringView` and the owning, growable, NUL-terminated `StringT`.

The header `include/bx/string.h` declares and documents `stricmp`, `strnlen`, `strlncpy`,
`strnstr`, `stristr`, `strnl`, `streol`, `strws`, `strnws`, `strword`, `strmb`, `strlcpy`,
`strlcat`, `StringView` and `StringT`. The character classifiers (`isLower`, `isUpper`,
`isAlpha`, `isNumeric`, `isAlphaNum`, `toLower`), `strincmp`, `strnchr`, `strnrchr` and
`strlncat` are not declared there: they come in through `string.inl`, which the header
includes, and only `tests/string_test.cpp` shows how they behave. The bodies of all of
them live in `string.inl` and `string.cpp`, which are not part of this model. The model
therefore follows the header's doc comments and the unit tests.

How C is represented:

- A `const char*` is the sequence of characters memory holds from the pointer on
  (`seq<char>`). The string's content runs to its first `'\0'` (`CString.Strlen`,
  `CString.Content`), or to the end of the sequence when there is none.
- A returned pointer is an offset from the pointer passed in: `nat`, or `Option<nat>`
  where the function may return NULL.
- The default arguments become explicit constants: `SizeMax` for `(size_t)-1`,
  `UInt16Max` for the `StringView` constructor and `UInt32Max` for `StringT`.
- A caller's `char*` destination buffer is an `array<char>`. Each copy method's
  postcondition states the whole new buffer as a function of the old one
  (`StrlcpyResult`, `StrlcatResult`, `Place`). Lemmas next to them prove what the header
  promises about that buffer.
- `StringView` is a class holding the memory it points into and `m_len`. `StringT` is a
  class owning an `array<char>`, and its `Valid()` says the buffer is terminated at `len`
  with no NUL before it. Dafny has no class inheritance without traits, so `StringT`
  repeats the three `StringView` accessors.

Modules: `Chars` (classifiers), `CString` (length, content, writing into a buffer),
`Scan` (strnchr, strnrchr, strws, strnws, strword, streol, strnl, strmb), `Search`
(strincmp, stricmp, strnstr, stristr), `Copy` (strlcpy, strlcat, strlncpy, strlncat),
`Strings` (StringView, StringT) and `StringTests` (the unit-test scenarios).

Choices made where the header says little:

- `isSpace` accepts space, tab, `'\n'` and `'\r'`. `strword` skips an alphanumeric run.
- `streol` stops at the first `'\n'` or `'\r'`, or at the string's terminator. A lone
  `'\r'` therefore ends a line, as a `'\n'` does. `strnl` steps over `"\r\n"` as one
  terminator, and over a lone `'\n'` or `'\r'` as one character. With neither character in
  the string, both functions return the offset of the string's terminator.
- `strmb` is called with the string positioned at an `open` character, as its use
  (matching a block) implies. Nesting is counted by `Scan.Depth`, the
  depth after a given number of leading characters.
- An empty needle matches at offset 0 in `strnstr` and `stristr`, as C's `strstr` does.
- `strlncpy` with `_dstSize == 0` writes nothing and returns 0. So does `strlncat` when the
  first `_dstSize` characters of `_dst` hold no terminator.

## Model

| member | source | states |
|---|---|---|
| `Chars.UpperClassification` | tests/string_test.cpp:15-23 | every `'A'..'Z'` is upper, alpha and alphanumeric, not lower and not numeric, and lower-cases to a lower-case letter |
| `Chars.CaseMapping` | tests/string_test.cpp:22 | toLower/toUpper are inverse on letters, toLower is idempotent, keeps alphabetic-ness, and maps only `'\0'` to `'\0'` |
| `Chars.IsLower` | tests/string_test.cpp:17 | `'a'..'z'`; `Chars.Alphabets` proves it accepts exactly the 26 lower-case letters, and `Chars.UpperClassification` that it rejects every `'A'..'Z'` |
| `Chars.IsNumeric` | tests/string_test.cpp:18 | `'0'..'9'`; `Chars.Alphabets` proves it accepts exactly the ten digits, and `Chars.UpperClassification` that it rejects every `'A'..'Z'` |
| `Chars.IsUpper` | tests/string_test.cpp:19 | `'A'..'Z'`; `Chars.Alphabets` proves it accepts exactly the 26 upper-case letters |
| `Chars.IsAlpha` | tests/string_test.cpp:20 | lower or upper case; `Chars.Alphabets` proves it accepts exactly the 52 letters |
| `Chars.IsAlphaNum` | tests/string_test.cpp:21 | a letter or a digit; `Chars.Alphabets` proves it accepts exactly the 52 letters and ten digits |
| `Chars.ToLower` | tests/string_test.cpp:22 | moves upper-case letters 32 code points up; `Chars.UpperClassification` proves every `'A'..'Z'` lands on a lower-case letter, and `Chars.CaseMapping` that `ToUpper` undoes it and that it is idempotent and keeps `'\0'` |
| `Chars.Alphabets` | tests/string_test.cpp:15-22 | each classifier holds exactly for the characters of the alphabet strings `LowerLetters`, `UpperLetters` and `Digits` (and their concatenations) |
| `CString.Strnlen` | include/bx/string.h:97-98 | `strnlen(s, max) == min(max, strlen(s))` |
| `Scan.Strnchr` | tests/string_test.cpp:91-97 | the first index of `ch` among the first `min(max, strlen)` characters, or none when no such index holds `ch` |
| `Scan.Strnrchr` | tests/string_test.cpp:99-105 | the last index of `ch` among the first `min(max, strlen)` characters, or none when no such index holds `ch` |
| `Scan.Strws` | include/bx/string.h:119-120 | the returned offset is within the string, every character before it is whitespace, and the character at it is not |
| `Scan.Strnws` | include/bx/string.h:122-123 | the returned offset is within the string, no character before it is whitespace, and the character at it is whitespace or the terminator |
| `Scan.Strword` | include/bx/string.h:125-126 | the returned offset is within the string, every character before it is alphanumeric, and the character at it is not |
| `Scan.Streol` | include/bx/string.h:116-117 | the offset of the first `'\n'` or `'\r'`, with neither before it, or the string's end when the string holds neither |
| `Scan.Strnl` | include/bx/string.h:113-114 | lies between `streol` and `strlen`; moves past `streol` exactly when `streol` found a line end, and what it steps over is `"\r\n"`, `"\n"` or `"\r"`; a `'\r'` followed by `'\n'` is always stepped over together with it, so `"\r"` alone is stepped over only when no `'\n'` follows |
| `Scan.LineSplit` | include/bx/string.h:113-117 | `strnl > streol` exactly when the string holds a `'\n'` or a `'\r'`; the content is the line, its terminator and the content at `strnl` |
| `Scan.MatchFromDepth` | include/bx/string.h:128-129 | scanning on from a positive depth stops exactly where the depth first returns to zero, and finds nothing only when the depth stays positive up to the terminator |
| `Scan.Strmb` | include/bx/string.h:128-129 | the returned `close` is the first position where the open/close nesting depth returns to zero, the depth staying positive before it; none when the depth stays positive up to the terminator |
| `Search.Strincmp` | tests/string_test.cpp:71-89 | compares at most `max` lower-cased characters, returning the difference at the first mismatch or 0 at a common terminator; its partners `Search.StrincmpOrder`, `Search.StrincmpZero` and `Search.StrincmpAntisymmetric` give its sign, its zero case and its symmetry |
| `Search.StrincmpOrder` | tests/string_test.cpp:71-89 | the sign of `strincmp(a, b, max)` is the lexicographic order of the lower-cased contents cut at `max` characters, a shorter string ordering first |
| `Search.StrincmpZero` | tests/string_test.cpp:73-82 | `strincmp(a, b, max) == 0` exactly when the first `max` lower-cased characters agree |
| `Search.StrincmpAntisymmetric` | tests/string_test.cpp:84-88 | swapping the arguments flips the sign of the result |
| `Search.StrincmpEmpty` | tests/string_test.cpp:85 | the empty string compares less than any non-empty one |
| `Search.Stricmp` | include/bx/string.h:94-95 | unbounded case-insensitive compare: 0 exactly when the lower-cased contents are equal, and its sign is their lexicographic order |
| `Search.Strnstr` | include/bx/string.h:104-105 | the first offset where `find`'s content occurs wholly inside the first `min(size, strlen)` characters, none when it occurs nowhere inside that bound |
| `Search.Stristr` | include/bx/string.h:107-111 | as `Strnstr`, comparing lower-cased characters |
| `Copy.StrlcpyTruncation` | include/bx/string.h:174-177 | for `siz > 0` the result is terminated within `siz` characters and is `src` cut at `siz - 1` characters; it is all of `src` exactly when `strlen(src) < siz` |
| `Copy.Strlcpy` | include/bx/string.h:174-177 | returns `strlen(src)`; leaves the buffer unchanged for `siz == 0` and otherwise writes `src` cut at `siz - 1` characters and a terminator, touching nothing else |
| `Copy.StrlcatTruncation` | include/bx/string.h:179-184 | when `siz <= strlen(dst)` nothing is written; otherwise the result is terminated within `siz` characters, is `dst`'s string followed by `src` cut to fit, and is all of both exactly when `strlen(dst) + strlen(src) < siz` |
| `Copy.Strlcat` | include/bx/string.h:179-184 | returns `strlen(src) + min(siz, strlen(dst))` and leaves the buffer `StrlcatResult` describes |
| `Copy.StrlncpyCopies` | include/bx/string.h:100-102 | copies `min(num, strlen(src), dstSize - 1)` characters and the copy reads back as that prefix of `src`, all of it when `num` and the capacity allow |
| `Copy.Strlncpy` | include/bx/string.h:100-102 | returns the number of characters copied, writes nothing when `dstSize == 0`, otherwise that prefix of `src` and a terminator |
| `Copy.StrlncatAppends` | tests/string_test.cpp:56-69 | appends `min(num, strlen(src), dstSize - 1 - strlen(dst))` characters behind `dst`'s string and stays terminated within `dstSize` |
| `Copy.Strlncat` | tests/string_test.cpp:56-69 | returns the number of characters appended, writes nothing when `dst` has no terminator within `dstSize`, otherwise `dst`'s string followed by those characters |
| `Strings.StringView.constructor` | include/bx/string.h:23-24 | an empty view at NULL |
| `Strings.StringView.Copy` | include/bx/string.h:26-27 | a shallow copy pointing at the same memory with the same length |
| `Strings.StringView.FromPtr` | include/bx/string.h:32-33 | binds the pointer and measures `strnlen(ptr, len)` characters |
| `Strings.StringView.Assign` | include/bx/string.h:29-30 | re-points the view at the other view's memory and length |
| `Strings.StringView.Set` | include/bx/string.h:35-36 | re-binds pointer and length without copying; the length is `strnlen(ptr, len)` |
| `Strings.StringView.Clear` | include/bx/string.h:38-39 | resets to NULL with length 0, after which `IsEmpty()` holds |
| `Strings.StringView.GetPtr` | include/bx/string.h:41-42 | the view's characters are the first `getLength()` characters at the pointer; nothing is said about what follows |
| `Strings.StringView.GetLength` | include/bx/string.h:50-51 | the number of characters in the view |
| `Strings.StringView.IsEmpty` | include/bx/string.h:47-48 | true exactly when the view has no characters |
| `Strings.StringT.constructor` | include/bx/string.h:63-64 | an empty, terminated string |
| `Strings.StringT.Copy` | include/bx/string.h:66-67 | a fresh buffer holding the other string's characters |
| `Strings.StringT.FromPtr` | include/bx/string.h:72-73 | a fresh buffer holding the first `strnlen(ptr, len)` characters |
| `Strings.StringT.FromView` | include/bx/string.h:75-76 | a fresh buffer holding a copy of the view's characters |
| `Strings.StringT.Set` | include/bx/string.h:81-82 | discards the old characters and copies the first `strnlen(ptr, len)` characters of the new ones |
| `Strings.StringT.Append` | include/bx/string.h:84-85 | the new content is the old content followed by `strnlen(ptr, len)` characters of `ptr`, and the length grows by exactly that |
| `Strings.StringT.Clear` | include/bx/string.h:87-88 | the string becomes empty and stays terminated |
| `Strings.StringT.GetPtr` | include/bx/string.h:41-42 | always a terminated string whose `strlen` is `getLength()` and whose content is the string's |
| `Strings.StringT.GetLength` | include/bx/string.h:50-51 | the number of characters held |
| `Strings.StringT.IsEmpty` | include/bx/string.h:47-48 | true exactly when no characters are held |
| `StringTests.StrnlenCases` | tests/string_test.cpp:26-33 | `strnlen("test", max)` is 0, 2 and 4 for max 0, 2 and `UINT32_MAX` |
| `StringTests.StrincmpEqualCases` | tests/string_test.cpp:73 | `"test"` equals itself |
| `StringTests.StrincmpBoundedCases` | tests/string_test.cpp:74-75 | `"test"` equals `"testestes"` in either order within 4 characters |
| `StringTests.StrincmpPrefixCases` | tests/string_test.cpp:81-82 | `"abvgd"` equals itself, and equals `"abvgx"` within 4 characters |
| `StringTests.StrincmpDiffersCase` | tests/string_test.cpp:76 | `"preprocess"` and `"platform"` compare unequal |
| `StringTests.StrincmpOrderCases` | tests/string_test.cpp:84 | `"abvgd"` orders before `"abvgx"` |
| `StringTests.StrincmpReverseOrderCase` | tests/string_test.cpp:87 | `"abvgx"` orders after `"abvgd"` |
| `StringTests.StrincmpEmptyCases` | tests/string_test.cpp:85-88 | the empty string orders before `"abvgd"` |
| `StringTests.StrnchrCases` | tests/string_test.cpp:91-105 | `'s'` in `"test"` is not found within 0, 2 (strnchr) or 1 (strnrchr) characters, and is found at index 2 unbounded |
| `StringTests.StrnstrCaseCases` | tests/string_test.cpp:121-122 | case-sensitive search finds no `"quick"` within 8 characters and no `"quick1"` at all |
| `StringTests.StrnstrCaseBoundCases` | tests/string_test.cpp:123-124 | case-sensitive search finds no `"quick"` with bound 9 or unbounded |
| `StringTests.StrnstrBoundCases` | tests/string_test.cpp:126-127 | `"Quick"` is not found with bound 8, and `"Quick1"` is not found at all |
| `StringTests.StrnstrFoundCases` | tests/string_test.cpp:128-129 | `"Quick"` is found at offset 4 with bound 9 and unbounded |
| `StringTests.StristrBoundCase` | tests/string_test.cpp:111 | case-insensitive search finds no `"quick"` within 8 characters |
| `StringTests.StristrAbsentCase` | tests/string_test.cpp:112 | case-insensitive search finds no `"quick1"` |
| `StringTests.StristrFoundCases` | tests/string_test.cpp:113-114 | case-insensitive search finds `"quick"` at offset 4 with bound 9 and unbounded |
| `StringTests.LineEndCases` | include/bx/string.h:113-117 | on concrete strings: a lone `'\r'` ends the line and `strnl` steps one past it; `"\r\n"` is stepped over whole; with no line end both give the string's end |
| `StringTests.StrlncpyScenario` | tests/string_test.cpp:35-54 | capacity 1 copies nothing; capacity 3 with num 3 gives `"bl"`; num 3 gives `"bla"`; unbounded gives `"blah"` |
| `StringTests.StrlncatScenario` | tests/string_test.cpp:56-69 | capacity 1 appends nothing; `"copy"` + `"cat"` within 8 gives `"copycat"`; then one `'-'` and `"cat"` give `"copycat-cat"` |
| `StringTests.StrlncatOntoCopy` | tests/string_test.cpp:63-64 | appending `"cat"` to `"copy"` within a capacity of 8 gives `"copycat"` |
| `StringTests.StrlncatContinued` | tests/string_test.cpp:66-68 | appending one character of `"------"` and then `"cat"` to `"copycat"` gives `"copycat-cat"` |
| `StringTests.ViewAndAppend` | tests/string_test.cpp:134-151 | a view of `"test"` has content `"test"`; a string made from it, with `"test"` and then 2 characters of it appended, holds `"testtestte"` |
| `StringTests.StringViewScenario` | tests/string_test.cpp:132-162 | lengths 4, 4, 8, 10 with content `"testtestte"`; clearing the string leaves the view at 4; append gives 4; clearing the view gives 0 |
| `StringTests.ViewWithoutTerminator` | include/bx/string.h:19-20 | a view of 2 characters of `"test"` is followed by `'s'`, not by a terminator |

## Left out

- `vsnprintf`, `vsnwprintf`, `snprintf`, `swnprintf`, `stringPrintfVargs`, `stringPrintf`: wrappers over the platform's formatted print with `va_list` and format parsing.
- `hashMurmur2A`: it delegates to the hash in `bx/hash.h`, which is not part of this model.
- The allocator (`bx/allocator.h`, `AllocatorI**`): each `StringT` allocation is a fresh Dafny array. Allocation failure is not modelled.
- The wide-character (`wchar_t`) variants.
- `toBool`, `prettify`, `baseName`, `eolLF`, `findIdentifierMatch`, `replaceAll`: the header does not say which tokens count as true, what unit format is used, which path separators apply or how line endings are normalised. Modelling them would mean inventing their behaviour.
- `StringView::getTerm` and pointer aliasing: a pointer is the memory from it on, taken as a value. A view does not see later writes to the memory it points into.
- `StringT::operator=`: leaving it out avoids assuming how self-assignment behaves inside `set`.
- Overlapping source and destination in the copy functions: the source is a value, so overlap cannot be expressed.
- Integer widths: sizes are unbounded `nat`s, and `StringT`'s length is not capped at 32 bits. Wrap-around of `m_len + len` in `append` past 4 GiB is not modelled. `StringView` lengths are `uint32`.
- `Search.Strincmp`: the difference is taken between character code points. On platforms where `char` is signed, bytes `>= 0x80` compare as negative numbers, and that sign is not modelled.
- `Search.Stricmp`: its contract assumes both strings are shorter than `SIZE_MAX` characters, the bound that stands for "unlimited".
- `Strings.StringT.Clear`: always releases the buffer and gives a fresh empty one. The library may keep the capacity instead, and only the observable content is modelled.
