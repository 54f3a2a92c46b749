/** The JavaScript string operations the core relies on: `Array.prototype.join`,
    `String.prototype.split`, and `String.prototype.trim`. A Dafny `char` is a
    Unicode scalar value, while a JavaScript string is a sequence of UTF-16
    code units. Splitting on a comma, trimming and joining give the same
    result in both views, because the separator and every white-space
    character lie in the Basic Multilingual Plane and no surrogate code unit
    equals one of them. `split("")`, which does see the code units, is
    modelled through `Utf16`. */
module Strings {
  import opened Base


  /** `parts.join(sep)`: the parts in order, with `sep` between neighbours. */
  function Join(parts: seq<string>, sep: string): (joined: string)
    ensures |parts| == 0 ==> joined == ""
    ensures |parts| == 1 ==> joined == parts[0]
    ensures |parts| > 0 ==> parts[0] <= joined
    decreases |parts|
  {
    if |parts| == 0 then ""
    else if |parts| == 1 then parts[0]
    else parts[0] + sep + Join(parts[1..], sep)
  }

  /** Joining a longer list adds the separator and the new last part. */
  lemma {:induction false} JoinSnoc(parts: seq<string>, last: string, sep: string)
    requires |parts| > 0
    ensures Join(parts + [last], sep) == Join(parts, sep) + sep + last
    decreases |parts|
  {
    if |parts| == 1 {
      assert parts + [last] == [parts[0], last];
      assert Join([last], sep) == last;
    } else {
      assert (parts + [last])[1..] == parts[1..] + [last];
      JoinSnoc(parts[1..], last, sep);
    }
  }

  /** Joining two non-empty lists is joining each and gluing with the separator. */
  lemma {:induction false} JoinAppend(a: seq<string>, b: seq<string>, sep: string)
    requires |a| > 0 && |b| > 0
    ensures Join(a + b, sep) == Join(a, sep) + sep + Join(b, sep)
    decreases |a|
  {
    if |a| == 1 {
      assert (a + b)[1..] == b;
    } else {
      assert (a + b)[1..] == a[1..] + b;
      JoinAppend(a[1..], b, sep);
    }
  }

  /** `s.split(sep)`: the maximal runs of non-separator characters, in order.
      Like JavaScript, the empty string splits into one empty part. */
  function Split(s: string, sep: char): (parts: seq<string>)
    ensures |parts| >= 1
    ensures forall i :: 0 <= i < |parts| ==> sep !in parts[i]
    decreases |s|
  {
    if |s| == 0 then [""]
    else
      var rest := Split(s[1..], sep);
      if s[0] == sep then [""] + rest
      else [[s[0]] + rest[0]] + rest[1..]
  }

  /** Splitting and re-joining with the same separator gives back the input. */
  lemma {:induction false} JoinSplit(s: string, sep: char)
    ensures Join(Split(s, sep), [sep]) == s
    decreases |s|
  {
    if |s| > 0 {
      var rest := Split(s[1..], sep);
      JoinSplit(s[1..], sep);
      if s[0] == sep {
        assert ([""] + rest)[1..] == rest;
      } else {
        var parts := [[s[0]] + rest[0]] + rest[1..];
        if |rest| == 1 {
          assert parts == [[s[0]] + rest[0]];
        } else {
          assert parts[1..] == rest[1..];
          assert Join(rest, [sep]) == rest[0] + [sep] + Join(rest[1..], [sep]);
        }
      }
    }
  }

  /** A separator after a separator-free prefix ends exactly one part. */
  lemma {:induction false} SplitAfterPart(p: string, sep: char, rest: string)
    requires sep !in p
    ensures Split(p + [sep] + rest, sep) == [p] + Split(rest, sep)
    decreases |p|
  {
    var s := p + [sep] + rest;
    if |p| == 0 {
      assert s[1..] == rest;
    } else {
      assert s[1..] == p[1..] + [sep] + rest;
      SplitAfterPart(p[1..], sep, rest);
      assert [p[0]] + p[1..] == p;
    }
  }

  /** A separator-free string is a single part. */
  lemma {:induction false} SplitNoSeparator(p: string, sep: char)
    requires sep !in p
    ensures Split(p, sep) == [p]
    decreases |p|
  {
    if |p| > 0 {
      SplitNoSeparator(p[1..], sep);
      assert [p[0]] + p[1..] == p;
    }
  }

  /** Joining separator-free parts and splitting again gives back the parts. */
  lemma {:induction false} SplitJoin(parts: seq<string>, sep: char)
    requires |parts| > 0
    requires forall i :: 0 <= i < |parts| ==> sep !in parts[i]
    ensures Split(Join(parts, [sep]), sep) == parts
    decreases |parts|
  {
    if |parts| == 1 {
      SplitNoSeparator(parts[0], sep);
    } else {
      SplitJoin(parts[1..], sep);
      SplitAfterPart(parts[0], sep, Join(parts[1..], [sep]));
      assert [parts[0]] + parts[1..] == parts;
    }
  }

  /** One UTF-16 code unit. */
  newtype CodeUnit = x: int | 0 <= x < 0x1_0000

  /** The UTF-16 encoding of one character: itself below U+10000, otherwise
      a high surrogate followed by a low surrogate. */
  function UnitsOf(c: char): (units: seq<CodeUnit>)
    ensures c as int < 0x1_0000 ==> units == [c as int as CodeUnit]
    ensures c as int >= 0x1_0000 ==>
      |units| == 2 && 0xD800 <= units[0] < 0xDC00 && 0xDC00 <= units[1] < 0xE000 &&
      0x1_0000 + (units[0] as int - 0xD800) * 0x400 + (units[1] as int - 0xDC00) == c as int
  {
    var n := c as int;
    if n < 0x1_0000 then [n as CodeUnit]
    else [(0xD800 + (n - 0x1_0000) / 0x400) as CodeUnit, (0xDC00 + (n - 0x1_0000) % 0x400) as CodeUnit]
  }

  /** The code units of a string, as JavaScript stores it and as
      `split("")` returns them. */
  function Utf16(s: string): (units: seq<CodeUnit>)
    ensures |units| >= |s|
    decreases |s|
  {
    if |s| == 0 then [] else UnitsOf(s[0]) + Utf16(s[1..])
  }

  /** Reassembling code units into characters, as a client concatenating the
      streamed pieces does; an unpaired surrogate gives None. */
  function FromUtf16(units: seq<CodeUnit>): (s: Option<string>)
    ensures s.Some? ==> |s.value| <= |units|
    decreases |units|
  {
    if |units| == 0 then Some("")
    else if units[0] < 0xD800 || 0xE000 <= units[0] then
      match FromUtf16(units[1..])
      case Some(rest) => Some([units[0] as int as char] + rest)
      case None => None
    else if units[0] < 0xDC00 && |units| >= 2 && 0xDC00 <= units[1] < 0xE000 then
      match FromUtf16(units[2..])
      case Some(rest) =>
        Some([(0x1_0000 + (units[0] as int - 0xD800) * 0x400 + (units[1] as int - 0xDC00)) as char] + rest)
      case None => None
    else None
  }

  /** Decoding the code units of a string gives the string back. */
  lemma {:induction false} Utf16RoundTrip(s: string)
    ensures FromUtf16(Utf16(s)) == Some(s)
    decreases |s|
  {
    if |s| > 0 {
      Utf16RoundTrip(s[1..]);
      var head := UnitsOf(s[0]);
      var units := Utf16(s);
      assert units == head + Utf16(s[1..]);
      if s[0] as int < 0x1_0000 {
        assert units[1..] == Utf16(s[1..]);
      } else {
        assert units[2..] == Utf16(s[1..]);
      }
      assert [s[0]] + s[1..] == s;
    }
  }

  /** A character outside the Basic Multilingual Plane is two code units. */
  lemma NonBmpIsTwoUnits(c: char)
    requires c as int >= 0x1_0000
    ensures |Utf16([c])| == 2
  {
    assert [c][1..] == [];
  }

  /** The characters `String.prototype.trim` removes: ECMAScript WhiteSpace
      (tab, vertical tab, form feed, space, no-break space, byte order mark and
      the Unicode space separators) and LineTerminator (line feed, carriage
      return, line and paragraph separators). */
  function IsJsSpace(c: char): (space: bool)
    ensures c == ' ' || c == '\t' || c == '\n' || c == '\r' ==> space
    ensures ('0' <= c <= '9' || 'a' <= c <= 'z' || 'A' <= c <= 'Z' ||
             c == ',' || c == ':' || c == '/' || c == '.' || c == '-') ==> !space
  {
    c == '\t' || c == '\n' || c == '\U{000B}' || c == '\U{000C}' || c == '\r' ||
    c == ' ' || c == '\U{00A0}' || c == '\U{1680}' ||
    ('\U{2000}' <= c <= '\U{200A}') ||
    c == '\U{2028}' || c == '\U{2029}' || c == '\U{202F}' || c == '\U{205F}' ||
    c == '\U{3000}' || c == '\U{FEFF}'
  }

  function TrimStart(s: string): (r: string)
    ensures |r| <= |s| && r == s[|s| - |r|..]
    ensures forall k :: 0 <= k < |s| - |r| ==> IsJsSpace(s[k])
    ensures r == [] || !IsJsSpace(r[0])
    decreases |s|
  {
    if |s| > 0 && IsJsSpace(s[0]) then TrimStart(s[1..]) else s
  }

  function TrimEnd(s: string): (r: string)
    ensures |r| <= |s| && r == s[..|r|]
    ensures forall k :: |r| <= k < |s| ==> IsJsSpace(s[k])
    ensures r == [] || !IsJsSpace(r[|r| - 1])
    decreases |s|
  {
    if |s| > 0 && IsJsSpace(s[|s| - 1]) then TrimEnd(s[..|s| - 1]) else s
  }

  /** `r` occurs in `s` starting at position `i`, and everything of `s` around it is white space. */
  predicate PieceAt(s: string, i: int, r: string)
  {
    0 <= i <= |s| - |r| && r == s[i..i + |r|] &&
    (forall k :: 0 <= k < i ==> IsJsSpace(s[k])) &&
    (forall k :: i + |r| <= k < |s| ==> IsJsSpace(s[k]))
  }

  /** `s.trim()`: the piece of `s` left after removing white space at both ends. */
  function Trim(s: string): (r: string)
    ensures exists i :: PieceAt(s, i, r)
    ensures r == [] || (!IsJsSpace(r[0]) && !IsJsSpace(r[|r| - 1]))
  {
    var t := TrimStart(s);
    var r := TrimEnd(t);
    assert r == s[|s| - |t|..][..|r|] == s[|s| - |t|..|s| - |t| + |r|];
    assert PieceAt(s, |s| - |t|, r);
    r
  }

  /** Nothing is removed from a string whose ends are not white space. */
  lemma TrimNoEdgeSpace(s: string)
    requires s == [] || (!IsJsSpace(s[0]) && !IsJsSpace(s[|s| - 1]))
    ensures Trim(s) == s
  {
  }

  /** Trimming adds no character: one absent from `s` is absent from its trim. */
  lemma TrimKeepsOut(s: string, c: char)
    requires c !in s
    ensures c !in Trim(s)
  {
    var r := Trim(s);
    var i :| PieceAt(s, i, r);
    forall k | 0 <= k < |r| ensures r[k] != c {
      assert r[k] == s[i + k];
    }
  }

  /** A blank in front of a trimmed string is removed. */
  lemma TrimLeadingBlank(s: string)
    requires Trim(s) == s
    ensures Trim(" " + s) == s
  {
    var t := " " + s;
    assert t[1..] == s;
    assert TrimStart(t) == TrimStart(s);
    if s != [] {
      assert TrimStart(s) == s;
      assert TrimEnd(s) == s;
    }
  }

  /** Trimming twice is trimming once. */
  lemma TrimIdempotent(s: string)
    ensures Trim(Trim(s)) == Trim(s)
  {
    TrimNoEdgeSpace(Trim(s));
  }
}
