/** The two Python string operations `read_ublox` relies on: `str.strip()` with no
    argument and `str.split(sep)` with an explicit one-character separator. */
module Text {

  /** Python's `str.isspace()` for one character: the ASCII whitespace, the four
      information separators, NEL, NO-BREAK SPACE and the Unicode space separators. */
  predicate IsSpace(c: char)
  {
    c == ' ' || c == '\t' || c == '\n' || c == '\r' || c == '\U{000B}' || c == '\U{000C}'
    || ('\U{001C}' <= c <= '\U{001F}') || c == '\U{0085}' || c == '\U{00A0}' || c == '\U{1680}'
    || ('\U{2000}' <= c <= '\U{200A}') || c == '\U{2028}' || c == '\U{2029}' || c == '\U{202F}'
    || c == '\U{205F}' || c == '\U{3000}'
  }

  /** `s.lstrip()`: `s` without its leading spaces. */
  function StripStart(s: string): (r: string)
    ensures |r| <= |s|
  {
    if s != [] && IsSpace(s[0]) then StripStart(s[1..]) else s
  }

  /** `s.rstrip()`: `s` without its trailing spaces. */
  function StripEnd(s: string): (r: string)
    ensures |r| <= |s|
  {
    if s != [] && IsSpace(s[|s| - 1]) then StripEnd(s[..|s| - 1]) else s
  }

  /** `s.strip()`. */
  function Strip(s: string): string
  {
    StripEnd(StripStart(s))
  }

  /** `lstrip` keeps a suffix, removes only spaces, and stops at the first non-space. */
  lemma {:induction false} StripStartRemovesLeadingSpaces(s: string)
    ensures var r := StripStart(s);
      |r| <= |s| && r == s[|s| - |r|..] &&
      (forall k :: 0 <= k < |s| - |r| ==> IsSpace(s[k])) &&
      (r == [] || !IsSpace(r[0]))
  {
    if s != [] && IsSpace(s[0]) {
      StripStartRemovesLeadingSpaces(s[1..]);
    }
  }

  /** `rstrip` keeps a prefix, removes only spaces, and stops at the last non-space. */
  lemma {:induction false} StripEndRemovesTrailingSpaces(s: string)
    ensures var r := StripEnd(s);
      |r| <= |s| && r == s[..|r|] &&
      (forall k :: |r| <= k < |s| ==> IsSpace(s[k])) &&
      (r == [] || !IsSpace(r[|r| - 1]))
  {
    if s != [] && IsSpace(s[|s| - 1]) {
      StripEndRemovesTrailingSpaces(s[..|s| - 1]);
    }
  }

  /** The number of occurrences of `c` in `s`. */
  function Count(s: string, c: char): nat
  {
    if s == [] then 0 else (if s[0] == c then 1 else 0) + Count(s[1..], c)
  }

  /** `s.split(sep)`: always at least one field (an empty string gives `['']`). */
  function Split(s: string, sep: char): (r: seq<string>)
    ensures |r| >= 1
  {
    if s == [] then [[]]
    else
      var rest := Split(s[1..], sep);
      if s[0] == sep then [[]] + rest
      else [[s[0]] + rest[0]] + rest[1..]
  }

  /** A split has one more field than there are separators, and no field holds the separator. */
  lemma {:induction false} SplitFields(s: string, sep: char)
    ensures |Split(s, sep)| == Count(s, sep) + 1
    ensures forall k :: 0 <= k < |Split(s, sep)| ==> sep !in Split(s, sep)[k]
  {
    if s != [] {
      SplitFields(s[1..], sep);
      var rest := Split(s[1..], sep);
      if s[0] != sep {
        assert sep !in [s[0]] + rest[0];
      }
    }
  }

  /** `sep.join(fields)`, the inverse of `Split`. */
  function Join(fields: seq<string>, sep: char): string
    requires |fields| >= 1
  {
    if |fields| == 1 then fields[0] else fields[0] + [sep] + Join(fields[1..], sep)
  }

  /** Joining the fields of a split gives back the original string. */
  lemma {:induction false} JoinSplit(s: string, sep: char)
    ensures Join(Split(s, sep), sep) == s
  {
    if s != [] {
      var rest := Split(s[1..], sep);
      JoinSplit(s[1..], sep);
      if s[0] == sep {
        assert Split(s, sep) == [[]] + rest;
        assert Split(s, sep)[1..] == rest;
      } else {
        var r := Split(s, sep);
        assert r == [[s[0]] + rest[0]] + rest[1..];
        if |rest| == 1 {
          assert r == [[s[0]] + rest[0]];
        } else {
          assert r[1..] == rest[1..];
          assert Join(rest, sep) == rest[0] + [sep] + Join(rest[1..], sep);
        }
      }
    }
  }

  /** Splitting a join of separator-free fields gives back the fields. */
  lemma {:induction false} SplitJoin(fields: seq<string>, sep: char)
    requires |fields| >= 1
    requires forall k :: 0 <= k < |fields| ==> sep !in fields[k]
    ensures Split(Join(fields, sep), sep) == fields
  {
    if |fields| == 1 {
      SplitField(fields[0], sep, []);
      assert fields[0] + [] == fields[0];
    } else {
      SplitJoin(fields[1..], sep);
      SplitFields(Join(fields[1..], sep), sep);
      var tail := Join(fields[1..], sep);
      assert Split([sep] + tail, sep) == [[]] + fields[1..];
      SplitField(fields[0], sep, [sep] + tail);
      assert Join(fields, sep) == fields[0] + ([sep] + tail);
      assert fields[0] + [] == fields[0];
      assert [fields[0]] + fields[1..] == fields;
    }
  }

  /** A separator-free prefix is glued onto the first field of what follows it. */
  lemma {:induction false} SplitField(field: string, sep: char, rest: string)
    requires sep !in field
    ensures var r := Split(rest, sep); Split(field + rest, sep) == [field + r[0]] + r[1..]
  {
    if field == [] {
      assert field + rest == rest;
      var r := Split(rest, sep);
      assert field + r[0] == r[0];
      assert r == [r[0]] + r[1..];
    } else {
      SplitField(field[1..], sep, rest);
      assert (field + rest)[1..] == field[1..] + rest;
      assert [field[0]] + (field[1..] + Split(rest, sep)[0]) == field + Split(rest, sep)[0];
    }
  }

  /** A line has exactly three comma-separated fields when it holds exactly two commas. */
  lemma ThreeFieldsIffTwoSeparators(s: string, sep: char)
    ensures |Split(s, sep)| == 3 <==> Count(s, sep) == 2
  {
    SplitFields(s, sep);
  }
}
