// The JavaScript string operations the application relies on, stated over
// `string` (a sequence of UTF-16 code units is modelled as `seq<char>`).

module Strings {

  datatype Option<T> = None | Some(value: T)

  /** JavaScript truthiness of an optional string: present and not "". */
  predicate Truthy(o: Option<string>) {
    o.Some? && o.value != ""
  }

  /** `x || ""` on an optional string. */
  function OrEmpty(o: Option<string>): (r: string)
    ensures Truthy(o) ==> r == o.value
    ensures !Truthy(o) ==> r == ""
  {
    if o.Some? then o.value else ""
  }

  /** `x || null`: a falsy string becomes absent. */
  function OrNull(o: Option<string>): (r: Option<string>)
    ensures r.Some? <==> Truthy(o)
    ensures r.Some? ==> r == o
  {
    if Truthy(o) then o else None
  }

  // ---------------------------------------------------------------------
  // Whitespace and trim

  /** The WhiteSpace and LineTerminator code points of ECMAScript; this is
    * the set `String.prototype.trim` removes and `\s` matches. */
  predicate IsSpace(c: char) {
    var n := c as int;
    (0x09 <= n <= 0x0D) || n == 0x20 || n == 0xA0 || n == 0x1680
    || (0x2000 <= n <= 0x200A) || n == 0x2028 || n == 0x2029 || n == 0x202F
    || n == 0x205F || n == 0x3000 || n == 0xFEFF
  }

  predicate IsBlank(s: string) {
    forall i :: 0 <= i < |s| ==> IsSpace(s[i])
  }

  lemma NotBlankExtends(a: string, b: string)
    requires !IsBlank(a)
    ensures !IsBlank(a + b)
  {
    var i :| 0 <= i < |a| && !IsSpace(a[i]);
    assert (a + b)[i] == a[i];
  }

  function TrimStart(s: string): (r: string)
    ensures |r| <= |s| && r == s[|s| - |r|..]
    ensures r != [] ==> !IsSpace(r[0])
    ensures forall i :: 0 <= i < |s| - |r| ==> IsSpace(s[i])
    decreases |s|
  {
    if s != [] && IsSpace(s[0]) then TrimStart(s[1..]) else s
  }

  function TrimEnd(s: string): (r: string)
    ensures |r| <= |s| && r == s[..|r|]
    ensures r != [] ==> !IsSpace(r[|r| - 1])
    ensures forall i :: |r| <= i < |s| ==> IsSpace(s[i])
    decreases |s|
  {
    if s != [] && IsSpace(s[|s| - 1]) then TrimEnd(s[..|s| - 1]) else s
  }

  /** `s.trim()`. */
  function Trim(s: string): (r: string)
    ensures r == [] <==> IsBlank(s)
    ensures r != [] ==> !IsSpace(r[0]) && !IsSpace(r[|r| - 1])
    ensures |r| <= |s|
  {
    var t := TrimStart(s);
    var r := TrimEnd(t);
    // The first character kept is not a space, so `s` is not blank and
    // trimming the end cannot consume it.
    assert t != [] ==> t[0] == s[|s| - |t|] && !IsSpace(t[0]);
    r
  }

  lemma {:induction false} TrimIdempotent(s: string)
    ensures Trim(Trim(s)) == Trim(s)
  {
    var r := Trim(s);
    if r != [] {
      assert TrimStart(r) == r;
      assert TrimEnd(r) == r;
    }
  }

  // ---------------------------------------------------------------------
  // Search

  /** `s.startsWith(t)`. */
  predicate StartsWith(s: string, t: string) {
    |t| <= |s| && s[..|t|] == t
  }

  /** `s.includes(t)`. */
  predicate Contains(s: string, t: string)
    decreases |s|
  {
    StartsWith(s, t) || (s != [] && Contains(s[1..], t))
  }

  /** `s.endsWith(t)`. */
  predicate EndsWith(s: string, t: string) {
    |t| <= |s| && s[|s| - |t|..] == t
  }

  lemma {:induction false} ContainsInfix(a: string, b: string, c: string)
    ensures Contains(a + b + c, b)
    decreases |a|
  {
    if a == [] {
      assert (a + b + c)[..|b|] == b;
    } else {
      assert (a + b + c)[1..] == a[1..] + b + c;
      ContainsInfix(a[1..], b, c);
    }
  }

  /** An occurrence inside a part stays an occurrence in the whole. */
  lemma {:induction false} ContainsInPart(a: string, b: string, c: string, t: string)
    requires Contains(b, t)
    ensures Contains(a + b + c, t)
    decreases |a| + |b|
  {
    if a != [] {
      assert (a + b + c)[1..] == a[1..] + b + c;
      ContainsInPart(a[1..], b, c, t);
    } else if StartsWith(b, t) {
      assert a + b + c == b + c;
      assert (b + c)[..|t|] == b[..|t|];
      assert StartsWith(a + b + c, t);
    } else {
      assert (b + c)[1..] == b[1..] + c;
      ContainsInPart([], b[1..], c, t);
      assert [] + b[1..] + c == b[1..] + c;
      assert a + b + c == b + c;
    }
  }

  /** Trimming only takes characters away at both ends, so it cannot make
    * an occurrence appear. */
  lemma TrimKeepsAbsence(s: string, t: string)
    requires !Contains(s, t)
    ensures !Contains(Trim(s), t)
  {
    var u := TrimStart(s);
    SuffixKeepsAbsence(s, |s| - |u|, t);
    PrefixKeepsAbsence(u, |TrimEnd(u)|, t);
  }

  lemma SuffixKeepsAbsence(s: string, a: nat, t: string)
    requires a <= |s| && !Contains(s, t)
    ensures !Contains(s[a..], t)
  {
    assert s == s[..a] + s[a..] + [];
    if Contains(s[a..], t) {
      ContainsInPart(s[..a], s[a..], [], t);
    }
  }

  lemma PrefixKeepsAbsence(s: string, b: nat, t: string)
    requires b <= |s| && !Contains(s, t)
    ensures !Contains(s[..b], t)
  {
    assert s == [] + s[..b] + s[b..];
    if Contains(s[..b], t) {
      ContainsInPart([], s[..b], s[b..], t);
    }
  }

  /** A string without the first character of `t` cannot contain `t`. */
  lemma {:induction false} NoFirstCharNoContains(s: string, t: string)
    requires t != [] && t[0] !in s
    ensures !Contains(s, t)
    decreases |s|
  {
    if s != [] {
      assert s[0] != t[0];
      NoFirstCharNoContains(s[1..], t);
    }
  }

  /** Prefixing characters that differ from `t[0]` adds no occurrence. */
  lemma {:induction false} PrefixWithoutFirstChar(p: string, s: string, t: string)
    requires t != [] && t[0] !in p && !Contains(s, t)
    ensures !Contains(p + s, t)
    decreases |p|
  {
    if p != [] {
      assert (p + s)[0] == p[0];
      assert (p + s)[1..] == p[1..] + s;
      PrefixWithoutFirstChar(p[1..], s, t);
    } else {
      assert p + s == s;
    }
  }

  // ---------------------------------------------------------------------
  // Case

  /** `toLowerCase` on one code unit, for the ASCII letters. */
  function LowerChar(c: char): (r: char)
    ensures 'A' <= c <= 'Z' ==> r as int == c as int + 32
    ensures !('A' <= c <= 'Z') ==> r == c
  {
    if 'A' <= c <= 'Z' then (c as int + 32) as char else c
  }

  /** `s.toLowerCase()`, for ASCII letters; other characters are kept. */
  function ToLower(s: string): (r: string)
    ensures |r| == |s|
    ensures forall i :: 0 <= i < |s| ==> r[i] == LowerChar(s[i])
    decreases |s|
  {
    if s == [] then [] else [LowerChar(s[0])] + ToLower(s[1..])
  }

  lemma ToLowerIdempotent(s: string)
    ensures ToLower(ToLower(s)) == ToLower(s)
  {
  }

  predicate IsLower(s: string) {
    forall i :: 0 <= i < |s| ==> !('A' <= s[i] <= 'Z')
  }

  lemma ToLowerIsLower(s: string)
    ensures IsLower(ToLower(s))
  {
  }

  // ---------------------------------------------------------------------
  // Length as JavaScript counts it

  /** A character outside the Basic Multilingual Plane, which UTF-16
    * stores as two code units. */
  predicate IsAstral(c: char) {
    c as int >= 0x1_0000
  }

  /** `s.length`: the number of UTF-16 code units, two for each astral
    * character and one for every other. */
  function JsLength(s: string): (n: nat)
    ensures |s| <= n <= 2 * |s|
    decreases |s|
  {
    if s == [] then 0
    else JsLength(s[..|s| - 1]) + (if IsAstral(s[|s| - 1]) then 2 else 1)
  }

  /** The two counts agree exactly on text without astral characters. */
  lemma {:induction false} JsLengthIsLength(s: string)
    ensures JsLength(s) == |s| <==> forall i :: 0 <= i < |s| ==> !IsAstral(s[i])
    decreases |s|
  {
    if s != [] {
      var n := |s| - 1;
      JsLengthIsLength(s[..n]);
      assert forall i :: 0 <= i < n ==> s[..n][i] == s[i];
      if IsAstral(s[n]) {
        assert JsLength(s) == JsLength(s[..n]) + 2 >= n + 2;
      } else {
        assert JsLength(s) == JsLength(s[..n]) + 1;
      }
    }
  }

  // ---------------------------------------------------------------------
  // Removing characters

  /** `s.replace(/c/g, "")` for a single character `c`. */
  function RemoveChar(s: string, c: char): (r: string)
    ensures c !in r
    ensures |r| <= |s|
    ensures c !in s ==> r == s
    decreases |s|
  {
    if s == [] then []
    else if s[0] == c then RemoveChar(s[1..], c)
    else [s[0]] + RemoveChar(s[1..], c)
  }

  // ---------------------------------------------------------------------
  // Split and join

  /** `s.split(d)` for a one-character separator: the pieces between the
    * separators, always at least one piece. */
  function Split(s: string, d: char): (r: seq<string>)
    ensures |r| >= 1
    ensures forall k :: 0 <= k < |r| ==> d !in r[k]
    decreases |s|
  {
    if s == [] then [""]
    else
      var rest := Split(s[1..], d);
      if s[0] == d then [""] + rest
      else [[s[0]] + rest[0]] + rest[1..]
  }

  /** `parts.join(d)`. */
  function Join(parts: seq<string>, d: char): string
    decreases |parts|
  {
    if parts == [] then ""
    else if |parts| == 1 then parts[0]
    else parts[0] + [d] + Join(parts[1..], d)
  }

  /** Joining the pieces of a split gives the string back. */
  lemma {:induction false} JoinSplit(s: string, d: char)
    ensures Join(Split(s, d), d) == s
    decreases |s|
  {
    if s != [] {
      var rest := Split(s[1..], d);
      JoinSplit(s[1..], d);
      if s[0] == d {
        assert Split(s, d) == [""] + rest;
        assert ([""] + rest)[1..] == rest;
        assert s == [d] + s[1..];
      } else {
        var parts := [[s[0]] + rest[0]] + rest[1..];
        assert Split(s, d) == parts;
        if |rest| == 1 {
          assert s == [s[0]] + rest[0];
        } else {
          assert parts[1..] == rest[1..];
          assert Join(rest, d) == rest[0] + [d] + Join(rest[1..], d);
          assert s == [s[0]] + s[1..];
        }
      }
    }
  }

  /** Splitting a join of separator-free pieces gives the pieces back. */
  lemma {:induction false} SplitJoin(parts: seq<string>, d: char)
    requires |parts| >= 1
    requires forall k :: 0 <= k < |parts| ==> d !in parts[k]
    ensures Split(Join(parts, d), d) == parts
    decreases |parts|, |parts[0]|
  {
    var p := parts[0];
    if p == [] {
      if |parts| > 1 {
        var tail := parts[1..];
        SplitJoin(tail, d);
        var j := Join(parts, d);
        assert j == [d] + Join(tail, d);
        assert j[1..] == Join(tail, d);
        assert parts == [""] + tail;
      }
    } else {
      var smaller := [p[1..]] + parts[1..];
      assert forall k :: 0 <= k < |smaller| ==> d !in smaller[k] by {
        forall k | 0 <= k < |smaller| ensures d !in smaller[k] {
          if k == 0 { assert forall x :: x in p[1..] ==> x in p; } else { assert smaller[k] == parts[k]; }
        }
      }
      SplitJoin(smaller, d);
      var j := Join(parts, d);
      if |parts| == 1 {
        assert j == p;
        assert Join(smaller, d) == p[1..];
      } else {
        assert j == p + [d] + Join(parts[1..], d);
        assert smaller[1..] == parts[1..];
        assert Join(smaller, d) == p[1..] + [d] + Join(parts[1..], d);
      }
      assert j[0] == p[0] && j[1..] == Join(smaller, d);
      assert p[0] != d;
      assert [p[0]] + p[1..] == p;
      assert [[p[0]] + p[1..]] + parts[1..] == parts;
    }
  }

  /** A header line followed by lines, none holding the separator, reads
    * back as the same lines. */
  lemma SplitJoinWithHeader(header: string, lines: seq<string>, d: char)
    requires d !in header
    requires forall k :: 0 <= k < |lines| ==> d !in lines[k]
    ensures Split(Join([header] + lines, d), d) == [header] + lines
  {
    var rows := [header] + lines;
    forall k | 0 <= k < |rows|
      ensures d !in rows[k]
    {
      if k > 0 {
        assert rows[k] == lines[k - 1];
      }
    }
    SplitJoin(rows, d);
  }

  /** `name.split(" ")[0]`: everything before the first space. */
  function FirstWord(name: string): (r: string)
    ensures ' ' !in r
    ensures StartsWith(name, r)
    ensures r == name || name[|r|] == ' '
  {
    FirstWordPrefix(name);
    Split(name, ' ')[0]
  }

  lemma {:induction false} FirstWordPrefix(s: string)
    ensures var w := Split(s, ' ')[0];
            |w| <= |s| && s[..|w|] == w && (w == s || s[|w|] == ' ')
    decreases |s|
  {
    if s != [] && s[0] != ' ' {
      FirstWordPrefix(s[1..]);
    }
  }

  // ---------------------------------------------------------------------
  // Global replacement

  /** `s.replace(/t/g, r)` for a literal, non-empty pattern: scan from the
    * left, replace each occurrence and continue after it. */
  function ReplaceAll(s: string, t: string, r: string): string
    requires t != []
    decreases |s|
  {
    if |s| < |t| then s
    else if s[..|t|] == t then r + ReplaceAll(s[|t|..], t, r)
    else [s[0]] + ReplaceAll(s[1..], t, r)
  }

  /** The replacement text as JavaScript's `replace` inserts it for one
    * match of a pattern without capture groups (GetSubstitution, section
    * 22.1.3.19.1 of ECMA-262): `$$` is a dollar sign, `$&` the match, `` $` ``
    * the text before it and `$'` the text after it; any other `$` is kept. */
  function Expand(r: string, matched: string, before: string, after: string): (x: string)
    ensures '$' !in r ==> x == r
    decreases |r|
  {
    if r == [] then []
    else if r[0] == '$' && |r| >= 2 && r[1] == '$' then "$" + Expand(r[2..], matched, before, after)
    else if r[0] == '$' && |r| >= 2 && r[1] == '&' then matched + Expand(r[2..], matched, before, after)
    else if r[0] == '$' && |r| >= 2 && r[1] == '`' then before + Expand(r[2..], matched, before, after)
    else if r[0] == '$' && |r| >= 2 && r[1] == '\'' then after + Expand(r[2..], matched, before, after)
    else [r[0]] + Expand(r[1..], matched, before, after)
  }

  /** `s.replace(/t/g, r)` as JavaScript runs it, from position `i` of `s`
    * on: each occurrence is replaced by `r` with its `$` patterns expanded
    * against that occurrence, and the scan continues after it. */
  function ReplaceFrom(s: string, i: nat, t: string, r: string): string
    requires t != [] && i <= |s|
    decreases |s| - i
  {
    if |s| - i < |t| then s[i..]
    else if s[i..i + |t|] == t then Expand(r, t, s[..i], s[i + |t|..]) + ReplaceFrom(s, i + |t|, t, r)
    else [s[i]] + ReplaceFrom(s, i + 1, t, r)
  }

  /** `s.replace(/t/g, r)` for a literal pattern `t` without special
    * characters. */
  function ReplaceAllJs(s: string, t: string, r: string): string
    requires t != []
  {
    ReplaceFrom(s, 0, t, r)
  }

  /** A replacement without `$` is inserted literally. */
  lemma {:induction false} ReplaceFromLiteral(s: string, i: nat, t: string, r: string)
    requires t != [] && i <= |s| && '$' !in r
    ensures ReplaceFrom(s, i, t, r) == ReplaceAll(s[i..], t, r)
    decreases |s| - i
  {
    var x := s[i..];
    if |s| - i >= |t| {
      assert x[..|t|] == s[i..i + |t|];
      if s[i..i + |t|] == t {
        ReplaceFromLiteral(s, i + |t|, t, r);
        assert x[|t|..] == s[i + |t|..];
      } else {
        ReplaceFromLiteral(s, i + 1, t, r);
        assert x[1..] == s[i + 1..] && x[0] == s[i];
      }
    }
  }

  lemma ReplaceAllJsLiteral(s: string, t: string, r: string)
    requires t != [] && '$' !in r
    ensures ReplaceAllJs(s, t, r) == ReplaceAll(s, t, r)
  {
    ReplaceFromLiteral(s, 0, t, r);
    assert s[0..] == s;
  }

  /** Without an occurrence nothing is replaced, whatever the replacement. */
  lemma {:induction false} ReplaceFromAbsent(s: string, i: nat, t: string, r: string)
    requires t != [] && i <= |s| && !Contains(s[i..], t)
    ensures ReplaceFrom(s, i, t, r) == s[i..]
    decreases |s| - i
  {
    var x := s[i..];
    if |s| - i >= |t| {
      assert x[..|t|] == s[i..i + |t|];
      assert x[1..] == s[i + 1..];
      ReplaceFromAbsent(s, i + 1, t, r);
      assert x == [s[i]] + s[i + 1..];
    }
  }

  lemma ReplaceAllJsAbsent(s: string, t: string, r: string)
    requires t != [] && !Contains(s, t)
    ensures ReplaceAllJs(s, t, r) == s
  {
    assert s[0..] == s;
    ReplaceFromAbsent(s, 0, t, r);
  }

  lemma {:induction false} ReplaceAllAbsent(s: string, t: string, r: string)
    requires t != [] && !Contains(s, t)
    ensures ReplaceAll(s, t, r) == s
    decreases |s|
  {
    if |s| >= |t| {
      ReplaceAllAbsent(s[1..], t, r);
    }
  }

  /** While no occurrence starts among the first `m` positions, the scan
    * copies them unchanged. */
  lemma {:induction false} ReplaceAllCopies(s: string, t: string, r: string, m: nat)
    requires t != [] && m <= |s|
    requires forall j :: 0 <= j < m ==> !StartsWith(s[j..], t)
    ensures ReplaceAll(s, t, r) == s[..m] + ReplaceAll(s[m..], t, r)
    decreases m
  {
    if m > 0 {
      assert s[0..] == s;
      if |s| < |t| {
        ReplaceAllShort(s, t, r);
        ReplaceAllShort(s[m..], t, r);
        assert s[..m] + s[m..] == s;
      } else {
        var x := s[1..];
        ReplaceAllStep(s, t, r);
        ShiftedNoStart(s, t, m);
        ReplaceAllCopies(x, t, r, m - 1);
        assert x[m - 1..] == s[m..];
        CopiedPrefix(s, m, ReplaceAll(s, t, r), ReplaceAll(x, t, r), ReplaceAll(s[m..], t, r));
      }
    }
  }

  /** The first occurrence, after a prefix holding no character that could
    * start it, is replaced, and the scan goes on after it. */
  lemma ReplaceAllInserts(a: string, t: string, b: string, r: string)
    requires t != [] && t[0] !in a
    ensures ReplaceAll(a + t + b, t, r) == a + r + ReplaceAll(b, t, r)
  {
    var s := a + t + b;
    forall j | 0 <= j < |a|
      ensures !StartsWith(s[j..], t)
    {
      assert s[j..][0] == a[j];
    }
    ReplaceAllCopies(s, t, r, |a|);
    assert s[..|a|] == a;
    var x := s[|a|..];
    assert x == t + b;
    assert x[..|t|] == t && x[|t|..] == b;
  }

  /** Copying the first character and then `m - 1` more copies `m`. */
  lemma CopiedPrefix(s: string, m: nat, whole: string, tail: string, rest: string)
    requires 0 < m <= |s|
    requires whole == [s[0]] + tail && tail == s[1..][..m - 1] + rest
    ensures whole == s[..m] + rest
  {
    assert s[1..][..m - 1] == s[1..m];
    assert s[..m] == [s[0]] + s[1..m];
  }

  /** Where no occurrence starts, the scan copies one character. */
  lemma ReplaceAllStep(s: string, t: string, r: string)
    requires t != [] && |s| >= |t| && !StartsWith(s, t)
    ensures ReplaceAll(s, t, r) == [s[0]] + ReplaceAll(s[1..], t, r)
  {
  }

  lemma ShiftedNoStart(s: string, t: string, m: nat)
    requires 0 < m <= |s|
    requires forall j :: 0 <= j < m ==> !StartsWith(s[j..], t)
    ensures forall j :: 0 <= j < m - 1 ==> !StartsWith(s[1..][j..], t)
  {
    forall j | 0 <= j < m - 1 ensures !StartsWith(s[1..][j..], t) {
      assert s[1..][j..] == s[j + 1..];
    }
  }

  lemma {:induction false} ReplaceAllShort(s: string, t: string, r: string)
    requires t != [] && |s| < |t|
    ensures ReplaceAll(s, t, r) == s
  {
  }

  /** The pattern cannot reappear after a global replacement when the
    * replacement is non-empty, does not contain the pattern's first character
    * and does not begin with any character of the pattern. */
  lemma {:induction false} ReplaceAllRemoves(s: string, t: string, r: string)
    requires t != [] && r != []
    requires t[0] !in r
    requires forall k :: 0 <= k < |t| ==> t[k] != r[0]
    ensures !Contains(ReplaceAll(s, t, r), t)
    decreases |s|
  {
    if |s| < |t| {
      NoLongContains(s, t);
    } else if s[..|t|] == t {
      ReplaceAllRemoves(s[|t|..], t, r);
      PrefixWithoutFirstChar(r, ReplaceAll(s[|t|..], t, r), t);
    } else {
      var x := s[1..];
      var rest := ReplaceAll(x, t, r);
      ReplaceAllRemoves(x, t, r);
      var out := [s[0]] + rest;
      assert out[1..] == rest;
      // No occurrence at position 0 either: within the first |t| characters
      // of `out` either a copy of `r` begins, whose first character does not
      // occur in `t`, or `out` agrees with `s`, which does not start with `t`.
      var L := |t|;
      if exists j :: 0 <= j < L - 1 && StartsWith(x[j..], t) {
        var m := FirstStart(x, t, L - 1);
        ReplaceAllCopies(x, t, r, m);
        assert x[m..][..|t|] == t;
        assert ReplaceAll(x[m..], t, r) == r + ReplaceAll(x[m..][|t|..], t, r);
        assert out[m + 1] == r[0];
        assert out[m + 1] != t[m + 1];
      } else {
        ReplaceAllCopies(x, t, r, L - 1);
        assert out[..L] == s[..L];
      }
      assert !StartsWith(out, t);
    }
  }

  lemma {:induction false} NoLongContains(s: string, t: string)
    requires |s| < |t|
    ensures !Contains(s, t)
    decreases |s|
  {
    if s != [] {
      NoLongContains(s[1..], t);
    }
  }

  /** The first position below `bound` at which `t` starts in `x`. */
  lemma FirstStart(x: string, t: string, bound: nat) returns (m: nat)
    requires bound <= |x| + 1
    requires exists j :: 0 <= j < bound && StartsWith(x[j..], t)
    ensures m < bound && m <= |x| && StartsWith(x[m..], t)
    ensures forall j :: 0 <= j < m ==> !StartsWith(x[j..], t)
  {
    var j :| 0 <= j < bound && StartsWith(x[j..], t);
    m := 0;
    while !StartsWith(x[m..], t)
      invariant m <= j
      invariant forall i :: 0 <= i < m ==> !StartsWith(x[i..], t)
      decreases j - m
    {
      m := m + 1;
    }
  }

  // ---------------------------------------------------------------------
  // Numbers

  predicate IsDigit(c: char) {
    '0' <= c <= '9'
  }

  function DigitValue(c: char): (r: nat)
    requires IsDigit(c)
    ensures r < 10
  {
    c as int - '0' as int
  }

  function DigitChar(n: nat): (c: char)
    requires n < 10
    ensures IsDigit(c) && DigitValue(c) == n
  {
    ('0' as int + n) as char
  }

  predicate AllDigits(s: string) {
    forall i :: 0 <= i < |s| ==> IsDigit(s[i])
  }

  /** The value of a run of decimal digits, most significant first. */
  function DigitsValue(s: string): nat
    requires AllDigits(s)
    decreases |s|
  {
    if s == [] then 0 else DigitsValue(s[..|s| - 1]) * 10 + DigitValue(s[|s| - 1])
  }

  /** The longest prefix of digits. */
  function LeadingDigits(s: string): (r: string)
    ensures AllDigits(r) && StartsWith(s, r)
    ensures |r| == |s| || !IsDigit(s[|r|])
    decreases |s|
  {
    if s != [] && IsDigit(s[0]) then [s[0]] + LeadingDigits(s[1..]) else []
  }

  /** `parseInt(s)` read in base 10: leading whitespace, an optional sign,
    * then the longest run of decimal digits; no digit at all gives NaN
    * (`None`). The code calls `parseInt` without a radix, which would read
    * a leading "0x" or "0X" as hexadecimal; that form is not modelled, and
    * no input of those calls can have it: the month comes from a date
    * column's "YYYY-MM-DD" text, and the hour and the minute from the
    * fixed two-digit options of the schedule form. */
  function ParseInt(s: string): Option<int> {
    var t := TrimStart(s);
    var negative := t != [] && t[0] == '-';
    var body := if t != [] && (t[0] == '-' || t[0] == '+') then t[1..] else t;
    var ds := LeadingDigits(body);
    if ds == [] then None
    else
      var v: int := DigitsValue(ds);
      Some(if negative then -v else v)
  }

  /** `n.toString()` for a natural number. */
  function NatToString(n: nat): (r: string)
    ensures r != [] && AllDigits(r) && DigitsValue(r) == n
    decreases n
  {
    if n < 10 then [DigitChar(n)]
    else
      var p := NatToString(n / 10);
      var r := p + [DigitChar(n % 10)];
      assert r[..|r| - 1] == p;
      r
  }

  /** `String(n).padStart(2, "0")` for 0 <= n < 100. */
  function Pad2(n: nat): (r: string)
    requires n < 100
    ensures |r| == 2 && AllDigits(r)
  {
    [DigitChar(n / 10), DigitChar(n % 10)]
  }

  lemma ParsePad2(n: nat)
    requires n < 100
    ensures ParseInt(Pad2(n)) == Some(n)
  {
    var s := Pad2(n);
    assert TrimStart(s) == s;
    LeadingDigitsAll(s);
    assert s[..1] == [s[0]];
    assert DigitsValue(s[..1]) == n / 10;
  }

  lemma ParseNatToString(n: nat)
    ensures ParseInt(NatToString(n)) == Some(n)
  {
    var s := NatToString(n);
    assert TrimStart(s) == s;
    LeadingDigitsAll(s);
  }

  /** `parseInt` of a minus sign followed by digits. */
  lemma ParseMinus(s: string, ds: string)
    requires s != [] && s[0] == '-' && ds != [] && LeadingDigits(s[1..]) == ds
    ensures ParseInt(s) == Some(-(DigitsValue(ds) as int))
  {
    assert !IsSpace(s[0]);
    assert TrimStart(s) == s;
  }

  lemma {:induction false} LeadingDigitsStops(d: string, suffix: string)
    requires AllDigits(d) && (suffix == [] || !IsDigit(suffix[0]))
    ensures LeadingDigits(d + suffix) == d
    decreases |d|
  {
    if d != [] {
      assert (d + suffix)[1..] == d[1..] + suffix;
      LeadingDigitsStops(d[1..], suffix);
    }
  }

  lemma {:induction false} LeadingDigitsAll(s: string)
    requires AllDigits(s)
    ensures LeadingDigits(s) == s
    decreases |s|
  {
    if s != [] {
      LeadingDigitsAll(s[1..]);
    }
  }

  /** `Math.round(c / t * 100)` for a non-negative count `c` over a positive
    * total `t`: the nearest integer, halves rounded up. */
  function RoundPercent(c: nat, t: nat): (r: nat)
    requires t > 0
    ensures 2 * t * r <= 200 * c + t < 2 * t * (r + 1)
  {
    (200 * c + t) / (2 * t)
  }
}
