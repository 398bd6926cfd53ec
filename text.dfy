/** Python's `str.strip()` and `str.split()` with no arguments, as the RTTM
    readers apply them to every line (`line.strip().split()`). */
module Text {

  /** The characters Python's `str.isspace()` accepts; `strip()` and
      `split()` with no argument cut on exactly these. */
  const Whitespace: set<char> := {
    '\t', '\n', '\U{B}', '\U{C}', '\r', '\U{1C}', '\U{1D}', '\U{1E}', '\U{1F}', ' ',
    '\U{85}', '\U{A0}', '\U{1680}', '\U{2000}', '\U{2001}', '\U{2002}', '\U{2003}',
    '\U{2004}', '\U{2005}', '\U{2006}', '\U{2007}', '\U{2008}', '\U{2009}', '\U{200A}',
    '\U{2028}', '\U{2029}', '\U{202F}', '\U{205F}', '\U{3000}'
  }

  predicate IsSpace(c: char) {
    c in Whitespace
  }

  predicate AllSpace(s: string) {
    forall i | 0 <= i < |s| :: IsSpace(s[i])
  }

  predicate NoSpace(s: string) {
    forall i | 0 <= i < |s| :: !IsSpace(s[i])
  }

  /** A field as `split()` returns it: non-empty, without whitespace. */
  predicate IsField(w: string) {
    w != [] && NoSpace(w)
  }

  /** `s` without its leading whitespace. */
  function SkipSpace(s: string): (r: string)
    ensures |r| <= |s|
  {
    if s != [] && IsSpace(s[0]) then SkipSpace(s[1..]) else s
  }

  /** `s` without its trailing whitespace. */
  function SkipSpaceEnd(s: string): (r: string)
    ensures |r| <= |s|
  {
    if s != [] && IsSpace(s[|s| - 1]) then SkipSpaceEnd(s[..|s| - 1]) else s
  }

  /** Length of the run of non-whitespace characters that starts `s`. */
  function WordLength(s: string): (n: nat)
    ensures n <= |s|
  {
    if s != [] && !IsSpace(s[0]) then 1 + WordLength(s[1..]) else 0
  }

  /** `str.strip()`: drops whitespace at both ends. */
  function Strip(s: string): (r: string) {
    SkipSpaceEnd(SkipSpace(s))
  }

  /** `str.split()`: the maximal runs of non-whitespace, in order. */
  function Split(s: string): (fields: seq<string>)
    decreases |s|
  {
    var t := SkipSpace(s);
    if t == [] then []
    else
      var n := WordLength(t);
      SkipSpaceIsSuffix(s);
      WordLengthIsRun(t);
      [t[..n]] + Split(t[n..])
  }

  /** `SkipSpace` removes a whitespace prefix and stops at a non-space. */
  lemma {:induction false} SkipSpaceIsSuffix(s: string)
    ensures var r := SkipSpace(s);
      r == s[|s| - |r|..] && AllSpace(s[..|s| - |r|]) && (r == [] || !IsSpace(r[0]))
    decreases |s|
  {
    if s != [] && IsSpace(s[0]) {
      SkipSpaceIsSuffix(s[1..]);
      var r := SkipSpace(s);
      assert s[1..][|s| - 1 - |r|..] == s[|s| - |r|..];
      assert forall i | 0 <= i < |s| - |r| :: s[..|s| - |r|][i] == s[i];
      assert forall i | 1 <= i < |s| - |r| :: s[i] == s[1..][..|s| - 1 - |r|][i - 1];
    }
  }

  /** `SkipSpaceEnd` removes a whitespace suffix and stops at a non-space. */
  lemma {:induction false} SkipSpaceEndIsPrefix(s: string)
    ensures var r := SkipSpaceEnd(s);
      r == s[..|r|] && AllSpace(s[|r|..]) && (r == [] || !IsSpace(r[|r| - 1]))
    decreases |s|
  {
    if s != [] && IsSpace(s[|s| - 1]) {
      var init := s[..|s| - 1];
      SkipSpaceEndIsPrefix(init);
      var r := SkipSpaceEnd(s);
      assert init[..|r|] == s[..|r|];
      assert forall i | |r| <= i < |s| - 1 :: s[i] == init[|r|..][i - |r|];
    }
  }

  /** `WordLength` measures a maximal run of non-whitespace. */
  lemma {:induction false} WordLengthIsRun(s: string)
    ensures var n := WordLength(s);
      NoSpace(s[..n]) && (n == |s| || IsSpace(s[n])) && (s != [] && !IsSpace(s[0]) ==> n >= 1)
    decreases |s|
  {
    if s != [] && !IsSpace(s[0]) {
      WordLengthIsRun(s[1..]);
      var n := WordLength(s);
      assert forall i | 1 <= i < n :: s[i] == s[1..][..n - 1][i - 1];
    }
  }

  /** Every element `split()` returns is a field. */
  lemma {:induction false} SplitFields(s: string)
    ensures forall i | 0 <= i < |Split(s)| :: IsField(Split(s)[i])
    decreases |s|
  {
    var t := SkipSpace(s);
    if t != [] {
      var n := WordLength(t);
      SkipSpaceIsSuffix(s);
      WordLengthIsRun(t);
      SplitFields(t[n..]);
    }
  }

  /** Fields joined by single spaces: the usual shape of an RTTM line. */
  function Join(fields: seq<string>): (line: string) {
    if |fields| == 0 then ""
    else if |fields| == 1 then fields[0]
    else fields[0] + (" " + Join(fields[1..]))
  }

  /** A line of whitespace only (a blank line, or just "\n") has no fields. */
  lemma SplitAllSpace(s: string)
    requires AllSpace(s)
    ensures Split(s) == []
  {
    SkipSpaceIsSuffix(s);
  }

  lemma SkipSpaceLeading(w: string, rest: string)
    requires w != [] && !IsSpace(w[0])
    ensures SkipSpace(w + rest) == w + rest
  {
  }

  lemma WordLengthOf(w: string, rest: string)
    requires NoSpace(w)
    requires rest == [] || IsSpace(rest[0])
    ensures WordLength(w + rest) == |w|
    decreases |w|
  {
    if w != [] {
      assert (w + rest)[1..] == w[1..] + rest;
      WordLengthOf(w[1..], rest);
    } else {
      assert w + rest == rest;
    }
  }

  lemma SplitLeadingSpace(c: char, s: string)
    requires IsSpace(c)
    ensures Split([c] + s) == Split(s)
  {
    assert ([c] + s)[1..] == s;
  }

  /** A field followed by whitespace or the end of the line is split off whole. */
  lemma SplitField(w: string, rest: string)
    requires IsField(w)
    requires rest == [] || IsSpace(rest[0])
    ensures Split(w + rest) == [w] + Split(rest)
  {
    SkipSpaceLeading(w, rest);
    WordLengthOf(w, rest);
    assert (w + rest)[..|w|] == w;
    assert (w + rest)[|w|..] == rest;
  }

  lemma SplitFieldSpace(w: string, tail: string)
    requires IsField(w)
    ensures Split(w + (" " + tail)) == [w] + Split(tail)
  {
    SplitField(w, " " + tail);
    SplitLeadingSpace(' ', tail);
  }

  lemma SplitJoinCons(fields: seq<string>)
    requires |fields| > 1 && IsField(fields[0])
    ensures Split(Join(fields)) == [fields[0]] + Split(Join(fields[1..]))
  {
    SplitFieldSpace(fields[0], Join(fields[1..]));
  }

  /** Round trip: splitting fields joined by spaces gives the fields back. */
  lemma {:induction false} SplitJoin(fields: seq<string>)
    requires forall i | 0 <= i < |fields| :: IsField(fields[i])
    ensures Split(Join(fields)) == fields
    decreases |fields|
  {
    if |fields| == 1 {
      SplitField(fields[0], "");
      assert fields[0] + "" == fields[0];
    } else if |fields| > 1 {
      SplitJoin(fields[1..]);
      SplitJoinCons(fields);
      assert [fields[0]] + fields[1..] == fields;
    }
  }

  lemma SkipSpaceAppend(s: string, w: string)
    requires AllSpace(w)
    ensures SkipSpace(s) != [] ==> SkipSpace(s + w) == SkipSpace(s) + w
    ensures SkipSpace(s) == [] ==> SkipSpace(s + w) == []
    decreases |s|
  {
    if s == [] {
      assert s + w == w;
      SkipSpaceIsSuffix(w);
    } else if IsSpace(s[0]) {
      assert (s + w)[1..] == s[1..] + w;
      SkipSpaceAppend(s[1..], w);
    }
  }

  lemma WordLengthAppend(s: string, w: string)
    requires AllSpace(w)
    ensures WordLength(s + w) == WordLength(s)
    decreases |s|
  {
    if s == [] {
      assert s + w == w;
    } else if !IsSpace(s[0]) {
      assert (s + w)[1..] == s[1..] + w;
      WordLengthAppend(s[1..], w);
    }
  }

  /** Trailing whitespace (the line's "\n" among it) adds no field. */
  lemma {:induction false} SplitTrailingSpace(s: string, w: string)
    requires AllSpace(w)
    ensures Split(s + w) == Split(s)
    decreases |s|
  {
    SkipSpaceAppend(s, w);
    var t := SkipSpace(s);
    if t != [] {
      var n := WordLength(t);
      WordLengthAppend(t, w);
      assert (t + w)[..n] == t[..n];
      assert (t + w)[n..] == t[n..] + w;
      SplitTrailingSpace(t[n..], w);
    }
  }

  /** `line.strip().split()` is `line.split()`: the strip changes nothing. */
  lemma SplitStrip(s: string)
    ensures Split(Strip(s)) == Split(s)
  {
    SkipSpaceIsSuffix(s);
    var t := SkipSpace(s);
    SkipSpaceEndIsPrefix(t);
    var r := SkipSpaceEnd(t);
    assert t == r + t[|r|..];
    SplitTrailingSpace(r, t[|r|..]);
    assert SkipSpace(t) == t;
  }
}
