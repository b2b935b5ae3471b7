/** The two string primitives the script parser relies on: whitespace
    stripping (`str.strip()` and the regular-expression class `\s`) and line
    splitting (`str.splitlines()`).

    Characters are Unicode scalar values. Whitespace is the set of code points
    for which `str.isspace()` holds, which is also the set `\s` matches in a
    `str` pattern; line boundaries are the ones `str.splitlines()` recognises. */
module Text {

  /** Whitespace as `str.isspace()` and `\s` define it. */
  predicate IsSpace(c: char) {
    var n := c as int;
    || (9 <= n <= 13)          // \t \n \v \f \r
    || (28 <= n <= 32)         // file/group/record/unit separators, space
    || n == 0x85 || n == 0xA0 || n == 0x1680
    || (0x2000 <= n <= 0x200A)
    || n == 0x2028 || n == 0x2029 || n == 0x202F || n == 0x205F || n == 0x3000
  }

  /** A line boundary of `str.splitlines()`; `\r\n` is handled as one
      boundary by `SplitLines`. */
  predicate IsLineBreak(c: char) {
    var n := c as int;
    || (10 <= n <= 13)         // \n \v \f \r
    || (28 <= n <= 30)
    || n == 0x85 || n == 0x2028 || n == 0x2029
  }

  predicate AllSpace(s: string) {
    forall i :: 0 <= i < |s| ==> IsSpace(s[i])
  }

  /** Every character of `s` at an index in `lo..hi` is whitespace. */
  predicate SpaceBetween(s: string, lo: int, hi: int) {
    forall j :: lo <= j < hi && 0 <= j < |s| ==> IsSpace(s[j])
  }

  predicate NoLineBreak(s: string) {
    forall i :: 0 <= i < |s| ==> !IsLineBreak(s[i])
  }

  /** No whitespace at either end. */
  predicate IsStripped(s: string) {
    s == [] || (!IsSpace(s[0]) && !IsSpace(s[|s| - 1]))
  }

  /** `r` is `s` with a whitespace run of length `lead` removed in front and
      a whitespace run removed behind. */
  predicate Surrounds(s: string, r: string, lead: int) {
    && 0 <= lead <= |s| - |r|
    && r == s[lead..lead + |r|]
    && SpaceBetween(s, 0, lead)
    && SpaceBetween(s, lead + |r|, |s|)
  }

  /** `str.lstrip()`: drop the leading whitespace. */
  function TrimStart(s: string): (r: string)
    ensures |r| <= |s| && r == s[|s| - |r|..]
    ensures SpaceBetween(s, 0, |s| - |r|)
    ensures r == [] || !IsSpace(r[0])
    decreases |s|
  {
    if s != [] && IsSpace(s[0]) then
      var r := TrimStart(s[1..]);
      assert forall j :: 1 <= j < |s| ==> s[j] == s[1..][j - 1];
      r
    else s
  }

  /** `TrimStart` stops exactly at the first non-space character. */
  lemma TrimStartAt(s: string, k: int)
    requires 0 <= k <= |s| && SpaceBetween(s, 0, k)
    requires k == |s| || !IsSpace(s[k])
    ensures TrimStart(s) == s[k..]
  {
    var r := TrimStart(s);
    assert r == [] || r[0] == s[|s| - |r|];
  }

  /** `str.strip()`: whitespace is removed from both ends, one character at
      a time, until neither end is whitespace. */
  function Strip(s: string): (r: string)
    ensures IsStripped(r)
    ensures |r| <= |s|
    decreases |s|
  {
    if s != [] && IsSpace(s[0]) then Strip(s[1..])
    else if s != [] && IsSpace(s[|s| - 1]) then Strip(s[..|s| - 1])
    else s
  }

  /** What `Strip` removes is whitespace, at both ends: the result is a
      contiguous piece of `s` with only whitespace around it. */
  lemma {:induction false} StripSurrounds(s: string)
    ensures exists lead :: Surrounds(s, Strip(s), lead)
    decreases |s|
  {
    var r := Strip(s);
    if s != [] && IsSpace(s[0]) {
      var t := s[1..];
      StripSurrounds(t);
      var lead :| Surrounds(t, r, lead);
      assert forall j :: 1 <= j < |s| ==> s[j] == t[j - 1];
      assert r == s[lead + 1..lead + 1 + |r|];
      assert Surrounds(s, r, lead + 1);
    } else if s != [] && IsSpace(s[|s| - 1]) {
      var t := s[..|s| - 1];
      StripSurrounds(t);
      var lead :| Surrounds(t, r, lead);
      assert forall j :: 0 <= j < |t| ==> s[j] == t[j];
      assert r == s[lead..lead + |r|];
      assert Surrounds(s, r, lead);
    } else {
      assert Surrounds(s, r, 0);
    }
  }

  /** Stripping leaves nothing exactly when there is nothing but whitespace. */
  lemma {:induction false} StripEmpty(s: string)
    ensures Strip(s) == [] <==> AllSpace(s)
    decreases |s|
  {
    StripSurrounds(s);
    if s != [] && IsSpace(s[0]) {
      StripEmpty(s[1..]);
      assert forall j :: 1 <= j < |s| ==> s[j] == s[1..][j - 1];
    }
  }

  /** Stripping recovers the stripped text inside any whitespace padding:
      the result of `Strip` is uniquely determined by `StripSurrounds`. */
  lemma {:induction false} StripUnique(s: string, r: string, lead: int)
    requires Surrounds(s, r, lead) && IsStripped(r)
    ensures Strip(s) == r
    decreases |s|
  {
    if r == [] {
      assert AllSpace(s);
      StripEmpty(s);
    } else if IsSpace(s[0]) {
      var t := s[1..];
      assert lead > 0 by { assert s[lead] == r[0]; }
      assert forall j :: 1 <= j < |s| ==> s[j] == t[j - 1];
      assert r == t[lead - 1..lead - 1 + |r|];
      StripUnique(t, r, lead - 1);
    } else if IsSpace(s[|s| - 1]) {
      var t := s[..|s| - 1];
      assert lead + |r| < |s| by { assert s[lead + |r| - 1] == r[|r| - 1]; }
      assert forall j :: 0 <= j < |t| ==> s[j] == t[j];
      assert r == t[lead..lead + |r|];
      StripUnique(t, r, lead);
    } else {
      assert s[lead] == r[0];
      assert s[lead + |r| - 1] == r[|r| - 1];
      assert r == s;
    }
  }

  /** Whitespace on both sides of `r` is what `Surrounds` describes. */
  lemma PaddedSurrounds(before: string, r: string, after: string)
    requires AllSpace(before) && AllSpace(after)
    ensures Surrounds(before + r + after, r, |before|)
  {
    var s := before + r + after;
    assert s[|before|..|before| + |r|] == r;
    assert forall j :: 0 <= j < |before| ==> s[j] == before[j];
    assert forall j :: |before| + |r| <= j < |s| ==> s[j] == after[j - |before| - |r|];
  }

  /** Extra whitespace around a string does not change its stripped form. */
  lemma StripPadded(before: string, s: string, after: string)
    requires AllSpace(before) && AllSpace(after)
    ensures Strip(before + s + after) == Strip(s)
  {
    var r := Strip(s);
    StripSurrounds(s);
    var lead :| Surrounds(s, r, lead);
    var t := before + s + after;
    assert forall j :: |before| <= j < |before| + |s| ==> t[j] == s[j - |before|];
    assert t[|before| + lead..|before| + lead + |r|] == r;
    assert Surrounds(t, r, |before| + lead);
    StripUnique(t, r, |before| + lead);
  }

  lemma StripStripped(s: string)
    requires IsStripped(s)
    ensures Strip(s) == s
  {
    assert Surrounds(s, s, 0);
    StripUnique(s, s, 0);
  }

  lemma StripIdempotent(s: string)
    ensures Strip(Strip(s)) == Strip(s)
  {
    StripStripped(Strip(s));
  }

  /** Index of the first line boundary in `s`, or `|s|` when there is none. */
  function FirstBreak(s: string): (i: nat)
    ensures i <= |s|
    ensures forall j :: 0 <= j < i ==> !IsLineBreak(s[j])
    ensures i < |s| ==> IsLineBreak(s[i])
  {
    if s == [] || IsLineBreak(s[0]) then 0
    else
      var j := FirstBreak(s[1..]);
      assert forall k :: 1 <= k < |s| ==> s[k] == s[1..][k - 1];
      1 + j
  }

  /** `str.splitlines()`: the lines between boundaries, without the
      boundaries; `\r\n` counts as one boundary and a final boundary does not
      start an extra empty line. */
  function SplitLines(s: string): (lines: seq<string>)
    ensures forall k :: 0 <= k < |lines| ==> NoLineBreak(lines[k])
    ensures lines == [] <==> s == []
    decreases |s|
  {
    if s == [] then []
    else
      var i := FirstBreak(s);
      assert NoLineBreak(s[..i]);
      if i == |s| then
        assert s[..i] == s;
        [s]
      else
        var next := if s[i] == '\r' && i + 1 < |s| && s[i + 1] == '\n' then i + 2 else i + 1;
        [s[..i]] + SplitLines(s[next..])
  }

  /** The lines joined back with `\n` between them. */
  function JoinLines(lines: seq<string>): string {
    if |lines| == 0 then []
    else if |lines| == 1 then lines[0]
    else lines[0] + "\n" + JoinLines(lines[1..])
  }

  lemma SplitSingleLine(a: string)
    requires a != [] && NoLineBreak(a)
    ensures SplitLines(a) == [a]
  {
    assert forall j :: 0 <= j < |a| ==> !IsLineBreak(a[j]);
  }

  /** A line without boundaries followed by `\n` splits off as one line. */
  lemma SplitFirstLine(a: string, b: string)
    requires NoLineBreak(a)
    ensures SplitLines(a + "\n" + b) == [a] + SplitLines(b)
  {
    SplitAnyBreak(a, '\n', b);
  }

  /** A line without boundaries followed by any single boundary splits off
      as one line, unless the boundary is a `\r` that starts a `\r\n`. */
  lemma SplitAnyBreak(a: string, c: char, b: string)
    requires NoLineBreak(a) && IsLineBreak(c)
    requires !(c == '\r' && b != [] && b[0] == '\n')
    ensures SplitLines(a + [c] + b) == [a] + SplitLines(b)
  {
    var s := a + [c] + b;
    assert s[|a|] == c;
    assert forall j :: 0 <= j < |a| ==> s[j] == a[j];
    assert FirstBreak(s) == |a|;
    assert s[..|a|] == a;
    assert s[|a| + 1..] == b;
  }

  /** `\r\n` after a line without boundaries is one boundary: the line splits
      off and the next line starts after the `\n`. */
  lemma SplitCrLf(a: string, b: string)
    requires NoLineBreak(a)
    ensures SplitLines(a + "\r\n" + b) == [a] + SplitLines(b)
  {
    var s := a + "\r\n" + b;
    assert s[|a|] == '\r' && s[|a| + 1] == '\n';
    assert forall j :: 0 <= j < |a| ==> s[j] == a[j];
    assert FirstBreak(s) == |a|;
    assert s[..|a|] == a;
    assert s[|a| + 2..] == b;
  }

  /** Splitting undoes joining, provided no line holds a boundary and the
      last line is not empty (a trailing empty line is not reported). */
  lemma {:induction false} SplitJoin(lines: seq<string>)
    requires forall k :: 0 <= k < |lines| ==> NoLineBreak(lines[k])
    requires lines == [] || lines[|lines| - 1] != []
    ensures SplitLines(JoinLines(lines)) == lines
    decreases |lines|
  {
    if |lines| == 0 {
    } else if |lines| == 1 {
      SplitSingleLine(lines[0]);
    } else {
      var rest := lines[1..];
      assert JoinLines(lines) == lines[0] + "\n" + JoinLines(rest);
      assert rest[|rest| - 1] == lines[|lines| - 1];
      assert forall k :: 0 <= k < |rest| ==> rest[k] == lines[k + 1];
      SplitFirstLine(lines[0], JoinLines(rest));
      SplitJoin(rest);
      assert [lines[0]] + rest == lines;
    }
  }
}
