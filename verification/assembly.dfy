/** The audio layout (app/main.py:64-68): a fixed leading silence, then the
    synthesized clips in turn order, with a pause between consecutive clips
    and none after the last one. Audio is represented by its parts; a part's
    length in milliseconds is all the model keeps of its sound. */
module Assembly {

  /** A stretch of silence, or the clip synthesized for the turn at `index`. */
  datatype Part = Silence(ms: int) | Clip(index: nat)

  /** `AudioSegment.silent(duration=250)`, the start of every result. */
  const LeadingSilenceMs: int := 250

  /** The closed-form description of the layout for `n` clips: the leading
      silence at position 0, clip `k` at position `2k + 1`, and the pause at
      every even position after 0. */
  predicate IsLayout(parts: seq<Part>, n: nat, pause: int) {
    && |parts| == (if n == 0 then 1 else 2 * n)
    && parts[0] == Silence(LeadingSilenceMs)
    && (forall j :: 0 <= j < |parts| && j % 2 == 1 ==> parts[j] == Clip(j / 2))
    && (forall j :: 2 <= j < |parts| && j % 2 == 0 ==> parts[j] == Silence(pause))
  }

  /** Iterations `i..n-1` of the loop: clip `i`, then the pause unless `i` is
      the last index. */
  function Tail(i: nat, n: nat, pause: int): (parts: seq<Part>)
    requires i <= n
    ensures |parts| == (if i == n then 0 else 2 * (n - i) - 1)
    ensures forall j :: 0 <= j < |parts| && j % 2 == 0 ==> parts[j] == Clip(i + j / 2)
    ensures forall j :: 0 <= j < |parts| && j % 2 == 1 ==> parts[j] == Silence(pause)
    decreases n - i
  {
    if i == n then []
    else
      var gap := if i < n - 1 then [Silence(pause)] else [];
      var rest := Tail(i + 1, n, pause);
      assert forall j :: |gap| + 1 <= j < |gap| + 1 + |rest| ==>
        ([Clip(i)] + gap + rest)[j] == rest[j - 1 - |gap|];
      [Clip(i)] + gap + rest
  }

  /** The whole result for `n` clips and the given pause. */
  function Layout(n: nat, pause: int): (parts: seq<Part>)
    ensures IsLayout(parts, n, pause)
  {
    var tail := Tail(0, n, pause);
    assert forall j :: 1 <= j < 1 + |tail| ==> ([Silence(LeadingSilenceMs)] + tail)[j] == tail[j - 1];
    [Silence(LeadingSilenceMs)] + tail
  }

  /** The closed form pins the layout down: there is exactly one. */
  lemma LayoutUnique(parts: seq<Part>, n: nat, pause: int)
    requires IsLayout(parts, n, pause)
    ensures parts == Layout(n, pause)
  {
    var l := Layout(n, pause);
    forall j | 0 <= j < |parts| ensures parts[j] == l[j] {
      if j % 2 == 1 {
      } else if j >= 2 {
      }
    }
  }

  /** The clip indices of a sequence of parts, in order. */
  function ClipIndices(parts: seq<Part>): seq<nat> {
    if parts == [] then [] else ClipOf(parts[0]) + ClipIndices(parts[1..])
  }

  function ClipOf(p: Part): seq<nat> {
    match p
    case Clip(k) => [k]
    case Silence(_) => []
  }

  lemma {:induction false} ClipIndicesAppend(a: seq<Part>, b: seq<Part>)
    ensures ClipIndices(a + b) == ClipIndices(a) + ClipIndices(b)
    decreases |a|
  {
    if a == [] {
      assert a + b == b;
    } else {
      assert (a + b)[1..] == a[1..] + b;
      ClipIndicesAppend(a[1..], b);
      calc {
        ClipIndices(a + b);
        ClipOf(a[0]) + ClipIndices(a[1..] + b);
        ClipOf(a[0]) + (ClipIndices(a[1..]) + ClipIndices(b));
        (ClipOf(a[0]) + ClipIndices(a[1..])) + ClipIndices(b);
      }
    }
  }

  /** The indices `i, i + 1, ..., n - 1`. */
  function Range(i: nat, n: nat): (r: seq<nat>)
    requires i <= n
    ensures |r| == n - i
    ensures forall k :: 0 <= k < |r| ==> r[k] == i + k
  {
    seq(n - i, k requires 0 <= k < n - i => i + k)
  }

  lemma {:induction false} TailClips(i: nat, n: nat, pause: int)
    requires i <= n
    ensures ClipIndices(Tail(i, n, pause)) == Range(i, n)
    decreases n - i
  {
    if i < n {
      var gap := if i < n - 1 then [Silence(pause)] else [];
      TailClips(i + 1, n, pause);
      ClipIndicesAppend([Clip(i)] + gap, Tail(i + 1, n, pause));
      ClipIndicesAppend([Clip(i)], gap);
      assert ClipIndices(gap) == [];
      assert Range(i, n) == [i] + Range(i + 1, n);
    }
  }

  /** Every clip appears exactly once, in turn order: the clips of the
      layout, read left to right, are `0, 1, ..., n - 1`. */
  lemma LayoutClipsInOrder(n: nat, pause: int)
    ensures ClipIndices(Layout(n, pause)) == Range(0, n)
  {
    TailClips(0, n, pause);
    ClipIndicesAppend([Silence(LeadingSilenceMs)], Tail(0, n, pause));
  }

  /** Between two consecutive clips there is exactly one pause, and the
      result ends with the last clip (no trailing pause). */
  lemma LayoutSeparatesClips(n: nat, pause: int, k: nat)
    requires k + 1 < n
    ensures Layout(n, pause)[2 * k + 1 .. 2 * k + 4] == [Clip(k), Silence(pause), Clip(k + 1)]
    ensures Layout(n, pause)[|Layout(n, pause)| - 1] == Clip(n - 1)
  {
    var l := Layout(n, pause);
    var j := 2 * k + 1;
    assert j % 2 == 1 && j / 2 == k;
    assert (j + 1) % 2 == 0;
    assert (j + 2) % 2 == 1 && (j + 2) / 2 == k + 1;
    assert l[j] == Clip(k) && l[j + 1] == Silence(pause) && l[j + 2] == Clip(k + 1);
    var last := 2 * n - 1;
    assert last % 2 == 1 && last / 2 == n - 1;
  }

  /** The length of one part, given the clip lengths. */
  function PartMs(p: Part, clipMs: seq<nat>): int
    requires p.Clip? ==> p.index < |clipMs|
  {
    match p
    case Silence(ms) => ms
    case Clip(k) => clipMs[k]
  }

  predicate ClipsWithin(parts: seq<Part>, n: nat) {
    forall j :: 0 <= j < |parts| && parts[j].Clip? ==> parts[j].index < n
  }

  /** The length of the concatenation. */
  function Duration(parts: seq<Part>, clipMs: seq<nat>): int
    requires ClipsWithin(parts, |clipMs|)
  {
    if parts == [] then 0
    else PartMs(parts[0], clipMs) + Duration(parts[1..], clipMs)
  }

  lemma {:induction false} DurationAppend(a: seq<Part>, b: seq<Part>, clipMs: seq<nat>)
    requires ClipsWithin(a, |clipMs|) && ClipsWithin(b, |clipMs|)
    ensures ClipsWithin(a + b, |clipMs|)
    ensures Duration(a + b, clipMs) == Duration(a, clipMs) + Duration(b, clipMs)
    decreases |a|
  {
    if a == [] {
      assert a + b == b;
    } else {
      assert (a + b)[1..] == a[1..] + b;
      DurationAppend(a[1..], b, clipMs);
    }
  }

  function Sum(xs: seq<nat>): nat {
    if xs == [] then 0 else xs[0] + Sum(xs[1..])
  }

  /** One iteration of the loop: clip `i`, then the pause unless `i` is the
      last index, then the remaining iterations. */
  lemma TailStep(i: nat, n: nat, pause: int)
    requires i < n
    ensures i == n - 1 ==> Tail(i, n, pause) == [Clip(i)]
    ensures i < n - 1 ==> Tail(i, n, pause) == [Clip(i), Silence(pause)] + Tail(i + 1, n, pause)
  {
    if i < n - 1 {
      assert [Clip(i)] + [Silence(pause)] == [Clip(i), Silence(pause)];
    }
  }

  lemma {:induction false} TailDuration(i: nat, pause: int, clipMs: seq<nat>)
    requires i < |clipMs|
    ensures ClipsWithin(Tail(i, |clipMs|, pause), |clipMs|)
    ensures Duration(Tail(i, |clipMs|, pause), clipMs) == Sum(clipMs[i..]) + (|clipMs| - i - 1) * pause
    decreases |clipMs| - i
  {
    var n := |clipMs|;
    var rest := Tail(i + 1, n, pause);
    assert clipMs[i..][1..] == clipMs[i + 1..];
    TailStep(i, n, pause);
    if i == n - 1 {
      assert clipMs[i + 1..] == [];
    } else {
      TailDuration(i + 1, pause, clipMs);
      var head := [Clip(i), Silence(pause)];
      DurationAppend(head, rest, clipMs);
      assert Duration(head, clipMs) == clipMs[i] + pause;
    }
  }

  /** The result lasts the leading silence, plus every clip, plus one pause
      per gap between clips. */
  lemma LayoutDuration(pause: int, clipMs: seq<nat>)
    requires |clipMs| >= 1 && pause >= 0
    ensures ClipsWithin(Layout(|clipMs|, pause), |clipMs|)
    ensures Duration(Layout(|clipMs|, pause), clipMs) ==
      LeadingSilenceMs + Sum(clipMs) + (|clipMs| - 1) * pause
  {
    var tail := Tail(0, |clipMs|, pause);
    TailDuration(0, pause, clipMs);
    assert clipMs[0..] == clipMs;
    DurationAppend([Silence(LeadingSilenceMs)], tail, clipMs);
  }

  /** A single clip gets the leading silence and no pause at all. */
  lemma SingleClipLayout(pause: int)
    ensures Layout(1, pause) == [Silence(LeadingSilenceMs), Clip(0)]
  {
    var l := Layout(1, pause);
    assert l[1] == Clip(0);
  }

  /** Two clips: leading silence, first clip, one pause, second clip. */
  lemma TwoClipLayout(n: nat, pause: int)
    requires n == 2
    ensures Layout(n, pause) == [Silence(LeadingSilenceMs), Clip(0), Silence(pause), Clip(1)]
  {
    var l := Layout(n, pause);
    assert l[1] == Clip(0) && l[2] == Silence(pause) && l[3] == Clip(1);
  }

  /** Two clips last the leading silence, both clips and one pause. */
  lemma TwoClipDuration(pause: int, clipMs: seq<nat>)
    requires |clipMs| == 2 && pause >= 0
    ensures ClipsWithin(Layout(2, pause), 2)
    ensures Duration(Layout(2, pause), clipMs) == LeadingSilenceMs + clipMs[0] + clipMs[1] + pause
  {
    LayoutDuration(pause, clipMs);
    var rest := clipMs[1..];
    assert rest[1..] == [];
    assert Sum(rest) == clipMs[1] + Sum(rest[1..]);
    assert Sum(clipMs) == clipMs[0] + clipMs[1];
  }
}
