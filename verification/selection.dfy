/** Order-preserving selection: keep the values a partial function yields
    on a sequence, dropping the elements it rejects. The script parser is an
    instance (lines in, turns out). */
module Selection {
  import opened Wrappers

  /** The values `f` yields on the elements of `xs`, in order; elements on
      which `f` yields nothing are skipped. */
  function Keep<X, Y>(xs: seq<X>, f: X -> Option<Y>): (ys: seq<Y>)
    ensures |ys| <= |xs|
    ensures |ys| == |xs| <==> forall i :: 0 <= i < |xs| ==> f(xs[i]).Some?
  {
    if xs == [] then []
    else Head(xs[0], f) + Keep(xs[1..], f)
  }

  /** What one element contributes to `Keep`. */
  function Head<X, Y>(x: X, f: X -> Option<Y>): seq<Y> {
    match f(x) case Some(y) => [y] case None => []
  }

  /** `ys[k]` is what `f` yields on element `idx[k]` of `xs`. */
  predicate Picks<X, Y(==)>(xs: seq<X>, f: X -> Option<Y>, ys: seq<Y>, idx: seq<int>) {
    && |idx| == |ys|
    && (forall k :: 0 <= k < |idx| ==> 0 <= idx[k] < |xs| && f(xs[idx[k]]) == Some(ys[k]))
  }

  predicate Increasing(idx: seq<int>) {
    forall k, l :: 0 <= k < l < |idx| ==> idx[k] < idx[l]
  }

  /** Every element on which `f` yields something has its index in `idx`. */
  predicate Covers<X, Y>(xs: seq<X>, f: X -> Option<Y>, idx: seq<int>) {
    forall i :: 0 <= i < |xs| && f(xs[i]).Some? ==> i in idx
  }

  /** `idx` lists, in increasing order, exactly the indices of the elements
      on which `f` yields something, and `ys` lists what it yields there. */
  predicate Selects<X, Y(==)>(xs: seq<X>, f: X -> Option<Y>, ys: seq<Y>, idx: seq<int>) {
    Picks(xs, f, ys, idx) && Increasing(idx) && Covers(xs, f, idx)
  }

  /** Indices into `xs[1..]` turned into indices into `xs`. */
  function Shift(idx: seq<int>): (r: seq<int>)
    ensures |r| == |idx|
    ensures forall k :: 0 <= k < |idx| ==> r[k] == idx[k] + 1
  {
    if idx == [] then [] else [idx[0] + 1] + Shift(idx[1..])
  }

  function ConsIndices<X, Y>(x: X, f: X -> Option<Y>, rest: seq<int>): seq<int> {
    (if f(x).Some? then [0] else []) + Shift(rest)
  }

  lemma PicksCons<X, Y>(xs: seq<X>, f: X -> Option<Y>, ys: seq<Y>, rest: seq<int>)
    requires xs != [] && Picks(xs[1..], f, ys, rest)
    ensures Picks(xs, f, Head(xs[0], f) + ys, ConsIndices(xs[0], f, rest))
  {
    var sh := Shift(rest);
    var idx := ConsIndices(xs[0], f, rest);
    var zs := Head(xs[0], f) + ys;
    var d := |idx| - |sh|;
    forall k | d <= k < |idx|
      ensures 0 <= idx[k] < |xs| && f(xs[idx[k]]) == Some(zs[k])
    {
      assert idx[k] == sh[k - d];
      assert zs[k] == ys[k - d];
      assert xs[sh[k - d]] == xs[1..][rest[k - d]];
    }
  }

  lemma IncreasingCons<X, Y>(x: X, f: X -> Option<Y>, rest: seq<int>)
    requires Increasing(rest) && forall k :: 0 <= k < |rest| ==> 0 <= rest[k]
    ensures Increasing(ConsIndices(x, f, rest))
  {
    var sh := Shift(rest);
    var idx := ConsIndices(x, f, rest);
    var d := |idx| - |sh|;
    forall k, l | 0 <= k < l < |idx| ensures idx[k] < idx[l] {
      assert idx[l] == sh[l - d];
      if k >= d {
        assert idx[k] == sh[k - d];
      }
    }
  }

  lemma CoversCons<X, Y>(xs: seq<X>, f: X -> Option<Y>, rest: seq<int>)
    requires xs != [] && Covers(xs[1..], f, rest)
    ensures Covers(xs, f, ConsIndices(xs[0], f, rest))
  {
    var sh := Shift(rest);
    var idx := ConsIndices(xs[0], f, rest);
    var d := |idx| - |sh|;
    forall i | 0 <= i < |xs| && f(xs[i]).Some? ensures i in idx {
      if i == 0 {
        assert idx[0] == 0;
      } else {
        assert xs[1..][i - 1] == xs[i];
        var k :| 0 <= k < |rest| && rest[k] == i - 1;
        assert idx[d + k] == i;
      }
    }
  }

  /** `Keep` keeps exactly the elements `f` accepts, in their order. */
  lemma {:induction false} KeepSelects<X, Y>(xs: seq<X>, f: X -> Option<Y>) returns (idx: seq<int>)
    ensures Selects(xs, f, Keep(xs, f), idx)
    decreases |xs|
  {
    if xs == [] {
      return [];
    }
    var rest := KeepSelects(xs[1..], f);
    PicksCons(xs, f, Keep(xs[1..], f), rest);
    IncreasingCons(xs[0], f, rest);
    CoversCons(xs, f, rest);
    idx := ConsIndices(xs[0], f, rest);
  }

  /** A property every value `f` yields holds of every value `Keep` keeps. */
  lemma {:induction false} KeepPreserves<X, Y>(xs: seq<X>, f: X -> Option<Y>, p: Y -> bool)
    requires forall x :: f(x).Some? ==> p(f(x).value)
    ensures forall k :: 0 <= k < |Keep(xs, f)| ==> p(Keep(xs, f)[k])
    decreases |xs|
  {
    if xs != [] {
      KeepPreserves(xs[1..], f, p);
    }
  }

  /** `Keep` distributes over concatenation. */
  lemma {:induction false} KeepAppend<X, Y>(a: seq<X>, b: seq<X>, f: X -> Option<Y>)
    ensures Keep(a + b, f) == Keep(a, f) + Keep(b, f)
    decreases |a|
  {
    if a == [] {
      assert a + b == b;
    } else {
      assert (a + b)[1..] == a[1..] + b;
      KeepAppend(a[1..], b, f);
    }
  }

  /** Nothing is kept exactly when `f` accepts no element. */
  lemma {:induction false} KeepEmpty<X, Y>(xs: seq<X>, f: X -> Option<Y>)
    ensures Keep(xs, f) == [] <==> forall i :: 0 <= i < |xs| ==> f(xs[i]).None?
    decreases |xs|
  {
    if xs != [] {
      KeepEmpty(xs[1..], f);
      assert forall i :: 1 <= i < |xs| ==> xs[i] == xs[1..][i - 1];
    }
  }

  /** When `f` accepts every element, `Keep` is the sequence of its values. */
  lemma {:induction false} KeepAll<X, Y>(xs: seq<X>, f: X -> Option<Y>, ys: seq<Y>)
    requires |xs| == |ys|
    requires forall i :: 0 <= i < |xs| ==> f(xs[i]) == Some(ys[i])
    ensures Keep(xs, f) == ys
    decreases |xs|
  {
    if xs != [] {
      KeepAll(xs[1..], f, ys[1..]);
    }
  }
}
