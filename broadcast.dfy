/** `_broadcast_values`: an array laid out along one list of axes brought to
    the layout of a longer list that holds every one of its axes, with a
    virtual dimension of length 1 for every axis it lacks. */
module Broadcasting {
  import opened Errors
  import opened Labels
  import opened Arrays
  import opened AxisTypes
  import opened AxisCollection

  /** For every target axis, the position of the old axis of that name. */
  function Sources(prev: seq<Axis>, target: seq<Axis>): (s: seq<Option<nat>>)
    ensures |s| == |target| && forall i :: 0 <= i < |target| ==> s[i] == NamePosition(prev, target[i].name)
  {
    seq(|target|, i requires 0 <= i < |target| => NamePosition(prev, target[i].name))
  }

  /** How many of these target axes the old list lacks. */
  function Virtuals(s: seq<Option<nat>>): (v: nat)
    ensures v <= |s|
    decreases |s|
  {
    if s == [] then 0 else Virtuals(s[..|s| - 1]) + (if s[|s| - 1].None? then 1 else 0)
  }

  /** The `transpose_indices` the loop collects: an old axis's position, or
      the next trailing dimension of length 1 appended for a missing one. */
  function Indices(s: seq<Option<nat>>, rank: nat): (p: seq<nat>)
    ensures |p| == |s|
    ensures forall i :: 0 <= i < |s| ==> p[i] == (if s[i].Some? then s[i].value else rank + Virtuals(s[..i]))
  {
    seq(|s|, i requires 0 <= i < |s| => if s[i].Some? then s[i].value else rank + Virtuals(s[..i]))
  }

  /** Every old axis name occurs among the target axes. */
  predicate Covers(target: seq<Axis>, prev: seq<Axis>) {
    forall j :: 0 <= j < |prev| ==> prev[j].name in Names(target)
  }

  /** The shape the target layout prescribes: an old axis's length, or 1. */
  function TargetShape(shape: seq<nat>, prev: seq<Axis>, target: seq<Axis>): (s: seq<nat>)
    requires |shape| == |prev|
    ensures |s| == |target|
    ensures forall i :: 0 <= i < |target| ==>
      s[i] == (match NamePosition(prev, target[i].name) case Some(k) => shape[k] case None => 1)
  {
    seq(|target|, i requires 0 <= i < |target| =>
      match NamePosition(prev, target[i].name) case Some(k) => shape[k] case None => 1)
  }

  /** The old position a target position reads: along every old axis, the
      coordinate of the target axis of the same name. */
  function Project(prev: seq<Axis>, target: seq<Axis>, m: seq<nat>): (e: seq<nat>)
    ensures |e| == |prev|
    ensures forall j :: 0 <= j < |prev| && FirstIndex(Names(target), prev[j].name) < |m| ==>
      e[j] == m[FirstIndex(Names(target), prev[j].name)]
  {
    seq(|prev|, j requires 0 <= j < |prev| =>
      var i := FirstIndex(Names(target), prev[j].name); if i < |m| then m[i] else 0)
  }

  /** x is `values` with trailing dimensions of length 1 appended. */
  ghost predicate Padded<T>(x: NdArray<T>, values: NdArray<T>) {
    var rank := |values.shape|;
    rank <= |x.shape| && x.shape[..rank] == values.shape &&
    (forall d :: rank <= d < |x.shape| ==> x.shape[d] == 1) &&
    forall m :: InBounds(m, x.shape) ==> x.at(m) == values.at(m[..rank])
  }

  // ---------------------------------------------------------------------
  // Counting the virtual axes.

  lemma VirtualsStep(s: seq<Option<nat>>, i: nat)
    requires i < |s|
    ensures Virtuals(s[..i + 1]) == Virtuals(s[..i]) + (if s[i].None? then 1 else 0)
  {
    assert s[..i + 1][..i] == s[..i];
  }

  lemma {:induction false} VirtualsMono(s: seq<Option<nat>>, i: nat, j: nat)
    requires i <= j <= |s|
    ensures Virtuals(s[..i]) <= Virtuals(s[..j])
    decreases j - i
  {
    if i < j {
      VirtualsMono(s, i, j - 1);
      VirtualsStep(s, j - 1);
    }
  }

  /** The old positions the target axes are found at. */
  ghost function FoundSet(s: seq<Option<nat>>): set<nat> {
    set i | 0 <= i < |s| && s[i].Some? :: s[i].value
  }

  predicate FoundDistinct(s: seq<Option<nat>>) {
    forall i, j :: 0 <= i < j < |s| && s[i].Some? ==> s[i] != s[j]
  }

  /** When no old position is found twice, there are as many found
      positions as target axes that are not virtual. */
  lemma {:induction false} FoundCount(s: seq<Option<nat>>)
    requires FoundDistinct(s)
    ensures |FoundSet(s)| + Virtuals(s) == |s|
    decreases |s|
  {
    if s != [] {
      var p := s[..|s| - 1];
      FoundCountStep(s);
      FoundCount(p);
      assert Virtuals(s) == Virtuals(p) + (if s[|s| - 1].None? then 1 else 0);
    }
  }

  /** Dropping the last target axis keeps the positions distinct and
      loses one found position exactly when that axis was found. */
  lemma FoundCountStep(s: seq<Option<nat>>)
    requires s != [] && FoundDistinct(s)
    ensures FoundDistinct(s[..|s| - 1])
    ensures |FoundSet(s)| == |FoundSet(s[..|s| - 1])| + (if s[|s| - 1].Some? then 1 else 0)
  {
    FoundSetSnoc(s);
  }

  /** The found set grows by the last position when that one is found,
      and then the position is new. */
  lemma FoundSetSnoc(s: seq<Option<nat>>)
    requires s != [] && FoundDistinct(s)
    ensures var p := s[..|s| - 1];
      FoundSet(s) == FoundSet(p) + (if s[|s| - 1].Some? then {s[|s| - 1].value} else {}) &&
      (s[|s| - 1].Some? ==> s[|s| - 1].value !in FoundSet(p))
  {
    var n := |s|;
    var p := s[..n - 1];
    var x := s[n - 1];
    forall v | v in FoundSet(s) ensures v in FoundSet(p) || (x.Some? && v == x.value) {
      var i :| 0 <= i < n && s[i].Some? && s[i].value == v;
      if i < n - 1 { assert p[i] == s[i]; }
    }
    forall v | v in FoundSet(p) ensures v in FoundSet(s) && (x.Some? ==> v != x.value) {
      var i :| 0 <= i < n - 1 && p[i].Some? && p[i].value == v;
      assert s[i] == p[i];
    }
  }

  // ---------------------------------------------------------------------
  // When the final transpose succeeds.

  /** A found position is an old dimension; a virtual one lies past them. */
  lemma IndicesSplit(prev: seq<Axis>, target: seq<Axis>, i: nat)
    requires i < |target|
    ensures var p := Indices(Sources(prev, target), |prev|);
      (p[i] < |prev| <==> NamePosition(prev, target[i].name).Some?) &&
      (p[i] < |prev| ==> p[i] == NamePosition(prev, target[i].name).value)
  {
  }

  /** The target lists every old axis when the collected indices are a
      permutation of the padded dimensions. */
  lemma CoveredWhenPermutation(prev: seq<Axis>, target: seq<Axis>)
    requires var s := Sources(prev, target);
      |prev| + Virtuals(s) == |target| && IsPermutation(Indices(s, |prev|), |target|)
    ensures Covers(target, prev)
  {
    var p := Indices(Sources(prev, target), |prev|);
    PermutationOnto(p, |target|);
    forall j | 0 <= j < |prev| ensures prev[j].name in Names(target) {
      assert j in p;
      var i :| 0 <= i < |p| && p[i] == j;
      IndicesSplit(prev, target, i);
      assert Names(target)[i] == target[i].name;
    }
  }

  /** Distinct names on both sides: no old position is found twice. */
  lemma SourcesDistinct(prev: seq<Axis>, target: seq<Axis>)
    requires Distinct(Names(target))
    ensures FoundDistinct(Sources(prev, target))
  {
    var s := Sources(prev, target);
    forall i, j | 0 <= i < j < |s| && s[i].Some? ensures s[i] != s[j] {
      assert Names(target)[i] != Names(target)[j];
    }
  }

  /** A target listing every old axis finds every old position. */
  lemma FoundEveryPosition(prev: seq<Axis>, target: seq<Axis>)
    requires Distinct(Names(prev)) && Covers(target, prev)
    ensures FoundSet(Sources(prev, target)) == Elements(Iota(|prev|))
  {
    var s := Sources(prev, target);
    var range := Iota(|prev|);
    forall v | v in FoundSet(s) ensures v in Elements(range) {
      assert range[v] == v;
    }
    forall j | j in Elements(range) ensures j in FoundSet(s) {
      var t :| 0 <= t < |range| && range[t] == j;
      assert Names(prev)[j] == prev[j].name;
      var i :| 0 <= i < |target| && Names(target)[i] == prev[j].name;
      var k := s[i].value;
      assert Names(prev)[k] == Names(prev)[j];
    }
  }

  /** A virtual index lies past the found ones and below the padded rank,
      and a later virtual index lies past an earlier one. */
  lemma VirtualIndexBounds(s: seq<Option<nat>>, rank: nat, i: nat)
    requires i < |s| && s[i].None?
    ensures rank <= Indices(s, rank)[i] < rank + Virtuals(s)
    ensures forall j :: i < j < |s| && s[j].None? ==> Indices(s, rank)[i] < Indices(s, rank)[j]
  {
    VirtualsStep(s, i);
    VirtualsMono(s, i + 1, |s|);
    assert s[..|s|] == s;
    forall j | i < j < |s| && s[j].None? ensures Indices(s, rank)[i] < Indices(s, rank)[j] {
      VirtualsMono(s, i + 1, j);
    }
  }

  /** The collected indices stay below the padded rank and never repeat. */
  lemma IndicesPermute(s: seq<Option<nat>>, rank: nat)
    requires FoundDistinct(s) && rank + Virtuals(s) == |s|
    requires forall i :: 0 <= i < |s| && s[i].Some? ==> s[i].value < rank
    ensures IsPermutation(Indices(s, rank), |s|)
  {
    var p := Indices(s, rank);
    forall i | 0 <= i < |s| && s[i].None? ensures p[i] < |s| && forall j :: i < j < |s| && s[j].None? ==> p[i] < p[j] {
      VirtualIndexBounds(s, rank, i);
    }
  }

  /** With unique names on both sides, a target that lists every old axis
      pads to the right rank, and the collected indices are a permutation. */
  lemma PermutationWhenCovered(prev: seq<Axis>, target: seq<Axis>)
    requires Distinct(Names(prev)) && Distinct(Names(target)) && Covers(target, prev)
    ensures var s := Sources(prev, target);
      |prev| + Virtuals(s) == |target| && IsPermutation(Indices(s, |prev|), |target|)
  {
    var s := Sources(prev, target);
    SourcesDistinct(prev, target);
    FoundCount(s);
    FoundEveryPosition(prev, target);
    DistinctIffElementsCount(Iota(|prev|));
    IndicesPermute(s, |prev|);
  }

  /** Reading through a permutation p, along old dimension j, takes the
      coordinate of the one target slot that p sends to j. */
  lemma ProjectedAt(prev: seq<Axis>, target: seq<Axis>, p: seq<nat>, m: seq<nat>, j: nat)
    requires IsPermutation(p, |target|) && |m| == |target| && j < |prev| <= |target|
    requires FirstIndex(Names(target), prev[j].name) < |target|
    requires p[FirstIndex(Names(target), prev[j].name)] == j
    ensures Unpermute(m, p)[j] == Project(prev, target, m)[j]
  {
    var i0 := FirstIndex(Names(target), prev[j].name);
    var k := FirstIndex(p, j);
    assert k == i0 by {
      assert k <= i0 && p[k] == j;
    }
  }

  /** The slot of old axis j's name is collected as index j. */
  lemma SlotOfOldAxis(prev: seq<Axis>, target: seq<Axis>, j: nat)
    requires Distinct(Names(prev)) && j < |prev| && Covers(target, prev)
    ensures FirstIndex(Names(target), prev[j].name) < |target|
    ensures Indices(Sources(prev, target), |prev|)[FirstIndex(Names(target), prev[j].name)] == j
  {
    var i0 := FirstIndex(Names(target), prev[j].name);
    assert i0 < |target|;
    IndicesSplit(prev, target, i0);
    var k0 := NamePosition(prev, target[i0].name).value;
    assert Names(prev)[k0] == Names(prev)[j];
  }

  /** Transposing the padded array by the collected indices gives the
      target shape. */
  lemma PaddedTransposedShape<T>(x: NdArray<T>, values: NdArray<T>, prev: seq<Axis>, target: seq<Axis>)
    requires |values.shape| == |prev| && Padded(x, values) && |x.shape| == |target|
    requires IsPermutation(Indices(Sources(prev, target), |prev|), |target|)
    ensures Permute(x.shape, Indices(Sources(prev, target), |prev|)) == TargetShape(values.shape, prev, target)
  {
    var p := Indices(Sources(prev, target), |prev|);
    forall i | 0 <= i < |target|
      ensures Permute(x.shape, p)[i] == TargetShape(values.shape, prev, target)[i]
    {
      IndicesSplit(prev, target, i);
      if p[i] < |prev| {
        assert x.shape[..|prev|][p[i]] == x.shape[p[i]];
      }
    }
  }

  /** Transposing the padded array by the collected indices reads the old
      array at the projected position. */
  lemma PaddedTransposedReads<T>(x: NdArray<T>, values: NdArray<T>, prev: seq<Axis>, target: seq<Axis>, m: seq<nat>)
    requires Distinct(Names(prev)) && |values.shape| == |prev| && Padded(x, values) && |x.shape| == |target|
    requires IsPermutation(Indices(Sources(prev, target), |prev|), |target|)
    requires Covers(target, prev)
    requires InBounds(m, Permute(x.shape, Indices(Sources(prev, target), |prev|)))
    ensures InBounds(Unpermute(m, Indices(Sources(prev, target), |prev|)), x.shape)
    ensures Unpermute(m, Indices(Sources(prev, target), |prev|))[..|prev|] == Project(prev, target, m)
  {
    var p := Indices(Sources(prev, target), |prev|);
    UnpermuteInBounds(x.shape, p, m);
    forall j | 0 <= j < |prev| ensures Unpermute(m, p)[j] == Project(prev, target, m)[j] {
      SlotOfOldAxis(prev, target, j);
      ProjectedAt(prev, target, p, m, j);
    }
  }

  lemma IndicesNext(s: seq<Option<nat>>, rank: nat, i: nat)
    requires i < |s|
    ensures Indices(s, rank)[..i + 1] == Indices(s, rank)[..i] + [Indices(s, rank)[i]]
  {
  }

  // ---------------------------------------------------------------------
  // The function itself.

  /** A trailing dimension of length 1 keeps the padding. */
  lemma PaddedOnce<T>(x: NdArray<T>, values: NdArray<T>)
    requires Padded(x, values)
    ensures Padded(ExpandDims(x, |x.shape|), values)
  {
    var k := |x.shape|;
    var rank := |values.shape|;
    var y := ExpandDims(x, k);
    forall m | InBounds(m, y.shape) ensures y.at(m) == values.at(m[..rank]) {
      assert m[..k] + m[k + 1..] == m[..k];
      assert m[..k][..rank] == m[..rank];
    }
  }

  /** The loop of `_broadcast_values`: looks every target axis up by name,
      appends a trailing dimension of length 1 for each one that is missing,
      and collects the transpose indices. */
  method PadToTarget<T>(values: NdArray<T>, prev: Axes, target: seq<Axis>) returns (x: NdArray<T>, indices: seq<nat>)
    requires |values.shape| == |prev.list|
    ensures Padded(x, values)
    ensures |x.shape| == |values.shape| + Virtuals(Sources(prev.list, target))
    ensures indices == Indices(Sources(prev.list, target), |values.shape|)
  {
    var rank := |values.shape|;
    ghost var src := Sources(prev.list, target);
    x := values;
    indices := [];
    assert forall m :: InBounds(m, values.shape) ==> m[..rank] == m;
    var i := 0;
    while i < |target|
      invariant 0 <= i <= |target|
      invariant indices == Indices(src, rank)[..i]
      invariant |x.shape| == rank + Virtuals(src[..i])
      invariant Padded(x, values)
    {
      var found := Index(prev, StrArg(target[i].name));
      var k: nat;
      if found.Ok? {
        k := found.value;
      } else {
        k := |x.shape|;
        PaddedOnce(x, values);
        x := ExpandDims(x, k);
      }
      assert k == Indices(src, rank)[i];
      VirtualsStep(src, i);
      IndicesNext(src, rank, i);
      indices := indices + [k];
      i := i + 1;
    }
    assert src[..|target|] == src;
    assert Indices(src, rank)[..|target|] == Indices(src, rank);
  }

  /** `_broadcast_values(values, old_axes, new_axes)`. Each target axis is
      looked up by name; a missing one becomes a trailing dimension of
      length 1. A ValueError follows when the padded rank is not the target
      rank (an old axis that the target lacks) or the collected indices are
      not a permutation. With unique target names this fails exactly when
      an old axis is missing from the target. */
  method BroadcastValues<T>(values: NdArray<T>, prev: Axes, target: seq<Axis>) returns (r: Result<NdArray<T>>)
    requires |values.shape| == |prev.list| && Distinct(Names(prev.list))
    ensures r.Err? ==> r.error == ValueError
    ensures r.Ok? ==> Covers(target, prev.list)
    ensures Distinct(Names(target)) ==> (r.Ok? <==> Covers(target, prev.list))
    ensures r.Ok? ==> r.value.shape == TargetShape(values.shape, prev.list, target)
    ensures r.Ok? ==> forall m :: InBounds(m, r.value.shape) ==>
      InBounds(Project(prev.list, target, m), values.shape) &&
      r.value.at(m) == values.at(Project(prev.list, target, m))
  {
    var x, indices := PadToTarget(values, prev, target);
    if Distinct(Names(target)) && Covers(target, prev.list) {
      PermutationWhenCovered(prev.list, target);
    }
    if |x.shape| != |target| {
      return Err(ValueError);
    }
    r := Arrays.Transpose(x, indices);
    if r.Ok? {
      CoveredWhenPermutation(prev.list, target);
      PaddedTransposedShape(x, values, prev.list, target);
      forall m | InBounds(m, r.value.shape)
        ensures InBounds(Project(prev.list, target, m), values.shape)
        ensures r.value.at(m) == values.at(Project(prev.list, target, m))
      {
        PaddedTransposedReads(x, values, prev.list, target, m);
        var u := Unpermute(m, indices);
        assert r.value.at(m) == x.at(u);
        assert x.at(u) == values.at(u[..|values.shape|]);
      }
    }
  }
}
