/** The grouping part of `Cube.groupby`: the distinct labels of a Series
    axis, in sorted or first-seen order, each collapsed by a reducer over
    the positions that carry it, under a new Index axis of the same name. */
module Grouping {
  import opened Errors
  import opened Labels
  import opened Arrays
  import opened AxisTypes
  import opened AxisCollection
  import opened Cubes

  /** `np.arange(len(values))[values == v]`: every position holding v, in
      increasing order. */
  function Positions(values: seq<Value>, v: Value): (r: seq<nat>)
    ensures forall t :: 0 <= t < |r| ==> r[t] < |values| && values[r[t]] == v
    ensures forall i :: 0 <= i < |values| && values[i] == v ==> i in r
    ensures forall s, t :: 0 <= s < t < |r| ==> r[s] < r[t]
    decreases |values|
  {
    if values == [] then []
    else
      var n := |values|;
      Positions(values[..n - 1], v) + (if values[n - 1] == v then [n - 1] else [])
  }

  /** The labels of the groups: np.unique's sorted order, or the order of
      first occurrence. */
  function GroupLabels(values: seq<Value>, sorted: bool): (r: seq<Value>)
    ensures Distinct(r) && Elements(r) == Elements(values)
    ensures sorted ==> StrictlyIncreasing(r)
    ensures !sorted ==> forall i, j :: 0 <= i < j < |r| ==> FirstIndex(values, r[i]) < FirstIndex(values, r[j])
  {
    if sorted then
      StrictlyIncreasingIsDistinct(SortedUnique(values));
      SortedUnique(values)
    else
      FirstSeenDistinct(values);
      FirstSeenElements(values);
      FirstSeenOrder(values);
      FirstSeen(values)
  }

  /** Labels that were coerced to strings group in string order: "10"
      comes before "9". */
  lemma CoercedLabelsSortAsStrings()
    ensures GroupLabels(Coerce([IntValue(10), StrValue("9")]), true) == [StrValue("10"), StrValue("9")]
  {
    MixedLabelsCoerced();
    var vs := [StrValue("10"), StrValue("9")];
    assert vs[..1] == [StrValue("10")];
    assert SortedUnique(vs[..1]) == [StrValue("10")];
    assert StrLess("10", "9");
    assert SortedUnique(vs) == InsertSorted([StrValue("10")], StrValue("9"));
  }

  /** The entries of one group: the slice along dimension k through m,
      restricted to the positions ps. */
  function Group<T>(a: NdArray<T>, k: nat, ps: seq<nat>, m: seq<nat>): (g: seq<T>)
    requires k < |m|
    ensures |g| == |ps| && forall t :: 0 <= t < |ps| ==> g[t] == a.at(m[k := ps[t]])
  {
    seq(|ps|, t requires 0 <= t < |ps| => a.at(m[k := ps[t]]))
  }

  /** A sub-cube holding, through every position, the reducer applied to
      the group of positions ps along k. */
  ghost predicate GroupReduced<T>(a: NdArray<T>, k: nat, ps: seq<nat>, reduce: seq<T> -> T, sub: NdArray<T>) {
    k < |a.shape| && sub.shape == a.shape[k := 1] &&
    forall m :: InBounds(m, sub.shape) ==> sub.at(m) == reduce(Group(a, k, ps, m))
  }

  /** One sub-cube of the loop: take the group's positions along k, reduce
      along k, and put back a dimension of length 1. */
  lemma SubCubeReads<T>(a: NdArray<T>, k: nat, ps: seq<nat>, reduce: seq<T> -> T)
    requires k < |a.shape| && forall t :: 0 <= t < |ps| ==> ps[t] < a.shape[k]
    requires IterationNonEmpty(a.shape, k)
    ensures ApplyAlongAxis(reduce, k, Arrays.Take(a, k, ps)).Ok?
    ensures GroupReduced(a, k, ps, reduce, ExpandDims(ApplyAlongAxis(reduce, k, Arrays.Take(a, k, ps)).value, k))
  {
    assert IterationNonEmpty(Arrays.Take(a, k, ps).shape, k);
    var s := ExpandDims(ApplyAlongAxis(reduce, k, Arrays.Take(a, k, ps)).value, k);
    assert s.shape == a.shape[k := 1];
    forall m | InBounds(m, s.shape) ensures s.at(m) == reduce(Group(a, k, ps, m)) {
      SliceOfTakeIsGroup(a, k, ps, m);
    }
  }

  /** Through a position of the sub-cube, the slice along k of the taken
      positions is the group. */
  lemma SliceOfTakeIsGroup<T>(a: NdArray<T>, k: nat, ps: seq<nat>, m: seq<nat>)
    requires k < |a.shape| && forall t :: 0 <= t < |ps| ==> ps[t] < a.shape[k]
    requires InBounds(m, a.shape[k := 1])
    ensures var e := m[..k] + m[k + 1..];
      InBounds(e, a.shape[..k] + a.shape[k + 1..]) &&
      Arrays.Slice(Arrays.Take(a, k, ps), k, e) == Group(a, k, ps, m)
  {
    var tk := Arrays.Take(a, k, ps);
    var e := m[..k] + m[k + 1..];
    assert e[..k] == m[..k] && e[k..] == m[k + 1..];
    var sl := Arrays.Slice(tk, k, e);
    forall t | 0 <= t < |ps| ensures sl[t] == a.at(m[k := ps[t]]) {
      SpliceIsUpdate(m, k, t);
      assert e[..k] + [t] + e[k..] == m[k := t];
      assert m[k := t][k := ps[t]] == m[k := ps[t]];
    }
  }

  lemma SpliceIsUpdate(m: seq<nat>, k: nat, t: nat)
    requires k < |m|
    ensures m[..k] + [t] + m[k + 1..] == m[k := t]
  {
  }

  /** Every position of the axis falls in exactly one group: every label
      of the axis is a group label, and a position belongs to a group
      exactly when it carries the group's label. */
  lemma GroupsPartition(values: seq<Value>, sorted: bool)
    ensures forall i :: 0 <= i < |values| ==> values[i] in GroupLabels(values, sorted)
    ensures var labels := GroupLabels(values, sorted);
      forall i, j :: 0 <= i < |values| && 0 <= j < |labels| ==>
        (i in Positions(values, labels[j]) <==> values[i] == labels[j])
  {
    var labels := GroupLabels(values, sorted);
    forall i | 0 <= i < |values| ensures values[i] in labels {
      assert values[i] in Elements(values);
    }
  }

  /** There are no groups exactly when the axis is empty. */
  lemma NoGroupsIffEmpty(values: seq<Value>, sorted: bool)
    ensures GroupLabels(values, sorted) == [] <==> values == []
  {
    if values != [] {
      assert values[0] in Elements(values);
    }
  }

  /** Concatenating the sub-cubes along k puts group j at position j. */
  lemma StackedGroups<T>(a: NdArray<T>, k: nat, groups: seq<seq<nat>>, subs: seq<NdArray<T>>, reduce: seq<T> -> T)
    requires k < |a.shape| && |subs| == |groups| > 0
    requires forall j :: 0 <= j < |subs| ==> subs[j].shape == a.shape[k := 1]
    requires forall j :: 0 <= j < |subs| ==> GroupReduced(a, k, groups[j], reduce, subs[j])
    ensures Concatenate(subs, k).Ok?
    ensures Concatenate(subs, k).value.shape == a.shape[k := |subs|]
    ensures forall m :: InBounds(m, Concatenate(subs, k).value.shape) ==>
      Concatenate(subs, k).value.at(m) == reduce(Group(a, k, groups[m[k]], m))
  {
    var v := Concatenate(subs, k).value;
    forall m | InBounds(m, v.shape) ensures v.at(m) == reduce(Group(a, k, groups[m[k]], m)) {
      assert InBounds(m[k := 0], subs[m[k]].shape);
      GroupIgnoresCoordinate(a, k, groups[m[k]], m);
    }
  }

  /** A group does not depend on the coordinate along its own dimension. */
  lemma GroupIgnoresCoordinate<T>(a: NdArray<T>, k: nat, ps: seq<nat>, m: seq<nat>)
    requires k < |m|
    ensures Group(a, k, ps, m[k := 0]) == Group(a, k, ps, m)
  {
    forall t | 0 <= t < |ps| ensures m[k := 0][k := ps[t]] == m[k := ps[t]] {
    }
  }

  /** The new Index axis takes the old axis's slot without a name clash. */
  lemma GroupedAxes(axes: Axes, k: nat, ax: Axis)
    requires ValidAxes(axes) && k < |axes.list| && ax.name == axes.list[k].name && Valid(ax)
    ensures Replace(axes, IntArg(k), ax).Ok?
    ensures ValidAxes(Replace(axes, IntArg(k), ax).value)
  {
    forall j | 0 <= j < |axes.list| && j != k ensures axes.list[j].name != ax.name {
      assert Names(axes.list)[j] == axes.list[j].name && Names(axes.list)[k] == ax.name;
    }
    var list := Replace(axes, IntArg(k), ax).value.list;
    forall j | 0 <= j < |list| ensures Valid(list[j]) {
      if j != k { assert list[j] == axes.list[j]; }
    }
  }

  /** The loop of `groupby` over the group labels: one reduced sub-cube per
      label, from the positions of the axis that carry it. Its first pass
      raises when another dimension is 0; with no labels it does not run. */
  method ReduceGroups<T>(a: NdArray<T>, k: nat, values: seq<Value>, labels: seq<Value>, reduce: seq<T> -> T)
    returns (r: Result<seq<NdArray<T>>>)
    requires k < |a.shape| && |values| == a.shape[k]
    ensures r.Ok? <==> |labels| == 0 || IterationNonEmpty(a.shape, k)
    ensures r.Err? ==> r.error == ValueError
    ensures r.Ok? ==> |r.value| == |labels|
    ensures r.Ok? ==> forall j :: 0 <= j < |r.value| ==>
      GroupReduced(a, k, Positions(values, labels[j]), reduce, r.value[j])
  {
    var subs := [];
    var i := 0;
    while i < |labels|
      invariant 0 <= i <= |labels| && |subs| == i
      invariant i > 0 ==> IterationNonEmpty(a.shape, k)
      invariant forall j :: 0 <= j < i ==> GroupReduced(a, k, Positions(values, labels[j]), reduce, subs[j])
    {
      var indices := Positions(values, labels[i]);
      var sub := ReduceGroup(a, k, indices, reduce);
      if sub.Err? {
        return Err(sub.error);
      }
      subs := subs + [sub.value];
      i := i + 1;
    }
    r := Ok(subs);
  }

  /** One pass of that loop: take the group's positions along k, reduce
      along k (ValueError when another dimension is 0), and put back a
      dimension of length 1. */
  method ReduceGroup<T>(a: NdArray<T>, k: nat, indices: seq<nat>, reduce: seq<T> -> T)
    returns (r: Result<NdArray<T>>)
    requires k < |a.shape| && forall t :: 0 <= t < |indices| ==> indices[t] < a.shape[k]
    ensures r.Ok? <==> IterationNonEmpty(a.shape, k)
    ensures r.Err? ==> r.error == ValueError
    ensures r.Ok? ==> GroupReduced(a, k, indices, reduce, r.value)
  {
    var taken := Arrays.Take(a, k, indices);
    assert forall j :: 0 <= j < |a.shape| && j != k ==> taken.shape[j] == a.shape[j];
    assert IterationNonEmpty(taken.shape, k) <==> IterationNonEmpty(a.shape, k);
    var reduced := ApplyAlongAxis(reduce, k, taken);
    if reduced.Err? {
      return Err(reduced.error);
    }
    r := Ok(ExpandDims(reduced.value, k));
    SubCubeReads(a, k, indices, reduce);
  }

  /** `groupby(axis, func, sorted)`. The lookup errors of `axis_and_index`
      come first; an Index axis already has unique values and the cube is
      returned as it is; for a Series axis every distinct label becomes one
      entry along the axis, holding the reducer applied to the entries that
      carry that label, and the axis becomes an Index of those labels.
      np.apply_along_axis raises ValueError when another dimension is 0,
      and an empty axis leaves nothing to concatenate, a ValueError. */
  method GroupBy<T>(c: Cube<T>, id: Arg, reduce: seq<T> -> T, sorted: bool, newId: nat)
    returns (r: Result<Cube<T>>)
    requires ValidCube(c)
    ensures Resolve(c.axes, id).Err? ==> r == Err(Resolve(c.axes, id).error)
    ensures Resolve(c.axes, id).Ok? && c.axes.list[Resolve(c.axes, id).value].kind.IndexKind? ==> r == Ok(c)
    ensures Resolve(c.axes, id).Ok? && c.axes.list[Resolve(c.axes, id).value].kind.SeriesKind? ==>
      (r.Ok? <==> (|c.axes.list[Resolve(c.axes, id).value].values| > 0 &&
        IterationNonEmpty(c.values.shape, Resolve(c.axes, id).value))) &&
      (r.Err? ==> r.error == ValueError)
    ensures r.Ok? ==> ValidCube(r.value)
    ensures Resolve(c.axes, id).Ok? && c.axes.list[Resolve(c.axes, id).value].kind.SeriesKind? && r.Ok? ==>
      var k := Resolve(c.axes, id).value;
      var ax := c.axes.list[k];
      var labels := GroupLabels(ax.values, sorted);
      r.value.axes.list == c.axes.list[k := Axis(newId, ax.name, labels, IndexKind(Table(labels)))] &&
      r.value.values.shape == c.values.shape[k := |labels|] &&
      forall m :: InBounds(m, r.value.values.shape) ==>
        r.value.values.at(m) == reduce(Group(c.values, k, Positions(ax.values, labels[m[k]]), m))
  {
    var found := AxisAndIndex(c.axes, id);
    if found.Err? {
      return Err(found.error);
    }
    var (ax, k) := found.value;
    if ax.kind.IndexKind? {
      return Ok(c);
    }
    var labels := GroupLabels(ax.values, sorted);
    NoGroupsIffEmpty(ax.values, sorted);
    var reduced := ReduceGroups(c.values, k, ax.values, labels, reduce);
    if reduced.Err? {
      return Err(reduced.error);
    }
    var subs := reduced.value;
    if subs == [] {
      return Err(ValueError);
    }
    GroupedCube(c, k, sorted, subs, reduce, newId);
    var newAxis := Axis(newId, ax.name, labels, IndexKind(Table(labels)));
    var axes := Replace(c.axes, IntArg(k), newAxis).value;
    var values := Concatenate(subs, k).value;
    r := NewCube(values, axes);
  }

  /** The group labels of one axis make a valid Index: distinct, of the
      axis's one kind of label, with their own table. */
  lemma GroupIndexValid(values: seq<Value>, sorted: bool, id: nat, name: string)
    requires Homogeneous(values)
    ensures var labels := GroupLabels(values, sorted);
      Valid(Axis(id, name, labels, IndexKind(Table(labels))))
  {
    var labels := GroupLabels(values, sorted);
    TableSizeIffDistinct(labels);
    assert forall i :: 0 <= i < |labels| ==> labels[i] in Elements(values);
    HomogeneousSubset(labels, values);
  }

  /** The end of `groupby`: the reduced sub-cubes concatenated along k,
      under the new Index axis in the old axis's slot, make a valid cube. */
  lemma GroupedCube<T>(c: Cube<T>, k: nat, sorted: bool, subs: seq<NdArray<T>>, reduce: seq<T> -> T, newId: nat)
    requires ValidCube(c) && k < |c.axes.list|
    requires var labels := GroupLabels(c.axes.list[k].values, sorted);
      |subs| == |labels| > 0 &&
      forall j :: 0 <= j < |subs| ==> GroupReduced(c.values, k, Positions(c.axes.list[k].values, labels[j]), reduce, subs[j])
    ensures var ax := c.axes.list[k];
      var labels := GroupLabels(ax.values, sorted);
      var newAxis := Axis(newId, ax.name, labels, IndexKind(Table(labels)));
      Replace(c.axes, IntArg(k), newAxis).Ok? && Concatenate(subs, k).Ok? &&
      var r := NewCube(Concatenate(subs, k).value, Replace(c.axes, IntArg(k), newAxis).value);
      r.Ok? && ValidCube(r.value) &&
      r.value.axes.list == c.axes.list[k := newAxis] &&
      r.value.values.shape == c.values.shape[k := |labels|] &&
      forall m :: InBounds(m, r.value.values.shape) ==>
        r.value.values.at(m) == reduce(Group(c.values, k, Positions(ax.values, labels[m[k]]), m))
  {
    var ax := c.axes.list[k];
    var labels := GroupLabels(ax.values, sorted);
    var newAxis := Axis(newId, ax.name, labels, IndexKind(Table(labels)));
    GroupIndexValid(ax.values, sorted, newId, ax.name);
    GroupedAxes(c.axes, k, newAxis);
    var groups := seq(|labels|, j requires 0 <= j < |labels| => Positions(ax.values, labels[j]));
    StackedGroups(c.values, k, groups, subs, reduce);
  }
}
