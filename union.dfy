/** `_unique_axes_from_cubes`: one axis per name over all axes of a list of
    cubes, in the order the names are first seen, a Series taking the place
    of an Index of the same name. */
module Union {
  import opened Errors
  import opened Labels
  import opened AxisTypes
  import opened AxisCollection
  import opened Cubes

  /** Every axis of every cube, cube by cube. */
  function Flatten<T>(cubes: seq<Cube<T>>): (r: seq<Axis>)
    decreases |cubes|
  {
    if cubes == [] then [] else Flatten(cubes[..|cubes| - 1]) + cubes[|cubes| - 1].axes.list
  }

  /** One visit of the inner loop: a new name is appended; an Index already
      kept gives way to a Series of its name; everything else is kept. */
  function Merge(list: seq<Axis>, ax: Axis): (r: seq<Axis>)
  {
    var k := FirstIndex(Names(list), ax.name);
    if k < |list| then
      if list[k].kind.IndexKind? && ax.kind.SeriesKind? then list[k := ax] else list
    else list + [ax]
  }

  /** The list after visiting the axes in `all` in order. */
  function UniqueOf(all: seq<Axis>): (r: seq<Axis>)
    decreases |all|
  {
    if all == [] then [] else Merge(UniqueOf(all[..|all| - 1]), all[|all| - 1])
  }

  // ---------------------------------------------------------------------
  // An independent description of the outcome.

  /** The position of the first Series named n, or |all|. */
  function FirstSeries(all: seq<Axis>, n: string): (k: nat)
    ensures k <= |all|
    ensures k < |all| ==> all[k].name == n && all[k].kind.SeriesKind?
    ensures forall j :: 0 <= j < k ==> !(all[j].name == n && all[j].kind.SeriesKind?)
    decreases |all|
  {
    if all == [] then 0
    else if all[0].name == n && all[0].kind.SeriesKind? then 0
    else 1 + FirstSeries(all[1..], n)
  }

  /** The axis kept for name n: the first Series of that name if there is
      one, else the first axis of that name. */
  function Preferred(all: seq<Axis>, n: string): Axis
    requires n in Names(all)
  {
    var s := FirstSeries(all, n);
    if s < |all| then all[s] else all[FirstIndex(Names(all), n)]
  }

  /** The facts the union result satisfies, as one predicate for the
      induction: the names kept are exactly the names seen, in the order of
      first sight, and each kept axis is the preferred axis of its name. */
  predicate UnionOf(r: seq<Axis>, all: seq<Axis>) {
    (forall i :: 0 <= i < |all| ==> all[i].name in Names(r)) &&
    (forall p :: 0 <= p < |r| ==> r[p].name in Names(all) && r[p] == Preferred(all, r[p].name)) &&
    (forall p, q :: 0 <= p < q < |r| ==>
      r[p].name in Names(all) && r[q].name in Names(all) &&
      FirstIndex(Names(all), r[p].name) < FirstIndex(Names(all), r[q].name))
  }

  // ---------------------------------------------------------------------
  // One step of the fold against the description.

  lemma NamesSnoc(all: seq<Axis>, x: Axis)
    ensures Names(all + [x]) == Names(all) + [x.name]
  {
    assert forall i :: 0 <= i < |all| + 1 ==> Names(all + [x])[i] == (Names(all) + [x.name])[i];
  }

  /** FirstSeries is determined by its contract. */
  lemma FirstSeriesIs(all: seq<Axis>, n: string, k: nat)
    requires k <= |all|
    requires k < |all| ==> all[k].name == n && all[k].kind.SeriesKind?
    requires forall j :: 0 <= j < k ==> !(all[j].name == n && all[j].kind.SeriesKind?)
    ensures FirstSeries(all, n) == k
  {
  }

  /** The preferred axis is a Series exactly when some axis of its name is. */
  lemma PreferredKind(all: seq<Axis>, n: string)
    requires n in Names(all)
    ensures Preferred(all, n).name == n
    ensures Preferred(all, n).kind.SeriesKind? <==> FirstSeries(all, n) < |all|
  {
    var k := FirstIndex(Names(all), n);
    assert all[k].name == n;
  }

  /** What the preferred axis of a name becomes when one more axis is seen. */
  lemma PreferredSnoc(all: seq<Axis>, x: Axis, n: string)
    requires n in Names(all + [x])
    ensures n !in Names(all) ==> n == x.name && Preferred(all + [x], n) == x
    ensures n in Names(all) ==>
      Preferred(all + [x], n) ==
        if n == x.name && x.kind.SeriesKind? && !Preferred(all, n).kind.SeriesKind? then x
        else Preferred(all, n)
    ensures n in Names(all) ==> FirstIndex(Names(all + [x]), n) == FirstIndex(Names(all), n)
    ensures n !in Names(all) ==> FirstIndex(Names(all + [x]), n) == |all|
  {
    var all' := all + [x];
    NamesSnoc(all, x);
    var s := FirstSeries(all, n);
    if s < |all| {
      FirstSeriesIs(all', n, s);
    } else if n == x.name && x.kind.SeriesKind? {
      FirstSeriesIs(all', n, |all|);
    } else {
      FirstSeriesIs(all', n, |all'|);
    }
    if n in Names(all) {
      FirstIndexOfPrefix(Names(all), [x.name], n);
      PreferredKind(all, n);
    } else {
      FirstIndexPastPrefix(Names(all), [x.name], n);
      assert n == x.name;
    }
  }

  /** Distinct names follow from the first-sight order. */
  lemma OrderedIsDistinct(r: seq<Axis>, all: seq<Axis>)
    requires UnionOf(r, all)
    ensures Distinct(Names(r))
  {
    forall p, q | 0 <= p < q < |r| ensures Names(r)[p] != Names(r)[q] {
      assert FirstIndex(Names(all), r[p].name) < FirstIndex(Names(all), r[q].name);
    }
  }

  /** The case of an axis whose name is already kept. */
  lemma MergeKept(r: seq<Axis>, all: seq<Axis>, x: Axis)
    requires UnionOf(r, all) && x.name in Names(r)
    ensures UnionOf(Merge(r, x), all + [x])
  {
    var all' := all + [x];
    var k := FirstIndex(Names(r), x.name);
    var r' := Merge(r, x);
    OrderedIsDistinct(r, all);
    assert x.name in Names(all);
    NamesSnoc(all, x);
    assert |r'| == |r| && Names(r') == Names(r) && r'[k] == (if r[k].kind.IndexKind? && x.kind.SeriesKind? then x else r[k]);
    forall p | 0 <= p < |r|
      ensures r[p].name in Names(all) && FirstIndex(Names(all'), r[p].name) == FirstIndex(Names(all), r[p].name)
      ensures r'[p] == Preferred(all', r'[p].name)
    {
      PreferredSnoc(all, x, r[p].name);
      if p != k {
        assert Names(r)[p] != Names(r)[k];
      }
    }
    forall i | 0 <= i < |all'| ensures all'[i].name in Names(r') {
      if i < |all| {
        assert all'[i] == all[i];
      }
    }
  }

  /** The case of an axis with a name not seen before. */
  lemma MergeNew(r: seq<Axis>, all: seq<Axis>, x: Axis)
    requires UnionOf(r, all) && x.name !in Names(r)
    ensures UnionOf(Merge(r, x), all + [x])
  {
    var all' := all + [x];
    var r' := Merge(r, x);
    assert r' == r + [x];
    NamesSnoc(all, x);
    NamesSnoc(r, x);
    forall i | 0 <= i < |all| ensures Names(all)[i] != x.name {
      assert all[i].name in Names(r);
    }
    PreferredSnoc(all, x, x.name);
    forall p | 0 <= p < |r|
      ensures FirstIndex(Names(all'), r[p].name) == FirstIndex(Names(all), r[p].name) < |all|
      ensures r'[p] == Preferred(all', r'[p].name)
    {
      PreferredSnoc(all, x, r[p].name);
      assert r'[p] == r[p];
    }
    forall i | 0 <= i < |all'| ensures all'[i].name in Names(r') {
      if i < |all| {
        assert all'[i] == all[i];
      }
    }
  }

  /** `_unique_axes_from_cubes` keeps one axis for each name seen, in the
      order of first sight, and that axis is the first Series of its name if
      there is one and otherwise the first axis of its name. */
  lemma {:induction false} UniqueOfIsUnion(all: seq<Axis>)
    ensures UnionOf(UniqueOf(all), all)
    ensures Distinct(Names(UniqueOf(all)))
    decreases |all|
  {
    if all != [] {
      var pre := all[..|all| - 1];
      var x := all[|all| - 1];
      assert all == pre + [x];
      UniqueOfIsUnion(pre);
      if x.name in Names(UniqueOf(pre)) {
        MergeKept(UniqueOf(pre), pre, x);
      } else {
        MergeNew(UniqueOf(pre), pre, x);
      }
    }
    OrderedIsDistinct(UniqueOf(all), all);
  }

  /** The axis kept for a name is one of the axes seen. */
  lemma PreferredSeen(all: seq<Axis>, n: string)
    requires n in Names(all)
    ensures Preferred(all, n) in all
  {
  }

  /** Every axis of the cubes, and only those, is in the flattened list. */
  lemma {:induction false} FlattenMembers<T>(cubes: seq<Cube<T>>)
    ensures forall i, k :: 0 <= i < |cubes| && 0 <= k < |cubes[i].axes.list| ==> cubes[i].axes.list[k] in Flatten(cubes)
    ensures forall a :: a in Flatten(cubes) ==> exists i :: 0 <= i < |cubes| && a in cubes[i].axes.list
    decreases |cubes|
  {
    if cubes != [] {
      var pre := cubes[..|cubes| - 1];
      FlattenMembers(pre);
      assert forall i :: 0 <= i < |pre| ==> pre[i] == cubes[i];
    }
  }

  // ---------------------------------------------------------------------
  // The loop.

  lemma FlattenStep<T>(cubes: seq<Cube<T>>, i: nat)
    requires i < |cubes|
    ensures Flatten(cubes[..i + 1]) == Flatten(cubes[..i]) + cubes[i].axes.list
  {
    assert cubes[..i + 1][..i] == cubes[..i];
  }

  /** The list and its name-to-position dictionary agree. */
  ghost predicate Indexed(list: seq<Axis>, dict: map<string, nat>) {
    (forall n :: n in dict <==> n in Names(list)) &&
    (forall n :: n in dict ==> dict[n] == FirstIndex(Names(list), n))
  }

  /** Visiting one axis keeps the dictionary in step with the list. */
  lemma VisitIndexed(list: seq<Axis>, dict: map<string, nat>, ax: Axis)
    requires Indexed(list, dict)
    ensures ax.name in dict ==> dict[ax.name] < |list| && list[dict[ax.name]].name == ax.name
    ensures ax.name in dict ==> Indexed(Merge(list, ax), dict)
    ensures ax.name !in dict ==> Indexed(Merge(list, ax), dict[ax.name := |list|])
  {
    var k := FirstIndex(Names(list), ax.name);
    if ax.name in dict {
      assert Names(Merge(list, ax)) == Names(list);
    } else {
      NamesSnoc(list, ax);
      forall n | n in Names(list) ensures FirstIndex(Names(list + [ax]), n) == FirstIndex(Names(list), n) {
        FirstIndexOfPrefix(Names(list), [ax.name], n);
      }
      FirstIndexPastPrefix(Names(list), [ax.name], ax.name);
    }
  }

  /** The inner loop of `_unique_axes_from_cubes`: visit the axes of one
      cube, in order. */
  method VisitAxes(list0: seq<Axis>, dict0: map<string, nat>, ghost seen: seq<Axis>, axes: seq<Axis>)
    returns (list: seq<Axis>, dict: map<string, nat>)
    requires list0 == UniqueOf(seen) && Indexed(list0, dict0)
    ensures list == UniqueOf(seen + axes) && Indexed(list, dict)
  {
    list, dict := list0, dict0;
    assert seen + axes[..0] == seen;
    for j := 0 to |axes|
      invariant list == UniqueOf(seen + axes[..j])
      invariant Indexed(list, dict)
    {
      assert seen + axes[..j + 1] == (seen + axes[..j]) + [axes[j]];
      list, dict := Visit(list, dict, axes[j]);
    }
    assert axes[..|axes|] == axes;
  }

  /** The body of that loop for one axis: a new name is appended and
      recorded, a known name keeps its slot, which a Series takes over from
      an Index. */
  method Visit(list0: seq<Axis>, dict0: map<string, nat>, ax: Axis) returns (list: seq<Axis>, dict: map<string, nat>)
    requires Indexed(list0, dict0)
    ensures list == Merge(list0, ax) && Indexed(list, dict)
  {
    list, dict := list0, dict0;
    VisitIndexed(list, dict, ax);
    if ax.name in dict {
      var k := dict[ax.name];
      if list[k].kind.IndexKind? && ax.kind.SeriesKind? {
        list := list[k := ax];
      }
    } else {
      dict := dict[ax.name := |list|];
      list := list + [ax];
    }
  }

  /** `_unique_axes_from_cubes(cube_list)`: a list and a dictionary of the
      positions of its names, filled by visiting every axis of every cube. */
  method UniqueAxes<T>(cubes: seq<Cube<T>>) returns (r: seq<Axis>)
    ensures r == UniqueOf(Flatten(cubes))
  {
    var list: seq<Axis> := [];
    var dict: map<string, nat> := map[];
    for i := 0 to |cubes|
      invariant list == UniqueOf(Flatten(cubes[..i]))
      invariant Indexed(list, dict)
    {
      list, dict := VisitAxes(list, dict, Flatten(cubes[..i]), cubes[i].axes.list);
      FlattenStep(cubes, i);
    }
    assert cubes[..|cubes|] == cubes;
    r := list;
  }
}
