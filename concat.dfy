/** Stacking cubes: `_align_broadcast_and_concatenate` aligns every cube to
    a list of base axes, brings every cube to the layout of the main axis
    followed by the base axes and concatenates the arrays along the main
    axis; `concatenate` takes the main axis from the cubes, `join` adds a
    new one. */
module Concatenation {
  import opened Errors
  import opened Labels
  import opened Arrays
  import opened AxisTypes
  import opened AxisCollection
  import opened Cubes
  import opened Broadcasting
  import opened Alignment
  import opened Elementwise
  import opened Union

  // ---------------------------------------------------------------------
  // One base axis against one cube.

  /** The cube's axis `ax` of the base axis's name can be aligned to it:
      it is the same object, or an Index holding the base labels (all of
      them, in equal number, for an Index base), or a Series with the same
      labels in the same order. */
  predicate FitsBase(ax: Axis, base: Axis) {
    ax.id == base.id ||
    (ax.kind.IndexKind? && base.kind.IndexKind? && |ax.values| == |base.values| && AllIn(base.values, ax)) ||
    (ax.kind.IndexKind? && base.kind.SeriesKind? && AllIn(base.values, ax)) ||
    (ax.kind.SeriesKind? && ax.values == base.values)
  }

  /** The decision the inner loop body takes for one base axis and one
      cube: nothing to do, or a gather of the cube's data along its
      dimension k at the positions idx. */
  function BaseStep(base: Axis, axes: Axes): (r: Result<Option<(nat, seq<nat>)>>)
    requires ValidAxes(axes)
    ensures r.Ok? <==> (match NamePosition(axes.list, base.name)
      case None => true
      case Some(k) => FitsBase(axes.list[k], base))
    ensures r.Err? ==> r.error == AxisAlignError
    ensures r.Ok? && r.value.Some? ==>
      NamePosition(axes.list, base.name) == Some(r.value.value.0) &&
      axes.list[r.value.value.0].kind.IndexKind? && axes.list[r.value.value.0].id != base.id &&
      Realigns(r.value.value.1, axes.list[r.value.value.0], base)
    ensures r.Ok? && r.value.None? ==> (match NamePosition(axes.list, base.name)
      case None => true
      case Some(k) => (axes.list[k].id == base.id ||
        (axes.list[k].kind.SeriesKind? && axes.list[k].values == base.values)))
  {
    match NamePosition(axes.list, base.name)
    case None => Ok(None)
    case Some(k) =>
      var ax := axes.list[k];
      assert Valid(ax);
      if ax.id == base.id then Ok(None)
      else if ax.kind.IndexKind? then
        if base.kind.IndexKind? then
          var idx :- AlignIndexToIndex(ax, base);
          Ok(Some((k, idx)))
        else
          var idx :- AlignIndexToSeries(ax, base);
          Ok(Some((k, idx)))
      else
        var _ :- AssertAlignSeries(ax, base);
        Ok(None)
  }

  /** The positions a cube's dimension k has been gathered at by the base
      axes in `bases`: those the step of the base of its name chose, or all
      of them. */
  function GatherAt<T>(bases: seq<Axis>, c: Cube<T>, k: nat): (idx: seq<nat>)
    requires ValidCube(c) && k < |c.axes.list|
    ensures forall t :: 0 <= t < |idx| ==> idx[t] < c.values.shape[k]
  {
    match NamePosition(bases, c.axes.list[k].name)
    case Some(j) =>
      (match BaseStep(bases[j], c.axes)
       case Ok(Some((k', idx))) => NamePositionOwn(c.axes.list, k); idx
       case _ => Iota(c.values.shape[k]))
    case None => Iota(c.values.shape[k])
  }

  /** The gather a cube's data has received from the base axes in `bases`. */
  function CubeGather<T>(bases: seq<Axis>, c: Cube<T>): (g: seq<seq<nat>>)
    requires ValidCube(c)
    ensures GatherFits(g, c.values.shape)
    ensures forall k :: 0 <= k < |g| ==> g[k] == GatherAt(bases, c, k)
  {
    seq(|c.axes.list|, k requires 0 <= k < |c.axes.list| => GatherAt(bases, c, k))
  }

  /** Every cube's axis of a base axis's name can be aligned to it. */
  predicate AllFit<T>(cubes: seq<Cube<T>>, bases: seq<Axis>)
    requires forall i :: 0 <= i < |cubes| ==> ValidCube(cubes[i])
  {
    forall i, j :: 0 <= i < |cubes| && 0 <= j < |bases| ==>
      ValidCube(cubes[i]) && BaseStep(bases[j], cubes[i].axes).Ok?
  }

  /** With unique names, base j is found in the first j + 1 bases by its
      own name, and any other name is found where the first j put it. */
  lemma PrefixPosition(bases: seq<Axis>, j: nat, n: string)
    requires j < |bases| && Distinct(Names(bases))
    ensures NamePosition(bases[..j + 1], n) ==
      if n == bases[j].name then Some(j) else NamePosition(bases[..j], n)
    ensures NamePosition(bases[..j], bases[j].name) == None
  {
    var pre := bases[..j];
    assert bases[..j + 1] == pre + [bases[j]];
    NamesSnoc(pre, bases[j]);
    assert bases[j].name !in Names(pre) by {
      forall t | 0 <= t < j ensures Names(pre)[t] != bases[j].name {
        assert Names(bases)[t] == Names(pre)[t];
        assert Names(bases)[j] == bases[j].name;
      }
    }
    if n in Names(pre) {
      FirstIndexOfPrefix(Names(pre), [bases[j].name], n);
    } else {
      FirstIndexPastPrefix(Names(pre), [bases[j].name], n);
    }
  }

  /** ... dimension by dimension. */
  lemma AdvanceCubeAt<T>(bases: seq<Axis>, j: nat, c: Cube<T>, k: nat)
    requires ValidCube(c) && j < |bases| && Distinct(Names(bases)) && k < |c.axes.list|
    requires BaseStep(bases[j], c.axes).Ok?
    ensures var st := BaseStep(bases[j], c.axes).value;
      CubeGather(bases[..j + 1], c)[k] ==
        (if st.Some? && k == st.value.0 then st.value.1 else CubeGather(bases[..j], c)[k])
  {
    var list := c.axes.list;
    var n := list[k].name;
    PrefixPosition(bases, j, n);
    if n == bases[j].name {
      NamePositionOwn(list, k);
    } else {
      var p := NamePosition(bases[..j], n);
      if p.Some? {
        assert bases[..j + 1][p.value] == bases[..j][p.value];
      }
    }
  }

  /** One more base axis changes a cube's gather only along the dimension
      its step gathers, which was untouched before. */
  lemma AdvanceCube<T>(bases: seq<Axis>, j: nat, c: Cube<T>)
    requires ValidCube(c) && j < |bases| && Distinct(Names(bases))
    requires BaseStep(bases[j], c.axes).Ok?
    ensures var st := BaseStep(bases[j], c.axes).value;
      (st.Some? ==> (st.value.0 < |c.values.shape| &&
        CubeGather(bases[..j], c)[st.value.0] == Iota(c.values.shape[st.value.0]) &&
        CubeGather(bases[..j + 1], c) == CubeGather(bases[..j], c)[st.value.0 := st.value.1]))
    ensures BaseStep(bases[j], c.axes).value.None? ==> CubeGather(bases[..j + 1], c) == CubeGather(bases[..j], c)
  {
    var list := c.axes.list;
    var st := BaseStep(bases[j], c.axes).value;
    var g0 := CubeGather(bases[..j], c);
    var g1 := CubeGather(bases[..j + 1], c);
    forall k | 0 <= k < |list|
      ensures g1[k] == (if st.Some? && k == st.value.0 then st.value.1 else g0[k])
    {
      AdvanceCubeAt(bases, j, c, k);
    }
    if st.Some? {
      var k := st.value.0;
      PrefixPosition(bases, j, list[k].name);
    }
  }

  // ---------------------------------------------------------------------
  // The alignment loops.

  /** The inner loop body for base axis j and one cube: look the base name
      up in the cube, skip a missing axis or the same object, check an
      equal Series, or take the cube's array at the positions of the base
      labels in its Index. */
  method AlignToBase<T>(bases: seq<Axis>, j: nat, c: Cube<T>, values: NdArray<T>) returns (r: Result<NdArray<T>>)
    requires ValidCube(c) && j < |bases| && Distinct(Names(bases))
    requires Same(values, Gather(c.values, CubeGather(bases[..j], c)))
    ensures r.Ok? <==> BaseStep(bases[j], c.axes).Ok?
    ensures r.Err? ==> r.error == AxisAlignError
    ensures r.Ok? ==> Same(r.value, Gather(c.values, CubeGather(bases[..j + 1], c)))
  {
    var base := bases[j];
    var found := AxisAndIndex(c.axes, StrArg(base.name));
    if found.Ok? {
      var (ax, k) := found.value;
      assert Valid(ax);
      if ax.id != base.id {
        var idx: seq<nat>;
        if ax.kind.IndexKind? {
          var ps := if base.kind.IndexKind? then AlignIndexToIndex(ax, base) else AlignIndexToSeries(ax, base);
          if ps.Err? {
            return Err(AxisAlignError);
          }
          idx := ps.value;
        } else {
          var ok := AssertAlignSeries(ax, base);
          if ok.Err? {
            return Err(AxisAlignError);
          }
          AdvanceCube(bases, j, c);
          return Ok(values);
        }
        AdvanceCube(bases, j, c);
        TakeOfGather(c.values, CubeGather(bases[..j], c), values, k, idx);
        return Ok(Arrays.Take(values, k, idx));
      }
    }
    AdvanceCube(bases, j, c);
    r := Ok(values);
  }

  /** A cube's data once the first n base axes have been aligned. */
  ghost function Stage<T>(c: Cube<T>, bases: seq<Axis>, n: nat): NdArray<T>
    requires ValidCube(c) && n <= |bases|
  {
    Gather(c.values, CubeGather(bases[..n], c))
  }

  /** The loop state in the middle of pass j: the first i cubes aligned to
      the first j + 1 base axes, the others to the first j. */
  ghost predicate Staged<T>(arrays: seq<NdArray<T>>, cubes: seq<Cube<T>>, bases: seq<Axis>, j: nat, i: nat)
    requires forall i :: 0 <= i < |cubes| ==> ValidCube(cubes[i])
    requires j <= |bases| && (i > 0 ==> j < |bases|)
  {
    |arrays| == |cubes| &&
    forall t :: 0 <= t < |cubes| ==> Same(arrays[t], Stage(cubes[t], bases, if t < i then j + 1 else j))
  }

  /** The steps taken so far all succeeded: every step of the first j base
      axes, and those of base j for the first i cubes. */
  predicate FitSoFar<T>(cubes: seq<Cube<T>>, bases: seq<Axis>, j: nat, i: nat)
    requires forall i :: 0 <= i < |cubes| ==> ValidCube(cubes[i])
    requires j <= |bases| && (i > 0 ==> j < |bases|)
  {
    forall t, u :: 0 <= t < |cubes| && 0 <= u < |bases| && (u < j || (u == j && t < i)) ==>
      ValidCube(cubes[t]) && BaseStep(bases[u], cubes[t].axes).Ok?
  }

  lemma StagedStep<T>(arrays: seq<NdArray<T>>, cubes: seq<Cube<T>>, bases: seq<Axis>, j: nat, i: nat, x: NdArray<T>)
    requires forall i :: 0 <= i < |cubes| ==> ValidCube(cubes[i])
    requires j < |bases| && i < |cubes|
    requires Staged(arrays, cubes, bases, j, i) && Same(x, Stage(cubes[i], bases, j + 1))
    ensures Staged(arrays[i := x], cubes, bases, j, i + 1)
  {
  }

  lemma StagedNext<T>(arrays: seq<NdArray<T>>, cubes: seq<Cube<T>>, bases: seq<Axis>, j: nat)
    requires forall i :: 0 <= i < |cubes| ==> ValidCube(cubes[i])
    requires j < |bases|
    requires Staged(arrays, cubes, bases, j, |cubes|) && FitSoFar(cubes, bases, j, |cubes|)
    ensures Staged(arrays, cubes, bases, j + 1, 0) && FitSoFar(cubes, bases, j + 1, 0)
  {
  }

  /** Every cube's data after the alignment loops of
      `_align_broadcast_and_concatenate`: the base axes outside, the cubes
      inside, each array replaced by its take. */
  method AlignAll<T>(cubes: seq<Cube<T>>, bases: seq<Axis>) returns (r: Result<seq<NdArray<T>>>)
    requires forall i :: 0 <= i < |cubes| ==> ValidCube(cubes[i])
    requires Distinct(Names(bases))
    ensures r.Ok? <==> AllFit(cubes, bases)
    ensures r.Err? ==> r.error == AxisAlignError
    ensures r.Ok? ==> |r.value| == |cubes| && forall i :: 0 <= i < |cubes| ==>
      Same(r.value[i], Gather(cubes[i].values, CubeGather(bases, cubes[i])))
  {
    var arrays := seq(|cubes|, i requires 0 <= i < |cubes| => cubes[i].values);
    forall i | 0 <= i < |cubes| ensures Same(arrays[i], Stage(cubes[i], bases, 0)) {
      assert CubeGather(bases[..0], cubes[i]) == IdentityGather(cubes[i].values.shape);
      IdentityGatherSame(cubes[i].values);
    }
    for j := 0 to |bases|
      invariant Staged(arrays, cubes, bases, j, 0) && FitSoFar(cubes, bases, j, 0)
    {
      for i := 0 to |cubes|
        invariant Staged(arrays, cubes, bases, j, i) && FitSoFar(cubes, bases, j, i)
      {
        var a := AlignToBase(bases, j, cubes[i], arrays[i]);
        if a.Err? {
          return Err(AxisAlignError);
        }
        StagedStep(arrays, cubes, bases, j, i, a.value);
        arrays := arrays[i := a.value];
      }
      StagedNext(arrays, cubes, bases, j);
    }
    assert bases[..|bases|] == bases;
    r := Ok(arrays);
  }

  // ---------------------------------------------------------------------
  // Broadcasting to the common layout and concatenating.

  /** x is y, laid out along the axes `prev`, brought to the layout of the
      axes `target` by `_broadcast_values`. */
  ghost predicate BroughtTo<T>(x: NdArray<T>, y: NdArray<T>, prev: seq<Axis>, target: seq<Axis>)
    requires |y.shape| == |prev|
  {
    Covers(target, prev) && x.shape == TargetShape(y.shape, prev, target) &&
    forall m :: InBounds(m, x.shape) ==>
      InBounds(Project(prev, target, m), y.shape) && x.at(m) == y.at(Project(prev, target, m))
  }

  /** The layout of a cube's data once aligned and brought to the target. */
  function LaidOut<T>(c: Cube<T>, bases: seq<Axis>, target: seq<Axis>): (s: seq<nat>)
    requires ValidCube(c)
    ensures |s| == |target|
  {
    TargetShape(GatherShape(CubeGather(bases, c)), c.axes.list, target)
  }

  function Layouts<T>(cubes: seq<Cube<T>>, bases: seq<Axis>, target: seq<Axis>): (r: seq<seq<nat>>)
    requires forall i :: 0 <= i < |cubes| ==> ValidCube(cubes[i])
    ensures |r| == |cubes| && forall i :: 0 <= i < |cubes| ==> r[i] == LaidOut(cubes[i], bases, target)
    ensures forall i :: 0 <= i < |r| ==> |r[i]| == |target|
  {
    seq(|cubes|, i requires 0 <= i < |cubes| => LaidOut(cubes[i], bases, target))
  }

  /** The condition, beyond alignment, under which the arrays can be
      stacked into a cube along the main axis followed by the base axes:
      unique names, no cube axis outside the target, at least one cube,
      laid-out shapes that broadcast together, and a broadcast shape whose
      concatenation along the main axis has the lengths of the axes. */
  predicate Stackable<T>(cubes: seq<Cube<T>>, bases: seq<Axis>, main: Axis)
    requires forall i :: 0 <= i < |cubes| ==> ValidCube(cubes[i])
  {
    var target := [main] + bases;
    var s := StackShape(Layouts(cubes, bases, target), |target|, |cubes|);
    Distinct(Names(target)) && (forall i :: 0 <= i < |cubes| ==> Covers(target, cubes[i].axes.list)) &&
    |cubes| > 0 && s.Some? && s.value == Lengths(target)
  }

  /** The shape np.concatenate gives along dimension 0 to `count` arrays
      broadcast from these shapes. */
  function StackShape(shapes: seq<seq<nat>>, rank: nat, count: nat): (r: Option<seq<nat>>)
    requires 0 < rank && forall i :: 0 <= i < |shapes| ==> |shapes[i]| == rank
    ensures r.Some? <==> CommonShape(shapes, rank, 0).Some?
    ensures r.Some? ==> r.value == CommonShape(shapes, rank, 0).value[0 := count * CommonShape(shapes, rank, 0).value[0]]
  {
    match CommonShape(shapes, rank, 0)
    case None => None
    case Some(s) => Some(s[0 := count * s[0]])
  }

  /** The length of the dimension a cube brings to the main axis: that of
      its axis of the main axis's name, or the unit dimension it is given. */
  function MainLength<T>(c: Cube<T>, name: string): (n: nat)
    ensures NamePosition(c.axes.list, name).None? ==> n == 1
    ensures NamePosition(c.axes.list, name).Some? ==> n == |c.axes.list[NamePosition(c.axes.list, name).value].values|
  {
    match NamePosition(c.axes.list, name)
    case Some(k) => |c.axes.list[k].values|
    case None => 1
  }

  function MainLengths<T>(cubes: seq<Cube<T>>, name: string): (r: seq<nat>)
    ensures |r| == |cubes| && forall i :: 0 <= i < |cubes| ==> r[i] == MainLength(cubes[i], name)
  {
    seq(|cubes|, i requires 0 <= i < |cubes| => MainLength(cubes[i], name))
  }

  /** When no base axis carries the main axis's name, the leading
      dimensions of the laid-out arrays are the cubes' main lengths. */
  lemma LeadingColumn<T>(cubes: seq<Cube<T>>, bases: seq<Axis>, main: Axis)
    requires forall i :: 0 <= i < |cubes| ==> ValidCube(cubes[i])
    requires main.name !in Names(bases)
    ensures Column(Layouts(cubes, bases, [main] + bases), 0) == MainLengths(cubes, main.name)
  {
    var target := [main] + bases;
    assert Names(target)[0] == main.name;
    forall i | 0 <= i < |cubes|
      ensures LaidOut(cubes[i], bases, target)[0] == MainLength(cubes[i], main.name)
    {
      var list := cubes[i].axes.list;
      assert target[0] == main;
      match NamePosition(list, main.name)
      case None =>
      case Some(k) =>
        assert NamePosition(bases, list[k].name) == None;
        assert CubeGather(bases, cubes[i])[k] == Iota(cubes[i].values.shape[k]);
    }
  }

  /** Unique names in the main axis followed by the base axes keep the main
      axis's name out of the base axes. */
  lemma HeadNotInTail(main: Axis, bases: seq<Axis>)
    requires Distinct(Names([main] + bases))
    ensures main.name !in Names(bases)
    ensures Distinct(Names(bases))
  {
    forall j | 0 <= j < |bases| ensures Names(bases)[j] != main.name {
      assert Names([main] + bases)[j + 1] == Names(bases)[j];
      assert Names([main] + bases)[0] == main.name;
    }
    forall p, q | 0 <= p < q < |bases| ensures Names(bases)[p] != Names(bases)[q] {
      assert Names([main] + bases)[p + 1] == Names(bases)[p] && Names([main] + bases)[q + 1] == Names(bases)[q];
    }
  }

  /** Stacked cubes broadcast along the main axis: every cube brings the
      same main length or 1, and the main axis is as long as the number of
      cubes times that length. */
  lemma StackedMain<T>(cubes: seq<Cube<T>>, bases: seq<Axis>, main: Axis)
    requires forall i :: 0 <= i < |cubes| ==> ValidCube(cubes[i])
    requires Stackable(cubes, bases, main)
    ensures main.name !in Names(bases)
    ensures CommonDim(MainLengths(cubes, main.name)).Some?
    ensures |main.values| == |cubes| * CommonDim(MainLengths(cubes, main.name)).value
  {
    var target := [main] + bases;
    HeadNotInTail(main, bases);
    LeadingColumn(cubes, bases, main);
    var s := CommonShape(Layouts(cubes, bases, target), |target|, 0).value;
    assert Lengths(target)[0] == |main.values|;
    assert s[0 := |cubes| * s[0]][0] == |cubes| * s[0];
  }

  /** The broadcast loop: every aligned array brought to the layout of the
      main axis followed by the base axes. */
  method BroadcastAll<T>(cubes: seq<Cube<T>>, aligned: seq<NdArray<T>>, target: seq<Axis>) returns (r: Result<seq<NdArray<T>>>)
    requires forall i :: 0 <= i < |cubes| ==> ValidCube(cubes[i])
    requires |aligned| == |cubes| && forall i :: 0 <= i < |cubes| ==> |aligned[i].shape| == |cubes[i].axes.list|
    requires Distinct(Names(target))
    ensures r.Ok? <==> forall i :: 0 <= i < |cubes| ==> Covers(target, cubes[i].axes.list)
    ensures r.Err? ==> r.error == ValueError
    ensures r.Ok? ==> |r.value| == |cubes| && forall i :: 0 <= i < |cubes| ==>
      BroughtTo(r.value[i], aligned[i], cubes[i].axes.list, target)
  {
    var arrays := aligned;
    for i := 0 to |cubes|
      invariant |arrays| == |cubes|
      invariant forall t :: 0 <= t < i ==> BroughtTo(arrays[t], aligned[t], cubes[t].axes.list, target)
      invariant forall t :: i <= t < |cubes| ==> arrays[t] == aligned[t]
    {
      var b := BroadcastValues(arrays[i], cubes[i].axes, target);
      if b.Err? {
        return Err(ValueError);
      }
      arrays := arrays[i := b.value];
    }
    r := Ok(arrays);
  }

  /** The two loops of `_align_broadcast_and_concatenate` before the
      arrays meet: alignment to the base axes, then `_broadcast_values` to
      the target layout. */
  method AlignAndBroadcast<T>(cubes: seq<Cube<T>>, bases: seq<Axis>, target: seq<Axis>) returns (r: Result<seq<NdArray<T>>>)
    requires forall i :: 0 <= i < |cubes| ==> ValidCube(cubes[i])
    requires Distinct(Names(bases)) && Distinct(Names(target))
    ensures !AllFit(cubes, bases) ==> r == Err(AxisAlignError)
    ensures AllFit(cubes, bases) ==> (r.Ok? <==> forall i :: 0 <= i < |cubes| ==> Covers(target, cubes[i].axes.list))
    ensures AllFit(cubes, bases) && r.Err? ==> r.error == ValueError
    ensures r.Ok? ==> (AllFit(cubes, bases) && Shapes(r.value) == Layouts(cubes, bases, target))
  {
    var aligned := AlignAll(cubes, bases);
    if aligned.Err? {
      return Err(AxisAlignError);
    }
    r := BroadcastAll(cubes, aligned.value, target);
    if r.Ok? {
      forall i | 0 <= i < |cubes| ensures r.value[i].shape == LaidOut(cubes[i], bases, target) {
        assert Same(aligned.value[i], Gather(cubes[i].values, CubeGather(bases, cubes[i])));
        assert BroughtTo(r.value[i], aligned.value[i], cubes[i].axes.list, target);
      }
      assert Shapes(r.value) == Layouts(cubes, bases, target);
    }
  }

  /** `_align_broadcast_and_concatenate(cube_list, axis_list, main_axis)`:
      align every cube to the base axes (AxisAlignError), bring every cube
      to the layout of the main axis followed by the base axes, broadcast
      the arrays to one shape, concatenate them along the main axis and
      build the cube (ValueError at each of the last four steps). The
      ValueError of a repeated name is raised last in the source and first
      here; both give the same outcome. */
  method AlignBroadcastConcatenate<T>(cubes: seq<Cube<T>>, bases: seq<Axis>, main: Axis) returns (r: Result<Cube<T>>)
    requires forall i :: 0 <= i < |cubes| ==> ValidCube(cubes[i])
    requires Distinct(Names(bases)) && Valid(main) && forall j :: 0 <= j < |bases| ==> Valid(bases[j])
    ensures !AllFit(cubes, bases) ==> r == Err(AxisAlignError)
    ensures AllFit(cubes, bases) ==> (r.Ok? <==> Stackable(cubes, bases, main))
    ensures AllFit(cubes, bases) && r.Err? ==> r.error == ValueError
    ensures r.Ok? ==> r.value.axes.list == [main] + bases && ValidCube(r.value)
  {
    var target := [main] + bases;
    var axes := FromList(target);
    if axes.Err? {
      if AllFit(cubes, bases) {
        return Err(ValueError);
      }
      return Err(AxisAlignError);
    }
    var arrays := AlignAndBroadcast(cubes, bases, target);
    if arrays.Err? {
      return Err(arrays.error);
    }
    var values := BroadcastAndStack(arrays.value, |target|);
    if values.Err? {
      return Err(ValueError);
    }
    r := NewCube(values.value, axes.value);
    assert ValidAxes(axes.value);
  }

  /** The last steps of `_align_broadcast_and_concatenate`: broadcast the
      arrays to one shape (ValueError) and concatenate them along the
      first dimension (ValueError when there are none). */
  method BroadcastAndStack<T>(arrays: seq<NdArray<T>>, rank: nat) returns (r: Result<NdArray<T>>)
    requires 0 < rank && forall i :: 0 <= i < |arrays| ==> |arrays[i].shape| == rank
    ensures r.Ok? <==> |arrays| > 0 && StackShape(Shapes(arrays), rank, |arrays|).Some?
    ensures r.Err? ==> r.error == ValueError
    ensures r.Ok? ==> r.value.shape == StackShape(Shapes(arrays), rank, |arrays|).value
  {
    var out := BroadcastArrays(arrays, rank);
    if out.Err? {
      return Err(ValueError);
    }
    r := Concatenate(out.value, 0);
  }

  // ---------------------------------------------------------------------
  // concatenate and join.

  /** The axes of `list` whose name is not n, in order: the comprehension
      that drops the main axis from the union. */
  function Without(list: seq<Axis>, n: string): (r: seq<Axis>)
    ensures forall a :: a in r <==> a in list && a.name != n
    ensures forall p :: 0 <= p < |r| ==> r[p].name != n
    decreases |list|
  {
    if list == [] then []
    else
      var pre := Without(list[..|list| - 1], n);
      var last := list[|list| - 1];
      assert forall a :: a in list <==> a in list[..|list| - 1] || a == last;
      if last.name == n then pre else pre + [last]
  }

  /** Dropping a name keeps the other names unique and in place. */
  lemma {:induction false} WithoutNames(list: seq<Axis>, n: string)
    ensures Distinct(Names(list)) ==> Distinct(Names(Without(list, n)))
    ensures forall m :: m in Names(list) && m != n ==> m in Names(Without(list, n))
    ensures forall m :: m in Names(Without(list, n)) ==> m in Names(list) && m != n
    decreases |list|
  {
    if list != [] {
      var pre := list[..|list| - 1];
      var last := list[|list| - 1];
      WithoutNames(pre, n);
      assert list == pre + [last];
      NamesSnoc(pre, last);
      var w := Without(pre, n);
      NamesSnoc(w, last);
      if Distinct(Names(list)) {
        DistinctPrefix(Names(list), |pre|);
        assert Names(list)[..|pre|] == Names(pre);
        forall t | 0 <= t < |w| ensures Names(w)[t] != last.name {
          assert w[t] in pre;
          var u :| 0 <= u < |pre| && pre[u] == w[t];
          assert Names(list)[u] == w[t].name && Names(list)[|pre|] == last.name;
        }
      }
      forall m | m in Names(w) ensures m in Names(pre) && m != n {
      }
      forall m | m in Names(list) && m != n ensures m in Names(Without(list, n)) {
        if m != last.name {
          assert m in Names(pre);
        }
      }
    }
  }

  function Sum(xs: seq<nat>): nat
    decreases |xs|
  {
    if xs == [] then 0 else Sum(xs[..|xs| - 1]) + xs[|xs| - 1]
  }

  /** The error `concatenate` reports for a failed lookup of the main axis:
      KeyError becomes ValueError, anything else passes through. */
  function Reported(e: Error): Error {
    if e == KeyError then ValueError else e
  }

  /** The concatenated values of every cube's main axis, or the error of
      the first cube whose lookup fails. */
  function MainValues<T>(cubes: seq<Cube<T>>, name: Arg): (r: Result<seq<Value>>)
    ensures r.Ok? <==> forall i :: 0 <= i < |cubes| ==> Get(cubes[i].axes, name).Ok?
    decreases |cubes|
  {
    if cubes == [] then Ok([])
    else
      var pre := cubes[..|cubes| - 1];
      var last := cubes[|cubes| - 1];
      assert forall i :: 0 <= i < |pre| ==> pre[i] == cubes[i];
      match MainValues(pre, name)
      case Err(e) => Err(e)
      case Ok(vs) =>
        match Get(last.axes, name)
        case Err(e) => Err(Reported(e))
        case Ok(ax) => Ok(vs + ax.values)
  }

  /** The concatenated labels are as many as the cubes' main lengths add
      up to. */
  lemma {:induction false} MainValuesLength<T>(cubes: seq<Cube<T>>, name: string)
    requires MainValues(cubes, StrArg(name)).Ok?
    ensures |MainValues(cubes, StrArg(name)).value| == Sum(MainLengths(cubes, name))
    decreases |cubes|
  {
    if cubes != [] {
      var pre := cubes[..|cubes| - 1];
      assert forall i :: 0 <= i < |pre| ==> pre[i] == cubes[i];
      MainValuesLength(pre, name);
      MainLengthsSnoc(cubes, StrArg(name));
    }
  }

  /** The main lengths grow by the length of the last cube's main axis. */
  lemma MainLengthsSnoc<T>(cubes: seq<Cube<T>>, name: Arg)
    requires cubes != [] && Get(cubes[|cubes| - 1].axes, name).Ok?
    ensures name.StrArg? ==> (MainLengths(cubes, name.s) ==
      MainLengths(cubes[..|cubes| - 1], name.s) + [|Get(cubes[|cubes| - 1].axes, name).value.values|])
  {
    if name.StrArg? {
      var last := cubes[|cubes| - 1];
      FoundLength(last, name.s);
    }
  }

  /** A lookup by name that succeeds finds the axis MainLength measures. */
  lemma FoundLength<T>(c: Cube<T>, name: string)
    requires Get(c.axes, StrArg(name)).Ok?
    ensures |Get(c.axes, StrArg(name)).value.values| == MainLength(c, name)
  {
  }

  /** Cube i is the first whose lookup of the main axis fails, and e is the
      error reported for it. */
  predicate FailsFirstAt<T>(cubes: seq<Cube<T>>, name: Arg, i: nat, e: Error) {
    i < |cubes| && Get(cubes[i].axes, name).Err? && e == Reported(Get(cubes[i].axes, name).error) &&
    forall t :: 0 <= t < i ==> Get(cubes[t].axes, name).Ok?
  }

  /** A failed lookup reports the error of the first cube that lacks the
      main axis. */
  lemma {:induction false} MainValuesFirstError<T>(cubes: seq<Cube<T>>, name: Arg)
    requires MainValues(cubes, name).Err?
    ensures exists i :: FailsFirstAt(cubes, name, i, MainValues(cubes, name).error)
    decreases |cubes|
  {
    var pre := cubes[..|cubes| - 1];
    assert forall i :: 0 <= i < |pre| ==> pre[i] == cubes[i];
    if MainValues(pre, name).Err? {
      assert MainValues(cubes, name) == MainValues(pre, name);
      MainValuesFirstError(pre, name);
      var i :| FailsFirstAt(pre, name, i, MainValues(pre, name).error);
      assert FailsFirstAt(cubes, name, i, MainValues(cubes, name).error);
    } else {
      assert FailsFirstAt(cubes, name, |pre|, MainValues(cubes, name).error);
    }
  }

  /** The main axis `concatenate` builds: an Index, or the generic axis.
      np.concatenate gives the collected values one dtype, so integers
      next to strings become strings. */
  function MainAxis(name: Arg, id: nat, values: seq<Value>, asIndex: bool): (r: Result<Axis>)
    ensures r.Ok? <==> name.StrArg? && (asIndex ==> Distinct(Coerce(values)))
    ensures !name.StrArg? ==> r == Err(TypeError)
    ensures name.StrArg? && r.Err? ==> r.error == ValueError
    ensures r.Ok? ==> (Valid(r.value) && r.value == Axis(id, name.s, Coerce(values), r.value.kind) &&
      (r.value.kind.IndexKind? <==> asIndex))
  {
    NewAxis(if asIndex then IndexClass else SeriesClass, id, name, VectorArg(values))
  }

  /** The base axes of `concatenate`: the union of the cubes' axes without
      the main axis. */
  function ConcatBases<T>(cubes: seq<Cube<T>>, name: string): seq<Axis> {
    Without(UniqueOf(Flatten(cubes)), name)
  }

  /** The first loop of `concatenate`: look the main axis up in every
      cube and collect its values. */
  method CollectMainValues<T>(cubes: seq<Cube<T>>, name: Arg) returns (r: Result<seq<Value>>)
    ensures r == MainValues(cubes, name)
  {
    var values: seq<Value> := [];
    for i := 0 to |cubes|
      invariant MainValues(cubes[..i], name) == Ok(values)
    {
      assert cubes[..i + 1][..i] == cubes[..i];
      var ax := AxisCollection.GetItem(cubes[i].axes, name);
      if ax.Err? {
        assert MainValues(cubes[..i + 1], name).Err?;
        MainValuesPrefixError(cubes, name, i + 1);
        return Err(Reported(ax.error));
      }
      values := values + ax.value.values;
    }
    assert cubes[..|cubes|] == cubes;
    r := Ok(values);
  }

  /** The base axes of `concatenate` have unique names, none of them the
      main axis's, and are well formed. */
  lemma ConcatBasesFacts<T>(cubes: seq<Cube<T>>, name: string)
    requires forall i :: 0 <= i < |cubes| ==> ValidCube(cubes[i])
    ensures Distinct(Names(ConcatBases(cubes, name)))
    ensures forall j :: 0 <= j < |ConcatBases(cubes, name)| ==> Valid(ConcatBases(cubes, name)[j])
  {
    var unique := UniqueOf(Flatten(cubes));
    UniqueOfIsUnion(Flatten(cubes));
    WithoutNames(unique, name);
    UniqueValid(cubes);
    forall j | 0 <= j < |ConcatBases(cubes, name)| ensures Valid(ConcatBases(cubes, name)[j]) {
      var a := ConcatBases(cubes, name)[j];
      assert a in unique;
    }
  }

  /** `concatenate(cubes, axis_name, as_index)`: every cube must have the
      axis (ValueError for a missing name, other lookup errors pass
      through); the values of those axes, concatenated, make the main axis,
      unique if it is an Index (ValueError); the union of the cubes' other
      axes make the base axes. */
  method ConcatenateCubes<T>(cubes: seq<Cube<T>>, name: Arg, asIndex: bool, id: nat) returns (r: Result<Cube<T>>)
    requires forall i :: 0 <= i < |cubes| ==> ValidCube(cubes[i])
    ensures MainValues(cubes, name).Err? ==> r == Err(MainValues(cubes, name).error)
    ensures MainValues(cubes, name).Ok? && |cubes| == 0 ==> r == Err(ValueError)
    ensures MainValues(cubes, name).Ok? && |cubes| > 0 && MainAxis(name, id, MainValues(cubes, name).value, asIndex).Err? ==>
      r == Err(MainAxis(name, id, MainValues(cubes, name).value, asIndex).error)
    ensures MainValues(cubes, name).Ok? && |cubes| > 0 && MainAxis(name, id, MainValues(cubes, name).value, asIndex).Ok? ==>
      var main := MainAxis(name, id, MainValues(cubes, name).value, asIndex).value;
      var bases := ConcatBases(cubes, name.s);
      (!AllFit(cubes, bases) ==> r == Err(AxisAlignError)) &&
      (AllFit(cubes, bases) ==> (r.Ok? <==> Stackable(cubes, bases, main))) &&
      (AllFit(cubes, bases) && r.Err? ==> r.error == ValueError) &&
      (r.Ok? ==> r.value.axes.list == [main] + bases && ValidCube(r.value))
  {
    var values := CollectMainValues(cubes, name);
    if values.Err? {
      return Err(values.error);
    }
    if |cubes| == 0 {
      return Err(ValueError);
    }
    var main := MainAxis(name, id, values.value, asIndex);
    if main.Err? {
      return Err(main.error);
    }
    var unique := UniqueAxes(cubes);
    var bases := Without(unique, name.s);
    ConcatBasesFacts(cubes, name.s);
    r := AlignBroadcastConcatenate(cubes, bases, main.value);
  }

  /** Once a lookup fails, the first failure decides the result. */
  lemma {:induction false} MainValuesPrefixError<T>(cubes: seq<Cube<T>>, name: Arg, n: nat)
    requires n <= |cubes| && MainValues(cubes[..n], name).Err?
    ensures MainValues(cubes, name) == MainValues(cubes[..n], name)
    decreases |cubes| - n
  {
    if n < |cubes| {
      var pre := cubes[..|cubes| - 1];
      assert pre[..n] == cubes[..n];
      MainValuesPrefixError(pre, name, n);
    } else {
      assert cubes[..n] == cubes;
    }
  }

  /** The union of well-formed cubes' axes holds well-formed axes. */
  lemma UniqueValid<T>(cubes: seq<Cube<T>>)
    requires forall i :: 0 <= i < |cubes| ==> ValidCube(cubes[i])
    ensures forall p :: 0 <= p < |UniqueOf(Flatten(cubes))| ==> Valid(UniqueOf(Flatten(cubes))[p])
  {
    var all := Flatten(cubes);
    var r := UniqueOf(all);
    UniqueOfIsUnion(all);
    FlattenMembers(cubes);
    forall p | 0 <= p < |r| ensures Valid(r[p]) {
      PreferredSeen(all, r[p].name);
      var i :| 0 <= i < |cubes| && r[p] in cubes[i].axes.list;
      var k :| 0 <= k < |cubes[i].axes.list| && cubes[i].axes.list[k] == r[p];
      assert Valid(cubes[i].axes.list[k]);
    }
  }

  /** `join(cubes, axis)`: no cube may have an axis of the new axis's
      name, and there must be as many cubes as labels (ValueError); the
      union of the cubes' axes makes the base axes. */
  method Join<T>(cubes: seq<Cube<T>>, axis: Axis) returns (r: Result<Cube<T>>)
    requires forall i :: 0 <= i < |cubes| ==> ValidCube(cubes[i])
    requires Valid(axis)
    ensures (exists i :: 0 <= i < |cubes| && axis.name in Names(cubes[i].axes.list)) ==> r == Err(ValueError)
    ensures |cubes| != |axis.values| ==> r == Err(ValueError)
    ensures (forall i :: 0 <= i < |cubes| ==> axis.name !in Names(cubes[i].axes.list)) && |cubes| == |axis.values| ==>
      var bases := UniqueOf(Flatten(cubes));
      (!AllFit(cubes, bases) ==> r == Err(AxisAlignError)) &&
      (AllFit(cubes, bases) ==> (r.Ok? <==> Stackable(cubes, bases, axis))) &&
      (AllFit(cubes, bases) && r.Err? ==> r.error == ValueError) &&
      (r.Ok? ==> r.value.axes.list == [axis] + bases && ValidCube(r.value))
  {
    for i := 0 to |cubes|
      invariant forall t :: 0 <= t < i ==> axis.name !in Names(cubes[t].axes.list)
    {
      var found := AxisCollection.Contains(cubes[i].axes, StrArg(axis.name));
      if found.value {
        return Err(ValueError);
      }
    }
    if |cubes| != |axis.values| {
      return Err(ValueError);
    }
    var bases := UniqueAxes(cubes);
    UniqueOfIsUnion(Flatten(cubes));
    UniqueValid(cubes);
    r := AlignBroadcastConcatenate(cubes, bases, axis);
  }

  // ---------------------------------------------------------------------
  // When stacking succeeds.

  lemma {:induction false} SumAtLeast(ds: seq<nat>, k: nat)
    requires k < |ds|
    ensures Sum(ds) >= ds[k]
    decreases |ds|
  {
    if k < |ds| - 1 {
      SumAtLeast(ds[..|ds| - 1], k);
    }
  }

  lemma {:induction false} SumBelow(ds: seq<nat>, c: nat, k: nat)
    requires forall i :: 0 <= i < |ds| ==> ds[i] <= c
    requires k < |ds|
    ensures Sum(ds) + (c - ds[k]) <= |ds| * c
    decreases |ds|
  {
    var pre := ds[..|ds| - 1];
    if k < |ds| - 1 {
      SumBelow(pre, c, k);
    } else if pre != [] {
      SumBelow(pre, c, 0);
    }
  }

  lemma {:induction false} SumOfConstant(ds: seq<nat>, c: nat)
    requires forall i :: 0 <= i < |ds| ==> ds[i] == c
    ensures Sum(ds) == |ds| * c
    decreases |ds|
  {
    if ds != [] {
      SumOfConstant(ds[..|ds| - 1], c);
    }
  }

  /** Lengths that are each c or 1 and add up to c per entry are all c. */
  lemma FullSumIsConstant(ds: seq<nat>, c: nat)
    requires forall i :: 0 <= i < |ds| ==> ds[i] == c || ds[i] == 1
    requires Sum(ds) == |ds| * c
    ensures forall i :: 0 <= i < |ds| ==> ds[i] == c
  {
    forall k | 0 <= k < |ds| ensures ds[k] == c {
      if c == 0 {
        SumAtLeast(ds, k);
      } else {
        SumBelow(ds, c, k);
      }
    }
  }

  /** `concatenate` succeeds only when every cube has the same length
      along the main axis: np.broadcast_arrays would stretch a length of 1,
      but the concatenated main axis is then too short for the cube. */
  lemma ConcatenatedLengthsAgree<T>(cubes: seq<Cube<T>>, bases: seq<Axis>, main: Axis)
    requires forall i :: 0 <= i < |cubes| ==> ValidCube(cubes[i])
    requires Stackable(cubes, bases, main)
    requires |main.values| == Sum(MainLengths(cubes, main.name))
    ensures forall i, j :: 0 <= i < |cubes| && 0 <= j < |cubes| ==>
      MainLength(cubes[i], main.name) == MainLength(cubes[j], main.name)
  {
    StackedMain(cubes, bases, main);
    var ds := MainLengths(cubes, main.name);
    FullSumIsConstant(ds, CommonDim(ds).value);
  }

  /** Dimensions that are each x or 1, with at least one of them x,
      broadcast to x. */
  lemma CommonDimIs(ds: seq<nat>, x: nat, w: nat)
    requires forall i :: 0 <= i < |ds| ==> ds[i] == x || ds[i] == 1
    requires w < |ds| && ds[w] == x
    ensures CommonDim(ds) == Some(x)
  {
  }

  /** Axes of the cubes that share an id are one and the same axis: the
      identity the alignment loops test with `is`. */
  predicate IdsIdentify<T>(cubes: seq<Cube<T>>) {
    forall i, j, p, q ::
      0 <= i < |cubes| && 0 <= j < |cubes| && 0 <= p < |cubes[i].axes.list| && 0 <= q < |cubes[j].axes.list| &&
      cubes[i].axes.list[p].id == cubes[j].axes.list[q].id ==>
      cubes[i].axes.list[p] == cubes[j].axes.list[q]
  }

  /** Every base axis is an axis of one of the cubes. */
  predicate FromCubes<T>(cubes: seq<Cube<T>>, bases: seq<Axis>) {
    forall j :: 0 <= j < |bases| ==> exists i :: 0 <= i < |cubes| && bases[j] in cubes[i].axes.list
  }

  /** Along a base axis, a cube that has the base's name is laid out with
      the base's length, and a cube without it with length 1. */
  lemma LaidOutBase<T>(c: Cube<T>, bases: seq<Axis>, main: Axis, j: nat)
    requires ValidCube(c) && Distinct(Names(bases)) && j < |bases|
    requires BaseStep(bases[j], c.axes).Ok?
    requires forall k :: 0 <= k < |c.axes.list| && c.axes.list[k].id == bases[j].id ==> c.axes.list[k] == bases[j]
    ensures LaidOut(c, bases, [main] + bases)[j + 1] ==
      if NamePosition(c.axes.list, bases[j].name).Some? then |bases[j].values| else 1
  {
    var list := c.axes.list;
    var target := [main] + bases;
    assert target[j + 1] == bases[j];
    match NamePosition(list, bases[j].name)
    case None =>
    case Some(k) =>
      NamePositionOwn(bases, j);
      assert GatherShape(CubeGather(bases, c))[k] == |GatherAt(bases, c, k)|;
  }

  /** One cube's layout along a base axis that is axis k of cube i: the
      base's length, or 1 when the cube lacks the name; cube i itself has
      it. */
  lemma BaseEntry<T>(cubes: seq<Cube<T>>, bases: seq<Axis>, main: Axis, j: nat, i: nat, k: nat, t: nat)
    requires forall i :: 0 <= i < |cubes| ==> ValidCube(cubes[i])
    requires Distinct(Names(bases)) && j < |bases| && i < |cubes| && t < |cubes|
    requires k < |cubes[i].axes.list| && cubes[i].axes.list[k] == bases[j]
    requires AllFit(cubes, bases) && IdsIdentify(cubes)
    ensures LaidOut(cubes[t], bases, [main] + bases)[j + 1] in {|bases[j].values|, 1}
    ensures t == i ==> LaidOut(cubes[t], bases, [main] + bases)[j + 1] == |bases[j].values|
  {
    forall q | 0 <= q < |cubes[t].axes.list| && cubes[t].axes.list[q].id == bases[j].id
      ensures cubes[t].axes.list[q] == bases[j]
    {
    }
    assert BaseStep(bases[j], cubes[t].axes).Ok?;
    LaidOutBase(cubes[t], bases, main, j);
    if t == i {
      assert Names(cubes[i].axes.list)[k] == bases[j].name;
    }
  }

  /** Along a base axis, the layouts broadcast to the base's length. */
  lemma BaseColumn<T>(cubes: seq<Cube<T>>, bases: seq<Axis>, main: Axis, j: nat)
    requires forall i :: 0 <= i < |cubes| ==> ValidCube(cubes[i])
    requires Distinct(Names(bases)) && j < |bases|
    requires AllFit(cubes, bases)
    requires IdsIdentify(cubes) && FromCubes(cubes, bases)
    ensures CommonDim(Column(Layouts(cubes, bases, [main] + bases), j + 1)) == Some(|bases[j].values|)
  {
    var col := Column(Layouts(cubes, bases, [main] + bases), j + 1);
    var i :| 0 <= i < |cubes| && bases[j] in cubes[i].axes.list;
    var k :| 0 <= k < |cubes[i].axes.list| && cubes[i].axes.list[k] == bases[j];
    forall t | 0 <= t < |cubes| ensures col[t] == |bases[j].values| || col[t] == 1 {
      BaseEntry(cubes, bases, main, j, i, k, t);
    }
    BaseEntry(cubes, bases, main, j, i, k, i);
    CommonDimIs(col, |bases[j].values|, i);
  }

  /** Shapes whose every column broadcasts to lens[d] stack, count per
      entry along the first dimension, into lens with its first entry
      multiplied by count. */
  lemma StackShapeIs(L: seq<seq<nat>>, lens: seq<nat>, count: nat)
    requires |lens| > 0 && forall i :: 0 <= i < |L| ==> |L[i]| == |lens|
    requires forall d :: 0 <= d < |lens| ==> CommonDim(Column(L, d)) == Some(lens[d])
    ensures StackShape(L, |lens|, count) == Some(lens[0 := count * lens[0]])
  {
    var s := CommonShape(L, |lens|, 0);
    assert s.Some?;
    assert s.value == lens;
  }

  /** Layouts whose columns broadcast to the target's lengths, with the
      main column c per cube, stack into the target. */
  lemma StackableFromColumns<T>(cubes: seq<Cube<T>>, bases: seq<Axis>, main: Axis, c: nat)
    requires forall i :: 0 <= i < |cubes| ==> ValidCube(cubes[i])
    requires Distinct(Names([main] + bases)) && |cubes| > 0
    requires forall i :: 0 <= i < |cubes| ==> Covers([main] + bases, cubes[i].axes.list)
    requires CommonDim(Column(Layouts(cubes, bases, [main] + bases), 0)) == Some(c)
    requires |main.values| == |cubes| * c
    requires forall j :: 0 <= j < |bases| ==>
      CommonDim(Column(Layouts(cubes, bases, [main] + bases), j + 1)) == Some(|bases[j].values|)
    ensures Stackable(cubes, bases, main)
  {
    var target := [main] + bases;
    ShiftedColumns(Layouts(cubes, bases, target), main, bases);
    ColumnsStack(Layouts(cubes, bases, target), Lengths(target), c, |cubes|);
  }

  /** Column j + 1 of shapes laid out to the main axis and the bases
      belongs to base j. */
  lemma ShiftedColumns(L: seq<seq<nat>>, main: Axis, bases: seq<Axis>)
    requires forall i :: 0 <= i < |L| ==> |L[i]| == 1 + |bases|
    requires forall j :: 0 <= j < |bases| ==> CommonDim(Column(L, j + 1)) == Some(|bases[j].values|)
    ensures forall d :: 1 <= d < |[main] + bases| ==> CommonDim(Column(L, d)) == Some(Lengths([main] + bases)[d])
  {
    var target := [main] + bases;
    forall d | 1 <= d < |target| ensures CommonDim(Column(L, d)) == Some(Lengths(target)[d]) {
      assert target[d] == bases[d - 1];
    }
  }

  /** Shapes whose first column broadcasts to c and whose other columns
      broadcast to the lengths lens stack, count per entry, into lens when
      lens starts with count times c. */
  lemma ColumnsStack(L: seq<seq<nat>>, lens: seq<nat>, c: nat, count: nat)
    requires |lens| > 0 && forall i :: 0 <= i < |L| ==> |L[i]| == |lens|
    requires CommonDim(Column(L, 0)) == Some(c) && lens[0] == count * c
    requires forall d :: 1 <= d < |lens| ==> CommonDim(Column(L, d)) == Some(lens[d])
    ensures StackShape(L, |lens|, count) == Some(lens)
  {
    var lens' := lens[0 := c];
    StackShapeIs(L, lens', count);
    assert lens'[0 := count * c] == lens;
  }

  /** The layouts broadcast and stack into the cube of the main axis and
      the base axes when the names are unique, the target covers every
      cube, every base axis comes from one of the cubes and every alignment
      succeeds, provided ids identify axes and every cube brings the same
      length c along the main axis, with c labels per cube on the main
      axis. */
  lemma StackableWhen<T>(cubes: seq<Cube<T>>, bases: seq<Axis>, main: Axis, c: nat)
    requires forall i :: 0 <= i < |cubes| ==> ValidCube(cubes[i])
    requires Distinct(Names([main] + bases)) && |cubes| > 0
    requires forall i :: 0 <= i < |cubes| ==> Covers([main] + bases, cubes[i].axes.list)
    requires AllFit(cubes, bases)
    requires IdsIdentify(cubes) && FromCubes(cubes, bases)
    requires forall i :: 0 <= i < |cubes| ==> MainLength(cubes[i], main.name) == c
    requires |main.values| == |cubes| * c
    ensures Stackable(cubes, bases, main)
  {
    HeadNotInTail(main, bases);
    LeadingColumn(cubes, bases, main);
    CommonDimIs(MainLengths(cubes, main.name), c, 0);
    forall j | 0 <= j < |bases|
      ensures CommonDim(Column(Layouts(cubes, bases, [main] + bases), j + 1)) == Some(|bases[j].values|)
    {
      BaseColumn(cubes, bases, main, j);
    }
    StackableFromColumns(cubes, bases, main, c);
  }

  /** What the union of the cubes' axes offers as base axes: unique names,
      every name of every cube, and only axes of the cubes. */
  lemma UnionFacts<T>(cubes: seq<Cube<T>>)
    ensures Distinct(Names(UniqueOf(Flatten(cubes))))
    ensures FromCubes(cubes, UniqueOf(Flatten(cubes)))
    ensures forall i, k :: 0 <= i < |cubes| && 0 <= k < |cubes[i].axes.list| ==>
      cubes[i].axes.list[k].name in Names(UniqueOf(Flatten(cubes)))
  {
    var all := Flatten(cubes);
    var b := UniqueOf(all);
    UniqueOfIsUnion(all);
    FlattenMembers(cubes);
    forall j | 0 <= j < |b| ensures exists i :: 0 <= i < |cubes| && b[j] in cubes[i].axes.list {
      PreferredSeen(all, b[j].name);
    }
    forall i, k | 0 <= i < |cubes| && 0 <= k < |cubes[i].axes.list|
      ensures cubes[i].axes.list[k].name in Names(b)
    {
      var p :| 0 <= p < |all| && all[p] == cubes[i].axes.list[k];
      assert all[p].name in Names(b);
    }
  }

  /** A name that no base axis has can lead the target. */
  lemma DistinctLead(main: Axis, bases: seq<Axis>)
    requires Distinct(Names(bases)) && main.name !in Names(bases)
    ensures Distinct(Names([main] + bases))
  {
    var names := Names([main] + bases);
    forall p, q | 0 <= p < q < |names| ensures names[p] != names[q] {
      assert names[q] == Names(bases)[q - 1];
      if p > 0 {
        assert names[p] == Names(bases)[p - 1];
      }
    }
  }

  /** A new axis whose name no cube has leads the union of the cubes'
      axes: the names stay unique, the target covers every cube, and every
      cube has length 1 along the new axis. */
  lemma {:induction false} JoinTarget<T>(cubes: seq<Cube<T>>, bases: seq<Axis>, axis: Axis)
    requires Distinct(Names(bases)) && FromCubes(cubes, bases)
    requires forall i, k :: 0 <= i < |cubes| && 0 <= k < |cubes[i].axes.list| ==>
      cubes[i].axes.list[k].name in Names(bases)
    requires forall i :: 0 <= i < |cubes| ==> axis.name !in Names(cubes[i].axes.list)
    ensures Distinct(Names([axis] + bases))
    ensures forall i :: 0 <= i < |cubes| ==> Covers([axis] + bases, cubes[i].axes.list)
    ensures forall i :: 0 <= i < |cubes| ==> MainLength(cubes[i], axis.name) == 1
  {
    forall p | 0 <= p < |bases| ensures Names(bases)[p] != axis.name {
      var i :| 0 <= i < |cubes| && bases[p] in cubes[i].axes.list;
      var k :| 0 <= k < |cubes[i].axes.list| && cubes[i].axes.list[k] == bases[p];
      assert Names(cubes[i].axes.list)[k] == bases[p].name;
    }
    DistinctLead(axis, bases);
    forall i | 0 <= i < |cubes| ensures Covers([axis] + bases, cubes[i].axes.list) {
      forall k | 0 <= k < |cubes[i].axes.list| ensures cubes[i].axes.list[k].name in Names([axis] + bases) {
        var n := cubes[i].axes.list[k].name;
        var p :| 0 <= p < |bases| && Names(bases)[p] == n;
        assert Names([axis] + bases)[p + 1] == n;
      }
    }
    forall i | 0 <= i < |cubes| ensures MainLength(cubes[i], axis.name) == 1 {
      var list := cubes[i].axes.list;
      assert forall k :: 0 <= k < |list| ==> list[k].name == Names(list)[k];
    }
  }

  /** `join` succeeds when no cube has the new axis's name, there is one
      label per cube, every cube aligns to the union of their axes and ids
      identify axes: the result has the cubes stacked along the new axis. */
  lemma {:induction false} JoinSucceeds<T>(cubes: seq<Cube<T>>, axis: Axis)
    requires forall i :: 0 <= i < |cubes| ==> ValidCube(cubes[i])
    requires forall i :: 0 <= i < |cubes| ==> axis.name !in Names(cubes[i].axes.list)
    requires |cubes| == |axis.values| > 0
    requires AllFit(cubes, UniqueOf(Flatten(cubes))) && IdsIdentify(cubes)
    ensures Stackable(cubes, UniqueOf(Flatten(cubes)), axis)
  {
    UnionFacts(cubes);
    JoinTarget(cubes, UniqueOf(Flatten(cubes)), axis);
    StackableWhen(cubes, UniqueOf(Flatten(cubes)), axis, 1);
  }

  /** The main axis leads the union of the cubes' axes without its name:
      the names stay unique, the target covers every cube, and the base
      axes still come from the cubes. */
  lemma {:induction false} ConcatTarget<T>(cubes: seq<Cube<T>>, unique: seq<Axis>, main: Axis)
    requires Distinct(Names(unique)) && FromCubes(cubes, unique)
    requires forall i, k :: 0 <= i < |cubes| && 0 <= k < |cubes[i].axes.list| ==>
      cubes[i].axes.list[k].name in Names(unique)
    ensures Distinct(Names([main] + Without(unique, main.name)))
    ensures forall i :: 0 <= i < |cubes| ==> Covers([main] + Without(unique, main.name), cubes[i].axes.list)
    ensures FromCubes(cubes, Without(unique, main.name))
  {
    var bases := Without(unique, main.name);
    var target := [main] + bases;
    WithoutNames(unique, main.name);
    DistinctLead(main, bases);
    forall i | 0 <= i < |cubes| ensures Covers(target, cubes[i].axes.list) {
      forall k | 0 <= k < |cubes[i].axes.list| ensures cubes[i].axes.list[k].name in Names(target) {
        LeadOrBase(main, unique, cubes[i].axes.list[k].name);
      }
    }
    forall j | 0 <= j < |bases| ensures exists i :: 0 <= i < |cubes| && bases[j] in cubes[i].axes.list {
      assert bases[j] in unique;
    }
  }

  /** A name of the union is the main axis's or one of the bases'. */
  lemma LeadOrBase(main: Axis, unique: seq<Axis>, n: string)
    requires n in Names(unique)
    ensures n in Names([main] + Without(unique, main.name))
  {
    var bases := Without(unique, main.name);
    var target := [main] + bases;
    WithoutNames(unique, main.name);
    if n == main.name {
      assert Names(target)[0] == n;
    } else {
      var p :| 0 <= p < |bases| && Names(bases)[p] == n;
      assert Names(target)[p + 1] == n;
    }
  }

  /** The base axes of `concatenate` under the main axis form a target
      with unique names that covers every cube, made of the cubes' axes. */
  lemma {:induction false} ConcatBasesTarget<T>(cubes: seq<Cube<T>>, main: Axis)
    ensures Distinct(Names([main] + ConcatBases(cubes, main.name)))
    ensures forall i :: 0 <= i < |cubes| ==> Covers([main] + ConcatBases(cubes, main.name), cubes[i].axes.list)
    ensures FromCubes(cubes, ConcatBases(cubes, main.name))
  {
    UnionFacts(cubes);
    ConcatTarget(cubes, UniqueOf(Flatten(cubes)), main);
  }

  /** Equal main lengths c make the concatenated labels c per cube. */
  lemma {:induction false} ConcatMainLength<T>(cubes: seq<Cube<T>>, name: string, c: nat)
    requires forall i :: 0 <= i < |cubes| ==> MainLength(cubes[i], name) == c
    requires MainValues(cubes, StrArg(name)).Ok?
    ensures |MainValues(cubes, StrArg(name)).value| == |cubes| * c
  {
    MainValuesLength(cubes, name);
    SumOfConstant(MainLengths(cubes, name), c);
  }

  /** `concatenate` succeeds when every cube has the same length c along
      the main axis, the main axis has one label per collected label (as
      the promoted labels MainAxis builds do), every cube aligns to the
      union of the other axes and ids identify axes. */
  lemma {:induction false} ConcatSucceeds<T>(cubes: seq<Cube<T>>, main: Axis, c: nat)
    requires forall i :: 0 <= i < |cubes| ==> ValidCube(cubes[i])
    requires |cubes| > 0 && forall i :: 0 <= i < |cubes| ==> MainLength(cubes[i], main.name) == c
    requires MainValues(cubes, StrArg(main.name)).Ok?
    requires |main.values| == |MainValues(cubes, StrArg(main.name)).value|
    requires AllFit(cubes, ConcatBases(cubes, main.name)) && IdsIdentify(cubes)
    ensures Stackable(cubes, ConcatBases(cubes, main.name), main)
  {
    ConcatBasesTarget(cubes, main);
    ConcatMainLength(cubes, main.name, c);
    StackableWhen(cubes, ConcatBases(cubes, main.name), main, c);
  }
}
