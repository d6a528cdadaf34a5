/** Matching the axes of two cubes by name before an elementwise operation
    (`apply2`), and the three helpers that decide how one axis is aligned
    to another: gathering an Index by the labels of the other axis, or
    checking that two Series carry the same labels in the same order. */
module Alignment {
  import opened Errors
  import opened Labels
  import opened Arrays
  import opened AxisTypes
  import opened AxisCollection
  import opened Cubes
  import opened Broadcasting

  /** Reading `from` at the positions `ps` gives the labels of `to`. */
  predicate Realigns(ps: seq<nat>, from: Axis, to: Axis) {
    |ps| == |to.values| &&
    forall t :: 0 <= t < |ps| ==> ps[t] < |from.values| && from.values[ps[t]] == to.values[t]
  }

  /** Every label of `vs` occurs in `ax`. */
  predicate AllIn(vs: seq<Value>, ax: Axis) {
    forall t :: 0 <= t < |vs| ==> vs[t] in ax.values
  }

  /** `_align_index_to_index(axis_from, axis_to)`: the positions in
      `axis_from` of the labels of `axis_to`; AxisAlignError when the
      lengths differ or a label is missing. */
  function AlignIndexToIndex(from: Axis, to: Axis): (r: Result<seq<nat>>)
    requires Valid(from) && from.kind.IndexKind?
    ensures r.Ok? <==> |from.values| == |to.values| && AllIn(to.values, from)
    ensures r.Err? ==> r.error == AxisAlignError
    ensures r.Ok? ==> Realigns(r.value, from, to)
  {
    if |from.values| != |to.values| then Err(AxisAlignError)
    else
      match IndexOfAll(from, to.values)
      case Ok(ps) => Ok(ps)
      case Err(_) => Err(AxisAlignError)
  }

  /** `_align_index_to_series(axis_from, axis_to)`: the positions in
      `axis_from` of the labels of `axis_to`, in any number; AxisAlignError
      when a label is missing. */
  function AlignIndexToSeries(from: Axis, to: Axis): (r: Result<seq<nat>>)
    requires Valid(from) && from.kind.IndexKind?
    ensures r.Ok? <==> AllIn(to.values, from)
    ensures r.Err? ==> r.error == AxisAlignError
    ensures r.Ok? ==> Realigns(r.value, from, to)
  {
    match IndexOfAll(from, to.values)
    case Ok(ps) => Ok(ps)
    case Err(_) => Err(AxisAlignError)
  }

  /** `_assert_align_series(axis_from, axis_to)`: the labels must be equal
      in the same order; nothing is gathered. */
  function AssertAlignSeries(from: Axis, to: Axis): (r: Result<()>)
    ensures r.Ok? <==> from.values == to.values
    ensures r.Err? ==> r.error == AxisAlignError
  {
    if from.values == to.values then Ok(()) else Err(AxisAlignError)
  }

  /** Two Index axes align only by a reordering: the gather is a
      permutation of the source axis. */
  lemma IndexAlignmentIsPermutation(from: Axis, to: Axis)
    requires Valid(from) && from.kind.IndexKind? && Valid(to) && to.kind.IndexKind?
    requires AlignIndexToIndex(from, to).Ok?
    ensures IsPermutation(AlignIndexToIndex(from, to).value, |from.values|)
  {
    var ps := AlignIndexToIndex(from, to).value;
    forall s, t | 0 <= s < t < |ps| ensures ps[s] != ps[t] {
      assert to.values[s] != to.values[t];
    }
  }

  /** Aligning an Index to itself, or to a copy of it, gathers nothing. */
  lemma AlignIndexToItself(from: Axis, to: Axis)
    requires Valid(from) && from.kind.IndexKind? && to.values == from.values
    ensures AlignIndexToIndex(from, to).Ok?
    ensures AlignIndexToIndex(from, to).value == Iota(|from.values|)
  {
    IndexOfOwnValues(from);
    assert AllIn(to.values, from) by {
      forall t | 0 <= t < |to.values| ensures to.values[t] in from.values {
        assert from.values[t] == to.values[t];
      }
    }
    var ps := AlignIndexToIndex(from, to).value;
    forall t | 0 <= t < |ps| ensures ps[t] == t {
      assert from.values[ps[t]] == from.values[t];
    }
  }

  // ---------------------------------------------------------------------
  // One axis of A against the axes of B.

  /** What the loop of `apply2` does for one axis of A: nothing, a gather
      of B's data along B's dimension kb, or a gather of A's data with B's
      Series taking the result slot. */
  datatype Step = Keep | TakeB(kb: nat, idx: seq<nat>) | TakeA(idx: seq<nat>, axis: Axis)

  /** The axis of A aligns with B: B has no axis of that name, or it is the
      same object, or the labels permit the alignment its kinds call for. */
  predicate Aligns(axA: Axis, bList: seq<Axis>) {
    match NamePosition(bList, axA.name)
    case None => true
    case Some(kb) =>
      var axB := bList[kb];
      axA.id == axB.id ||
      (axA.kind.IndexKind? && axB.kind.IndexKind? && |axB.values| == |axA.values| && AllIn(axA.values, axB)) ||
      (axA.kind.IndexKind? && axB.kind.SeriesKind? && AllIn(axB.values, axA)) ||
      (axA.kind.SeriesKind? && axB.kind.IndexKind? && AllIn(axA.values, axB)) ||
      (axA.kind.SeriesKind? && axB.kind.SeriesKind? && axB.values == axA.values)
  }

  /** The decision the loop body of `apply2` takes for one axis of A. */
  function AlignStep(axA: Axis, b: Axes): (r: Result<Step>)
    requires Valid(axA) && ValidAxes(b)
    ensures r.Ok? <==> Aligns(axA, b.list)
    ensures r.Err? ==> r.error == AxisAlignError
    ensures r.Ok? && r.value.Keep? ==> (match NamePosition(b.list, axA.name)
      case None => true
      case Some(kb) => (b.list[kb].id == axA.id ||
        (axA.kind.SeriesKind? && b.list[kb].kind.SeriesKind? && b.list[kb].values == axA.values)))
    ensures r.Ok? && r.value.TakeB? ==>
      NamePosition(b.list, axA.name) == Some(r.value.kb) && b.list[r.value.kb].kind.IndexKind? &&
      b.list[r.value.kb].id != axA.id && Realigns(r.value.idx, b.list[r.value.kb], axA)
    ensures r.Ok? && r.value.TakeA? ==>
      NamePosition(b.list, axA.name).Some? && b.list[NamePosition(b.list, axA.name).value] == r.value.axis &&
      axA.kind.IndexKind? && r.value.axis.kind.SeriesKind? && r.value.axis.id != axA.id &&
      Realigns(r.value.idx, axA, r.value.axis)
  {
    match NamePosition(b.list, axA.name)
    case None => Ok(Keep)
    case Some(kb) =>
      var axB := b.list[kb];
      assert Valid(axB);
      if axA.id == axB.id then Ok(Keep)
      else if axA.kind.IndexKind? then
        if axB.kind.IndexKind? then
          var idx :- AlignIndexToIndex(axB, axA);
          Ok(TakeB(kb, idx))
        else
          var idx :- AlignIndexToSeries(axA, axB);
          Ok(TakeA(idx, axB))
      else if axB.kind.IndexKind? then
        var idx :- AlignIndexToSeries(axB, axA);
        Ok(TakeB(kb, idx))
      else
        var _ :- AssertAlignSeries(axB, axA);
        Ok(Keep)
  }

  /** The labels of the example of numcube/tests/test_cube.py. */
  const ExampleA := [StrValue("a"), StrValue("b"), StrValue("c"), StrValue("d")]
  const ExampleB := [StrValue("b"), StrValue("a"), StrValue("c"), StrValue("d")]

  function ExampleIndex(id: nat, vs: seq<Value>): Axis {
    Axis(id, "x", vs, IndexKind(Table(vs)))
  }

  lemma ExampleIndicesValid(idA: nat, idB: nat)
    ensures Valid(ExampleIndex(idA, ExampleA)) && Valid(ExampleIndex(idB, ExampleB))
  {
    assert Distinct(ExampleA) && Distinct(ExampleB);
    TableSizeIffDistinct(ExampleA);
    TableSizeIffDistinct(ExampleB);
  }

  /** Distinct labels leave one way to realign them. */
  lemma RealignsUnique(p: seq<nat>, q: seq<nat>, from: Axis, to: Axis)
    requires Distinct(from.values) && Realigns(p, from, to) && Realigns(q, from, to)
    ensures p == q
  {
    forall t | 0 <= t < |p| ensures p[t] == q[t] {
      assert from.values[p[t]] == from.values[q[t]];
    }
  }

  /** The labels [a, b, c, d] sit in [b, a, c, d] at [1, 0, 2, 3]. */
  lemma ExampleGather(idA: nat, idB: nat)
    ensures Valid(ExampleIndex(idB, ExampleB))
    ensures AlignIndexToIndex(ExampleIndex(idB, ExampleB), ExampleIndex(idA, ExampleA)) == Ok([1, 0, 2, 3])
  {
    ExampleIndicesValid(idA, idB);
    var a := ExampleA;
    var b := ExampleB;
    var ps := AlignIndexToIndex(ExampleIndex(idB, b), ExampleIndex(idA, a));
    var want: seq<nat> := [1, 0, 2, 3];
    forall t | 0 <= t < 4 ensures want[t] < 4 && b[want[t]] == a[t] {
      if t == 0 { } else if t == 1 { } else if t == 2 { } else { assert t == 3; }
    }
    assert ps.Ok?;
    assert Distinct(b);
    RealignsUnique(ps.value, want, ExampleIndex(idB, b), ExampleIndex(idA, a));
  }

  /** The example of numcube/tests/test_cube.py: A's Index [a, b, c, d]
      against B's Index [b, a, c, d] gathers B at [1, 0, 2, 3], so B's data
      [0, 1, 2, 3] is read as [1, 0, 2, 3]. */
  lemma GatherDirectionExample(idA: nat, idB: nat)
    requires idA != idB
    ensures Valid(ExampleIndex(idA, ExampleA)) && ValidAxes(Axes([ExampleIndex(idB, ExampleB)]))
    ensures AlignStep(ExampleIndex(idA, ExampleA), Axes([ExampleIndex(idB, ExampleB)])) == Ok(TakeB(0, [1, 0, 2, 3]))
  {
    ExampleIndicesValid(idA, idB);
    ExampleGather(idA, idB);
    ExampleAxesB(idB);
  }

  lemma ExampleAxesB(idB: nat)
    ensures ValidAxes(Axes([ExampleIndex(idB, ExampleB)]))
    ensures NamePosition([ExampleIndex(idB, ExampleB)], "x") == Some(0)
  {
    var axB := ExampleIndex(idB, ExampleB);
    ExampleIndicesValid(idB, idB);
    assert Names([axB]) == ["x"];
  }

  // ---------------------------------------------------------------------
  // What the alignment loop of `apply2` has done after the steps taken so
  // far, one per axis of A.

  /** The gather A's data has received: along axis d of A, the positions a
      step that gathers A chose, all positions elsewhere. */
  function GatherA(shape: seq<nat>, steps: seq<Step>): (g: seq<seq<nat>>)
    ensures |g| == |shape|
  {
    seq(|shape|, d requires 0 <= d < |shape| =>
      if d < |steps| && steps[d].TakeA? then steps[d].idx else Iota(shape[d]))
  }

  /** The gather B's data has received: along B's axis kb, the positions
      chosen by the step of A's namesake axis, if it gathered B. */
  function GatherB(aList: seq<Axis>, bList: seq<Axis>, shape: seq<nat>, steps: seq<Step>): (g: seq<seq<nat>>)
    requires |shape| == |bList|
    ensures |g| == |bList|
  {
    seq(|bList|, kb requires 0 <= kb < |bList| =>
      match NamePosition(aList, bList[kb].name)
      case Some(d) => if d < |steps| && steps[d].TakeB? then steps[d].idx else Iota(shape[kb])
      case None => Iota(shape[kb]))
  }

  /** `all_axes` before B's own axes are appended: A's axes, with B's Series
      in every slot whose step gathers A. */
  function SlotAxes(aList: seq<Axis>, steps: seq<Step>): (r: seq<Axis>)
    ensures |r| == |aList|
  {
    seq(|aList|, d requires 0 <= d < |aList| =>
      if d < |steps| && steps[d].TakeA? then steps[d].axis else aList[d])
  }

  /** The steps are the alignment decisions for the first axes of A. */
  predicate Decided<T>(a: Cube<T>, b: Cube<T>, steps: seq<Step>)
    requires ValidCube(a) && ValidCube(b)
  {
    |steps| <= |a.axes.list| &&
    forall d :: 0 <= d < |steps| ==> AlignStep(a.axes.list[d], b.axes) == Ok(steps[d])
  }

  /** Every axis of A aligns with its namesake in B. */
  predicate AllAlign<T>(a: Cube<T>, b: Cube<T>) {
    forall d :: 0 <= d < |a.axes.list| ==> Aligns(a.axes.list[d], b.axes.list)
  }

  /** The decisions for every axis of A, when all of them align. */
  function AlignSteps<T>(a: Cube<T>, b: Cube<T>): (steps: seq<Step>)
    requires ValidCube(a) && ValidCube(b) && AllAlign(a, b)
    ensures |steps| == |a.axes.list| && Decided(a, b, steps)
  {
    seq(|a.axes.list|, d requires 0 <= d < |a.axes.list| => AlignStep(a.axes.list[d], b.axes).value)
  }

  /** One more step changes A's gather along its own axis if it gathers A,
      and nothing else of it. */
  lemma AdvanceA(shape: seq<nat>, aList: seq<Axis>, steps: seq<Step>, st: Step)
    requires |steps| < |shape| == |aList|
    ensures GatherA(shape, steps)[|steps|] == Iota(shape[|steps|])
    ensures GatherA(shape, steps + [st]) ==
      (if st.TakeA? then GatherA(shape, steps)[|steps| := st.idx] else GatherA(shape, steps))
    ensures SlotAxes(aList, steps + [st]) ==
      (if st.TakeA? then SlotAxes(aList, steps)[|steps| := st.axis] else SlotAxes(aList, steps))
  {
    var i := |steps|;
    var g0 := GatherA(shape, steps);
    var g1 := GatherA(shape, steps + [st]);
    var s0 := SlotAxes(aList, steps);
    var s1 := SlotAxes(aList, steps + [st]);
    forall d | 0 <= d < |shape|
      ensures g1[d] == (if st.TakeA? then g0[i := st.idx] else g0)[d]
      ensures s1[d] == (if st.TakeA? then s0[i := st.axis] else s0)[d]
    {
      if d < i {
        assert (steps + [st])[d] == steps[d];
      }
    }
  }

  /** One more step changes B's gather along the namesake of A's axis if it
      gathers B, and nothing else of it. */
  lemma AdvanceB(aList: seq<Axis>, bList: seq<Axis>, shape: seq<nat>, steps: seq<Step>, st: Step)
    requires |shape| == |bList| && |steps| < |aList|
    requires Distinct(Names(aList)) && Distinct(Names(bList))
    requires st.TakeB? ==> NamePosition(bList, aList[|steps|].name) == Some(st.kb)
    ensures st.TakeB? ==>
      st.kb < |bList| && GatherB(aList, bList, shape, steps)[st.kb] == Iota(shape[st.kb]) &&
      GatherB(aList, bList, shape, steps + [st]) == GatherB(aList, bList, shape, steps)[st.kb := st.idx]
    ensures !st.TakeB? ==> GatherB(aList, bList, shape, steps + [st]) == GatherB(aList, bList, shape, steps)
  {
    var i := |steps|;
    var g0 := GatherB(aList, bList, shape, steps);
    var g1 := GatherB(aList, bList, shape, steps + [st]);
    assert Names(aList)[i] == aList[i].name;
    forall k | 0 <= k < |bList|
      ensures g1[k] == (if st.TakeB? then g0[st.kb := st.idx] else g0)[k]
    {
      match NamePosition(aList, bList[k].name)
      case None =>
      case Some(d) =>
        if d < i {
          assert (steps + [st])[d] == steps[d];
        } else if d == i && st.TakeB? {
          assert Names(bList)[k] == Names(bList)[st.kb];
        }
    }
    if st.TakeB? {
      var d := NamePosition(aList, bList[st.kb].name);
      assert Names(aList)[d.value] == Names(aList)[i];
    }
  }

  /** One pass of the loop body, for the next axis of A. */
  method AlignSlot<T>(a: Cube<T>, b: Cube<T>, i: nat, ghost steps: seq<Step>, valuesA: NdArray<T>, valuesB: NdArray<T>, allAxes: seq<Axis>)
    returns (r: Result<(NdArray<T>, NdArray<T>, seq<Axis>)>, ghost st: Step)
    requires ValidCube(a) && ValidCube(b) && i == |steps| < |a.axes.list|
    requires GatherFits(GatherA(a.values.shape, steps), a.values.shape)
    requires Same(valuesA, Gather(a.values, GatherA(a.values.shape, steps)))
    requires GatherFits(GatherB(a.axes.list, b.axes.list, b.values.shape, steps), b.values.shape)
    requires Same(valuesB, Gather(b.values, GatherB(a.axes.list, b.axes.list, b.values.shape, steps)))
    requires allAxes == SlotAxes(a.axes.list, steps)
    ensures r.Ok? <==> AlignStep(a.axes.list[|steps|], b.axes).Ok?
    ensures r.Err? ==> r.error == AxisAlignError
    ensures r.Ok? ==> AlignStep(a.axes.list[|steps|], b.axes) == Ok(st)
    ensures r.Ok? ==> (GatherFits(GatherA(a.values.shape, steps + [st]), a.values.shape) &&
      Same(r.value.0, Gather(a.values, GatherA(a.values.shape, steps + [st]))))
    ensures r.Ok? ==> (GatherFits(GatherB(a.axes.list, b.axes.list, b.values.shape, steps + [st]), b.values.shape) &&
      Same(r.value.1, Gather(b.values, GatherB(a.axes.list, b.axes.list, b.values.shape, steps + [st]))))
    ensures r.Ok? ==> r.value.2 == SlotAxes(a.axes.list, steps + [st])
  {
    var axA := a.axes.list[i];
    st := Keep;
    var found := AxisAndIndex(b.axes, StrArg(axA.name));
    if found.Err? {
      AdvanceA(a.values.shape, a.axes.list, steps, st);
      AdvanceB(a.axes.list, b.axes.list, b.values.shape, steps, st);
      return Ok((valuesA, valuesB, allAxes)), st;
    }
    var (axB, kb) := found.value;
    if axA.id == axB.id {
      AdvanceA(a.values.shape, a.axes.list, steps, st);
      AdvanceB(a.axes.list, b.axes.list, b.values.shape, steps, st);
      return Ok((valuesA, valuesB, allAxes)), st;
    }
    if axA.kind.IndexKind? {
      if axB.kind.IndexKind? {
        var idx := AlignIndexToIndex(axB, axA);
        if idx.Err? {
          return Err(AxisAlignError), st;
        }
        st := TakeB(kb, idx.value);
        AdvanceA(a.values.shape, a.axes.list, steps, st);
        AdvanceB(a.axes.list, b.axes.list, b.values.shape, steps, st);
        TakeOfGather(b.values, GatherB(a.axes.list, b.axes.list, b.values.shape, steps), valuesB, kb, idx.value);
        return Ok((valuesA, Arrays.Take(valuesB, kb, idx.value), allAxes)), st;
      } else {
        var slots := allAxes[i := axB];
        var idx := AlignIndexToSeries(axA, axB);
        if idx.Err? {
          return Err(AxisAlignError), st;
        }
        st := TakeA(idx.value, axB);
        AdvanceA(a.values.shape, a.axes.list, steps, st);
        AdvanceB(a.axes.list, b.axes.list, b.values.shape, steps, st);
        TakeOfGather(a.values, GatherA(a.values.shape, steps), valuesA, i, idx.value);
        return Ok((Arrays.Take(valuesA, i, idx.value), valuesB, slots)), st;
      }
    } else {
      if axB.kind.IndexKind? {
        var idx := AlignIndexToSeries(axB, axA);
        if idx.Err? {
          return Err(AxisAlignError), st;
        }
        st := TakeB(kb, idx.value);
        AdvanceA(a.values.shape, a.axes.list, steps, st);
        AdvanceB(a.axes.list, b.axes.list, b.values.shape, steps, st);
        TakeOfGather(b.values, GatherB(a.axes.list, b.axes.list, b.values.shape, steps), valuesB, kb, idx.value);
        return Ok((valuesA, Arrays.Take(valuesB, kb, idx.value), allAxes)), st;
      } else {
        var ok := AssertAlignSeries(axB, axA);
        if ok.Err? {
          return Err(AxisAlignError), st;
        }
        AdvanceA(a.values.shape, a.axes.list, steps, st);
        AdvanceB(a.axes.list, b.axes.list, b.values.shape, steps, st);
        return Ok((valuesA, valuesB, allAxes)), st;
      }
    }
  }

  /** The alignment loop of `apply2`: for every axis of A that B also has
      and that is not the same object, gather B's data by B's positions of
      A's labels, or, for an Index of A against a Series of B, let B's Series
      take the slot and gather A's data; two Series must agree. */
  method AlignCubes<T>(a: Cube<T>, b: Cube<T>) returns (r: Result<(NdArray<T>, NdArray<T>, seq<Axis>)>)
    requires ValidCube(a) && ValidCube(b)
    ensures r.Ok? <==> AllAlign(a, b)
    ensures r.Err? ==> r.error == AxisAlignError
    ensures r.Ok? ==> (GatherFits(GatherA(a.values.shape, AlignSteps(a, b)), a.values.shape) &&
      Same(r.value.0, Gather(a.values, GatherA(a.values.shape, AlignSteps(a, b)))))
    ensures r.Ok? ==> (GatherFits(GatherB(a.axes.list, b.axes.list, b.values.shape, AlignSteps(a, b)), b.values.shape) &&
      Same(r.value.1, Gather(b.values, GatherB(a.axes.list, b.axes.list, b.values.shape, AlignSteps(a, b)))))
    ensures r.Ok? ==> r.value.2 == SlotAxes(a.axes.list, AlignSteps(a, b))
  {
    var valuesA := a.values;
    var valuesB := b.values;
    var allAxes := a.axes.list;
    ghost var steps: seq<Step> := [];
    var i := 0;
    IdentityGatherSame(a.values);
    IdentityGatherSame(b.values);
    assert GatherA(a.values.shape, steps) == IdentityGather(a.values.shape);
    assert GatherB(a.axes.list, b.axes.list, b.values.shape, steps) == IdentityGather(b.values.shape);
    assert SlotAxes(a.axes.list, steps) == allAxes;
    while i < |a.axes.list|
      invariant i == |steps| && Decided(a, b, steps)
      invariant GatherFits(GatherA(a.values.shape, steps), a.values.shape)
      invariant Same(valuesA, Gather(a.values, GatherA(a.values.shape, steps)))
      invariant GatherFits(GatherB(a.axes.list, b.axes.list, b.values.shape, steps), b.values.shape)
      invariant Same(valuesB, Gather(b.values, GatherB(a.axes.list, b.axes.list, b.values.shape, steps)))
      invariant allAxes == SlotAxes(a.axes.list, steps)
      decreases |a.axes.list| - i
    {
      var step, st := AlignSlot(a, b, i, steps, valuesA, valuesB, allAxes);
      if step.Err? {
        return Err(step.error);
      }
      valuesA, valuesB, allAxes := step.value.0, step.value.1, step.value.2;
      steps := steps + [st];
      i := i + 1;
    }
    assert steps == AlignSteps(a, b);
    return Ok((valuesA, valuesB, allAxes));
  }
}
