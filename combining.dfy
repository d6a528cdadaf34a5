/** `Cube.combine_axes`: several axes merged into one leading axis whose
    labels are formatted from every combination of their labels. The
    counter that enumerates the combinations, the validation of the
    request, and the transpose-and-reshape of the values. */
module Combining {
  import opened Errors
  import opened Labels
  import opened Arrays
  import opened AxisTypes
  import opened AxisCollection
  import opened Cubes

  // ---------------------------------------------------------------------
  // The counter as written: the first coordinate varies fastest.

  /** The combination the counter holds at step q: the mixed-radix digits
      of q, least significant first. */
  function FirstFastestIndex(q: nat, sizes: seq<nat>): (m: seq<nat>)
    ensures |m| == |sizes|
    ensures q < Product(sizes) ==> InBounds(m, sizes)
    decreases |sizes|
  {
    if sizes == [] then []
    else if sizes[0] == 0 then [0] + FirstFastestIndex(q, sizes[1..])
    else
      assert q < sizes[0] * Product(sizes[1..]) ==> q / sizes[0] < Product(sizes[1..]) by {
        if q < sizes[0] * Product(sizes[1..]) { DivBelow(q, Product(sizes[1..]), sizes[0]); }
      }
      [q % sizes[0]] + FirstFastestIndex(q / sizes[0], sizes[1..])
  }

  /** The step at which the counter holds the combination m. */
  function FirstFastestFlat(m: seq<nat>, sizes: seq<nat>): nat
    requires |m| == |sizes|
    decreases |m|
  {
    if m == [] then 0 else m[0] + sizes[0] * FirstFastestFlat(m[1..], sizes[1..])
  }

  /** Every combination is held at exactly one step below the product of
      the sizes: the step FirstFastestFlat names. */
  lemma {:induction false} FirstFastestVisitsAll(m: seq<nat>, sizes: seq<nat>)
    requires InBounds(m, sizes)
    ensures FirstFastestFlat(m, sizes) < Product(sizes)
    ensures FirstFastestIndex(FirstFastestFlat(m, sizes), sizes) == m
    decreases |m|
  {
    if m != [] {
      var s := sizes[0];
      var rest := FirstFastestFlat(m[1..], sizes[1..]);
      FirstFastestVisitsAll(m[1..], sizes[1..]);
      var q := m[0] + s * rest;
      DigitStep(m[0], s, rest, Product(sizes[1..]));
      assert FirstFastestIndex(q, sizes) == [m[0]] + m[1..];
    }
  }

  /** A digit below the radix followed by a number below P: the pair is
      below radix times P, and division recovers both parts. */
  lemma DigitStep(r: nat, s: nat, d: nat, p: nat)
    requires r < s && d < p
    ensures r + s * d < s * p && (r + s * d) / s == d && (r + s * d) % s == r
  {
    MulMono(d + 1, p, s);
    DivModOf(r + s * d, s, d, r);
  }

  lemma MulMono(a: nat, b: nat, s: nat)
    requires a <= b
    ensures s * a <= s * b
  {
    assert s * b == s * a + s * (b - a);
  }

  /** Euclidean division has one quotient and one remainder. */
  lemma DivModOf(q: nat, s: nat, d: nat, r: nat)
    requires 0 < s && r < s && q == r + s * d
    ensures q / s == d && q % s == r
  {
    var d' := q / s;
    var r' := q % s;
    assert q == r' + s * d';
    if d' < d {
      MulMono(d' + 1, d, s);
    } else if d < d' {
      MulMono(d + 1, d', s);
    }
  }

  /** The counter advanced by one step: the first coordinate below its
      last value grows by one and the coordinates before it go back to 0;
      past the last combination it wraps to all zeros. */
  function Advance(m: seq<nat>, sizes: seq<nat>): (r: seq<nat>)
    requires |m| == |sizes|
    ensures |r| == |m|
    decreases |m|
  {
    if m == [] then []
    else if m[0] + 1 < sizes[0] then [m[0] + 1] + m[1..]
    else [0] + Advance(m[1..], sizes[1..])
  }

  lemma {:induction false} AdvanceFirstFastest(q: nat, sizes: seq<nat>)
    requires forall k :: 0 <= k < |sizes| ==> sizes[k] > 0
    ensures Advance(FirstFastestIndex(q, sizes), sizes) == FirstFastestIndex(q + 1, sizes)
    decreases |sizes|
  {
    if sizes != [] {
      var s := sizes[0];
      var d := q / s;
      var r := q % s;
      DivModOf(q, s, d, r);
      var m := FirstFastestIndex(q, sizes);
      assert m == [r] + FirstFastestIndex(d, sizes[1..]);
      if r + 1 < s {
        DivModOf(q + 1, s, d, r + 1);
      } else {
        assert s * (d + 1) == s * d + s;
        DivModOf(q + 1, s, d + 1, 0);
        AdvanceFirstFastest(d, sizes[1..]);
      }
    }
  }

  function Zeros(n: nat): (z: seq<nat>)
    ensures |z| == n && forall k :: 0 <= k < n ==> z[k] == 0
  {
    seq(n, k => 0)
  }

  /** The enumeration loop of `combine_axes` on a counter buffer of one
      slot per combined axis: at every step the combination is recorded and
      the counter advanced. With no combined axes the product is 1 and the
      first increment indexes the empty buffer, an IndexError. */
  method Odometer(sizes: seq<nat>) returns (r: Result<seq<seq<nat>>>)
    ensures |sizes| == 0 ==> r == Err(IndexError)
    ensures |sizes| > 0 ==> r.Ok? && |r.value| == Product(sizes)
    ensures r.Ok? ==> forall q :: 0 <= q < |r.value| ==> r.value[q] == FirstFastestIndex(q, sizes)
  {
    var count := |sizes|;
    var size := Product(sizes);
    var indices := new nat[count](_ => 0);
    assert indices[..] == FirstFastestIndex(0, sizes) by {
      ZerosAtStart(sizes);
    }
    var tuples: seq<seq<nat>> := [];
    var pos := 0;
    assert count == 0 ==> size == 1;
    while pos < size
      invariant 0 <= pos <= size && |tuples| == pos
      invariant indices.Length == count
      invariant forall q :: 0 <= q < pos ==> tuples[q] == FirstFastestIndex(q, sizes)
      invariant indices[..] == FirstFastestIndex(pos, sizes)
      invariant count == 0 ==> pos == 0
    {
      ghost var prev := tuples;
      tuples := tuples + [indices[..]];
      forall q | 0 <= q <= pos ensures tuples[q] == FirstFastestIndex(q, sizes) {
        if q < pos { assert tuples[q] == prev[q]; }
      }
      if count == 0 {
        return Err(IndexError);
      }
      ProductPositive(sizes);
      Increment(indices, sizes);
      AdvanceFirstFastest(pos, sizes);
      pos := pos + 1;
    }
    return Ok(tuples);
  }

  /** The inner loop of the counter (`indices[i] += 1`, carrying into the
      next slot while a slot reaches its size). */
  method Increment(indices: array<nat>, sizes: seq<nat>)
    requires indices.Length == |sizes| > 0
    modifies indices
    ensures indices[..] == Advance(old(indices[..]), sizes)
  {
    var count := |sizes|;
    ghost var before := indices[..];
    var i := 0;
    while true
      invariant 0 <= i < count
      invariant forall k :: 0 <= k < i ==> indices[k] == 0 && before[k] + 1 >= sizes[k]
      invariant forall k :: i <= k < count ==> indices[k] == before[k]
      decreases count - i
    {
      indices[i] := indices[i] + 1;
      if indices[i] < sizes[i] {
        AdvanceStopsAt(before, sizes, i);
        assert indices[..] == Zeros(i) + [before[i] + 1] + before[i + 1..];
        break;
      }
      indices[i] := 0;
      i := i + 1;
      if i == count {
        AdvanceWraps(before, sizes);
        assert indices[..] == Zeros(i);
        break;
      }
    }
  }

  /** Advance carries through every slot at its last value and stops at
      the first slot below it. */
  lemma {:induction false} AdvanceStopsAt(m: seq<nat>, sizes: seq<nat>, i: nat)
    requires |m| == |sizes| && i < |m|
    requires forall k :: 0 <= k < i ==> m[k] + 1 >= sizes[k]
    requires m[i] + 1 < sizes[i]
    ensures Advance(m, sizes) == Zeros(i) + [m[i] + 1] + m[i + 1..]
    decreases i
  {
    if i > 0 {
      AdvanceStopsAt(m[1..], sizes[1..], i - 1);
      assert m[1..][i - 1 + 1..] == m[i + 1..];
    }
  }

  /** Past the last combination Advance wraps to all zeros. */
  lemma {:induction false} AdvanceWraps(m: seq<nat>, sizes: seq<nat>)
    requires |m| == |sizes|
    requires forall k :: 0 <= k < |m| ==> m[k] + 1 >= sizes[k]
    ensures Advance(m, sizes) == Zeros(|m|)
    decreases |m|
  {
    if m != [] {
      AdvanceWraps(m[1..], sizes[1..]);
    }
  }

  lemma {:induction false} ZerosAtStart(sizes: seq<nat>)
    ensures FirstFastestIndex(0, sizes) == Zeros(|sizes|)
    decreases |sizes|
  {
    if sizes != [] {
      ZerosAtStart(sizes[1..]);
    }
  }

  // ---------------------------------------------------------------------
  // The counter in the order of the reshape: the last coordinate varies
  // fastest, so step q holds the C-order multi-index of q.

  /** The counter advanced by one step from the last slot. */
  function AdvanceLast(m: seq<nat>, sizes: seq<nat>): (r: seq<nat>)
    requires |m| == |sizes|
    ensures |r| == |m|
    decreases |m|
  {
    if m == [] then []
    else
      var n := |m|;
      if m[n - 1] + 1 < sizes[n - 1] then m[..n - 1] + [m[n - 1] + 1]
      else AdvanceLast(m[..n - 1], sizes[..n - 1]) + [0]
  }

  lemma {:induction false} AdvanceRowMajor(q: nat, sizes: seq<nat>)
    requires forall k :: 0 <= k < |sizes| ==> sizes[k] > 0
    ensures AdvanceLast(RowMajorIndex(q, sizes), sizes) == RowMajorIndex(q + 1, sizes)
    decreases |sizes|
  {
    if sizes != [] {
      var n := |sizes|;
      var s := sizes[n - 1];
      var pre := sizes[..n - 1];
      var d := q / s;
      var r := q % s;
      DivModOf(q, s, d, r);
      var m := RowMajorIndex(q, sizes);
      assert m == RowMajorIndex(d, pre) + [r];
      assert m[..n - 1] == RowMajorIndex(d, pre);
      if r + 1 < s {
        DivModOf(q + 1, s, d, r + 1);
      } else {
        assert s * (d + 1) == s * d + s;
        DivModOf(q + 1, s, d + 1, 0);
        AdvanceRowMajor(d, pre);
      }
    }
  }

  lemma {:induction false} RowMajorZerosAtStart(sizes: seq<nat>)
    ensures RowMajorIndex(0, sizes) == Zeros(|sizes|)
    decreases |sizes|
  {
    if sizes != [] {
      RowMajorZerosAtStart(sizes[..|sizes| - 1]);
    }
  }

  /** The counter's increment started from the last slot. */
  method IncrementLast(indices: array<nat>, sizes: seq<nat>)
    requires indices.Length == |sizes| > 0
    modifies indices
    ensures indices[..] == AdvanceLast(old(indices[..]), sizes)
  {
    var count := |sizes|;
    ghost var before := indices[..];
    var i := count - 1;
    while true
      invariant 0 <= i < count
      invariant forall k :: i < k < count ==> indices[k] == 0 && before[k] + 1 >= sizes[k]
      invariant forall k :: 0 <= k <= i ==> indices[k] == before[k]
      decreases i
    {
      indices[i] := indices[i] + 1;
      if indices[i] < sizes[i] {
        AdvanceLastStopsAt(before, sizes, i);
        assert indices[..] == before[..i] + [before[i] + 1] + Zeros(count - 1 - i);
        break;
      }
      indices[i] := 0;
      if i == 0 {
        AdvanceLastWraps(before, sizes);
        assert indices[..] == Zeros(count);
        break;
      }
      i := i - 1;
    }
  }

  /** AdvanceLast carries through every trailing slot at its last value
      and stops at the last slot below it. */
  lemma {:induction false} AdvanceLastStopsAt(m: seq<nat>, sizes: seq<nat>, i: nat)
    requires |m| == |sizes| && i < |m|
    requires forall k :: i < k < |m| ==> m[k] + 1 >= sizes[k]
    requires m[i] + 1 < sizes[i]
    ensures AdvanceLast(m, sizes) == m[..i] + [m[i] + 1] + Zeros(|m| - 1 - i)
    decreases |m|
  {
    var n := |m|;
    if i < n - 1 {
      AdvanceLastStopsAt(m[..n - 1], sizes[..n - 1], i);
      assert m[..n - 1][..i] == m[..i];
    }
  }

  /** Past the last combination AdvanceLast wraps to all zeros. */
  lemma {:induction false} AdvanceLastWraps(m: seq<nat>, sizes: seq<nat>)
    requires |m| == |sizes|
    requires forall k :: 0 <= k < |m| ==> m[k] + 1 >= sizes[k]
    ensures AdvanceLast(m, sizes) == Zeros(|m|)
    decreases |m|
  {
    if m != [] {
      AdvanceLastWraps(m[..|m| - 1], sizes[..|m| - 1]);
    }
  }

  /** The enumeration loop with the counter advanced from the last slot:
      step q records the C-order multi-index of q. */
  method RowMajorOdometer(sizes: seq<nat>) returns (r: Result<seq<seq<nat>>>)
    ensures |sizes| == 0 ==> r == Err(IndexError)
    ensures |sizes| > 0 ==> r.Ok? && |r.value| == Product(sizes)
    ensures r.Ok? ==> forall q :: 0 <= q < |r.value| ==> r.value[q] == RowMajorIndex(q, sizes)
  {
    var count := |sizes|;
    var size := Product(sizes);
    var indices := new nat[count](_ => 0);
    assert indices[..] == RowMajorIndex(0, sizes) by {
      RowMajorZerosAtStart(sizes);
    }
    var tuples: seq<seq<nat>> := [];
    var pos := 0;
    assert count == 0 ==> size == 1;
    while pos < size
      invariant 0 <= pos <= size && |tuples| == pos
      invariant indices.Length == count
      invariant forall q :: 0 <= q < pos ==> tuples[q] == RowMajorIndex(q, sizes)
      invariant indices[..] == RowMajorIndex(pos, sizes)
      invariant count == 0 ==> pos == 0
    {
      ghost var prev := tuples;
      tuples := tuples + [indices[..]];
      forall q | 0 <= q <= pos ensures tuples[q] == RowMajorIndex(q, sizes) {
        if q < pos { assert tuples[q] == prev[q]; }
      }
      if count == 0 {
        return Err(IndexError);
      }
      ProductPositive(sizes);
      IncrementLast(indices, sizes);
      AdvanceRowMajor(pos, sizes);
      pos := pos + 1;
    }
    return Ok(tuples);
  }

  /** The two counters part at the second step of two axes of two labels:
      the source's counter holds (1, 0) while the reshape put the entry of
      (0, 1) at flat position 1; (1, 0) sits at flat position 2. */
  lemma OdometerOrderDisagreesWithReshape()
    ensures FirstFastestIndex(1, [2, 2]) == [1, 0]
    ensures RowMajorIndex(1, [2, 2]) == [0, 1]
    ensures FlatIndex([1, 0], [2, 2]) == 2
  {
    assert [2, 2][1..] == [2];
    assert [2, 2][..1] == [2];
    assert [1, 0][..1] == [1];
    assert RowMajorIndex(0, [2]) == [0] by {
      assert [2][..0] == [];
    }
    assert FlatIndex([1], [2]) == 1 by {
      assert [1][..0] == [] && [2][..0] == [];
    }
  }

  // ---------------------------------------------------------------------
  // Validation, transpose and reshape.

  /** The positions of the axes that are not combined, in their order. */
  function Others(ps: seq<nat>, n: nat): (r: seq<nat>)
    ensures forall t :: 0 <= t < |r| ==> r[t] < n && r[t] !in ps
    ensures forall i :: 0 <= i < n && i !in ps ==> i in r
    ensures forall s, t :: 0 <= s < t < |r| ==> r[s] < r[t]
  {
    if n == 0 then [] else Others(ps, n - 1) + (if n - 1 in ps then [] else [n - 1])
  }

  /** The combined axes first, then the others: an order of all dimensions. */
  lemma CombinedOrderIsPermutation(ps: seq<nat>, n: nat)
    requires Distinct(ps) && forall k :: 0 <= k < |ps| ==> ps[k] < n
    ensures IsPermutation(ps + Others(ps, n), n)
  {
    var os := Others(ps, n);
    var order := ps + os;
    assert Distinct(order) by {
      forall i, j | 0 <= i < j < |order| ensures order[i] != order[j] {
        if j >= |ps| && i < |ps| {
          assert order[j] == os[j - |ps|] && order[j] !in ps;
        } else if i >= |ps| {
          assert order[i] == os[i - |ps|] && order[j] == os[j - |ps|];
        }
      }
    }
    var range := Iota(n);
    assert Elements(order) == Elements(range) by {
      forall x | x in Elements(range) ensures x in Elements(order) {
        assert x < n;
        if x in ps {
          var k :| 0 <= k < |ps| && ps[k] == x;
          assert order[k] == x;
        } else {
          assert x in os;
          var t :| 0 <= t < |os| && os[t] == x;
          assert order[|ps| + t] == x;
        }
      }
      forall x | x in Elements(order) ensures x in Elements(range) {
        var k :| 0 <= k < |order| && order[k] == x;
        if k >= |ps| { assert order[k] == os[k - |ps|]; }
        assert range[x] == x;
      }
    }
    DistinctIffElementsCount(order);
    DistinctIffElementsCount(range);
  }

  /** Python's `a.name == new_axis_name`: true only for a str equal to the
      axis's name; any other object compares unequal to a str. */
  predicate NamedAs(ax: Axis, name: Arg) {
    name.StrArg? && ax.name == name.s
  }

  /** The checks of `combine_axes` before any work: every name must be
      found (the errors of `axis_and_index`, the first failing name's), the
      names must pick distinct axes (ValueError), and no axis left out of
      the combination may carry the new name (ValueError). The result is the
      positions of the combined axes. */
  function CombineCheck(axes: Axes, names: seq<Arg>, newName: Arg): (r: Result<seq<nat>>)
    ensures ResolveAll(axes, names).Err? ==> r == Err(ResolveAll(axes, names).error)
    ensures ResolveAll(axes, names).Ok? ==> var ps := ResolveAll(axes, names).value;
      (r.Ok? <==> Distinct(ps) && forall i :: 0 <= i < |axes.list| && i !in ps ==> !NamedAs(axes.list[i], newName))
    ensures r.Ok? ==> r.value == ResolveAll(axes, names).value
    ensures r.Ok? ==> Distinct(r.value) && forall k :: 0 <= k < |r.value| ==> r.value[k] < |axes.list|
    ensures r.Ok? ==> forall i :: 0 <= i < |axes.list| && i !in r.value ==> !NamedAs(axes.list[i], newName)
    ensures ResolveAll(axes, names).Ok? && r.Err? ==> r.error == ValueError
  {
    var ps :- ResolveAll(axes, names);
    DistinctIffElementsCount(ps);
    if |Elements(ps)| != |names| then Err(ValueError)
    else
      var os := Others(ps, |axes.list|);
      if exists t :: 0 <= t < |os| && NamedAs(axes.list[os[t]], newName) then Err(ValueError)
      else Ok(ps)
  }

  /** The labels the combined axes carry at one combination. */
  function LabelsAt(list: seq<Axis>, t: seq<nat>): (r: seq<Value>)
    requires InBounds(t, Lengths(list))
    ensures |r| == |t| && forall k :: 0 <= k < |t| ==> r[k] == list[k].values[t[k]]
  {
    seq(|t|, k requires 0 <= k < |t| => list[k].values[t[k]])
  }

  /** Entry m of r holds the entry of a whose coordinates, in the order
      `order`, are the C-order multi-index of m[0] over `sizes` followed by
      the rest of m. */
  ghost predicate ReadsMerged<T>(r: NdArray<T>, a: NdArray<T>, sizes: seq<nat>, order: seq<nat>) {
    forall m :: InBounds(m, r.shape) ==>
      |m| > 0 &&
      InBounds(Unpermute(RowMajorIndex(m[0], sizes) + m[1..], order), a.shape) &&
      r.at(m) == a.at(Unpermute(RowMajorIndex(m[0], sizes) + m[1..], order))
  }

  /** Transposing to `order` and merging the leading |sizes| dimensions. */
  lemma MergedTransposeReads<T>(a: NdArray<T>, order: seq<nat>, sizes: seq<nat>)
    requires IsPermutation(order, |a.shape|) && |sizes| <= |order|
    requires Permute(a.shape, order)[..|sizes|] == sizes
    ensures ReadsMerged(MergeLeading(Arrays.Transpose(a, order).value, |sizes|), a, sizes, order)
  {
    var t := Arrays.Transpose(a, order).value;
    var v := MergeLeading(t, |sizes|);
    forall m | InBounds(m, v.shape)
      ensures InBounds(Unpermute(RowMajorIndex(m[0], sizes) + m[1..], order), a.shape)
      ensures v.at(m) == a.at(Unpermute(RowMajorIndex(m[0], sizes) + m[1..], order))
    {
      assert InBounds(RowMajorIndex(m[0], sizes) + m[1..], t.shape);
    }
  }

  /** The shape after the transpose: the combined lengths, then the others. */
  lemma TransposedShape(list: seq<Axis>, shape: seq<nat>, ps: seq<nat>, os: seq<nat>)
    requires shape == Lengths(list)
    requires forall k :: 0 <= k < |ps| ==> ps[k] < |list|
    requires forall k :: 0 <= k < |os| ==> os[k] < |list|
    ensures Permute(shape, ps + os) == Lengths(Pick(list, ps)) + Lengths(Pick(list, os))
  {
    var order := ps + os;
    var want := Lengths(Pick(list, ps)) + Lengths(Pick(list, os));
    forall k | 0 <= k < |order| ensures Permute(shape, order)[k] == want[k] {
      if k >= |ps| { assert order[k] == os[k - |ps|]; }
    }
  }

  /** From the transpose on: the values put in the order (combined axes,
      others), their combined dimensions merged by a C-order reshape, and
      the new Index of `labels` (the strings str.format returns) in front
      of the remaining axes. The Index constructor checks its name first,
      a TypeError unless it is a str, and then its labels: duplicates are
      a ValueError. */
  function Combined<T>(c: Cube<T>, ps: seq<nat>, labels: seq<Value>, newName: Arg, newId: nat): (r: Result<Cube<T>>)
    requires ValidCube(c) && Distinct(ps) && forall k :: 0 <= k < |ps| ==> ps[k] < |c.axes.list|
    requires forall i :: 0 <= i < |c.axes.list| && i !in ps ==> !NamedAs(c.axes.list[i], newName)
    requires |labels| == Product(Lengths(Pick(c.axes.list, ps))) && AllStrs(labels)
    ensures r.Ok? <==> newName.StrArg? && Distinct(labels)
    ensures !newName.StrArg? ==> r == Err(TypeError)
    ensures newName.StrArg? && r.Err? ==> r.error == ValueError
    ensures r.Ok? ==> ValidCube(r.value)
    ensures r.Ok? ==> (r.value.axes.list ==
      [Axis(newId, newName.s, labels, IndexKind(Table(labels)))] + Pick(c.axes.list, Others(ps, |c.axes.list|)))
    ensures r.Ok? ==> ReadsMerged(r.value.values, c.values, Lengths(Pick(c.axes.list, ps)),
      ps + Others(ps, |c.axes.list|))
  {
    TableSizeIffDistinct(labels);
    if !newName.StrArg? then Err(TypeError)
    else if !Distinct(labels) then Err(ValueError)
    else
      assert forall i :: 0 <= i < |c.axes.list| && i !in ps ==> c.axes.list[i].name != newName.s by {
        forall i | 0 <= i < |c.axes.list| && i !in ps ensures c.axes.list[i].name != newName.s {
          assert !NamedAs(c.axes.list[i], newName);
        }
      }
      CombinedCubeFacts(c, ps, labels, newName.s, newId);
      Ok(CombinedCube(c, ps, labels, newName.s, newId))
  }

  function CombinedCube<T>(c: Cube<T>, ps: seq<nat>, labels: seq<Value>, newName: string, newId: nat): Cube<T>
    requires ValidCube(c) && Distinct(ps) && forall k :: 0 <= k < |ps| ==> ps[k] < |c.axes.list|
  {
    var os := Others(ps, |c.axes.list|);
    CombinedOrderIsPermutation(ps, |c.axes.list|);
    Cube(MergeLeading(Arrays.Transpose(c.values, ps + os).value, |ps|),
      Axes([Axis(newId, newName, labels, IndexKind(Table(labels)))] + Pick(c.axes.list, os)))
  }

  lemma CombinedCubeFacts<T>(c: Cube<T>, ps: seq<nat>, labels: seq<Value>, newName: string, newId: nat)
    requires ValidCube(c) && Distinct(ps) && forall k :: 0 <= k < |ps| ==> ps[k] < |c.axes.list|
    requires forall i :: 0 <= i < |c.axes.list| && i !in ps ==> c.axes.list[i].name != newName
    requires |labels| == Product(Lengths(Pick(c.axes.list, ps))) && Distinct(labels) && AllStrs(labels)
    ensures ValidCube(CombinedCube(c, ps, labels, newName, newId))
    ensures ReadsMerged(CombinedCube(c, ps, labels, newName, newId).values, c.values,
      Lengths(Pick(c.axes.list, ps)), ps + Others(ps, |c.axes.list|))
  {
    var n := |c.axes.list|;
    var os := Others(ps, n);
    var order := ps + os;
    var sizes := Lengths(Pick(c.axes.list, ps));
    CombinedOrderIsPermutation(ps, n);
    TransposedShape(c.axes.list, c.values.shape, ps, os);
    var t := Arrays.Transpose(c.values, order).value;
    var values := MergeLeading(t, |ps|);
    MergedTransposeReads(c.values, order, sizes);
    TableSizeIffDistinct(labels);
    var newAxis := Axis(newId, newName, labels, IndexKind(Table(labels)));
    var list := [newAxis] + Pick(c.axes.list, os);
    CombinedAxesValid(c.axes, ps, newAxis);
    var rest := Lengths(Pick(c.axes.list, os));
    assert t.shape == sizes + rest;
    assert t.shape[..|ps|] == sizes && t.shape[|ps|..] == rest;
    LengthsCons(newAxis, Pick(c.axes.list, os));
  }

  lemma LengthsCons(ax: Axis, list: seq<Axis>)
    ensures Lengths([ax] + list) == [|ax.values|] + Lengths(list)
  {
    var l := [ax] + list;
    forall k | 0 <= k < |l| ensures Lengths(l)[k] == ([|ax.values|] + Lengths(list))[k] {
      if k > 0 { assert l[k] == list[k - 1]; }
    }
  }

  /** The new axis in front of the axes left out of the combination keeps
      the names unique. */
  lemma CombinedAxesValid(axes: Axes, ps: seq<nat>, ax: Axis)
    requires ValidAxes(axes) && Valid(ax)
    requires forall i :: 0 <= i < |axes.list| && i !in ps ==> axes.list[i].name != ax.name
    ensures ValidAxes(Axes([ax] + Pick(axes.list, Others(ps, |axes.list|))))
  {
    var os := Others(ps, |axes.list|);
    var rest := Pick(axes.list, os);
    var list := [ax] + rest;
    OthersDistinct(ps, |axes.list|);
    PickedNamesDistinct(axes.list, os);
    forall j | 0 <= j < |rest| ensures Names(rest)[j] != ax.name {
      assert rest[j] == axes.list[os[j]];
    }
    assert Names(list) == [ax.name] + Names(rest);
    DistinctCons(ax.name, Names(rest));
    ConsValid(ax, axes.list, os);
  }

  lemma ConsValid(ax: Axis, axes: seq<Axis>, os: seq<nat>)
    requires Valid(ax) && forall i :: 0 <= i < |axes| ==> Valid(axes[i])
    requires forall j :: 0 <= j < |os| ==> os[j] < |axes|
    ensures var list := [ax] + Pick(axes, os);
      forall i :: 0 <= i < |list| ==> Valid(list[i])
  {
    var list := [ax] + Pick(axes, os);
    forall i | 0 <= i < |list| ensures Valid(list[i]) {
      if i > 0 { assert list[i] == axes[os[i - 1]]; }
    }
  }

  lemma OthersDistinct(ps: seq<nat>, n: nat)
    ensures Distinct(Others(ps, n))
  {
    var os := Others(ps, n);
    forall s, t | 0 <= s < t < |os| ensures os[s] != os[t] { }
  }

  /** The labels the source formats: at position q the labels of the
      combination its counter holds at step q. */
  function CounterLabels(combined: seq<Axis>, format: seq<Value> -> string): (r: seq<Value>)
    ensures |r| == Product(Lengths(combined))
    ensures forall q :: 0 <= q < |r| ==>
      r[q] == StrValue(format(LabelsAt(combined, FirstFastestIndex(q, Lengths(combined)))))
  {
    var sizes := Lengths(combined);
    seq(Product(sizes), q requires 0 <= q < Product(sizes) => StrValue(format(LabelsAt(combined, FirstFastestIndex(q, sizes)))))
  }

  /** The labels in the reshape's order: at position q the labels of the
      C-order multi-index of q. */
  function ReshapeLabels(combined: seq<Axis>, format: seq<Value> -> string): (r: seq<Value>)
    ensures |r| == Product(Lengths(combined))
    ensures forall q :: 0 <= q < |r| ==>
      r[q] == StrValue(format(LabelsAt(combined, RowMajorIndex(q, Lengths(combined)))))
  {
    var sizes := Lengths(combined);
    seq(Product(sizes), q requires 0 <= q < Product(sizes) => StrValue(format(LabelsAt(combined, RowMajorIndex(q, sizes)))))
  }

  /** `combine_axes(axis_names, new_axis_name, format)` as written: the
      label at position q is formatted from the combination the source's
      counter holds at step q, first coordinate fastest, while the data
      at q is the reshape's, last coordinate fastest. */
  method CombineAxesAsWritten<T>(c: Cube<T>, names: seq<Arg>, newName: Arg, format: seq<Value> -> string, newId: nat)
    returns (r: Result<Cube<T>>)
    requires ValidCube(c)
    ensures CombineCheck(c.axes, names, newName).Err? ==> r == Err(CombineCheck(c.axes, names, newName).error)
    ensures CombineCheck(c.axes, names, newName).Ok? && |names| == 0 ==> r == Err(IndexError)
    ensures CombineCheck(c.axes, names, newName).Ok? && |names| > 0 ==>
      var ps := CombineCheck(c.axes, names, newName).value;
      r == Combined(c, ps, CounterLabels(Pick(c.axes.list, ps), format), newName, newId)
    ensures CombineCheck(c.axes, names, newName).Ok? && |names| > 0 && !newName.StrArg? ==> r == Err(TypeError)
  {
    var check := CombineCheck(c.axes, names, newName);
    if check.Err? {
      return Err(check.error);
    }
    var ps := check.value;
    var combined := Pick(c.axes.list, ps);
    var sizes := Lengths(combined);
    var tuples := Odometer(sizes);
    if tuples.Err? {
      return Err(tuples.error);
    }
    var labels := seq(|tuples.value|, q requires 0 <= q < |tuples.value| =>
      StrValue(format(LabelsAt(combined, tuples.value[q]))));
    assert labels == CounterLabels(combined, format);
    r := Combined(c, ps, labels, newName, newId);
  }

  /** `combine_axes` with the counter advanced in the reshape's order: the
      label at position q is formatted from the C-order multi-index of q. */
  method CombineAxes<T>(c: Cube<T>, names: seq<Arg>, newName: Arg, format: seq<Value> -> string, newId: nat)
    returns (r: Result<Cube<T>>)
    requires ValidCube(c)
    ensures CombineCheck(c.axes, names, newName).Err? ==> r == Err(CombineCheck(c.axes, names, newName).error)
    ensures CombineCheck(c.axes, names, newName).Ok? && |names| == 0 ==> r == Err(IndexError)
    ensures CombineCheck(c.axes, names, newName).Ok? && |names| > 0 ==>
      var ps := CombineCheck(c.axes, names, newName).value;
      r == Combined(c, ps, ReshapeLabels(Pick(c.axes.list, ps), format), newName, newId)
    ensures CombineCheck(c.axes, names, newName).Ok? && |names| > 0 && !newName.StrArg? ==> r == Err(TypeError)
  {
    var check := CombineCheck(c.axes, names, newName);
    if check.Err? {
      return Err(check.error);
    }
    var ps := check.value;
    var combined := Pick(c.axes.list, ps);
    var sizes := Lengths(combined);
    var tuples := RowMajorOdometer(sizes);
    if tuples.Err? {
      return Err(tuples.error);
    }
    var labels := seq(|tuples.value|, q requires 0 <= q < |tuples.value| =>
      StrValue(format(LabelsAt(combined, tuples.value[q]))));
    assert labels == ReshapeLabels(combined, format);
    r := Combined(c, ps, labels, newName, newId);
  }

  /** With the counter in the reshape's order, every entry of the combined
      cube is labelled by the labels of the source coordinates its data
      comes from. */
  lemma CombinedLabelsMatchValues<T>(c: Cube<T>, ps: seq<nat>, format: seq<Value> -> string, newName: Arg, newId: nat)
    requires ValidCube(c) && Distinct(ps) && forall k :: 0 <= k < |ps| ==> ps[k] < |c.axes.list|
    requires forall i :: 0 <= i < |c.axes.list| && i !in ps ==> !NamedAs(c.axes.list[i], newName)
    ensures var r := Combined(c, ps, ReshapeLabels(Pick(c.axes.list, ps), format), newName, newId);
      r.Ok? ==> forall m :: InBounds(m, r.value.values.shape) ==>
        LabelledBySource(r.value, c, ps, format, m)
  {
    var combined := Pick(c.axes.list, ps);
    var sizes := Lengths(combined);
    var r := Combined(c, ps, ReshapeLabels(combined, format), newName, newId);
    var order := ps + Others(ps, |c.axes.list|);
    CombinedOrderIsPermutation(ps, |c.axes.list|);
    if r.Ok? {
      forall m | InBounds(m, r.value.values.shape) ensures LabelledBySource(r.value, c, ps, format, m) {
        var e := RowMajorIndex(m[0], sizes) + m[1..];
        var src := Unpermute(e, order);
        forall k | 0 <= k < |ps| ensures src[ps[k]] == RowMajorIndex(m[0], sizes)[k] {
          UnpermuteAt(e, order, k);
        }
        assert SourceLabels(c, ps, src) == LabelsAt(combined, RowMajorIndex(m[0], sizes));
      }
    }
  }

  /** The labels of the combined axes at a source multi-index. */
  function SourceLabels<T>(c: Cube<T>, ps: seq<nat>, src: seq<nat>): (r: seq<Value>)
    requires ValidCube(c) && InBounds(src, c.values.shape) && forall k :: 0 <= k < |ps| ==> ps[k] < |c.axes.list|
    ensures |r| == |ps| && forall k :: 0 <= k < |ps| ==> r[k] == c.axes.list[ps[k]].values[src[ps[k]]]
  {
    seq(|ps|, k requires 0 <= k < |ps| => c.axes.list[ps[k]].values[src[ps[k]]])
  }

  /** Entry m of the combined cube r holds the data of a source entry, and
      its label along the new axis is formatted from that entry's labels on
      the combined axes. */
  ghost predicate LabelledBySource<T>(r: Cube<T>, c: Cube<T>, ps: seq<nat>, format: seq<Value> -> string, m: seq<nat>)
    requires ValidCube(c) && Distinct(ps) && forall k :: 0 <= k < |ps| ==> ps[k] < |c.axes.list|
  {
    |m| > 0 && |r.axes.list| > 0 && m[0] < |r.axes.list[0].values| &&
    var src := Unpermute(RowMajorIndex(m[0], Lengths(Pick(c.axes.list, ps))) + m[1..],
      ps + Others(ps, |c.axes.list|));
    InBounds(src, c.values.shape) &&
    r.values.at(m) == c.values.at(src) &&
    r.axes.list[0].values[m[0]] == StrValue(format(SourceLabels(c, ps, src)))
  }
}
