/** `apply2(a, b, func)`: an elementwise function of two cubes, or of a cube
    and a scalar. The axes of the two cubes are matched by name and aligned
    (module Alignment), the axes only B has are appended, both arrays are
    broadcast to the combined axes, and the function is applied entry by
    entry. */
module Elementwise {
  import opened Errors
  import opened Labels
  import opened Arrays
  import opened AxisTypes
  import opened AxisCollection
  import opened Cubes
  import opened Broadcasting
  import opened Alignment

  /** In a list with unique names, an axis's own name finds that axis. */
  lemma NamePositionOwn(list: seq<Axis>, k: nat)
    requires Distinct(Names(list)) && k < |list|
    ensures NamePosition(list, list[k].name) == Some(k)
  {
    assert Names(list)[k] == list[k].name;
    var p := NamePosition(list, list[k].name);
    assert Names(list)[p.value] == Names(list)[k];
  }

  /** `axis_a is axis_b` is modelled by equal ids: this says that two axes
      of one name carrying the same id are one and the same axis. */
  predicate Identified<T>(a: Cube<T>, b: Cube<T>) {
    forall d, kb ::
      (0 <= d < |a.axes.list| && 0 <= kb < |b.axes.list| &&
       a.axes.list[d].name == b.axes.list[kb].name && a.axes.list[d].id == b.axes.list[kb].id) ==>
      a.axes.list[d] == b.axes.list[kb]
  }

  // ---------------------------------------------------------------------
  // The axes of the result.

  /** The axes of B whose names A lacks, in B's order: the ones the second
      loop of `apply2` appends. */
  function BOnly(aList: seq<Axis>, bList: seq<Axis>): (r: seq<Axis>)
    ensures forall t :: 0 <= t < |r| ==> r[t] in bList && r[t].name !in Names(aList)
    ensures forall k :: 0 <= k < |bList| && bList[k].name !in Names(aList) ==> bList[k] in r
    decreases |bList|
  {
    if bList == [] then []
    else
      var n := |bList| - 1;
      assert forall k :: 0 <= k < n ==> bList[..n][k] == bList[k];
      BOnly(aList, bList[..n]) + (if bList[n].name in Names(aList) then [] else [bList[n]])
  }

  /** Taken from a list with unique names, the appended axes have unique
      names. */
  lemma {:induction false} BOnlyDistinct(aList: seq<Axis>, bList: seq<Axis>)
    requires Distinct(Names(bList))
    ensures Distinct(Names(BOnly(aList, bList)))
    decreases |bList|
  {
    if bList != [] {
      var n := |bList| - 1;
      NamesPrefixDistinct(bList, n);
      BOnlyDistinct(aList, bList[..n]);
      LastNameNotInPrefix(aList, bList);
      if bList[n].name !in Names(aList) {
        DistinctSnoc(BOnly(aList, bList[..n]), bList[n]);
      }
    }
  }

  lemma NamesPrefixDistinct(list: seq<Axis>, n: nat)
    requires Distinct(Names(list)) && n <= |list|
    ensures Distinct(Names(list[..n]))
  {
    assert Names(list[..n]) == Names(list)[..n];
    DistinctPrefix(Names(list), n);
  }

  /** The last axis of B shares its name with no axis kept from before it. */
  lemma LastNameNotInPrefix(aList: seq<Axis>, bList: seq<Axis>)
    requires Distinct(Names(bList)) && bList != []
    ensures var n := |bList| - 1;
      forall t :: 0 <= t < |BOnly(aList, bList[..n])| ==> BOnly(aList, bList[..n])[t].name != bList[n].name
  {
    var n := |bList| - 1;
    var pre := bList[..n];
    var r0 := BOnly(aList, pre);
    forall t | 0 <= t < |r0| ensures r0[t].name != bList[n].name {
      var i :| 0 <= i < |pre| && pre[i] == r0[t];
      assert Names(bList)[i] == r0[t].name && Names(bList)[n] == bList[n].name;
    }
  }

  lemma DistinctSnoc(r0: seq<Axis>, x: Axis)
    requires Distinct(Names(r0))
    requires forall t :: 0 <= t < |r0| ==> r0[t].name != x.name
    ensures Distinct(Names(r0 + [x]))
  {
    var r := r0 + [x];
    forall i, j | 0 <= i < j < |r| ensures Names(r)[i] != Names(r)[j] {
      if j < |r0| {
        assert Names(r0)[i] != Names(r0)[j];
      }
    }
  }

  /** The second loop of `apply2`: append every axis of B whose name A does
      not contain. */
  method AppendBOnly(a: Axes, b: Axes, slots: seq<Axis>) returns (all: seq<Axis>)
    ensures all == slots + BOnly(a.list, b.list)
  {
    all := slots;
    var k := 0;
    while k < |b.list|
      invariant k <= |b.list| && all == slots + BOnly(a.list, b.list[..k])
    {
      var c := AxisCollection.Contains(a, StrArg(b.list[k].name));
      assert c.value <==> b.list[k].name in Names(a.list);
      if !c.value {
        all := all + [b.list[k]];
      }
      assert b.list[..k + 1][..k] == b.list[..k];
      k := k + 1;
    }
    assert b.list[..k] == b.list;
  }

  /** B's Series takes the slot of A's axis d when they are aligned. */
  lemma SlotFacts<T>(a: Cube<T>, b: Cube<T>)
    requires ValidCube(a) && ValidCube(b) && AllAlign(a, b)
    ensures Names(SlotAxes(a.axes.list, AlignSteps(a, b))) == Names(a.axes.list)
    ensures forall d :: 0 <= d < |a.axes.list| ==> Valid(SlotAxes(a.axes.list, AlignSteps(a, b))[d])
    ensures GatherShape(GatherA(a.values.shape, AlignSteps(a, b))) == Lengths(SlotAxes(a.axes.list, AlignSteps(a, b)))
    ensures GatherFits(GatherA(a.values.shape, AlignSteps(a, b)), a.values.shape)
  {
    var list := a.axes.list;
    var steps := AlignSteps(a, b);
    var s := SlotAxes(list, steps);
    var g := GatherA(a.values.shape, steps);
    forall d | 0 <= d < |list|
      ensures Names(s)[d] == Names(list)[d] && Valid(s[d]) && GatherShape(g)[d] == Lengths(s)[d]
      ensures forall t :: 0 <= t < |g[d]| ==> g[d][t] < a.values.shape[d]
    {
      assert AlignStep(list[d], b.axes) == Ok(steps[d]);
      if steps[d].TakeA? {
        var kb := NamePosition(b.axes.list, list[d].name).value;
        assert Valid(b.axes.list[kb]);
      }
    }
  }

  /** `all_axes` once both loops are done. */
  function ResultAxes<T>(a: Cube<T>, b: Cube<T>): seq<Axis>
    requires ValidCube(a) && ValidCube(b) && AllAlign(a, b)
  {
    SlotAxes(a.axes.list, AlignSteps(a, b)) + BOnly(a.axes.list, b.axes.list)
  }

  lemma NamesConcatDistinct(s: seq<Axis>, o: seq<Axis>)
    requires Distinct(Names(s)) && Distinct(Names(o))
    requires forall t :: 0 <= t < |o| ==> o[t].name !in Names(s)
    ensures Distinct(Names(s + o))
  {
    var r := s + o;
    forall i, j | 0 <= i < j < |r| ensures Names(r)[i] != Names(r)[j] {
      if j < |s| {
        assert Names(s)[i] != Names(s)[j];
      } else if i >= |s| {
        assert Names(o)[i - |s|] != Names(o)[j - |s|];
      } else {
        assert Names(r)[i] == Names(s)[i] && Names(r)[j] == o[j - |s|].name;
      }
    }
  }

  lemma FirstIndexDistinct<X>(s: seq<X>, d: nat)
    requires Distinct(s) && d < |s|
    ensures FirstIndex(s, s[d]) == d
  {
  }

  /** Slots named like A's axes, followed by B's axes that A lacks, name
      every axis of B. */
  lemma CoversB(aList: seq<Axis>, bList: seq<Axis>, slots: seq<Axis>)
    requires Names(slots) == Names(aList)
    ensures Covers(slots + BOnly(aList, bList), bList)
  {
    var o := BOnly(aList, bList);
    var R := slots + o;
    forall k | 0 <= k < |bList| ensures bList[k].name in Names(R) {
      if bList[k].name in Names(aList) {
        var d :| 0 <= d < |aList| && Names(aList)[d] == bList[k].name;
        assert Names(R)[d] == Names(slots)[d];
      } else {
        assert bList[k] in o;
        var t :| 0 <= t < |o| && o[t] == bList[k];
        assert R[|slots| + t] == o[t];
        assert Names(R)[|slots| + t] == R[|slots| + t].name;
      }
    }
  }

  /** ... and, with unique names, list A's names first and in A's order. */
  lemma SlotsFirst(aList: seq<Axis>, bList: seq<Axis>, slots: seq<Axis>)
    requires Names(slots) == Names(aList) && Distinct(Names(slots + BOnly(aList, bList)))
    ensures Covers(slots + BOnly(aList, bList), aList)
    ensures forall d :: 0 <= d < |aList| ==> FirstIndex(Names(slots + BOnly(aList, bList)), aList[d].name) == d
  {
    var R := slots + BOnly(aList, bList);
    forall d | 0 <= d < |aList| ensures aList[d].name in Names(R) && FirstIndex(Names(R), aList[d].name) == d {
      assert Names(R)[d] == Names(slots)[d] == Names(aList)[d];
      FirstIndexDistinct(Names(R), d);
    }
  }

  /** The appended axes are well formed axes of B that A lacks. */
  lemma AppendedFacts(aList: seq<Axis>, bList: seq<Axis>, slots: seq<Axis>)
    requires forall d :: 0 <= d < |slots| ==> Valid(slots[d])
    requires forall k :: 0 <= k < |bList| ==> Valid(bList[k])
    ensures forall p :: 0 <= p < |slots + BOnly(aList, bList)| ==> Valid((slots + BOnly(aList, bList))[p])
    ensures forall p :: |slots| <= p < |slots + BOnly(aList, bList)| ==>
      (slots + BOnly(aList, bList))[p].name !in Names(aList) && (slots + BOnly(aList, bList))[p] in bList
  {
    var o := BOnly(aList, bList);
    var R := slots + o;
    forall p | 0 <= p < |R| ensures Valid(R[p]) {
      if p >= |slots| {
        assert R[p] == o[p - |slots|];
        var k :| 0 <= k < |bList| && bList[k] == o[p - |slots|];
      }
    }
  }

  /** The result axes have unique names, so they form an Axes collection;
      they name every axis of A, A's axes first and in A's order, and every
      axis of B; the appended ones are B's axes that A lacks. */
  lemma ResultAxesFacts<T>(a: Cube<T>, b: Cube<T>)
    requires ValidCube(a) && ValidCube(b) && AllAlign(a, b)
    ensures ValidAxes(Axes(ResultAxes(a, b)))
    ensures Covers(ResultAxes(a, b), a.axes.list) && Covers(ResultAxes(a, b), b.axes.list)
    ensures forall d :: 0 <= d < |a.axes.list| ==> ResultAxes(a, b)[d].name == a.axes.list[d].name
    ensures forall d :: 0 <= d < |a.axes.list| ==> FirstIndex(Names(ResultAxes(a, b)), a.axes.list[d].name) == d
    ensures forall p :: |a.axes.list| <= p < |ResultAxes(a, b)| ==>
      ResultAxes(a, b)[p].name !in Names(a.axes.list) && ResultAxes(a, b)[p] in b.axes.list
  {
    var A := a.axes.list;
    var B := b.axes.list;
    var S := SlotAxes(A, AlignSteps(a, b));
    var o := BOnly(A, B);
    SlotFacts(a, b);
    BOnlyDistinct(A, B);
    NamesConcatDistinct(S, o);
    CoversB(A, B, S);
    SlotsFirst(A, B, S);
    AppendedFacts(A, B, S);
    assert forall d :: 0 <= d < |A| ==> (S + o)[d].name == Names(S)[d];
  }

  // ---------------------------------------------------------------------
  // The shapes the two operands are broadcast from and to.

  /** The gathers of A's and of B's data after the alignment loop. */
  function GatherOfA<T>(a: Cube<T>, b: Cube<T>): seq<seq<nat>>
    requires ValidCube(a) && ValidCube(b) && AllAlign(a, b)
  {
    GatherA(a.values.shape, AlignSteps(a, b))
  }

  function GatherOfB<T>(a: Cube<T>, b: Cube<T>): seq<seq<nat>>
    requires ValidCube(a) && ValidCube(b) && AllAlign(a, b)
  {
    GatherB(a.axes.list, b.axes.list, b.values.shape, AlignSteps(a, b))
  }

  /** The gather of B's data reads inside B's data. */
  lemma GatherOfBFits<T>(a: Cube<T>, b: Cube<T>)
    requires ValidCube(a) && ValidCube(b) && AllAlign(a, b)
    ensures GatherFits(GatherOfB(a, b), b.values.shape)
  {
    var A := a.axes.list;
    var B := b.axes.list;
    var steps := AlignSteps(a, b);
    var g := GatherOfB(a, b);
    forall kb | 0 <= kb < |B| ensures forall t :: 0 <= t < |g[kb]| ==> g[kb][t] < b.values.shape[kb] {
      match NamePosition(A, B[kb].name)
      case None =>
      case Some(d) =>
        if steps[d].TakeB? {
          assert AlignStep(A[d], b.axes) == Ok(steps[d]);
          NamePositionOwn(B, kb);
        }
    }
  }

  /** A's data is broadcast from its gathered shape to the result axes:
      along its own slots it keeps the slot's length, along the appended
      axes it has length 1. */
  lemma TargetShapeOfA(aList: seq<Axis>, slots: seq<Axis>, appended: seq<Axis>, shape: seq<nat>)
    requires Distinct(Names(aList)) && Names(slots) == Names(aList) && shape == Lengths(slots)
    requires forall t :: 0 <= t < |appended| ==> appended[t].name !in Names(aList)
    ensures forall p :: 0 <= p < |slots + appended| ==>
      TargetShape(shape, aList, slots + appended)[p] == (if p < |aList| then |(slots + appended)[p].values| else 1)
  {
    var R := slots + appended;
    forall p | 0 <= p < |R|
      ensures TargetShape(shape, aList, R)[p] == (if p < |aList| then |R[p].values| else 1)
    {
      if p < |aList| {
        assert R[p].name == Names(slots)[p] == aList[p].name;
        NamePositionOwn(aList, p);
      } else {
        assert R[p] == appended[p - |slots|];
      }
    }
  }

  /** B's data is broadcast from its gathered shape to the result axes:
      along every slot named like an axis of B it has the slot's length,
      elsewhere length 1. This needs ids to identify axes: an axis of B
      sharing its name and id with an axis of A of another length would
      otherwise be broadcast against it. */
  lemma TargetShapeOfBAt<T>(a: Cube<T>, b: Cube<T>, p: nat)
    requires ValidCube(a) && ValidCube(b) && AllAlign(a, b) && Identified(a, b)
    requires p < |ResultAxes(a, b)|
    ensures TargetShape(GatherShape(GatherOfB(a, b)), b.axes.list, ResultAxes(a, b))[p] ==
      (if ResultAxes(a, b)[p].name in Names(b.axes.list) then |ResultAxes(a, b)[p].values| else 1)
  {
    var A := a.axes.list;
    var B := b.axes.list;
    var steps := AlignSteps(a, b);
    var R := ResultAxes(a, b);
    var g := GatherOfB(a, b);
    ResultAxesFacts(a, b);
    match NamePosition(B, R[p].name)
    case None =>
    case Some(kb) =>
      assert Names(B)[kb] == B[kb].name == R[p].name;
      if p < |A| {
        NamePositionOwn(A, p);
        var st := steps[p];
        assert AlignStep(A[p], b.axes) == Ok(st);
        assert R[p] == SlotAxes(A, steps)[p];
        if st.Keep? && A[p].id == B[kb].id {
          assert A[p] == B[kb];
        }
      } else {
        var j :| 0 <= j < |B| && B[j] == R[p];
        NamePositionOwn(B, j);
      }
  }

  /** Two operands whose lengths along every slot are the slot's length or
      1, and not both 1 unless the slot has length 1, broadcast to the
      lengths of the slots. */
  lemma BroadcastToLengths(xs: seq<nat>, ys: seq<nat>, lengths: seq<nat>)
    requires |xs| == |ys| == |lengths|
    requires forall p :: 0 <= p < |xs| ==> (xs[p] == lengths[p] || xs[p] == 1) && (ys[p] == lengths[p] || ys[p] == 1)
    requires forall p :: 0 <= p < |xs| ==> xs[p] == lengths[p] || ys[p] == lengths[p]
    ensures BroadcastShape(xs, ys) == Some(lengths)
  {
    forall p | 0 <= p < |xs| ensures BroadcastDim(xs[p], ys[p]) == Some(lengths[p]) {
    }
    var r := BroadcastShape(xs, ys);
    assert r.Some?;
    assert |r.value| == |lengths|;
    assert forall p :: 0 <= p < |xs| ==> r.value[p] == lengths[p];
    assert r.value == lengths;
  }

  // ---------------------------------------------------------------------
  // Which entries of A and B an entry of the result combines.

  /** The slot of the result named like B's axis kb. */
  function SlotOf<T>(a: Cube<T>, b: Cube<T>, kb: nat): (p: nat)
    requires ValidCube(a) && ValidCube(b) && AllAlign(a, b) && kb < |b.axes.list|
    ensures p < |ResultAxes(a, b)| && ResultAxes(a, b)[p].name == b.axes.list[kb].name
    ensures p == FirstIndex(Names(ResultAxes(a, b)), b.axes.list[kb].name)
  {
    ResultAxesFacts(a, b);
    FirstIndex(Names(ResultAxes(a, b)), b.axes.list[kb].name)
  }

  /** Along B's axis kb, the gather of B's data is as long as the slot it
      is broadcast to. */
  lemma SlotLengthOfB<T>(a: Cube<T>, b: Cube<T>, kb: nat)
    requires ValidCube(a) && ValidCube(b) && AllAlign(a, b) && Identified(a, b) && kb < |b.axes.list|
    ensures |GatherOfB(a, b)[kb]| == |ResultAxes(a, b)[SlotOf(a, b, kb)].values|
  {
    var p := SlotOf(a, b, kb);
    TargetShapeOfBAt(a, b, p);
    NamePositionOwn(b.axes.list, kb);
    assert Names(b.axes.list)[kb] == b.axes.list[kb].name;
  }

  /** The position of A's data that result entry m reads: along each axis
      of A, the gathered position of m's coordinate in that axis's slot. */
  function PositionA<T>(a: Cube<T>, b: Cube<T>, m: seq<nat>): (e: seq<nat>)
    requires ValidCube(a) && ValidCube(b) && AllAlign(a, b) && InBounds(m, Lengths(ResultAxes(a, b)))
    ensures InBounds(e, a.values.shape)
  {
    SlotFacts(a, b);
    ResultAxesFacts(a, b);
    GatherIndex(GatherOfA(a, b), Project(a.axes.list, ResultAxes(a, b), m))
  }

  /** The position of B's data that result entry m reads: along each axis
      of B, the gathered position of m's coordinate in the slot that has
      the axis's name. */
  function PositionB<T>(a: Cube<T>, b: Cube<T>, m: seq<nat>): (e: seq<nat>)
    requires ValidCube(a) && ValidCube(b) && AllAlign(a, b) && Identified(a, b)
    requires InBounds(m, Lengths(ResultAxes(a, b)))
    ensures InBounds(e, b.values.shape)
  {
    GatherOfBFits(a, b);
    ProjectFitsGatherOfB(a, b, m);
    GatherIndex(GatherOfB(a, b), Project(b.axes.list, ResultAxes(a, b), m))
  }

  /** Projected onto B's axes, an entry of the result lies inside the
      gather of B's data. */
  lemma ProjectFitsGatherOfB<T>(a: Cube<T>, b: Cube<T>, m: seq<nat>)
    requires ValidCube(a) && ValidCube(b) && AllAlign(a, b) && Identified(a, b)
    requires InBounds(m, Lengths(ResultAxes(a, b)))
    ensures var e := Project(b.axes.list, ResultAxes(a, b), m);
      |e| == |GatherOfB(a, b)| && forall kb :: 0 <= kb < |e| ==> e[kb] < |GatherOfB(a, b)[kb]|
  {
    GatherOfBFits(a, b);
    var e := Project(b.axes.list, ResultAxes(a, b), m);
    forall kb | 0 <= kb < |b.axes.list| ensures e[kb] < |GatherOfB(a, b)[kb]| {
      var p := SlotOf(a, b, kb);
      assert e[kb] == m[p];
      SlotLengthOfB(a, b, kb);
    }
  }

  /** Along A's axis d, result entry m reads the entry of A whose label is
      the label of slot d at m. */
  lemma LabelOfA<T>(a: Cube<T>, b: Cube<T>, m: seq<nat>, d: nat)
    requires ValidCube(a) && ValidCube(b) && AllAlign(a, b) && InBounds(m, Lengths(ResultAxes(a, b)))
    requires d < |a.axes.list|
    ensures a.axes.list[d].values[PositionA(a, b, m)[d]] == ResultAxes(a, b)[d].values[m[d]]
  {
    var steps := AlignSteps(a, b);
    ResultAxesFacts(a, b);
    assert AlignStep(a.axes.list[d], b.axes) == Ok(steps[d]);
    assert ResultAxes(a, b)[d] == SlotAxes(a.axes.list, steps)[d];
  }

  /** For an axis of B that A shares: B's positions read the labels of
      the slot, whatever the loop decided. */
  lemma SharedAxisRealigns<T>(a: Cube<T>, b: Cube<T>, kb: nat, d: nat)
    requires ValidCube(a) && ValidCube(b) && AllAlign(a, b) && Identified(a, b) && kb < |b.axes.list|
    requires NamePosition(a.axes.list, b.axes.list[kb].name) == Some(d)
    ensures Realigns(GatherOfB(a, b)[kb], b.axes.list[kb], SlotAxes(a.axes.list, AlignSteps(a, b))[d])
  {
    var A := a.axes.list;
    var B := b.axes.list;
    var steps := AlignSteps(a, b);
    NamePositionOwn(B, kb);
    assert AlignStep(A[d], b.axes) == Ok(steps[d]);
    if steps[d].Keep? && A[d].id == B[kb].id {
      assert A[d] == B[kb];
    }
  }

  /** For an axis only B has: B is read as it is, in the appended slot that
      holds that very axis. */
  lemma OwnAxisRealigns<T>(a: Cube<T>, b: Cube<T>, kb: nat)
    requires ValidCube(a) && ValidCube(b) && AllAlign(a, b) && kb < |b.axes.list|
    requires NamePosition(a.axes.list, b.axes.list[kb].name).None?
    ensures SlotOf(a, b, kb) >= |a.axes.list| && ResultAxes(a, b)[SlotOf(a, b, kb)] == b.axes.list[kb]
    ensures GatherOfB(a, b)[kb] == Iota(|b.axes.list[kb].values|)
  {
    var B := b.axes.list;
    var R := ResultAxes(a, b);
    var p := SlotOf(a, b, kb);
    ResultAxesFacts(a, b);
    assert p >= |a.axes.list|;
    var j :| 0 <= j < |B| && B[j] == R[p];
    NamePositionOwn(B, j);
    NamePositionOwn(B, kb);
  }

  /** Along B's axis kb, the gather of B's data reads the labels of the
      result slot with that axis's name. */
  lemma GatherOfBRealigns<T>(a: Cube<T>, b: Cube<T>, kb: nat)
    requires ValidCube(a) && ValidCube(b) && AllAlign(a, b) && Identified(a, b) && kb < |b.axes.list|
    ensures Realigns(GatherOfB(a, b)[kb], b.axes.list[kb], ResultAxes(a, b)[SlotOf(a, b, kb)])
  {
    ResultAxesFacts(a, b);
    match NamePosition(a.axes.list, b.axes.list[kb].name)
    case Some(d) =>
      assert SlotOf(a, b, kb) == d;
      SharedAxisRealigns(a, b, kb, d);
    case None =>
      OwnAxisRealigns(a, b, kb);
  }

  lemma LabelOfB<T>(a: Cube<T>, b: Cube<T>, m: seq<nat>, kb: nat)
    requires ValidCube(a) && ValidCube(b) && AllAlign(a, b) && Identified(a, b)
    requires InBounds(m, Lengths(ResultAxes(a, b))) && kb < |b.axes.list|
    ensures b.axes.list[kb].values[PositionB(a, b, m)[kb]] ==
      ResultAxes(a, b)[SlotOf(a, b, kb)].values[m[SlotOf(a, b, kb)]]
  {
    GatherOfBRealigns(a, b, kb);
    ResultAxesFacts(a, b);
    assert PositionB(a, b, m)[kb] == GatherOfB(a, b)[kb][m[SlotOf(a, b, kb)]];
  }

  /** The partner of the data claim of `Apply2`: every entry of the result
      combines the entries of A and of B that carry, along every axis, the
      labels the result's axes carry at that entry. */
  lemma AlignedLabels<T>(a: Cube<T>, b: Cube<T>, m: seq<nat>)
    requires ValidCube(a) && ValidCube(b) && AllAlign(a, b) && Identified(a, b)
    requires InBounds(m, Lengths(ResultAxes(a, b)))
    ensures forall d :: 0 <= d < |a.axes.list| ==>
      a.axes.list[d].values[PositionA(a, b, m)[d]] == ResultAxes(a, b)[d].values[m[d]]
    ensures forall kb :: 0 <= kb < |b.axes.list| ==>
      b.axes.list[kb].values[PositionB(a, b, m)[kb]] == ResultAxes(a, b)[SlotOf(a, b, kb)].values[m[SlotOf(a, b, kb)]]
  {
    forall d | 0 <= d < |a.axes.list|
      ensures a.axes.list[d].values[PositionA(a, b, m)[d]] == ResultAxes(a, b)[d].values[m[d]]
    {
      LabelOfA(a, b, m, d);
    }
    forall kb | 0 <= kb < |b.axes.list|
      ensures b.axes.list[kb].values[PositionB(a, b, m)[kb]] == ResultAxes(a, b)[SlotOf(a, b, kb)].values[m[SlotOf(a, b, kb)]]
    {
      LabelOfB(a, b, m, kb);
    }
  }

  // ---------------------------------------------------------------------
  // The function applied to the two broadcast operands.

  /** Clamping a result position to an operand's shape changes no
      coordinate the operand reads, when the operand has the slot's full
      length along every slot it reads. */
  lemma ProjectClamped(prev: seq<Axis>, target: seq<Axis>, m: seq<nat>, s: seq<nat>)
    requires InBounds(m, Lengths(target)) && |s| == |target|
    requires forall j :: 0 <= j < |prev| ==> FirstIndex(Names(target), prev[j].name) < |target|
    requires forall j :: 0 <= j < |prev| ==>
      s[FirstIndex(Names(target), prev[j].name)] == |target[FirstIndex(Names(target), prev[j].name)].values|
    ensures Project(prev, target, Clamp(m, s)) == Project(prev, target, m)
  {
  }

  /** A's broadcast operand, read at the clamped result position, holds
      A's entry at `PositionA`. */
  lemma ReadOfA<T>(a: Cube<T>, b: Cube<T>, valuesA: NdArray<T>, x: NdArray<T>, m: seq<nat>)
    requires ValidCube(a) && ValidCube(b) && AllAlign(a, b)
    requires GatherFits(GatherOfA(a, b), a.values.shape) && Same(valuesA, Gather(a.values, GatherOfA(a, b)))
    requires x.shape == TargetShape(valuesA.shape, a.axes.list, ResultAxes(a, b))
    requires forall c :: InBounds(c, x.shape) ==>
      InBounds(Project(a.axes.list, ResultAxes(a, b), c), valuesA.shape) &&
      x.at(c) == valuesA.at(Project(a.axes.list, ResultAxes(a, b), c))
    requires InBounds(m, Lengths(ResultAxes(a, b)))
    ensures InBounds(Clamp(m, x.shape), x.shape) && x.at(Clamp(m, x.shape)) == a.values.at(PositionA(a, b, m))
  {
    var A := a.axes.list;
    var R := ResultAxes(a, b);
    SlotFacts(a, b);
    ResultAxesFacts(a, b);
    TargetShapeOfA(A, SlotAxes(A, AlignSteps(a, b)), BOnly(A, b.axes.list), valuesA.shape);
    ClampInBounds(m, Lengths(R), x.shape);
    ProjectClamped(A, R, m, x.shape);
  }

  /** B's broadcast operand, read at the clamped result position, holds
      B's entry at `PositionB`. */
  lemma ReadOfB<T>(a: Cube<T>, b: Cube<T>, valuesB: NdArray<T>, y: NdArray<T>, m: seq<nat>)
    requires ValidCube(a) && ValidCube(b) && AllAlign(a, b) && Identified(a, b)
    requires GatherFits(GatherOfB(a, b), b.values.shape) && Same(valuesB, Gather(b.values, GatherOfB(a, b)))
    requires y.shape == TargetShape(valuesB.shape, b.axes.list, ResultAxes(a, b))
    requires forall c :: InBounds(c, y.shape) ==>
      InBounds(Project(b.axes.list, ResultAxes(a, b), c), valuesB.shape) &&
      y.at(c) == valuesB.at(Project(b.axes.list, ResultAxes(a, b), c))
    requires InBounds(m, Lengths(ResultAxes(a, b)))
    ensures InBounds(Clamp(m, y.shape), y.shape) && y.at(Clamp(m, y.shape)) == b.values.at(PositionB(a, b, m))
  {
    var B := b.axes.list;
    var R := ResultAxes(a, b);
    SlotsOfB(a, b, valuesB.shape);
    ClampInBounds(m, Lengths(R), y.shape);
    ProjectClamped(B, R, m, y.shape);
    var c := Clamp(m, y.shape);
    var e := Project(B, R, m);
    assert y.at(c) == valuesB.at(e);
    assert valuesB.at(e) == Gather(b.values, GatherOfB(a, b)).at(e);
  }

  /** B's broadcast operand has, along every slot, the slot's length or 1,
      and the slot's length along each slot named like an axis of B. */
  lemma SlotsOfB<T>(a: Cube<T>, b: Cube<T>, shapeB: seq<nat>)
    requires ValidCube(a) && ValidCube(b) && AllAlign(a, b) && Identified(a, b)
    requires shapeB == GatherShape(GatherOfB(a, b))
    ensures forall p :: 0 <= p < |ResultAxes(a, b)| ==>
      TargetShape(shapeB, b.axes.list, ResultAxes(a, b))[p] == Lengths(ResultAxes(a, b))[p] ||
      TargetShape(shapeB, b.axes.list, ResultAxes(a, b))[p] == 1
    ensures forall kb :: 0 <= kb < |b.axes.list| ==>
      FirstIndex(Names(ResultAxes(a, b)), b.axes.list[kb].name) < |ResultAxes(a, b)| &&
      TargetShape(shapeB, b.axes.list, ResultAxes(a, b))[FirstIndex(Names(ResultAxes(a, b)), b.axes.list[kb].name)] ==
      |ResultAxes(a, b)[FirstIndex(Names(ResultAxes(a, b)), b.axes.list[kb].name)].values|
  {
    var B := b.axes.list;
    var R := ResultAxes(a, b);
    TargetShapeOfB(a, b, shapeB);
    forall kb | 0 <= kb < |B|
      ensures FirstIndex(Names(R), B[kb].name) < |R| &&
        TargetShape(shapeB, B, R)[FirstIndex(Names(R), B[kb].name)] == |R[FirstIndex(Names(R), B[kb].name)].values|
    {
      var p := SlotOf(a, b, kb);
      assert Names(B)[kb] == B[kb].name;
    }
  }

  lemma TargetShapeOfB<T>(a: Cube<T>, b: Cube<T>, shapeB: seq<nat>)
    requires ValidCube(a) && ValidCube(b) && AllAlign(a, b) && Identified(a, b)
    requires shapeB == GatherShape(GatherOfB(a, b))
    ensures forall p :: 0 <= p < |ResultAxes(a, b)| ==>
      TargetShape(shapeB, b.axes.list, ResultAxes(a, b))[p] ==
      (if ResultAxes(a, b)[p].name in Names(b.axes.list) then |ResultAxes(a, b)[p].values| else 1)
  {
    forall p | 0 <= p < |ResultAxes(a, b)|
      ensures TargetShape(shapeB, b.axes.list, ResultAxes(a, b))[p] ==
        (if ResultAxes(a, b)[p].name in Names(b.axes.list) then |ResultAxes(a, b)[p].values| else 1)
    {
      TargetShapeOfBAt(a, b, p);
    }
  }

  lemma AppendedNamedInB(aList: seq<Axis>, bList: seq<Axis>, slots: seq<Axis>)
    ensures forall p :: |slots| <= p < |slots + BOnly(aList, bList)| ==>
      (slots + BOnly(aList, bList))[p].name in Names(bList)
  {
    var R := slots + BOnly(aList, bList);
    forall p | |slots| <= p < |R| ensures R[p].name in Names(bList) {
      assert R[p] == BOnly(aList, bList)[p - |slots|];
      var k :| 0 <= k < |bList| && bList[k] == R[p];
      assert Names(bList)[k] == R[p].name;
    }
  }

  /** When ids identify axes, the two broadcast operands broadcast together
      to the lengths of the result axes. */
  lemma BroadcastBoth<T>(a: Cube<T>, b: Cube<T>, shapeA: seq<nat>, shapeB: seq<nat>)
    requires ValidCube(a) && ValidCube(b) && AllAlign(a, b) && Identified(a, b)
    requires shapeA == GatherShape(GatherOfA(a, b)) && shapeB == GatherShape(GatherOfB(a, b))
    ensures BroadcastShape(TargetShape(shapeA, a.axes.list, ResultAxes(a, b)),
      TargetShape(shapeB, b.axes.list, ResultAxes(a, b))) == Some(Lengths(ResultAxes(a, b)))
  {
    var A := a.axes.list;
    var B := b.axes.list;
    var R := ResultAxes(a, b);
    var xs := TargetShape(shapeA, A, R);
    var ys := TargetShape(shapeB, B, R);
    var L := Lengths(R);
    SlotFacts(a, b);
    TargetShapeOfA(A, SlotAxes(A, AlignSteps(a, b)), BOnly(A, B), shapeA);
    TargetShapeOfB(a, b, shapeB);
    AppendedNamedInB(A, B, SlotAxes(A, AlignSteps(a, b)));
    assert |xs| == |ys| == |L|;
    forall p | 0 <= p < |xs|
      ensures (xs[p] == L[p] || xs[p] == 1) && (ys[p] == L[p] || ys[p] == 1)
      ensures xs[p] == L[p] || ys[p] == L[p]
    {
    }
    BroadcastToLengths(xs, ys, L);
  }

  /** The result of the two-cube case holds, at every position of the
      result axes, the function of the entries of A and B matched there. */
  ghost predicate ReadsAligned<T>(a: Cube<T>, b: Cube<T>, f: (T, T) -> T, v: NdArray<T>)
    requires ValidCube(a) && ValidCube(b) && AllAlign(a, b) && Identified(a, b)
  {
    v.shape == Lengths(ResultAxes(a, b)) &&
    forall m :: InBounds(m, v.shape) ==> v.at(m) == f(a.values.at(PositionA(a, b, m)), b.values.at(PositionB(a, b, m)))
  }

  /** What `apply2` promises for two cubes: an axis of A that cannot be
      aligned with its namesake in B is an AxisAlignError; otherwise the
      result has the result axes and, when ids identify axes, it exists
      and combines the matched entries. */
  ghost predicate Applied<T>(a: Cube<T>, b: Cube<T>, f: (T, T) -> T, r: Result<Cube<T>>)
    requires ValidCube(a) && ValidCube(b)
  {
    (!AllAlign(a, b) ==> r == Err(AxisAlignError)) &&
    (AllAlign(a, b) ==>
      (r.Err? ==> r.error == ValueError) &&
      (r.Ok? ==> ValidCube(r.value) && r.value.axes.list == ResultAxes(a, b)) &&
      (Identified(a, b) ==> r.Ok? && ReadsAligned(a, b, f, r.value.values)))
  }

  /** `apply2(a, b, func)` for two cubes. */
  method ApplyCubes<T>(a: Cube<T>, b: Cube<T>, f: (T, T) -> T) returns (r: Result<Cube<T>>)
    requires ValidCube(a) && ValidCube(b)
    ensures Applied(a, b, f, r)
  {
    var aligned := AlignCubes(a, b);
    if aligned.Err? {
      return Err(aligned.error);
    }
    var (valuesA, valuesB, slots) := aligned.value;
    var all := AppendBOnly(a.axes, b.axes, slots);
    assert all == ResultAxes(a, b);
    ResultAxesFacts(a, b);
    var xa := BroadcastValues(valuesA, a.axes, all);
    var xb := BroadcastValues(valuesB, b.axes, all);
    if Identified(a, b) {
      BroadcastBoth(a, b, valuesA.shape, valuesB.shape);
    }
    var values := Ufunc2(f, xa.value, xb.value);
    if values.Err? {
      return Err(ValueError);
    }
    var axes := FromList(all);
    r := NewCube(values.value, axes.value);
    if Identified(a, b) {
      forall m | InBounds(m, values.value.shape)
        ensures values.value.at(m) == f(a.values.at(PositionA(a, b, m)), b.values.at(PositionB(a, b, m)))
      {
        ReadOfA(a, b, valuesA, xa.value, m);
        ReadOfB(a, b, valuesB, xb.value, m);
      }
    }
  }

  /** An operand of `apply2`: a cube, or anything else, which the function
      takes as a scalar. */
  datatype Operand<T> = CubeOperand(cube: Cube<T>) | Scalar(x: T)

  /** `apply2(a, b, func)`. A non-cube A is combined with every entry of
      B's data under B's axes, and this asks B for its values, so two
      non-cubes are an AttributeError; a non-cube B is combined with every
      entry of A's data under A's axes; two cubes are aligned. */
  method Apply2<T>(a: Operand<T>, b: Operand<T>, f: (T, T) -> T) returns (r: Result<Cube<T>>)
    requires a.CubeOperand? ==> ValidCube(a.cube)
    requires b.CubeOperand? ==> ValidCube(b.cube)
    ensures a.Scalar? && b.Scalar? ==> r == Err(AttributeError)
    ensures a.Scalar? && b.CubeOperand? ==>
      r.Ok? && r.value.axes == b.cube.axes && r.value.values.shape == b.cube.values.shape &&
      forall m :: InBounds(m, r.value.values.shape) ==> r.value.values.at(m) == f(a.x, b.cube.values.at(m))
    ensures a.CubeOperand? && b.Scalar? ==>
      r.Ok? && r.value.axes == a.cube.axes && r.value.values.shape == a.cube.values.shape &&
      forall m :: InBounds(m, r.value.values.shape) ==> r.value.values.at(m) == f(a.cube.values.at(m), b.x)
    ensures a.CubeOperand? && b.CubeOperand? ==> Applied(a.cube, b.cube, f, r)
  {
    if a.Scalar? {
      if b.Scalar? {
        return Err(AttributeError);
      }
      return NewCube(MapLeft(f, a.x, b.cube.values), b.cube.axes);
    }
    if b.Scalar? {
      return NewCube(MapRight(f, a.cube.values, b.x), a.cube.axes);
    }
    r := ApplyCubes(a.cube, b.cube, f);
  }

  /** Only an Index of A met by a Series of B with another id gives its
      slot to B's axis; every other slot keeps A's axis. */
  lemma SlotOwner<T>(a: Cube<T>, b: Cube<T>, d: nat)
    requires ValidCube(a) && ValidCube(b) && AllAlign(a, b) && d < |a.axes.list|
    ensures ResultAxes(a, b)[d] == (match NamePosition(b.axes.list, a.axes.list[d].name)
      case Some(kb) =>
        if a.axes.list[d].kind.IndexKind? && b.axes.list[kb].kind.SeriesKind? && a.axes.list[d].id != b.axes.list[kb].id
        then b.axes.list[kb] else a.axes.list[d]
      case None => a.axes.list[d])
  {
    var steps := AlignSteps(a, b);
    assert AlignStep(a.axes.list[d], b.axes) == Ok(steps[d]);
    assert ResultAxes(a, b)[d] == SlotAxes(a.axes.list, steps)[d];
  }

  /** A cube combined with itself needs no alignment: every step keeps the
      axis, and the result has the cube's own axes. */
  lemma ItselfAligned<T>(a: Cube<T>)
    requires ValidCube(a)
    ensures AllAlign(a, a) && Identified(a, a)
    ensures forall d :: 0 <= d < |a.axes.list| ==> AlignSteps(a, a)[d] == Keep
    ensures ResultAxes(a, a) == a.axes.list
  {
    var A := a.axes.list;
    forall d | 0 <= d < |A| ensures Aligns(A[d], A) {
      NamePositionOwn(A, d);
    }
    forall d, kb | 0 <= d < |A| && 0 <= kb < |A| && A[d].name == A[kb].name ensures d == kb {
      assert Names(A)[d] == Names(A)[kb];
    }
    var steps := AlignSteps(a, a);
    forall d | 0 <= d < |A| ensures steps[d] == Keep {
      NamePositionOwn(A, d);
      assert AlignStep(A[d], a.axes) == Ok(steps[d]);
    }
    assert SlotAxes(A, steps) == A;
    forall k | 0 <= k < |A| ensures A[k].name in Names(A) {
      assert Names(A)[k] == A[k].name;
    }
    NothingAppended(A, A);
  }

  /** ... and combines every entry with itself. */
  lemma ApplyToItself<T>(a: Cube<T>, m: seq<nat>)
    requires ValidCube(a) && InBounds(m, a.values.shape)
    ensures AllAlign(a, a) && Identified(a, a) && ResultAxes(a, a) == a.axes.list
    ensures PositionA(a, a, m) == m && PositionB(a, a, m) == m
  {
    ItselfAligned(a);
    ResultAxesFacts(a, a);
    ProjectOntoItself(a.axes.list, m);
    ItselfGathersA(a);
    ItselfGathersB(a);
  }

  /** Projecting onto the same distinct-named axes changes nothing. */
  lemma ProjectOntoItself(list: seq<Axis>, m: seq<nat>)
    requires Distinct(Names(list)) && |m| == |list|
    ensures Project(list, list, m) == m
  {
    var e := Project(list, list, m);
    forall d | 0 <= d < |list| ensures e[d] == m[d] {
      NamePositionOwn(list, d);
    }
  }

  /** Combined with itself, A's data is gathered whole ... */
  lemma ItselfGathersA<T>(a: Cube<T>)
    requires ValidCube(a) && AllAlign(a, a)
    requires forall d :: 0 <= d < |a.axes.list| ==> AlignSteps(a, a)[d] == Keep
    ensures forall d :: 0 <= d < |a.axes.list| ==> GatherOfA(a, a)[d] == Iota(a.values.shape[d])
  {
  }

  /** ... and so is the same data read as B's. */
  lemma ItselfGathersB<T>(a: Cube<T>)
    requires ValidCube(a) && AllAlign(a, a)
    requires forall d :: 0 <= d < |a.axes.list| ==> AlignSteps(a, a)[d] == Keep
    ensures forall d :: 0 <= d < |a.axes.list| ==> GatherOfB(a, a)[d] == Iota(a.values.shape[d])
  {
    forall d | 0 <= d < |a.axes.list| ensures GatherOfB(a, a)[d] == Iota(a.values.shape[d]) {
      NamePositionOwn(a.axes.list, d);
    }
  }

  /** Nothing is appended when A names every axis of B. */
  lemma {:induction false} NothingAppended(aList: seq<Axis>, bList: seq<Axis>)
    requires forall k :: 0 <= k < |bList| ==> bList[k].name in Names(aList)
    ensures BOnly(aList, bList) == []
    decreases |bList|
  {
    if bList != [] {
      NothingAppended(aList, bList[..|bList| - 1]);
    }
  }
}
