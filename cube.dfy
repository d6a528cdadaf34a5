/** The cube: an array whose every dimension is described by a named,
    labelled axis, and the methods that return a reshaped or relabelled
    cube. */
module Cubes {
  import opened Errors
  import opened Labels
  import opened Arrays
  import opened AxisTypes
  import opened AxisCollection

  datatype Cube<T> = Cube(values: NdArray<T>, axes: Axes)

  /** The lengths the axes prescribe for the dimensions. */
  function Lengths(list: seq<Axis>): (r: seq<nat>)
    ensures |r| == |list| && forall i :: 0 <= i < |list| ==> r[i] == |list[i].values|
  {
    seq(|list|, i requires 0 <= i < |list| => |list[i].values|)
  }

  /** The constructor's invariant. */
  predicate ValidCube<T>(c: Cube<T>) {
    ValidAxes(c.axes) && c.values.shape == Lengths(c.axes.list)
  }

  /** `Cube(values, axes)` with an Axes object: one axis per dimension
      (ValueError), then each dimension as long as its axis (ValueError). */
  function NewCube<T>(values: NdArray<T>, axes: Axes): (r: Result<Cube<T>>)
    ensures r.Ok? <==> values.shape == Lengths(axes.list)
    ensures r.Err? ==> r.error == ValueError
    ensures r.Ok? ==> r.value == Cube(values, axes)
  {
    if |values.shape| != |axes.list| then Err(ValueError)
    else if exists i :: 0 <= i < |axes.list| && values.shape[i] != |axes.list[i].values| then Err(ValueError)
    else Ok(Cube(values, axes))
  }

  /** `Cube(values, axes)` with anything else: the argument is made into an
      Axes object first, and its errors come first. */
  function NewCubeFrom<T>(values: NdArray<T>, arg: AxesArg): (r: Result<Cube<T>>)
    ensures FromItems(arg).Err? ==> r == Err(FromItems(arg).error)
    ensures FromItems(arg).Ok? ==> r == NewCube(values, FromItems(arg).value)
  {
    var axes :- FromItems(arg);
    NewCube(values, axes)
  }

  /** Every cube the constructor accepts from well-formed axes is valid. */
  lemma NewCubeValid<T>(values: NdArray<T>, arg: AxesArg)
    requires arg.OneAxis? ==> Valid(arg.axis)
    requires arg.Items? ==> forall i :: 0 <= i < |arg.items| && arg.items[i].AxisItem? ==> Valid(arg.items[i].axis)
    ensures NewCubeFrom(values, arg).Ok? ==> ValidCube(NewCubeFrom(values, arg).value)
  {
  }

  // ---------------------------------------------------------------------
  // Shape methods.

  /** `transpose(ids)`: the count is checked (ValueError), the axes are
      reordered by `Axes.transpose`, and the values by numpy's transpose at
      the looked-up positions. */
  function Transpose<T>(c: Cube<T>, ids: seq<Arg>): (r: Result<Cube<T>>)
    requires ValidCube(c)
    ensures |ids| != |c.axes.list| ==> r == Err(ValueError)
    ensures |ids| == |c.axes.list| ==> (r.Ok? <==> AxisCollection.Transpose(c.axes, ids).Ok?)
    ensures |ids| == |c.axes.list| && r.Err? ==> r.error == AxisCollection.Transpose(c.axes, ids).error
    ensures r.Ok? ==> ValidCube(r.value) && r.value.axes == AxisCollection.Transpose(c.axes, ids).value
    ensures r.Ok? ==> IsPermutation(ResolveAll(c.axes, ids).value, |c.axes.list|)
    ensures r.Ok? ==> var p := ResolveAll(c.axes, ids).value;
      r.value.values.shape == Permute(c.values.shape, p) &&
      forall m :: InBounds(m, r.value.values.shape) ==> r.value.values.at(m) == c.values.at(Unpermute(m, p))
  {
    if |ids| != |c.axes.list| then Err(ValueError)
    else
      var axes :- AxisCollection.Transpose(c.axes, ids);
      var p := ResolveAll(c.axes, ids).value;
      var values := Arrays.Transpose(c.values, p).value;
      assert values.shape == Lengths(axes.list) by {
        forall i | 0 <= i < |axes.list| ensures values.shape[i] == |axes.list[i].values| {
          assert Get(c.axes, ids[i]) == Ok(axes.list[i]);
        }
      }
      NewCube(values, axes)
  }

  function IntArgs(ps: seq<nat>): (r: seq<Arg>)
    ensures |r| == |ps| && forall k :: 0 <= k < |ps| ==> r[k] == IntArg(ps[k])
  {
    seq(|ps|, k requires 0 <= k < |ps| => IntArg(ps[k]))
  }

  /** Transposing by the inverse positions restores the cube. */
  lemma TransposeRoundTrip<T>(c: Cube<T>, ids: seq<Arg>)
    requires ValidCube(c) && Transpose(c, ids).Ok?
    ensures var q := Inverse(ResolveAll(c.axes, ids).value);
      Transpose(Transpose(c, ids).value, IntArgs(q)).Ok? &&
      Transpose(Transpose(c, ids).value, IntArgs(q)).value.axes == c.axes &&
      Same(Transpose(Transpose(c, ids).value, IntArgs(q)).value.values, c.values)
  {
    var p := ResolveAll(c.axes, ids).value;
    var q := Inverse(p);
    var d := Transpose(c, ids).value;
    InverseFacts(p);
    var qs := IntArgs(q);
    assert ResolveAll(d.axes, qs).Ok? && ResolveAll(d.axes, qs).value == q by {
      forall k | 0 <= k < |qs| ensures Resolve(d.axes, qs[k]) == Ok(q[k]) { }
    }
    var e := Transpose(d, qs);
    assert e.Ok?;
    assert e.value.axes.list == c.axes.list by {
      forall i | 0 <= i < |c.axes.list| ensures e.value.axes.list[i] == c.axes.list[i] {
        assert Get(d.axes, qs[i]) == Ok(e.value.axes.list[i]);
        assert Get(c.axes, ids[q[i]]) == Ok(d.axes.list[q[i]]);
      }
    }
    PermuteInverse(c.values.shape, p);
    forall m | InBounds(m, c.values.shape) ensures e.value.values.at(m) == c.values.at(m) {
      UnpermuteByInverse(m, p);
      UnpermutePermute(m, p);
    }
  }

  /** `swap_axes(id1, id2)`: the two looked-up axes and dimensions trade
      places. */
  function SwapAxes<T>(c: Cube<T>, id1: Arg, id2: Arg): (r: Result<Cube<T>>)
    requires ValidCube(c)
    ensures Resolve(c.axes, id1).Err? ==> r == Err(Resolve(c.axes, id1).error)
    ensures Resolve(c.axes, id1).Ok? && Resolve(c.axes, id2).Err? ==> r == Err(Resolve(c.axes, id2).error)
    ensures r.Ok? <==> Resolve(c.axes, id1).Ok? && Resolve(c.axes, id2).Ok?
    ensures r.Ok? ==> ValidCube(r.value)
    ensures r.Ok? ==> var i, j := Resolve(c.axes, id1).value, Resolve(c.axes, id2).value;
      r.value.axes.list == c.axes.list[i := c.axes.list[j]][j := c.axes.list[i]] &&
      r.value.values == Arrays.SwapAxes(c.values, i, j)
  {
    var i :- Resolve(c.axes, id1);
    var j :- Resolve(c.axes, id2);
    var axes := Swap(c.axes, IntArg(i), IntArg(j)).value;
    NewCube(Arrays.SwapAxes(c.values, i, j), axes)
  }

  /** Swapping the same two dimensions twice restores the cube. */
  lemma SwapAxesTwice<T>(c: Cube<T>, i: nat, j: nat)
    requires ValidCube(c) && i < |c.axes.list| && j < |c.axes.list|
    ensures SwapAxes(c, IntArg(i), IntArg(j)).Ok?
    ensures var d := SwapAxes(c, IntArg(i), IntArg(j)).value;
      SwapAxes(d, IntArg(i), IntArg(j)).Ok? &&
      SwapAxes(d, IntArg(i), IntArg(j)).value.axes == c.axes &&
      Same(SwapAxes(d, IntArg(i), IntArg(j)).value.values, c.values)
  {
    var d := SwapAxes(c, IntArg(i), IntArg(j)).value;
    var e := SwapAxes(d, IntArg(i), IntArg(j)).value;
    SwapSeqTwice(c.axes.list, i, j);
    assert e.axes.list == c.axes.list;
    Arrays.SwapAxesTwiceSame(c.values, i, j);
  }

  /** `replace_axis(old_id, new_axis)`: `Axes.replace`, then the
      constructor's length check on the unchanged values. */
  function ReplaceAxis<T>(c: Cube<T>, oldId: Arg, ax: Axis): (r: Result<Cube<T>>)
    requires ValidCube(c)
    ensures Replace(c.axes, oldId, ax).Err? ==> r == Err(Replace(c.axes, oldId, ax).error)
    ensures Replace(c.axes, oldId, ax).Ok? ==>
      (r.Ok? <==> |ax.values| == |c.axes.list[Resolve(c.axes, oldId).value].values|)
    ensures Replace(c.axes, oldId, ax).Ok? && r.Err? ==> r.error == ValueError
    ensures r.Ok? ==> r.value == Cube(c.values, Replace(c.axes, oldId, ax).value)
  {
    var axes :- Replace(c.axes, oldId, ax);
    NewCube(c.values, axes)
  }

  /** The axis dimension np.expand_dims uses: negative positions count from
      the end of the new rank; anything outside [-(n+1), n] is numpy's
      AxisError, a ValueError. */
  function ExpandDimsPosition(index: int, n: nat): (r: Result<nat>)
    ensures r.Ok? <==> -(n as int) - 1 <= index <= n
    ensures r.Err? ==> r.error == ValueError
    ensures r.Ok? ==> r.value <= n && r.value == (if index < 0 then index + n + 1 else index)
  {
    if index < -(n as int) - 1 || index > n then Err(ValueError)
    else if index < 0 then Ok(index + n + 1)
    else Ok(index)
  }

  /** `insert_axis(axis, index)` as written: the axis goes where
      `list.insert` puts it, the new dimension where np.expand_dims puts it,
      and the values are repeated len(axis) times along it. The Cube
      constructor then rejects a shape that disagrees with the axes. */
  function InsertAxisAsWritten<T>(c: Cube<T>, ax: Axis, index: int): (r: Result<Cube<T>>)
    requires ValidCube(c)
    ensures Insert(c.axes, ax, index).Err? ==> r == Err(ValueError)
    ensures Insert(c.axes, ax, index).Ok? && ExpandDimsPosition(index, |c.axes.list|).Err? ==> r == Err(ValueError)
    ensures Insert(c.axes, ax, index).Ok? && ExpandDimsPosition(index, |c.axes.list|).Ok? ==>
      var k := ExpandDimsPosition(index, |c.axes.list|).value;
      (r.Ok? <==> Lengths(Insert(c.axes, ax, index).value.list) == Repeat(ExpandDims(c.values, k), k, |ax.values|).shape)
    ensures r.Err? ==> r.error == ValueError
    ensures r.Ok? ==> ExpandDimsPosition(index, |c.axes.list|).Ok?
    ensures r.Ok? ==> var k := ExpandDimsPosition(index, |c.axes.list|).value;
      r.value.axes == Insert(c.axes, ax, index).value &&
      r.value.values == Repeat(ExpandDims(c.values, k), k, |ax.values|)
  {
    var axes :- Insert(c.axes, ax, index);
    var k :- ExpandDimsPosition(index, |c.axes.list|);
    NewCube(Repeat(ExpandDims(c.values, k), k, |ax.values|), axes)
  }

  /** A two-axis cube whose entry at (a, b) is b, and a new axis x; the
      last axis and the new one both have two labels. */
  const ExampleCube: Cube<int> := Cube(NdArray([2, 2], (m: seq<nat>) => if |m| == 2 then m[1] as int else 0),
    Axes([Axis(0, "a", [IntValue(0), IntValue(1)], SeriesKind), Axis(1, "b", [IntValue(0), IntValue(1)], SeriesKind)]))
  const ExampleAxis: Axis := Axis(2, "x", [IntValue(0), IntValue(1)], SeriesKind)

  /** `list.insert(-1, x)` puts x before the last axis. */
  lemma ExampleInsertNames()
    ensures ValidCube(ExampleCube)
    ensures Insert(ExampleCube.axes, ExampleAxis, -1).Ok?
    ensures Names(Insert(ExampleCube.axes, ExampleAxis, -1).value.list) == ["a", "x", "b"]
  {
    var c := ExampleCube;
    assert Names(c.axes.list) == ["a", "b"];
    var ins := Insert(c.axes, ExampleAxis, -1);
    assert InsertPosition(-1, 2) == 1;
    assert ins.value.list == [c.axes.list[0], ExampleAxis, c.axes.list[1]];
  }

  /** np.expand_dims(values, -1) puts the new dimension last: the entry at
      (0, 1, 0) of the repeated values is the data of b = 1. */
  lemma ExampleRepeatedEntry()
    ensures Repeat(ExpandDims(ExampleCube.values, 2), 2, 2).at([0, 1, 0]) == 1
  {
    var e := ExpandDims(ExampleCube.values, 2);
    var m: seq<nat> := [0, 1, 0];
    assert m[2 := m[2] / 2] == [0, 1, 0];
    assert m[..2] + m[3..] == [0, 1];
    assert e.at(m) == ExampleCube.values.at([0, 1]);
  }

  /** With index -1 on a two-axis cube whose last axis has as many labels as
      the new one, the insert succeeds but the data of the last axis sits
      under the new axis's labels: the entry labelled (a=0, x=1, b=0) holds
      the data of b=1. */
  lemma InsertAxisNegativeIndexMislabels()
    ensures var r := InsertAxisAsWritten(ExampleCube, ExampleAxis, -1);
      r.Ok? && Names(r.value.axes.list) == ["a", "x", "b"] &&
      r.value.values.at([0, 1, 0]) == 1 && ExampleCube.values.at([0, 0]) == 0
  {
    ExampleInsertNames();
    ExampleRepeatedEntry();
    var rep := Repeat(ExpandDims(ExampleCube.values, 2), 2, 2);
    assert rep.shape == [2, 2, 2];
    assert ExpandDimsPosition(-1, 2) == Ok(2);
  }

  /** `insert_axis(axis, index)` with the axis and the new dimension at the
      same position: the one `list.insert` chooses. */
  function InsertAxis<T>(c: Cube<T>, ax: Axis, index: int): (r: Result<Cube<T>>)
    requires ValidCube(c)
    ensures r.Ok? <==> ax.name !in Names(c.axes.list)
    ensures r.Err? ==> r.error == ValueError
    ensures r.Ok? ==> r.value.axes == Insert(c.axes, ax, index).value
    ensures r.Ok? ==> Valid(ax) ==> ValidCube(r.value)
    ensures r.Ok? ==> SpreadAlong(r.value.values, c.values, InsertPosition(index, |c.axes.list|))
  {
    if ax.name in Names(c.axes.list) then Err(ValueError)
    else
      var axes := Insert(c.axes, ax, index).value;
      var p := InsertPosition(index, |c.axes.list|);
      var rep := Repeat(ExpandDims(c.values, p), p, |ax.values|);
      RepeatExpanded(c.values, p, |ax.values|);
      InsertedLengths(c, ax, index, axes);
      Ok(Cube(rep, axes))
  }

  lemma InsertedLengths<T>(c: Cube<T>, ax: Axis, index: int, axes: Axes)
    requires ValidCube(c) && Insert(c.axes, ax, index) == Ok(axes)
    ensures var p := InsertPosition(index, |c.axes.list|);
      Lengths(axes.list) == c.values.shape[..p] + [|ax.values|] + c.values.shape[p..]
    ensures Valid(ax) ==> ValidAxes(axes)
  {
    var p := InsertPosition(index, |c.axes.list|);
    PlacedLengths(axes.list, c.axes.list, p);
    if Valid(ax) {
      InsertedValid(axes.list, c.axes.list, p);
    }
  }

  /** The lengths of a list with one axis placed at p. */
  lemma PlacedLengths(t: seq<Axis>, s: seq<Axis>, p: nat)
    requires p < |t| && t[..p] + t[p + 1..] == s
    ensures Lengths(t) == Lengths(s)[..p] + [|t[p].values|] + Lengths(s)[p..]
  {
    PlacedAt(t, s, p);
    var got, shape := Lengths(t), Lengths(s);
    assert forall i :: 0 <= i < p ==> got[i] == shape[i];
    assert forall i :: p < i < |got| ==> got[i] == shape[i - 1];
    InsertedShape(shape, got, p);
  }

  /** Placing a well-formed axis among well-formed axes. */
  lemma InsertedValid(t: seq<Axis>, s: seq<Axis>, p: nat)
    requires p < |t| && Valid(t[p]) && t[..p] + t[p + 1..] == s
    requires forall i :: 0 <= i < |s| ==> Valid(s[i])
    ensures forall i :: 0 <= i < |t| ==> Valid(t[i])
  {
    PlacedAt(t, s, p);
    forall i | 0 <= i < |t| ensures Valid(t[i]) {
      if i < p {
        assert t[i] == s[i];
      } else if i > p {
        assert t[i] == s[i - 1];
      }
    }
  }

  /** Lengths laid out like `s` with one entry placed at p. */
  lemma InsertedShape(shape: seq<nat>, got: seq<nat>, p: nat)
    requires p < |got| == |shape| + 1
    requires forall i :: 0 <= i < p ==> got[i] == shape[i]
    requires forall i :: p < i < |got| ==> got[i] == shape[i - 1]
    ensures got == shape[..p] + [got[p]] + shape[p..]
  {
    var want := shape[..p] + [got[p]] + shape[p..];
    forall i | 0 <= i < |got| ensures got[i] == want[i] {
      if i < p {
        assert want[i] == shape[i];
      } else if i > p {
        assert want[i] == shape[i - 1];
      }
    }
  }

  /** Removing the entry at `p` of `t` gives `s`: the entries before `p`
      are those of `s`, the ones after it are shifted by one. */
  lemma PlacedAt<X>(t: seq<X>, s: seq<X>, p: nat)
    requires p < |t| && t[..p] + t[p + 1..] == s
    ensures forall i :: 0 <= i < p ==> t[i] == s[i]
    ensures forall i :: p < i < |t| ==> t[i] == s[i - 1]
  {
    forall i | 0 <= i < p ensures t[i] == s[i] {
      assert s[i] == (t[..p] + t[p + 1..])[i];
    }
    forall i | p < i < |t| ensures t[i] == s[i - 1] {
      assert s[i - 1] == (t[..p] + t[p + 1..])[i - 1];
    }
  }

  /** `align_axis(new_axis)`: the axis of the same name is looked up
      (KeyError), must be an Index (AttributeError) containing every new
      label (KeyError); the values are gathered so that each label of the
      new axis reads the data of that label. */
  function AlignAxis<T>(c: Cube<T>, ax: Axis): (r: Result<Cube<T>>)
    requires ValidCube(c)
    ensures Resolve(c.axes, StrArg(ax.name)).Err? ==> r == Err(KeyError)
    ensures Resolve(c.axes, StrArg(ax.name)).Ok? ==>
      var prev := c.axes.list[Resolve(c.axes, StrArg(ax.name)).value];
      r.Ok? <==> prev.kind.IndexKind? && forall t :: 0 <= t < |ax.values| ==> ax.values[t] in prev.values
    ensures Resolve(c.axes, StrArg(ax.name)).Ok? && r.Err? ==>
      var prev := c.axes.list[Resolve(c.axes, StrArg(ax.name)).value];
      r.error == (if prev.kind.SeriesKind? then AttributeError else KeyError)
    ensures r.Ok? ==> var k := Resolve(c.axes, StrArg(ax.name)).value;
      var prev := c.axes.list[k];
      r.value.axes.list == c.axes.list[k := ax] && r.value.values.shape == Lengths(r.value.axes.list) &&
      forall m :: InBounds(m, r.value.values.shape) ==>
        IndexOf(prev, ax.values[m[k]]).Ok? &&
        r.value.values.at(m) == c.values.at(m[k := IndexOf(prev, ax.values[m[k]]).value])
  {
    var k :- Resolve(c.axes, StrArg(ax.name));
    var prev := c.axes.list[k];
    var idx :- IndexOfAll(prev, ax.values);
    var values := Arrays.Take(c.values, k, idx);
    var axes := Replace(c.axes, IntArg(k), ax).value;
    assert forall m :: InBounds(m, values.shape) ==>
        IndexOf(prev, ax.values[m[k]]) == Ok(idx[m[k]]) by {
      forall m | InBounds(m, values.shape) ensures IndexOf(prev, ax.values[m[k]]) == Ok(idx[m[k]]) {
        assert prev.values[idx[m[k]]] == ax.values[m[k]];
      }
    }
    NewCube(values, axes)
  }

  /** `rename_axis(old_id, new_name)`: the looked-up axis under a new name
      (TypeError unless a str), with a clash checked by `Axes.replace`
      (ValueError); the values are untouched. */
  function RenameAxis<T>(c: Cube<T>, oldId: Arg, newName: Arg, id: nat): (r: Result<Cube<T>>)
    requires ValidCube(c)
    ensures Resolve(c.axes, oldId).Err? ==> r == Err(Resolve(c.axes, oldId).error)
    ensures Resolve(c.axes, oldId).Ok? && !newName.StrArg? ==> r == Err(TypeError)
    ensures Resolve(c.axes, oldId).Ok? && newName.StrArg? ==> var k := Resolve(c.axes, oldId).value;
      (r.Ok? <==> forall j :: 0 <= j < |c.axes.list| && j != k ==> c.axes.list[j].name != newName.s) &&
      (r.Err? ==> r.error == ValueError)
    ensures r.Ok? ==> var k := Resolve(c.axes, oldId).value;
      r.value.values == c.values && ValidCube(r.value) &&
      Names(r.value.axes.list) == Names(c.axes.list)[k := newName.s] &&
      r.value.axes.list[k].values == c.axes.list[k].values &&
      ClassOf(r.value.axes.list[k]) == ClassOf(c.axes.list[k]) &&
      forall j :: 0 <= j < |c.axes.list| && j != k ==> r.value.axes.list[j] == c.axes.list[j]
  {
    var prev :- Get(c.axes, oldId);
    var renamed :- Rename(prev, newName, id);
    var axes :- Replace(c.axes, oldId, renamed);
    NewCube(c.values, axes)
  }
}
