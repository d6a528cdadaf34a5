/** A single named axis: the generic kind (`Axis`, which the cube code calls
    a Series and which may repeat values) and the `Index` kind, whose values
    are unique and carry a frozen value-to-position table. */
module AxisTypes {
  import opened Errors
  import opened Labels

  // ---------------------------------------------------------------------
  // The lookup table of an Index: {x: i for i, x in enumerate(values)}.

  /** The dictionary the comprehension builds: a later position of the same
      value overwrites an earlier one. */
  function Table(values: seq<Value>): map<Value, nat>
    decreases |values|
  {
    if values == [] then map[]
    else Table(values[..|values| - 1])[values[|values| - 1] := |values| - 1]
  }

  /** The table holds exactly the values, each mapped to its last position. */
  lemma {:induction false} TableLookup(values: seq<Value>)
    ensures Table(values).Keys == Elements(values)
    ensures forall v :: v in Table(values) ==>
      Table(values)[v] < |values| && values[Table(values)[v]] == v &&
      forall j :: Table(values)[v] < j < |values| ==> values[j] != v
    decreases |values|
  {
    if values != [] {
      var n := |values|;
      var pre := values[..n - 1];
      assert values == pre + [values[n - 1]];
      TableLookup(pre);
      assert Elements(values) == Elements(pre) + {values[n - 1]};
      forall v | v in Table(values) && v != values[n - 1]
        ensures Table(values)[v] < n && values[Table(values)[v]] == v &&
          forall j :: Table(values)[v] < j < n ==> values[j] != v
      {
        assert Table(values)[v] == Table(pre)[v];
        assert values[Table(pre)[v]] == pre[Table(pre)[v]];
        forall j | Table(values)[v] < j < n ensures values[j] != v {
          if j < n - 1 { assert values[j] == pre[j]; }
        }
      }
    }
  }

  /** The table has one entry per position exactly when no value repeats:
      the duplicate check of the Index constructor. */
  lemma TableSizeIffDistinct(values: seq<Value>)
    ensures |Table(values)| == |values| <==> Distinct(values)
  {
    TableLookup(values);
    DistinctIffElementsCount(values);
    assert |Table(values)| == |Table(values).Keys|;
  }

  /** Over distinct values the table inverts indexing. */
  lemma TableOfDistinct(values: seq<Value>)
    requires Distinct(values)
    ensures forall i :: 0 <= i < |values| ==> values[i] in Table(values) && Table(values)[values[i]] == i
  {
    TableLookup(values);
    forall i | 0 <= i < |values| ensures values[i] in Table(values) && Table(values)[values[i]] == i {
      assert values[i] in Elements(values);
    }
  }

  /** Builds the table entry by entry, as the dictionary comprehension does. */
  method BuildTable(values: seq<Value>) returns (t: map<Value, nat>)
    ensures t == Table(values)
  {
    t := map[];
    var i := 0;
    while i < |values|
      invariant 0 <= i <= |values|
      invariant t == Table(values[..i])
    {
      assert values[..i + 1][..i] == values[..i];
      t := t[values[i] := i];
      i := i + 1;
    }
    assert values[..i] == values;
  }

  // ---------------------------------------------------------------------
  // The axis itself.

  /** The concrete class of an axis. An Index carries its frozen table. */
  datatype Kind = IndexKind(table: map<Value, nat>) | SeriesKind

  /** `id` stands for the identity of the Python object: two axes are the
      same object exactly when their ids are equal. */
  datatype Axis = Axis(id: nat, name: string, values: seq<Value>, kind: Kind)

  /** The class a constructor is asked for: `Index(...)` or the generic
      `Axis(...)` / `Series(...)`. */
  datatype Class = IndexClass | SeriesClass

  function ClassOf(ax: Axis): Class {
    if ax.kind.IndexKind? then IndexClass else SeriesClass
  }

  /** What every constructed axis satisfies: its values share one dtype,
      and an Index has unique values and the table its values determine. */
  predicate Valid(ax: Axis) {
    Homogeneous(ax.values) &&
    (ax.kind.IndexKind? ==> Distinct(ax.values) && ax.kind.table == Table(ax.values))
  }

  /** The value argument of a constructor after np.atleast_1d: a scalar
      becomes one value, a vector stays, anything of rank 2 or more is
      rejected. */
  datatype ValuesArg = ScalarArg(v: Value) | VectorArg(vs: seq<Value>) | MatrixArg(rows: seq<seq<Value>>)

  /** `Axis(name, values)` or `Index(name, values)`: the name must be a str
      (TypeError), the values at most one-dimensional (ValueError), and an
      Index's values, once np.atleast_1d has given them one dtype, unique
      (ValueError). */
  function NewAxis(cls: Class, id: nat, name: Arg, values: ValuesArg): (r: Result<Axis>)
    ensures r.Ok? <==> (name.StrArg? && !values.MatrixArg? &&
      (cls == IndexClass ==> Distinct(Coerce(AtLeast1d(values)))))
    ensures !name.StrArg? ==> r == Err(TypeError)
    ensures name.StrArg? && r.Err? ==> r.error == ValueError
    ensures r.Ok? ==> Valid(r.value) && r.value.id == id && r.value.name == name.s
    ensures r.Ok? ==> r.value.values == Coerce(AtLeast1d(values)) && ClassOf(r.value) == cls
  {
    if !name.StrArg? then Err(TypeError)
    else if values.MatrixArg? then Err(ValueError)
    else
      var vs := Coerce(AtLeast1d(values));
      match cls
      case SeriesClass => Ok(Axis(id, name.s, vs, SeriesKind))
      case IndexClass =>
        TableSizeIffDistinct(vs);
        if |Table(vs)| != |vs| then Err(ValueError) else Ok(Axis(id, name.s, vs, IndexKind(Table(vs))))
  }

  function AtLeast1d(values: ValuesArg): seq<Value>
    requires !values.MatrixArg?
  {
    match values
    case ScalarArg(v) => [v]
    case VectorArg(vs) => vs
  }

  /** `Series(name, values)` from series.py: only the name is checked, so
      duplicate values are accepted; np.asarray gives them one dtype. */
  function NewSeries(id: nat, name: Arg, values: seq<Value>): (r: Result<Axis>)
    ensures r.Ok? <==> name.StrArg?
    ensures r.Err? ==> r.error == TypeError
    ensures r.Ok? ==> Valid(r.value) && r.value == Axis(id, name.s, Coerce(values), SeriesKind)
  {
    if !name.StrArg? then Err(TypeError) else Ok(Axis(id, name.s, Coerce(values), SeriesKind))
  }

  /** On one-dimensional values the Series constructor and the generic Axis
      constructor agree. */
  lemma NewSeriesIsGenericAxis(id: nat, name: Arg, values: seq<Value>)
    ensures NewSeries(id, name, values) == NewAxis(SeriesClass, id, name, VectorArg(values))
  {
  }

  /** An Index rejects repeated values; a Series accepts them. */
  lemma DuplicatesOnlyRejectedByIndex(id: nat, name: string, values: seq<Value>)
    requires !Distinct(Coerce(values))
    ensures NewAxis(IndexClass, id, StrArg(name), VectorArg(values)) == Err(ValueError)
    ensures NewAxis(SeriesClass, id, StrArg(name), VectorArg(values)).Ok?
  {
  }

  /** The integer 1 and the string "1" are the same label once np.atleast_1d
      has made them strings, so an Index of both is rejected. */
  lemma MixedLabelsCollide(id: nat, name: string)
    ensures NewAxis(IndexClass, id, StrArg(name), VectorArg([IntValue(1), StrValue("1")])) == Err(ValueError)
    ensures NewAxis(SeriesClass, id, StrArg(name), VectorArg([IntValue(1), StrValue("1")])) ==
      Ok(Axis(id, name, [StrValue("1"), StrValue("1")], SeriesKind))
  {
    MixedLabelsCoerced();
    var vs := Coerce([IntValue(1), StrValue("1")]);
    assert vs[0] == vs[1];
  }

  // ---------------------------------------------------------------------
  // Index.index and Index.contains. A generic axis has neither method.

  /** `index(v)`: the position of `v`, KeyError if absent. */
  function IndexOf(ax: Axis, v: Value): (r: Result<nat>)
    requires Valid(ax)
    ensures ax.kind.SeriesKind? ==> r == Err(AttributeError)
    ensures ax.kind.IndexKind? ==> (r.Ok? <==> v in ax.values)
    ensures ax.kind.IndexKind? && r.Err? ==> r.error == KeyError
    ensures r.Ok? ==> r.value < |ax.values| && ax.values[r.value] == v
    ensures r.Ok? ==> forall j :: 0 <= j < |ax.values| && ax.values[j] == v ==> j == r.value
  {
    match ax.kind
    case SeriesKind => Err(AttributeError)
    case IndexKind(t) =>
      TableLookup(ax.values);
      assert v in t <==> v in Elements(ax.values);
      if v in t then Ok(t[v]) else Err(KeyError)
  }

  /** `index(vs)` on a sequence: the positions of every query value, in
      the order of the query; KeyError if any is absent. */
  function IndexOfAll(ax: Axis, vs: seq<Value>): (r: Result<seq<nat>>)
    requires Valid(ax)
    ensures ax.kind.SeriesKind? ==> r == Err(AttributeError)
    ensures ax.kind.IndexKind? ==> (r.Ok? <==> forall k :: 0 <= k < |vs| ==> vs[k] in ax.values)
    ensures ax.kind.IndexKind? && r.Err? ==> r.error == KeyError
    ensures r.Ok? ==> |r.value| == |vs| && forall k :: 0 <= k < |vs| ==>
      r.value[k] < |ax.values| && ax.values[r.value[k]] == vs[k]
    decreases |vs|
  {
    if ax.kind.SeriesKind? then Err(AttributeError)
    else if vs == [] then Ok([])
    else
      var p :- IndexOf(ax, vs[0]);
      var ps :- IndexOfAll(ax, vs[1..]);
      assert forall k :: 1 <= k < |vs| ==> vs[k] == vs[1..][k - 1];
      Ok([p] + ps)
  }

  /** `contains(v)`: whether `v` is one of the values. */
  function Contains(ax: Axis, v: Value): (r: Result<bool>)
    requires Valid(ax)
    ensures ax.kind.SeriesKind? ==> r == Err(AttributeError)
    ensures ax.kind.IndexKind? ==> r == Ok(v in ax.values)
  {
    match ax.kind
    case SeriesKind => Err(AttributeError)
    case IndexKind(t) =>
      TableLookup(ax.values);
      assert v in t <==> v in Elements(ax.values);
      Ok(v in t)
  }

  /** `contains(vs)` on a sequence: one membership answer per query value. */
  function ContainsAll(ax: Axis, vs: seq<Value>): (r: Result<seq<bool>>)
    requires Valid(ax)
    ensures ax.kind.SeriesKind? ==> r == Err(AttributeError)
    ensures ax.kind.IndexKind? ==> r.Ok? && |r.value| == |vs|
    ensures r.Ok? ==> forall k :: 0 <= k < |vs| ==> r.value[k] == (vs[k] in ax.values)
    decreases |vs|
  {
    if ax.kind.SeriesKind? then Err(AttributeError)
    else if vs == [] then Ok([])
    else
      var b := Contains(ax, vs[0]).value;
      var bs := ContainsAll(ax, vs[1..]).value;
      assert forall k :: 1 <= k < |vs| ==> vs[k] == vs[1..][k - 1];
      Ok([b] + bs)
  }

  /** Looking a value up and reading the values at the answer gives the
      value back; a value read from the axis is found at its position. */
  lemma IndexOfRoundTrip(ax: Axis, i: nat)
    requires Valid(ax) && ax.kind.IndexKind? && i < |ax.values|
    ensures IndexOf(ax, ax.values[i]) == Ok(i)
  {
  }

  /** Looking up the axis's own values gives every position in order. */
  lemma IndexOfOwnValues(ax: Axis)
    requires Valid(ax) && ax.kind.IndexKind?
    ensures IndexOfAll(ax, ax.values).Ok?
    ensures forall k :: 0 <= k < |ax.values| ==> IndexOfAll(ax, ax.values).value[k] == k
  {
    var r := IndexOfAll(ax, ax.values);
    assert r.Ok?;
    forall k | 0 <= k < |ax.values| ensures r.value[k] == k {
      assert ax.values[r.value[k]] == ax.values[k];
    }
  }

  // ---------------------------------------------------------------------
  // Selections: take, __getitem__ and rename all rebuild an axis of the
  // same class from the selected values.

  /** The positions that numpy fancy indexing reads: negative entries count
      from the end, and anything outside [-n, n) is an IndexError. */
  function NormalizePositions(indices: seq<int>, n: nat): (r: Result<seq<nat>>)
    ensures r.Ok? <==> forall k :: 0 <= k < |indices| ==> -(n as int) <= indices[k] < n
    ensures r.Err? ==> r.error == IndexError
    ensures r.Ok? ==> |r.value| == |indices| && forall k :: 0 <= k < |indices| ==>
      r.value[k] < n && r.value[k] == (if indices[k] < 0 then indices[k] + n else indices[k])
    decreases |indices|
  {
    if indices == [] then Ok([])
    else if !(-(n as int) <= indices[0] < n) then Err(IndexError)
    else
      var rest :- NormalizePositions(indices[1..], n);
      assert forall k :: 1 <= k < |indices| ==> indices[k] == indices[1..][k - 1];
      var p: nat := if indices[0] < 0 then indices[0] + n else indices[0];
      Ok([p] + rest)
  }

  /** Values picked from an array keep its dtype: nothing is coerced. */
  lemma PickKeepsDtype(values: seq<Value>, ps: seq<nat>)
    requires forall k :: 0 <= k < |ps| ==> ps[k] < |values|
    ensures Homogeneous(values) ==> Coerce(Pick(values, ps)) == Pick(values, ps)
  {
    if Homogeneous(values) {
      HomogeneousSubset(Pick(values, ps), values);
    }
  }

  /** Rebuilds an axis of the same class from selected values, as
      `self.__class__(name, values)` does. */
  function Rebuild(ax: Axis, id: nat, vs: seq<Value>): (r: Result<Axis>)
    ensures r == NewAxis(ClassOf(ax), id, StrArg(ax.name), VectorArg(vs))
    ensures r.Ok? <==> (ax.kind.IndexKind? ==> Distinct(Coerce(vs)))
  {
    NewAxis(ClassOf(ax), id, StrArg(ax.name), VectorArg(vs))
  }

  /** `take(indices)`: an axis of the same class and name holding
      `values[indices]`. The values of a constructed axis share one dtype,
      so picking from them changes none. */
  function Take(ax: Axis, indices: seq<int>, id: nat): (r: Result<Axis>)
    requires Valid(ax)
    ensures r.Ok? <==> (NormalizePositions(indices, |ax.values|).Ok? &&
      (ax.kind.IndexKind? ==> Distinct(Pick(ax.values, NormalizePositions(indices, |ax.values|).value))))
    ensures NormalizePositions(indices, |ax.values|).Err? ==> r == Err(IndexError)
    ensures NormalizePositions(indices, |ax.values|).Ok? && r.Err? ==> r.error == ValueError
    ensures r.Ok? ==> Valid(r.value) && r.value.name == ax.name && ClassOf(r.value) == ClassOf(ax)
    ensures r.Ok? ==> r.value.values == Pick(ax.values, NormalizePositions(indices, |ax.values|).value)
  {
    var ps :- NormalizePositions(indices, |ax.values|);
    PickKeepsDtype(ax.values, ps);
    Rebuild(ax, id, Pick(ax.values, ps))
  }

  /** `take` on an Index succeeds exactly when it reads no position twice. */
  lemma TakeIndexIffDistinctPositions(ax: Axis, indices: seq<int>, id: nat)
    requires Valid(ax) && ax.kind.IndexKind?
    requires NormalizePositions(indices, |ax.values|).Ok?
    ensures Take(ax, indices, id).Ok? <==> Distinct(NormalizePositions(indices, |ax.values|).value)
  {
    PickDistinctIff(ax.values, NormalizePositions(indices, |ax.values|).value);
  }

  /** Over distinct values, picking gives distinct values exactly when the
      positions are distinct. */
  lemma PickDistinctIff(values: seq<Value>, ps: seq<nat>)
    requires Distinct(values)
    requires forall k :: 0 <= k < |ps| ==> ps[k] < |values|
    ensures Distinct(Pick(values, ps)) <==> Distinct(ps)
  {
    var vs := Pick(values, ps);
    if Distinct(ps) {
      forall i, j | 0 <= i < j < |vs| ensures vs[i] != vs[j] {
        assert vs[i] == values[ps[i]] && vs[j] == values[ps[j]];
      }
    } else {
      var i, j :| 0 <= i < j < |ps| && ps[i] == ps[j];
      assert vs[i] == vs[j];
    }
  }

  /** A generic axis accepts any in-range positions, repeated or not. */
  lemma TakeSeriesAllowsRepeats(ax: Axis, indices: seq<int>, id: nat)
    requires Valid(ax) && ax.kind.SeriesKind?
    requires forall k :: 0 <= k < |indices| ==> -|ax.values| <= indices[k] < |ax.values|
    ensures Take(ax, indices, id).Ok?
  {
  }

  /** The argument of `__getitem__`: one position, a list of positions, a
      boolean mask, or a slice with an optional start and stop. */
  datatype Selector =
    | Position(i: int)
    | Positions(indices: seq<int>)
    | Mask(keep: seq<bool>)
    | Slice(start: Option<int>, stop: Option<int>, step: int)

  /** The positions selected by a boolean mask, in increasing order. */
  function MaskPositions(keep: seq<bool>): (r: seq<nat>)
    ensures forall k :: 0 <= k < |r| ==> r[k] < |keep| && keep[r[k]]
    ensures forall j :: 0 <= j < |keep| && keep[j] ==> j in r
    ensures forall a, b :: 0 <= a < b < |r| ==> r[a] < r[b]
    decreases |keep|
  {
    if keep == [] then []
    else
      var rest := MaskPositions(keep[..|keep| - 1]);
      if keep[|keep| - 1] then rest + [|keep| - 1] else rest
  }

  /** The positions a Python slice selects from n items: start, start+step,
      ... up to (and excluding) stop, after each bound is made
      non-negative and clamped. */
  function SlicePositions(n: nat, start: Option<int>, stop: Option<int>, step: int): (r: seq<nat>)
    requires step != 0
    ensures forall k :: 0 <= k < |r| ==> r[k] < n
    ensures forall a, b :: 0 <= a < b < |r| ==> (if step > 0 then r[a] < r[b] else r[a] > r[b])
  {
    if step > 0 then
      var lo := ClampBound(start, 0, n, 0, n);
      var hi := ClampBound(stop, n, n, 0, n);
      Ascending(lo, hi, step)
    else
      var hi := ClampBound(start, n - 1, n, -1, n - 1);
      var lo := ClampBound(stop, -1, n, -1, n - 1);
      Descending(hi, lo, -step)
  }

  /** A slice bound: the default when absent, counted from the end when
      negative, then clamped to [low, high]. */
  function ClampBound(b: Option<int>, default: int, n: nat, low: int, high: int): (r: int)
    requires low <= high
    ensures low <= r <= high || (b.None? && r == default)
  {
    match b
    case None => default
    case Some(x) =>
      var y := if x < 0 then x + n else x;
      if y < low then low else if y > high then high else y
  }

  function Ascending(lo: int, hi: int, step: nat): (r: seq<nat>)
    requires step > 0 && lo >= 0
    ensures forall k :: 0 <= k < |r| ==> lo <= r[k] < hi
    ensures forall a, b :: 0 <= a < b < |r| ==> r[a] < r[b]
    decreases hi - lo
  {
    if lo >= hi then [] else [lo] + Ascending(lo + step, hi, step)
  }

  function Descending(hi: int, lo: int, step: nat): (r: seq<nat>)
    requires step > 0 && lo >= -1
    ensures forall k :: 0 <= k < |r| ==> lo < r[k] <= hi
    ensures forall a, b :: 0 <= a < b < |r| ==> r[a] > r[b]
    decreases hi - lo
  {
    if hi <= lo then [] else [hi] + Descending(hi - step, lo, step)
  }

  /** The positions a selector reads, or the error numpy raises for it. */
  function SelectPositions(sel: Selector, n: nat): (r: Result<seq<nat>>)
    ensures r.Ok? ==> forall k :: 0 <= k < |r.value| ==> r.value[k] < n
  {
    match sel
    case Position(i) => NormalizePositions([i], n)
    case Positions(indices) => NormalizePositions(indices, n)
    case Mask(keep) => if |keep| != n then Err(IndexError) else Ok(MaskPositions(keep))
    case Slice(start, stop, step) => if step == 0 then Err(ValueError) else Ok(SlicePositions(n, start, stop, step))
  }

  /** `axis[item]`: an axis of the same class and name holding the selected
      values (a single position yields a one-value axis). */
  function GetItem(ax: Axis, sel: Selector, id: nat): (r: Result<Axis>)
    ensures SelectPositions(sel, |ax.values|).Err? ==> r == Err(SelectPositions(sel, |ax.values|).error)
    ensures SelectPositions(sel, |ax.values|).Ok? ==>
      r == Rebuild(ax, id, Pick(ax.values, SelectPositions(sel, |ax.values|).value))
    ensures r.Ok? ==> Valid(r.value) && r.value.name == ax.name && ClassOf(r.value) == ClassOf(ax)
  {
    var ps :- SelectPositions(sel, |ax.values|);
    Rebuild(ax, id, Pick(ax.values, ps))
  }

  /** Masks and slices never repeat a position, so on an Index they always
      succeed (given a mask of the right length and a non-zero step). */
  lemma IndexMaskAndSliceSucceed(ax: Axis, sel: Selector, id: nat)
    requires Valid(ax)
    requires sel.Mask? || sel.Slice?
    requires SelectPositions(sel, |ax.values|).Ok?
    ensures GetItem(ax, sel, id).Ok?
  {
    var ps := SelectPositions(sel, |ax.values|).value;
    if ax.kind.IndexKind? {
      forall a, b | 0 <= a < b < |ps| ensures ps[a] != ps[b] {
      }
      PickDistinctIff(ax.values, ps);
    }
    PickKeepsDtype(ax.values, ps);
  }

  /** `rename(new_name)`: the same class and values under a new name; the
      name must be a str. */
  function Rename(ax: Axis, newName: Arg, id: nat): (r: Result<Axis>)
    requires Valid(ax)
    ensures r.Ok? <==> newName.StrArg?
    ensures r.Err? ==> r.error == TypeError
    ensures r.Ok? ==> Valid(r.value) && r.value.name == newName.s && r.value.values == ax.values
    ensures r.Ok? ==> ClassOf(r.value) == ClassOf(ax) && r.value.id == id
  {
    NewAxis(ClassOf(ax), id, newName, VectorArg(ax.values))
  }

  /** Renaming back to the old name restores the axis up to identity. */
  lemma RenameRoundTrip(ax: Axis, name: string, id1: nat)
    requires Valid(ax)
    ensures Rename(ax, StrArg(name), id1).Ok?
    ensures Rename(Rename(ax, StrArg(name), id1).value, StrArg(ax.name), ax.id) == Ok(ax)
  {
  }
}
