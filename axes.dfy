/** The ordered, immutable collection of axes that shapes a cube: unique
    names, lookup by position or by name, and the operations that return a
    reordered or edited collection. */
module AxisCollection {
  import opened Errors
  import opened Labels
  import opened Arrays
  import opened AxisTypes

  /** An element handed to the constructor: an axis or some other object. */
  datatype Item = AxisItem(axis: Axis) | OtherItem

  /** The constructor argument: a single axis, or an iterable of items. */
  datatype AxesArg = OneAxis(axis: Axis) | Items(items: seq<Item>)

  datatype Axes = Axes(list: seq<Axis>)

  /** `names()`: the axis names in collection order. */
  function Names(list: seq<Axis>): (r: seq<string>)
    ensures |r| == |list| && forall i :: 0 <= i < |list| ==> r[i] == list[i].name
  {
    seq(|list|, i requires 0 <= i < |list| => list[i].name)
  }

  /** What every constructed collection satisfies: unique names, and axes
      that are themselves well formed. */
  predicate ValidAxes(axes: Axes) {
    Distinct(Names(axes.list)) && forall i :: 0 <= i < |axes.list| ==> Valid(axes.list[i])
  }

  // ---------------------------------------------------------------------
  // Construction.

  predicate AllAxes(items: seq<Item>) {
    forall i :: 0 <= i < |items| ==> items[i].AxisItem?
  }

  function ItemAxes(items: seq<Item>): (r: seq<Axis>)
    requires AllAxes(items)
    ensures |r| == |items| && forall i :: 0 <= i < |items| ==> r[i] == items[i].axis
  {
    seq(|items|, i requires 0 <= i < |items| => items[i].axis)
  }

  function AsItems(list: seq<Axis>): (r: seq<Item>)
    ensures |r| == |list| && forall i :: 0 <= i < |list| ==> r[i] == AxisItem(list[i])
  {
    seq(|list|, i requires 0 <= i < |list| => AxisItem(list[i]))
  }

  /** The check loop of the constructor run over `items`: the set of names
      seen so far, or the exception raised at the first bad item. */
  function Scan(items: seq<Item>): Result<set<string>>
    decreases |items|
  {
    if items == [] then Ok({})
    else
      var seen :- Scan(items[..|items| - 1]);
      var last := items[|items| - 1];
      if last.OtherItem? then Err(TypeError)
      else if last.axis.name in seen then Err(ValueError)
      else Ok(seen + {last.axis.name})
  }

  /** The loop completes exactly when every item is an axis and no name
      repeats, having collected the set of the names. */
  lemma {:induction false} ScanOk(items: seq<Item>)
    ensures Scan(items).Ok? <==> AllAxes(items) && Distinct(Names(ItemAxes(items)))
    ensures Scan(items).Ok? ==> Scan(items).value == Elements(Names(ItemAxes(items)))
    decreases |items|
  {
    if items != [] {
      var n := |items|;
      var pre := items[..n - 1];
      ScanOk(pre);
      if AllAxes(items) {
        var ns := Names(ItemAxes(items));
        var ps := Names(ItemAxes(pre));
        assert ns == ps + [items[n - 1].axis.name];
        assert Elements(ns) == Elements(ps) + {items[n - 1].axis.name};
        if Distinct(ps) && items[n - 1].axis.name in Elements(ps) {
          var k :| 0 <= k < |ps| && ps[k] == items[n - 1].axis.name;
          assert ns[k] == ns[n - 1];
        }
      } else if AllAxes(pre) {
        assert items[n - 1].OtherItem?;
      }
    }
  }

  /** Once the loop has raised, later items do not matter. */
  lemma {:induction false} ScanErrorPersists(items: seq<Item>, j: nat)
    requires j <= |items| && Scan(items[..j]).Err?
    ensures Scan(items) == Scan(items[..j])
    decreases |items| - j
  {
    if j < |items| {
      assert items[..j + 1][..j] == items[..j];
      ScanErrorPersists(items, j + 1);
    } else {
      assert items[..j] == items;
    }
  }

  /** The exception is the one for the first bad item: TypeError for a
      non-axis, ValueError for the first axis whose name was already seen. */
  lemma {:induction false} ScanFirstFault(items: seq<Item>)
    requires Scan(items).Err?
    ensures exists k :: (0 <= k < |items| && Scan(items[..k]).Ok? &&
      (if items[k].OtherItem? then Scan(items).error == TypeError
       else items[k].axis.name in Scan(items[..k]).value && Scan(items).error == ValueError))
    decreases |items|
  {
    var n := |items|;
    var pre := items[..n - 1];
    if Scan(pre).Err? {
      ScanFirstFault(pre);
      var k :| 0 <= k < |pre| && Scan(pre[..k]).Ok? &&
        (if pre[k].OtherItem? then Scan(pre).error == TypeError
         else pre[k].axis.name in Scan(pre[..k]).value && Scan(pre).error == ValueError);
      assert pre[..k] == items[..k];
    } else {
      assert items[..n - 1] == pre;
    }
  }

  /** `Axes(axes)`: a single axis is wrapped; otherwise every item must be
      an axis (TypeError) and the names unique (ValueError). */
  function FromItems(arg: AxesArg): (r: Result<Axes>)
    ensures arg.OneAxis? ==> r == Ok(Axes([arg.axis]))
    ensures arg.Items? ==> (r.Ok? <==> Scan(arg.items).Ok?)
    ensures arg.Items? && r.Err? ==> r.error == Scan(arg.items).error
    ensures arg.Items? && r.Ok? ==> AllAxes(arg.items) && r.value.list == ItemAxes(arg.items)
    ensures r.Ok? ==> Distinct(Names(r.value.list))
  {
    match arg
    case OneAxis(a) => Ok(Axes([a]))
    case Items(items) =>
      ScanOk(items);
      var _ :- Scan(items);
      Ok(Axes(ItemAxes(items)))
  }

  /** The constructor as written: the check loop, then the tuple. */
  method Init(arg: AxesArg) returns (r: Result<Axes>)
    ensures r == FromItems(arg)
  {
    match arg {
      case OneAxis(a) =>
        r := Ok(Axes([a]));
      case Items(items) =>
        var seen: set<string> := {};
        var i := 0;
        while i < |items|
          invariant 0 <= i <= |items|
          invariant Scan(items[..i]) == Ok(seen)
        {
          assert items[..i + 1][..i] == items[..i];
          var it := items[i];
          if it.OtherItem? || it.axis.name in seen {
            ScanErrorPersists(items, i + 1);
            r := if it.OtherItem? then Err(TypeError) else Err(ValueError);
            return;
          }
          seen := seen + {it.axis.name};
          i := i + 1;
        }
        assert items[..i] == items;
        ScanOk(items);
        r := Ok(Axes(ItemAxes(items)));
    }
  }

  // ---------------------------------------------------------------------
  // The constructor as written against numcube/series.py, whose Series
  // class derives from `object` and not from Axis.

  /** What `isinstance(item, Axis)` accepts as written: only an Index. */
  predicate IsAxisAsWritten(it: Item) {
    it.AxisItem? && it.axis.kind.IndexKind?
  }

  /** The check loop as written: a Series is refused like any non-axis. */
  function ScanAsWritten(items: seq<Item>): (r: Result<set<string>>)
    ensures r.Ok? ==> forall i :: 0 <= i < |items| ==> IsAxisAsWritten(items[i])
    ensures (forall i :: 0 <= i < |items| ==> IsAxisAsWritten(items[i])) ==> r == Scan(items)
    decreases |items|
  {
    if items == [] then Ok({})
    else
      var seen :- ScanAsWritten(items[..|items| - 1]);
      var last := items[|items| - 1];
      if !IsAxisAsWritten(last) then Err(TypeError)
      else if last.axis.name in seen then Err(ValueError)
      else Ok(seen + {last.axis.name})
  }

  /** An argument made of Index axes only. */
  predicate IndexOnly(arg: AxesArg) {
    match arg
    case OneAxis(a) => a.kind.IndexKind?
    case Items(items) => forall i :: 0 <= i < |items| ==> IsAxisAsWritten(items[i])
  }

  /** `Axes(axes)` as written. A lone Series is not an Axis, so the
      constructor iterates over it, and a Series defines neither
      `__iter__` nor `__getitem__`: TypeError. A list is checked by
      ScanAsWritten. */
  function FromItemsAsWritten(arg: AxesArg): (r: Result<Axes>)
    ensures r.Ok? ==> forall i :: 0 <= i < |r.value.list| ==> r.value.list[i].kind.IndexKind?
    ensures arg.OneAxis? && arg.axis.kind.SeriesKind? ==> r == Err(TypeError)
    ensures IndexOnly(arg) ==> r == FromItems(arg)
  {
    match arg
    case OneAxis(a) => if a.kind.IndexKind? then Ok(Axes([a])) else Err(TypeError)
    case Items(items) =>
      var _ :- ScanAsWritten(items);
      Ok(Axes(ItemAxes(items)))
  }

  /** As written, a Series, alone or in a list, never makes a collection,
      while the constructor that treats a Series as an axis accepts both. */
  lemma SeriesRejectedAsWritten(ax: Axis)
    requires ax.kind.SeriesKind?
    ensures FromItemsAsWritten(OneAxis(ax)) == Err(TypeError)
    ensures FromItemsAsWritten(Items([AxisItem(ax)])) == Err(TypeError)
    ensures FromItems(OneAxis(ax)).Ok? && FromItems(Items([AxisItem(ax)])).Ok?
  {
    var items := [AxisItem(ax)];
    assert items[..|items| - 1] == [];
    assert ScanAsWritten(items) == Err(TypeError);
    ScanOk(items);
    assert Names(ItemAxes(items)) == [ax.name];
  }

  /** `Axes(list)` for a list of axes, as the edits below rebuild it. */
  function FromList(list: seq<Axis>): (r: Result<Axes>)
    ensures r.Ok? <==> Distinct(Names(list))
    ensures r.Err? ==> r.error == ValueError
    ensures r.Ok? ==> r.value.list == list
  {
    var items := AsItems(list);
    assert ItemAxes(items) == list;
    ScanOk(items);
    if Scan(items).Err? then
      assert AllAxes(items);
      Err(ValueError)
    else FromItems(Items(items))
  }

  // ---------------------------------------------------------------------
  // Lookup.

  /** The first position holding an axis of this name. */
  function NamePosition(list: seq<Axis>, name: string): (r: Option<nat>)
    ensures r.Some? ==> r.value < |list| && list[r.value].name == name
    ensures r.Some? ==> forall j :: 0 <= j < r.value ==> list[j].name != name
    ensures r.None? ==> forall j :: 0 <= j < |list| ==> list[j].name != name
  {
    var k := FirstIndex(Names(list), name);
    if k < |list| then Some(k) else None
  }

  /** `index(id)`: an int must lie in [0, len) (IndexError; negative
      positions are not accepted), a str must name an axis (KeyError), and
      anything else is a TypeError. */
  function Resolve(axes: Axes, id: Arg): (r: Result<nat>)
    ensures r.Ok? ==> r.value < |axes.list|
    ensures id.IntArg? ==> r == (if 0 <= id.i < |axes.list| then Ok(id.i) else Err(IndexError))
    ensures id.StrArg? ==> (r.Ok? <==> id.s in Names(axes.list))
    ensures id.StrArg? && r.Ok? ==> axes.list[r.value].name == id.s
    ensures id.StrArg? && r.Err? ==> r.error == KeyError
    ensures id.OtherArg? ==> r == Err(TypeError)
  {
    match id
    case IntArg(i) => if 0 <= i < |axes.list| then Ok(i) else Err(IndexError)
    case StrArg(s) =>
      (match NamePosition(axes.list, s)
       case Some(k) => Ok(k)
       case None => Err(KeyError))
    case OtherArg => Err(TypeError)
  }

  /** `axes[id]`: the axis at the resolved position. */
  function Get(axes: Axes, id: Arg): (r: Result<Axis>)
    ensures r.Ok? <==> Resolve(axes, id).Ok?
    ensures r.Err? ==> r.error == Resolve(axes, id).error
    ensures r.Ok? ==> r.value == axes.list[Resolve(axes, id).value]
  {
    var k :- Resolve(axes, id);
    Ok(axes.list[k])
  }

  /** In a collection with unique names, looking up an axis's own name finds
      that axis, and a found axis carries the name asked for. */
  lemma NameLookup(axes: Axes, k: nat)
    requires ValidAxes(axes) && k < |axes.list|
    ensures Resolve(axes, StrArg(axes.list[k].name)) == Ok(k)
    ensures Get(axes, StrArg(axes.list[k].name)) == Ok(axes.list[k])
  {
    var r := Resolve(axes, StrArg(axes.list[k].name));
    assert Names(axes.list)[k] == axes.list[k].name;
    assert r.Ok?;
    assert Names(axes.list)[r.value] == Names(axes.list)[k];
  }

  /** `axes[index(id)]` is `axes[id]`. */
  lemma IndexAgreesWithGet(axes: Axes, id: Arg)
    requires Resolve(axes, id).Ok?
    ensures Get(axes, IntArg(Resolve(axes, id).value)) == Get(axes, id)
  {
  }

  /** The linear search the three lookup methods share. */
  method FindName(list: seq<Axis>, name: string) returns (r: Option<nat>)
    ensures r == NamePosition(list, name)
  {
    var i := 0;
    while i < |list|
      invariant 0 <= i <= |list|
      invariant forall j :: 0 <= j < i ==> list[j].name != name
    {
      if list[i].name == name {
        assert Names(list)[i] == name;
        return Some(i);
      }
      i := i + 1;
    }
    assert name !in Names(list);
    return None;
  }

  /** `__getitem__`. */
  method GetItem(axes: Axes, id: Arg) returns (r: Result<Axis>)
    ensures r == Get(axes, id)
  {
    match id {
      case IntArg(i) =>
        r := if 0 <= i < |axes.list| then Ok(axes.list[i]) else Err(IndexError);
      case StrArg(s) =>
        var k := FindName(axes.list, s);
        r := if k.Some? then Ok(axes.list[k.value]) else Err(KeyError);
      case OtherArg =>
        r := Err(TypeError);
    }
  }

  /** `axis_and_index`: the axis and its position together. */
  method AxisAndIndex(axes: Axes, id: Arg) returns (r: Result<(Axis, nat)>)
    ensures r.Ok? <==> Get(axes, id).Ok?
    ensures r.Err? ==> r.error == Resolve(axes, id).error
    ensures r.Ok? ==> r.value == (Get(axes, id).value, Resolve(axes, id).value)
  {
    match id {
      case IntArg(i) =>
        r := if 0 <= i < |axes.list| then Ok((axes.list[i], i)) else Err(IndexError);
      case StrArg(s) =>
        var k := FindName(axes.list, s);
        r := if k.Some? then Ok((axes.list[k.value], k.value)) else Err(KeyError);
      case OtherArg =>
        r := Err(TypeError);
    }
  }

  /** `index`. */
  method Index(axes: Axes, id: Arg) returns (r: Result<nat>)
    ensures r == Resolve(axes, id)
  {
    match id {
      case IntArg(i) =>
        r := if 0 <= i < |axes.list| then Ok(i) else Err(IndexError);
      case StrArg(s) =>
        var k := FindName(axes.list, s);
        r := if k.Some? then Ok(k.value) else Err(KeyError);
      case OtherArg =>
        r := Err(TypeError);
    }
  }

  /** `contains(id)`: whether a lookup succeeds. Only lookup errors are
      caught, so an id that is neither int nor str still raises TypeError. */
  function Contains(axes: Axes, id: Arg): (r: Result<bool>)
    ensures id.OtherArg? ==> r == Err(TypeError)
    ensures !id.OtherArg? ==> r.Ok? && (r.value <==> Get(axes, id).Ok?)
  {
    match Get(axes, id)
    case Ok(_) => Ok(true)
    case Err(e) => if e == TypeError then Err(TypeError) else Ok(false)
  }

  // ---------------------------------------------------------------------
  // New collections.

  /** The looked-up positions of all ids, or the first lookup error. */
  function ResolveAll(axes: Axes, ids: seq<Arg>): (r: Result<seq<nat>>)
    ensures r.Ok? <==> forall k :: 0 <= k < |ids| ==> Resolve(axes, ids[k]).Ok?
    ensures r.Ok? ==> |r.value| == |ids|
    ensures r.Ok? ==> forall k :: 0 <= k < |ids| ==> r.value[k] == Resolve(axes, ids[k]).value
    ensures r.Err? ==> exists k :: (0 <= k < |ids| && Resolve(axes, ids[k]) == Err(r.error) &&
      forall j :: 0 <= j < k ==> Resolve(axes, ids[j]).Ok?)
    decreases |ids|
  {
    if ids == [] then Ok([])
    else
      var p :- Resolve(axes, ids[0]);
      var rest := ResolveAll(axes, ids[1..]);
      assert forall k :: 1 <= k < |ids| ==> ids[k] == ids[1..][k - 1];
      if rest.Err? then
        var k :| 0 <= k < |ids[1..]| && Resolve(axes, ids[1..][k]) == Err(rest.error) &&
          forall j :: 0 <= j < k ==> Resolve(axes, ids[1..][j]).Ok?;
        assert Resolve(axes, ids[k + 1]) == Err(rest.error);
        Err(rest.error)
      else
        Ok([p] + rest.value)
  }

  /** Distinct positions of a collection with unique names carry distinct
      names. */
  lemma PickedNamesDistinct(list: seq<Axis>, ps: seq<nat>)
    requires Distinct(Names(list)) && Distinct(ps)
    requires forall k :: 0 <= k < |ps| ==> ps[k] < |list|
    ensures Distinct(Names(Pick(list, ps)))
  {
    var ns := Names(Pick(list, ps));
    forall i, j | 0 <= i < j < |ns| ensures ns[i] != ns[j] {
      assert ns[i] == Names(list)[ps[i]] && ns[j] == Names(list)[ps[j]];
    }
  }

  /** `transpose(ids)`: the count must match (ValueError, before any
      lookup), every id must resolve, and no axis may be named twice
      (ValueError). In a collection with unique names two slots never hold
      the same object, so the set of selected axes has the size of the list
      exactly when the positions are distinct. */
  function Transpose(axes: Axes, ids: seq<Arg>): (r: Result<Axes>)
    requires ValidAxes(axes)
    ensures |ids| != |axes.list| ==> r == Err(ValueError)
    ensures |ids| == |axes.list| && ResolveAll(axes, ids).Err? ==> r == Err(ResolveAll(axes, ids).error)
    ensures |ids| == |axes.list| && ResolveAll(axes, ids).Ok? ==>
      (r.Ok? <==> IsPermutation(ResolveAll(axes, ids).value, |axes.list|))
    ensures r.Err? && |ids| == |axes.list| && ResolveAll(axes, ids).Ok? ==> r.error == ValueError
    ensures r.Ok? ==> ValidAxes(r.value) && |r.value.list| == |axes.list|
    ensures r.Ok? ==> forall i :: 0 <= i < |ids| ==> Get(axes, ids[i]) == Ok(r.value.list[i])
  {
    if |ids| != |axes.list| then Err(ValueError)
    else
      var ps :- ResolveAll(axes, ids);
      if !Distinct(ps) then Err(ValueError)
      else
        PickedNamesDistinct(axes.list, ps);
        FromList(Pick(axes.list, ps))
  }

  /** The position `list.insert(index, x)` puts x at: negative indices count
      from the end, and both ends clamp. */
  function InsertPosition(index: int, n: nat): (p: nat)
    ensures p <= n
    ensures 0 <= index <= n ==> p == index
    ensures index > n ==> p == n
    ensures -(n as int) <= index < 0 ==> p == index + n
    ensures index < -(n as int) ==> p == 0
  {
    if index < 0 then (if index + n < 0 then 0 else index + n)
    else if index > n then n
    else index
  }

  /** `insert(axis, index)`: the new axis at the clamped position, the
      others keeping their order; a repeated name is a ValueError. */
  function Insert(axes: Axes, ax: Axis, index: int): (r: Result<Axes>)
    requires ValidAxes(axes)
    ensures r.Ok? <==> ax.name !in Names(axes.list)
    ensures r.Err? ==> r.error == ValueError
    ensures r.Ok? ==> var p := InsertPosition(index, |axes.list|);
      |r.value.list| == |axes.list| + 1 && r.value.list[p] == ax &&
      r.value.list[..p] + r.value.list[p + 1..] == axes.list
    ensures r.Ok? ==> Distinct(Names(r.value.list))
  {
    var p := InsertPosition(index, |axes.list|);
    var list := axes.list[..p] + [ax] + axes.list[p..];
    InsertedList(axes.list, p, ax);
    InsertedNamesDistinct(Names(axes.list), p, ax.name);
    FromList(list)
  }

  lemma InsertedList(list: seq<Axis>, p: nat, ax: Axis)
    requires p <= |list|
    ensures var l := list[..p] + [ax] + list[p..];
      |l| == |list| + 1 && l[p] == ax && l[..p] + l[p + 1..] == list &&
      Names(l) == Names(list)[..p] + [ax.name] + Names(list)[p..]
  {
    var l := list[..p] + [ax] + list[p..];
    assert l[..p] == list[..p] && l[p + 1..] == list[p..];
    assert Names(l) == Names(list)[..p] + [ax.name] + Names(list)[p..];
  }

  lemma InsertedNamesDistinct(ns: seq<string>, p: nat, x: string)
    requires Distinct(ns) && p <= |ns|
    ensures Distinct(ns[..p] + [x] + ns[p..]) <==> x !in ns
  {
    var s := ns[..p] + [x] + ns[p..];
    assert forall i :: 0 <= i < p ==> s[i] == ns[i];
    assert forall i :: p < i < |s| ==> s[i] == ns[i - 1];
    if x in ns {
      var k :| 0 <= k < |ns| && ns[k] == x;
      if k < p { assert s[k] == s[p]; } else { assert s[k + 1] == s[p]; }
    } else {
      forall i, j | 0 <= i < j < |s| ensures s[i] != s[j] {
        if i != p && j != p {
          var i' := if i < p then i else i - 1;
          var j' := if j < p then j else j - 1;
          assert s[i] == ns[i'] && s[j] == ns[j'];
        }
      }
    }
  }

  /** `replace(old_id, new_axis)`: only the looked-up slot changes, no
      length is checked, and a name clash with another slot is a
      ValueError. */
  function Replace(axes: Axes, oldId: Arg, ax: Axis): (r: Result<Axes>)
    requires ValidAxes(axes)
    ensures Resolve(axes, oldId).Err? ==> r == Err(Resolve(axes, oldId).error)
    ensures Resolve(axes, oldId).Ok? ==>
      (r.Ok? <==> forall j :: 0 <= j < |axes.list| && j != Resolve(axes, oldId).value ==> axes.list[j].name != ax.name)
    ensures Resolve(axes, oldId).Ok? && r.Err? ==> r.error == ValueError
    ensures r.Ok? ==> r.value.list == axes.list[Resolve(axes, oldId).value := ax]
  {
    var k :- Resolve(axes, oldId);
    var list := axes.list[k := ax];
    assert Names(list) == Names(axes.list)[k := ax.name];
    ReplacedNamesDistinct(Names(axes.list), k, ax.name);
    FromList(list)
  }

  lemma ReplacedNamesDistinct(ns: seq<string>, k: nat, x: string)
    requires Distinct(ns) && k < |ns|
    ensures Distinct(ns[k := x]) <==> forall j :: 0 <= j < |ns| && j != k ==> ns[j] != x
  {
    var s := ns[k := x];
    if !(forall j :: 0 <= j < |ns| && j != k ==> ns[j] != x) {
      var j :| 0 <= j < |ns| && j != k && ns[j] == x;
      assert s[j] == s[k];
    }
  }

  /** `swap(id1, id2)`: the two looked-up slots exchange their axes. */
  function Swap(axes: Axes, id1: Arg, id2: Arg): (r: Result<Axes>)
    requires ValidAxes(axes)
    ensures Resolve(axes, id1).Err? ==> r == Err(Resolve(axes, id1).error)
    ensures Resolve(axes, id1).Ok? && Resolve(axes, id2).Err? ==> r == Err(Resolve(axes, id2).error)
    ensures r.Ok? <==> Resolve(axes, id1).Ok? && Resolve(axes, id2).Ok?
    ensures r.Ok? ==> var i, j := Resolve(axes, id1).value, Resolve(axes, id2).value;
      r.value.list == axes.list[i := axes.list[j]][j := axes.list[i]]
    ensures r.Ok? ==> ValidAxes(r.value)
  {
    var i :- Resolve(axes, id1);
    var j :- Resolve(axes, id2);
    var list := axes.list[i := axes.list[j]][j := axes.list[i]];
    SwappedNamesDistinct(Names(axes.list), i, j);
    assert Names(list) == Names(axes.list)[i := Names(axes.list)[j]][j := Names(axes.list)[i]];
    FromList(list)
  }

  lemma SwappedNamesDistinct(ns: seq<string>, i: nat, j: nat)
    requires Distinct(ns) && i < |ns| && j < |ns|
    ensures Distinct(ns[i := ns[j]][j := ns[i]])
  {
    var s := ns[i := ns[j]][j := ns[i]];
    forall a, b | 0 <= a < b < |s| ensures s[a] != s[b] {
      var a' := if a == i then j else if a == j then i else a;
      var b' := if b == i then j else if b == j then i else b;
      assert s[a] == ns[a'] && s[b] == ns[b'];
    }
  }

  /** Swapping the same two positions twice restores the collection. */
  lemma SwapPositionsTwice(axes: Axes, i: nat, j: nat)
    requires ValidAxes(axes) && i < |axes.list| && j < |axes.list|
    ensures Swap(axes, IntArg(i), IntArg(j)).Ok?
    ensures Swap(Swap(axes, IntArg(i), IntArg(j)).value, IntArg(i), IntArg(j)) == Ok(axes)
  {
    var once := Swap(axes, IntArg(i), IntArg(j)).value;
    assert once.list[i := once.list[j]][j := once.list[i]] == axes.list;
  }

  /** Swapping the same two names twice restores the collection: after the
      first swap each name is found where the other one was. */
  lemma SwapNamesTwice(axes: Axes, a: string, b: string)
    requires ValidAxes(axes) && a in Names(axes.list) && b in Names(axes.list)
    ensures Swap(axes, StrArg(a), StrArg(b)).Ok?
    ensures Swap(Swap(axes, StrArg(a), StrArg(b)).value, StrArg(a), StrArg(b)) == Ok(axes)
  {
    var i := Resolve(axes, StrArg(a)).value;
    var j := Resolve(axes, StrArg(b)).value;
    var once := Swap(axes, StrArg(a), StrArg(b)).value;
    assert once.list == axes.list[i := axes.list[j]][j := axes.list[i]];
    assert once.list[i].name == b && once.list[j].name == a;
    NameLookup(once, i);
    NameLookup(once, j);
    SwapSeqTwice(axes.list, i, j);
    assert Swap(once, StrArg(a), StrArg(b)) == FromList(once.list[j := once.list[i]][i := once.list[j]]);
  }

  lemma SwapSeqTwice<X>(s: seq<X>, i: nat, j: nat)
    requires i < |s| && j < |s|
    ensures var t := s[i := s[j]][j := s[i]]; t[j := t[i]][i := t[j]] == s
  {
  }
}
