/** The backing n-dimensional array, modelled abstractly by its shape and the
    element at every multi-index, and the numpy primitives the library
    applies to it, each specified by how it maps result positions to source
    positions. */
module Arrays {
  import opened Errors
  import opened Labels

  datatype NdArray<T> = NdArray(shape: seq<nat>, at: seq<nat> -> T)

  /** `m` is a multi-index of an array of this shape. */
  predicate InBounds(m: seq<nat>, shape: seq<nat>) {
    |m| == |shape| && forall k :: 0 <= k < |m| ==> m[k] < shape[k]
  }

  /** Two arrays of one shape holding the same element at every position. */
  ghost predicate Same<T>(x: NdArray<T>, y: NdArray<T>) {
    x.shape == y.shape && forall m :: InBounds(m, x.shape) ==> x.at(m) == y.at(m)
  }

  // ---------------------------------------------------------------------
  // ndarray.take(idx, axis=d): a gather along one dimension.

  function Take<T>(a: NdArray<T>, d: nat, idx: seq<nat>): (r: NdArray<T>)
    requires d < |a.shape|
    requires forall t :: 0 <= t < |idx| ==> idx[t] < a.shape[d]
    ensures r.shape == a.shape[d := |idx|]
    ensures forall m :: InBounds(m, r.shape) ==>
      InBounds(m[d := idx[m[d]]], a.shape) && r.at(m) == a.at(m[d := idx[m[d]]])
  {
    NdArray(a.shape[d := |idx|],
      (m: seq<nat>) => if d < |m| && m[d] < |idx| then a.at(m[d := idx[m[d]]]) else a.at(m))
  }

  // ---------------------------------------------------------------------
  // ndarray.transpose(p): result dimension i is source dimension p[i].

  predicate IsPermutation(p: seq<nat>, n: nat) {
    |p| == n && (forall i :: 0 <= i < n ==> p[i] < n) && Distinct(p)
  }

  /** The entries of `m` picked in the order `p` names them. */
  function Permute(m: seq<nat>, p: seq<nat>): (r: seq<nat>)
    ensures |r| == |p|
    ensures forall i :: 0 <= i < |p| && p[i] < |m| ==> r[i] == m[p[i]]
  {
    seq(|p|, i requires 0 <= i < |p| => if p[i] < |m| then m[p[i]] else 0)
  }

  /** The source multi-index whose entry p[i] is m[i]. */
  function Unpermute(m: seq<nat>, p: seq<nat>): (r: seq<nat>)
    ensures |r| == |p|
  {
    seq(|p|, j requires 0 <= j < |p| => var k := FirstIndex(p, j); if k < |m| then m[k] else 0)
  }

  /** The dimension numbers 0..n-1. */
  function Iota(n: nat): (r: seq<nat>)
    ensures |r| == n && forall i :: 0 <= i < n ==> r[i] == i
  {
    seq(n, i requires 0 <= i < n => i)
  }

  /** A permutation of 0..n-1 names every dimension. */
  lemma PermutationOnto(p: seq<nat>, n: nat)
    requires IsPermutation(p, n)
    ensures forall j :: 0 <= j < n ==> j in p
  {
    var range := Iota(n);
    forall x | x in Elements(p) ensures x in Elements(range) {
      assert range[x] == x;
    }
    DistinctIffElementsCount(p);
    DistinctIffElementsCount(range);
    SubsetOfSameSize(Elements(p), Elements(range));
    forall j | 0 <= j < n ensures j in p {
      assert range[j] in Elements(range);
    }
  }

  lemma SubsetOfSameSize<X>(a: set<X>, b: set<X>)
    requires a <= b && |a| == |b|
    ensures a == b
  {
    assert b == a + (b - a);
    assert a * (b - a) == {};
    assert |b - a| == 0;
  }

  lemma UnpermuteAt(m: seq<nat>, p: seq<nat>, i: nat)
    requires IsPermutation(p, |p|) && |m| == |p| && i < |p|
    ensures Unpermute(m, p)[p[i]] == m[i]
  {
    var k := FirstIndex(p, p[i]);
    assert k <= i;
    assert k == i;
  }

  lemma UnpermuteInBounds(shape: seq<nat>, p: seq<nat>, m: seq<nat>)
    requires IsPermutation(p, |shape|)
    requires InBounds(m, Permute(shape, p))
    ensures InBounds(Unpermute(m, p), shape)
  {
    PermutationOnto(p, |shape|);
    forall j | 0 <= j < |shape| ensures Unpermute(m, p)[j] < shape[j] {
      var k := FirstIndex(p, j);
      assert k < |p| && p[k] == j;
      UnpermuteAt(m, p, k);
    }
  }

  lemma PermuteUnpermute(m: seq<nat>, p: seq<nat>)
    requires IsPermutation(p, |p|) && |m| == |p|
    ensures Permute(Unpermute(m, p), p) == m
  {
    forall i | 0 <= i < |p| ensures Permute(Unpermute(m, p), p)[i] == m[i] {
      UnpermuteAt(m, p, i);
    }
  }

  lemma UnpermutePermute(e: seq<nat>, p: seq<nat>)
    requires IsPermutation(p, |p|) && |e| == |p|
    ensures Unpermute(Permute(e, p), p) == e
  {
    PermutationOnto(p, |p|);
    forall j | 0 <= j < |p| ensures Unpermute(Permute(e, p), p)[j] == e[j] {
      var k := FirstIndex(p, j);
      assert k < |p| && p[k] == j;
      UnpermuteAt(Permute(e, p), p, k);
    }
  }

  /** The inverse permutation: entry j is the position of j in p. */
  function Inverse(p: seq<nat>): (q: seq<nat>)
    ensures |q| == |p|
  {
    seq(|p|, j requires 0 <= j < |p| => FirstIndex(p, j))
  }

  lemma InverseFacts(p: seq<nat>)
    requires IsPermutation(p, |p|)
    ensures IsPermutation(Inverse(p), |p|)
    ensures forall i :: 0 <= i < |p| ==> Inverse(p)[p[i]] == i && p[Inverse(p)[i]] == i
  {
    var q := Inverse(p);
    PermutationOnto(p, |p|);
    forall i | 0 <= i < |p| ensures q[i] < |p| && p[q[i]] == i && q[p[i]] == i {
      assert i in p;
      var k := FirstIndex(p, p[i]);
      assert k <= i;
    }
    forall i, j | 0 <= i < j < |p| ensures q[i] != q[j] {
      assert p[q[i]] == i && p[q[j]] == j;
    }
  }

  /** Permuting by p and then by its inverse restores the order. */
  lemma PermuteInverse(s: seq<nat>, p: seq<nat>)
    requires IsPermutation(p, |p|) && |s| == |p|
    ensures Permute(Permute(s, p), Inverse(p)) == s
  {
    InverseFacts(p);
  }

  /** Reading through the inverse is permuting. */
  lemma UnpermuteByInverse(m: seq<nat>, p: seq<nat>)
    requires IsPermutation(p, |p|) && |m| == |p|
    ensures Unpermute(m, Inverse(p)) == Permute(m, p)
  {
    InverseFacts(p);
    var q := Inverse(p);
    forall k | 0 <= k < |p| ensures Unpermute(m, q)[k] == Permute(m, p)[k] {
      UnpermuteAt(m, q, p[k]);
      assert q[p[k]] == k;
    }
  }

  function Transpose<T>(a: NdArray<T>, p: seq<nat>): (r: Result<NdArray<T>>)
    ensures r.Ok? <==> IsPermutation(p, |a.shape|)
    ensures r.Err? ==> r.error == ValueError
    ensures r.Ok? ==> r.value.shape == Permute(a.shape, p)
    ensures r.Ok? ==> forall m :: InBounds(m, r.value.shape) ==>
      InBounds(Unpermute(m, p), a.shape) && r.value.at(m) == a.at(Unpermute(m, p))
  {
    if !IsPermutation(p, |a.shape|) then Err(ValueError)
    else
      var r := NdArray(Permute(a.shape, p), (m: seq<nat>) => a.at(Unpermute(m, p)));
      assert forall m :: InBounds(m, r.shape) ==> InBounds(Unpermute(m, p), a.shape) by {
        forall m | InBounds(m, r.shape) ensures InBounds(Unpermute(m, p), a.shape) {
          UnpermuteInBounds(a.shape, p, m);
        }
      }
      Ok(r)
  }

  // ---------------------------------------------------------------------
  // np.expand_dims(a, k): a new dimension of length 1 at position k.

  function ExpandDims<T>(a: NdArray<T>, k: nat): (r: NdArray<T>)
    requires k <= |a.shape|
    ensures r.shape == a.shape[..k] + [1] + a.shape[k..]
    ensures forall m :: InBounds(m, r.shape) ==>
      InBounds(m[..k] + m[k + 1..], a.shape) && r.at(m) == a.at(m[..k] + m[k + 1..])
  {
    var r := NdArray(a.shape[..k] + [1] + a.shape[k..],
      (m: seq<nat>) => if k < |m| then a.at(m[..k] + m[k + 1..]) else a.at(m));
    assert forall m :: InBounds(m, r.shape) ==> InBounds(m[..k] + m[k + 1..], a.shape) by {
      forall m | InBounds(m, r.shape) ensures InBounds(m[..k] + m[k + 1..], a.shape) {
        var e := m[..k] + m[k + 1..];
        forall j | 0 <= j < |e| ensures e[j] < a.shape[j] {
          if j < k { assert e[j] == m[j]; } else { assert e[j] == m[j + 1]; }
        }
      }
    }
    r
  }

  // ---------------------------------------------------------------------
  // np.repeat(a, count, axis=k): every slice along k repeated count times.

  function Repeat<T>(a: NdArray<T>, k: nat, count: nat): (r: NdArray<T>)
    requires k < |a.shape|
    ensures r.shape == a.shape[k := a.shape[k] * count]
    ensures count > 0 ==> forall m :: InBounds(m, r.shape) ==>
      InBounds(m[k := m[k] / count], a.shape) && r.at(m) == a.at(m[k := m[k] / count])
  {
    var shape := a.shape[k := a.shape[k] * count];
    var r := NdArray(shape, (m: seq<nat>) => if k < |m| && count > 0 then a.at(m[k := m[k] / count]) else a.at(m));
    forall m | count > 0 && InBounds(m, shape)
      ensures InBounds(m[k := m[k] / count], a.shape) && r.at(m) == a.at(m[k := m[k] / count])
    {
      RepeatInBounds(a.shape, k, count, m);
    }
    r
  }

  /** A position of the repeated array, with its k-th coordinate divided by
      the count, is a position of the source. */
  lemma RepeatInBounds(shape: seq<nat>, k: nat, count: nat, m: seq<nat>)
    requires k < |shape| && count > 0 && InBounds(m, shape[k := shape[k] * count])
    ensures InBounds(m[k := m[k] / count], shape)
  {
    DivBelow(m[k], shape[k], count);
    var e := m[k := m[k] / count];
    forall j | 0 <= j < |e| ensures e[j] < shape[j] {
      if j != k {
        assert e[j] == m[j];
      }
    }
  }

  /** `r` has one dimension more than `a`, at `k`, and every entry of `r`
      holds the entry of `a` at the other coordinates. */
  ghost predicate SpreadAlong<T>(r: NdArray<T>, a: NdArray<T>, k: nat) {
    forall m :: InBounds(m, r.shape) ==>
      k < |m| && InBounds(m[..k] + m[k + 1..], a.shape) && r.at(m) == a.at(m[..k] + m[k + 1..])
  }

  /** The shape of a new dimension of length 1 repeated count times. */
  lemma ExpandedRepeatShape(shape: seq<nat>, k: nat, count: nat)
    requires k <= |shape|
    ensures (shape[..k] + [1] + shape[k..])[k := 1 * count] == shape[..k] + [count] + shape[k..]
  {
    var e := shape[..k] + [1] + shape[k..];
    var f := shape[..k] + [count] + shape[k..];
    forall j | 0 <= j < |f| ensures e[k := 1 * count][j] == f[j] {
      if j < k {
        assert e[j] == shape[j] == f[j];
      } else if j > k {
        assert e[j] == shape[j - 1] == f[j];
      }
    }
  }

  /** One entry of a new dimension filled by repetition. */
  lemma RepeatExpandedAt<T>(a: NdArray<T>, k: nat, count: nat, m: seq<nat>)
    requires k <= |a.shape| && InBounds(m, a.shape[..k] + [count] + a.shape[k..])
    ensures InBounds(m[..k] + m[k + 1..], a.shape)
    ensures Repeat(ExpandDims(a, k), k, count).at(m) == a.at(m[..k] + m[k + 1..])
  {
    var e := ExpandDims(a, k);
    ExpandedRepeatShape(a.shape, k, count);
    assert m[k] < count;
    var down := m[k := m[k] / count];
    RepeatInBounds(e.shape, k, count, m);
    assert Repeat(e, k, count).at(m) == e.at(down);
    DropUpdated(m, k, m[k] / count);
  }

  /** A new dimension filled by repetition: every entry of it reads the
      data the source holds at the remaining positions. */
  lemma RepeatExpanded<T>(a: NdArray<T>, k: nat, count: nat)
    requires k <= |a.shape|
    ensures Repeat(ExpandDims(a, k), k, count).shape == a.shape[..k] + [count] + a.shape[k..]
    ensures SpreadAlong(Repeat(ExpandDims(a, k), k, count), a, k)
  {
    var r := Repeat(ExpandDims(a, k), k, count);
    ExpandedRepeatShape(a.shape, k, count);
    forall m | InBounds(m, r.shape)
      ensures k < |m| && InBounds(m[..k] + m[k + 1..], a.shape) && r.at(m) == a.at(m[..k] + m[k + 1..])
    {
      RepeatExpandedAt(a, k, count, m);
    }
  }

  /** Dropping coordinate k forgets what was written there. */
  lemma DropUpdated(m: seq<nat>, k: nat, x: nat)
    requires k < |m|
    ensures m[k := x][..k] + m[k := x][k + 1..] == m[..k] + m[k + 1..]
  {
    assert m[k := x][..k] == m[..k];
    assert m[k := x][k + 1..] == m[k + 1..];
  }

  lemma DivBelow(x: nat, n: nat, c: nat)
    requires c > 0 && x < n * c
    ensures x / c < n
  {
    var q := x / c;
    assert q * c <= x;
    assert (n - q) * c == n * c - q * c > 0;
  }

  // ---------------------------------------------------------------------
  // ndarray.swapaxes(i, j).

  function SwapAxes<T>(a: NdArray<T>, i: nat, j: nat): (r: NdArray<T>)
    requires i < |a.shape| && j < |a.shape|
    ensures r.shape == a.shape[i := a.shape[j]][j := a.shape[i]]
    ensures forall m :: InBounds(m, r.shape) ==>
      InBounds(m[i := m[j]][j := m[i]], a.shape) && r.at(m) == a.at(m[i := m[j]][j := m[i]])
  {
    NdArray(a.shape[i := a.shape[j]][j := a.shape[i]],
      (m: seq<nat>) => if i < |m| && j < |m| then a.at(m[i := m[j]][j := m[i]]) else a.at(m))
  }

  /** Swapping the same two dimensions twice restores the array. */
  lemma SwapAxesTwiceSame<T>(a: NdArray<T>, i: nat, j: nat)
    requires i < |a.shape| && j < |a.shape|
    ensures Same(SwapAxes(SwapAxes(a, i, j), i, j), a)
  {
    var d := SwapAxes(a, i, j);
    var e := SwapAxes(d, i, j);
    assert e.shape == a.shape;
    forall m | InBounds(m, a.shape) ensures e.at(m) == a.at(m) {
      var m1 := m[i := m[j]][j := m[i]];
      assert m1[i := m1[j]][j := m1[i]] == m;
    }
  }

  // ---------------------------------------------------------------------
  // A ufunc applied to an array and a scalar, and to two arrays of one rank
  // after numpy's broadcasting of dimensions of length 1.

  function MapLeft<T>(f: (T, T) -> T, x: T, a: NdArray<T>): (r: NdArray<T>)
    ensures r.shape == a.shape
    ensures forall m :: InBounds(m, r.shape) ==> r.at(m) == f(x, a.at(m))
  {
    NdArray(a.shape, (m: seq<nat>) => f(x, a.at(m)))
  }

  function MapRight<T>(f: (T, T) -> T, a: NdArray<T>, x: T): (r: NdArray<T>)
    ensures r.shape == a.shape
    ensures forall m :: InBounds(m, r.shape) ==> r.at(m) == f(a.at(m), x)
  {
    NdArray(a.shape, (m: seq<nat>) => f(a.at(m), x))
  }

  /** The length two broadcast dimensions take, if they are compatible. */
  function BroadcastDim(x: nat, y: nat): (r: Option<nat>)
    ensures r.Some? <==> x == y || x == 1 || y == 1
    ensures r.Some? ==> (x == r.value || x == 1) && (y == r.value || y == 1)
    ensures r.Some? && r.value == 1 ==> x == 1 && y == 1
  {
    if x == y then Some(x)
    else if x == 1 then Some(y)
    else if y == 1 then Some(x)
    else None
  }

  function BroadcastShape(s: seq<nat>, t: seq<nat>): (r: Option<seq<nat>>)
    requires |s| == |t|
    ensures r.Some? <==> forall k :: 0 <= k < |s| ==> BroadcastDim(s[k], t[k]).Some?
    ensures r.Some? ==> |r.value| == |s|
    ensures r.Some? ==> forall k :: 0 <= k < |s| ==> BroadcastDim(s[k], t[k]) == Some(r.value[k])
    decreases |s|
  {
    if s == [] then Some([])
    else
      match (BroadcastDim(s[0], t[0]), BroadcastShape(s[1..], t[1..]))
      case (Some(d), Some(rest)) =>
        assert forall k :: 1 <= k < |s| ==> BroadcastDim(s[k], t[k]) == BroadcastDim(s[1..][k - 1], t[1..][k - 1]);
        Some([d] + rest)
      case (None, _) => None
      case (_, None) =>
        assert forall k :: 1 <= k < |s| ==> BroadcastDim(s[k], t[k]) == BroadcastDim(s[1..][k - 1], t[1..][k - 1]);
        None
  }

  /** The source position that a broadcast position reads: 0 along every
      dimension of length 1. */
  function Clamp(m: seq<nat>, shape: seq<nat>): (r: seq<nat>)
    ensures |r| == |m|
    ensures forall k :: 0 <= k < |m| ==> r[k] == (if k < |shape| && shape[k] == 1 then 0 else m[k])
  {
    seq(|m|, k requires 0 <= k < |m| => if k < |shape| && shape[k] == 1 then 0 else m[k])
  }

  /** A position of the broadcast shape clamps to a position of every
      operand whose dimensions are each that length or 1. */
  lemma ClampInBounds(m: seq<nat>, target: seq<nat>, s: seq<nat>)
    requires InBounds(m, target) && |s| == |target|
    requires forall k :: 0 <= k < |s| ==> s[k] == target[k] || s[k] == 1
    ensures InBounds(Clamp(m, s), s)
  {
  }

  /** np.f(x, y) for two arrays of the same rank. */
  function Ufunc2<T>(f: (T, T) -> T, x: NdArray<T>, y: NdArray<T>): (r: Result<NdArray<T>>)
    requires |x.shape| == |y.shape|
    ensures r.Ok? <==> BroadcastShape(x.shape, y.shape).Some?
    ensures r.Err? ==> r.error == ValueError
    ensures r.Ok? ==> r.value.shape == BroadcastShape(x.shape, y.shape).value
    ensures r.Ok? ==> forall m :: InBounds(m, r.value.shape) ==>
      InBounds(Clamp(m, x.shape), x.shape) && InBounds(Clamp(m, y.shape), y.shape) &&
      r.value.at(m) == f(x.at(Clamp(m, x.shape)), y.at(Clamp(m, y.shape)))
  {
    match BroadcastShape(x.shape, y.shape)
    case None => Err(ValueError)
    case Some(s) =>
      var r := NdArray(s, (m: seq<nat>) => f(x.at(Clamp(m, x.shape)), y.at(Clamp(m, y.shape))));
      assert forall m :: InBounds(m, s) ==> InBounds(Clamp(m, x.shape), x.shape) && InBounds(Clamp(m, y.shape), y.shape) by {
        forall m | InBounds(m, s) ensures InBounds(Clamp(m, x.shape), x.shape) && InBounds(Clamp(m, y.shape), y.shape) {
          ClampInBounds(m, s, x.shape);
          ClampInBounds(m, s, y.shape);
        }
      }
      Ok(r)
  }

  // ---------------------------------------------------------------------
  // np.broadcast_arrays(*arrays) for arrays of one rank, then
  // np.concatenate(arrays) along dimension 0.

  /** The length a dimension takes when arrays with these lengths are
      broadcast together: every length must be 1 or one common value. */
  function CommonDim(ds: seq<nat>): (r: Option<nat>)
    ensures r.Some? <==> forall i, j :: 0 <= i < |ds| && 0 <= j < |ds| && ds[i] != 1 && ds[j] != 1 ==> ds[i] == ds[j]
    ensures r.Some? ==> forall i :: 0 <= i < |ds| ==> ds[i] == r.value || ds[i] == 1
    ensures r.Some? && r.value != 1 ==> exists i :: 0 <= i < |ds| && ds[i] == r.value
    decreases |ds|
  {
    if ds == [] then Some(1)
    else
      var last := ds[|ds| - 1];
      var pre := ds[..|ds| - 1];
      match CommonDim(pre)
      case None => None
      case Some(c) =>
        if last == 1 then Some(c)
        else if c == 1 || c == last then
          assert forall i :: 0 <= i < |pre| ==> ds[i] == pre[i];
          Some(last)
        else
          var i :| 0 <= i < |pre| && pre[i] == c;
          assert ds[i] == c && ds[|ds| - 1] == last;
          None
  }

  /** The one shape that arrays of these shapes broadcast to. */
  function CommonShape(shapes: seq<seq<nat>>, rank: nat, k: nat): (r: Option<seq<nat>>)
    requires k <= rank
    requires forall i :: 0 <= i < |shapes| ==> |shapes[i]| == rank
    ensures r.Some? <==> forall d :: k <= d < rank ==> CommonDim(Column(shapes, d)).Some?
    ensures r.Some? ==> |r.value| == rank - k
    ensures r.Some? ==> forall d :: k <= d < rank ==> Some(r.value[d - k]) == CommonDim(Column(shapes, d))
    decreases rank - k
  {
    if k == rank then Some([])
    else
      match (CommonDim(Column(shapes, k)), CommonShape(shapes, rank, k + 1))
      case (Some(c), Some(rest)) => Some([c] + rest)
      case (None, _) => None
      case (_, None) => None
  }

  function Column(shapes: seq<seq<nat>>, d: nat): (r: seq<nat>)
    requires forall i :: 0 <= i < |shapes| ==> d < |shapes[i]|
    ensures |r| == |shapes| && forall i :: 0 <= i < |shapes| ==> r[i] == shapes[i][d]
  {
    seq(|shapes|, i requires 0 <= i < |shapes| => shapes[i][d])
  }

  function Shapes<T>(arrays: seq<NdArray<T>>): (r: seq<seq<nat>>)
    ensures |r| == |arrays| && forall i :: 0 <= i < |arrays| ==> r[i] == arrays[i].shape
  {
    seq(|arrays|, i requires 0 <= i < |arrays| => arrays[i].shape)
  }

  function BroadcastArrays<T>(arrays: seq<NdArray<T>>, rank: nat): (r: Result<seq<NdArray<T>>>)
    requires forall i :: 0 <= i < |arrays| ==> |arrays[i].shape| == rank
    ensures r.Ok? <==> CommonShape(Shapes(arrays), rank, 0).Some?
    ensures r.Err? ==> r.error == ValueError
    ensures r.Ok? ==> |r.value| == |arrays| && forall i :: 0 <= i < |arrays| ==>
      r.value[i].shape == CommonShape(Shapes(arrays), rank, 0).value &&
      forall m :: InBounds(m, r.value[i].shape) ==>
        InBounds(Clamp(m, arrays[i].shape), arrays[i].shape) &&
        r.value[i].at(m) == arrays[i].at(Clamp(m, arrays[i].shape))
  {
    match CommonShape(Shapes(arrays), rank, 0)
    case None => Err(ValueError)
    case Some(s) =>
      var out := seq(|arrays|, i requires 0 <= i < |arrays| =>
        NdArray(s, (m: seq<nat>) => arrays[i].at(Clamp(m, arrays[i].shape))));
      assert forall i, m :: 0 <= i < |arrays| && InBounds(m, s) ==>
          InBounds(Clamp(m, arrays[i].shape), arrays[i].shape) by {
        forall i, m | 0 <= i < |arrays| && InBounds(m, s)
          ensures InBounds(Clamp(m, arrays[i].shape), arrays[i].shape)
        {
          forall d | 0 <= d < rank ensures arrays[i].shape[d] == s[d] || arrays[i].shape[d] == 1 {
            assert Column(Shapes(arrays), d)[i] == arrays[i].shape[d];
          }
          ClampInBounds(m, s, arrays[i].shape);
        }
      }
      Ok(out)
  }

  /** np.concatenate(arrays, axis=k) for arrays of one shape whose
      dimension k has length len: block q of the result along k holds
      arrays[q]. With no arrays numpy raises ValueError. */
  function Concatenate<T>(arrays: seq<NdArray<T>>, k: nat): (r: Result<NdArray<T>>)
    requires forall i :: 0 <= i < |arrays| ==> arrays[i].shape == arrays[0].shape && k < |arrays[0].shape|
    ensures r.Ok? <==> |arrays| > 0
    ensures r.Err? ==> r.error == ValueError
    ensures r.Ok? ==> r.value.shape == arrays[0].shape[k := |arrays| * arrays[0].shape[k]]
    ensures r.Ok? ==> forall m :: InBounds(m, r.value.shape) ==>
      var len := arrays[0].shape[k];
      len > 0 && m[k] / len < |arrays| && InBounds(m[k := m[k] % len], arrays[0].shape) &&
      r.value.at(m) == arrays[m[k] / len].at(m[k := m[k] % len])
  {
    if arrays == [] then Err(ValueError)
    else
      var len := arrays[0].shape[k];
      var shape := arrays[0].shape[k := |arrays| * len];
      var r := NdArray(shape,
        (m: seq<nat>) =>
          if k < |m| && len > 0 && m[k] / len < |arrays| then arrays[m[k] / len].at(m[k := m[k] % len])
          else arrays[0].at(m));
      assert forall m :: InBounds(m, shape) ==>
          len > 0 && m[k] / len < |arrays| && InBounds(m[k := m[k] % len], arrays[0].shape) by {
        forall m | InBounds(m, shape)
          ensures len > 0 && m[k] / len < |arrays| && InBounds(m[k := m[k] % len], arrays[0].shape)
        {
          assert m[k] < |arrays| * len;
          DivBelow(m[k], |arrays|, len);
        }
      }
      Ok(r)
  }

  // ---------------------------------------------------------------------
  // A gather along every dimension at once: the combined effect of several
  // `take`s along distinct dimensions.

  predicate GatherFits(g: seq<seq<nat>>, shape: seq<nat>) {
    |g| == |shape| && forall d, t :: 0 <= d < |g| && 0 <= t < |g[d]| ==> g[d][t] < shape[d]
  }

  function GatherIndex(g: seq<seq<nat>>, m: seq<nat>): (r: seq<nat>)
    requires |m| == |g| && forall d :: 0 <= d < |g| ==> m[d] < |g[d]|
    ensures |r| == |m| && forall d :: 0 <= d < |m| ==> r[d] == g[d][m[d]]
  {
    seq(|m|, d requires 0 <= d < |m| => g[d][m[d]])
  }

  function GatherShape(g: seq<seq<nat>>): (r: seq<nat>)
    ensures |r| == |g| && forall d :: 0 <= d < |g| ==> r[d] == |g[d]|
  {
    seq(|g|, d requires 0 <= d < |g| => |g[d]|)
  }

  /** Result position m reads source position (g[0][m[0]], g[1][m[1]], ...). */
  function Gather<T>(a: NdArray<T>, g: seq<seq<nat>>): (r: NdArray<T>)
    requires GatherFits(g, a.shape)
    ensures r.shape == GatherShape(g)
    ensures forall m :: InBounds(m, r.shape) ==>
      InBounds(GatherIndex(g, m), a.shape) && r.at(m) == a.at(GatherIndex(g, m))
  {
    NdArray(GatherShape(g),
      (m: seq<nat>) => if InBounds(m, GatherShape(g)) then a.at(GatherIndex(g, m)) else a.at(m))
  }

  /** The gather that reads every position of every dimension. */
  function IdentityGather(shape: seq<nat>): (g: seq<seq<nat>>)
    ensures GatherFits(g, shape) && GatherShape(g) == shape
    ensures forall d :: 0 <= d < |shape| ==> g[d] == Iota(shape[d])
  {
    seq(|shape|, d requires 0 <= d < |shape| => Iota(shape[d]))
  }

  /** The identity gather changes nothing. */
  lemma IdentityGatherSame<T>(a: NdArray<T>)
    ensures Same(Gather(a, IdentityGather(a.shape)), a)
  {
    var g := IdentityGather(a.shape);
    forall m | InBounds(m, a.shape) ensures Gather(a, g).at(m) == a.at(m) {
      assert GatherIndex(g, m) == m;
    }
  }

  /** A take along dimension d of a gather whose dimension d is still the
      identity is the gather with that dimension replaced. */
  lemma TakeOfGather<T>(a: NdArray<T>, g: seq<seq<nat>>, x: NdArray<T>, d: nat, idx: seq<nat>)
    requires GatherFits(g, a.shape) && d < |g| && g[d] == Iota(a.shape[d])
    requires Same(x, Gather(a, g))
    requires forall t :: 0 <= t < |idx| ==> idx[t] < a.shape[d]
    ensures GatherFits(g[d := idx], a.shape)
    ensures Same(Take(x, d, idx), Gather(a, g[d := idx]))
  {
    var g' := g[d := idx];
    var y := Take(x, d, idx);
    forall m | InBounds(m, y.shape) ensures y.at(m) == Gather(a, g').at(m) {
      var m' := m[d := idx[m[d]]];
      assert GatherIndex(g, m') == GatherIndex(g', m);
    }
  }

  // ---------------------------------------------------------------------
  // np.apply_along_axis(f, k, a) for a reducer f that maps every 1-D slice
  // along dimension k to one element: dimension k disappears. numpy calls
  // f once before it allocates the result, so it raises ValueError when
  // there is no slice at all, that is when another dimension is 0.

  /** Every dimension other than k has at least one position. */
  predicate IterationNonEmpty(shape: seq<nat>, k: nat) {
    forall j :: 0 <= j < |shape| && j != k ==> shape[j] > 0
  }

  function ApplyAlongAxis<T>(f: seq<T> -> T, k: nat, a: NdArray<T>): (r: Result<NdArray<T>>)
    requires k < |a.shape|
    ensures r.Ok? <==> IterationNonEmpty(a.shape, k)
    ensures r.Err? ==> r.error == ValueError
    ensures r.Ok? ==> r.value.shape == a.shape[..k] + a.shape[k + 1..]
    ensures r.Ok? ==> forall m :: InBounds(m, r.value.shape) ==>
      (forall j :: 0 <= j < a.shape[k] ==> InBounds(m[..k] + [j] + m[k..], a.shape)) &&
      r.value.at(m) == f(Slice(a, k, m))
  {
    if !IterationNonEmpty(a.shape, k) then Err(ValueError)
    else
      var r := NdArray(a.shape[..k] + a.shape[k + 1..], (m: seq<nat>) => f(Slice(a, k, m)));
      assert forall m :: InBounds(m, r.shape) ==>
          forall j :: 0 <= j < a.shape[k] ==> InBounds(m[..k] + [j] + m[k..], a.shape) by {
        forall m, j | InBounds(m, r.shape) && 0 <= j < a.shape[k]
          ensures InBounds(m[..k] + [j] + m[k..], a.shape)
        {
          var e := m[..k] + [j] + m[k..];
          forall t | 0 <= t < |e| ensures e[t] < a.shape[t] {
            if t < k { assert e[t] == m[t]; }
            else if t > k { assert e[t] == m[t - 1]; }
          }
        }
      }
      Ok(r)
  }

  /** The 1-D slice along dimension k through the other coordinates m. */
  function Slice<T>(a: NdArray<T>, k: nat, m: seq<nat>): (s: seq<T>)
    requires k < |a.shape|
    ensures |s| == a.shape[k]
    ensures k <= |m| ==> forall j :: 0 <= j < a.shape[k] ==> s[j] == a.at(m[..k] + [j] + m[k..])
  {
    seq(a.shape[k], j requires 0 <= j < a.shape[k] => if k <= |m| then a.at(m[..k] + [j] + m[k..]) else a.at(m))
  }

  // ---------------------------------------------------------------------
  // ndarray.reshape in C order, for a reshape that merges the leading
  // dimensions into one: flat position q of the merged dimension is the
  // row-major (last coordinate fastest) multi-index of q.

  function Product(sizes: seq<nat>): nat {
    if sizes == [] then 1 else sizes[0] * Product(sizes[1..])
  }

  lemma {:induction false} ProductSnoc(sizes: seq<nat>, x: nat)
    ensures Product(sizes + [x]) == Product(sizes) * x
    decreases |sizes|
  {
    if sizes != [] {
      assert (sizes + [x])[1..] == sizes[1..] + [x];
      ProductSnoc(sizes[1..], x);
    } else {
      assert [x][1..] == [];
    }
  }

  /** A product is positive exactly when no factor is zero. */
  lemma {:induction false} ProductPositive(sizes: seq<nat>)
    ensures Product(sizes) > 0 <==> forall k :: 0 <= k < |sizes| ==> sizes[k] > 0
    decreases |sizes|
  {
    if sizes != [] {
      ProductPositive(sizes[1..]);
      assert forall k :: 1 <= k < |sizes| ==> sizes[k] == sizes[1..][k - 1];
    }
  }

  /** The C-order flat position of the multi-index m. */
  function FlatIndex(m: seq<nat>, sizes: seq<nat>): nat
    requires |m| == |sizes|
    decreases |m|
  {
    if m == [] then 0
    else var n := |m|; FlatIndex(m[..n - 1], sizes[..n - 1]) * sizes[n - 1] + m[n - 1]
  }

  /** The C-order multi-index of flat position q. */
  function RowMajorIndex(q: nat, sizes: seq<nat>): (m: seq<nat>)
    ensures |m| == |sizes|
    ensures q < Product(sizes) ==> InBounds(m, sizes)
    decreases |sizes|
  {
    if sizes == [] then []
    else
      var n := |sizes|;
      var s := sizes[n - 1];
      var pre := sizes[..n - 1];
      assert sizes == pre + [s];
      ProductSnoc(pre, s);
      if s == 0 then RowMajorIndex(q, pre) + [0]
      else
        assert q < Product(pre) * s ==> q / s < Product(pre) by {
          if q < Product(pre) * s { DivBelow(q, Product(pre), s); }
        }
        RowMajorIndex(q / s, pre) + [q % s]
  }

  /** Reading a flat position back through its multi-index. */
  lemma {:induction false} FlatOfRowMajor(q: nat, sizes: seq<nat>)
    requires q < Product(sizes)
    ensures FlatIndex(RowMajorIndex(q, sizes), sizes) == q
    decreases |sizes|
  {
    if sizes != [] {
      var n := |sizes|;
      var s := sizes[n - 1];
      var pre := sizes[..n - 1];
      assert sizes == pre + [s];
      ProductSnoc(pre, s);
      DivBelow(q, Product(pre), s);
      FlatOfRowMajor(q / s, pre);
      var m0 := RowMajorIndex(q / s, pre);
      var m := RowMajorIndex(q, sizes);
      assert m == m0 + [q % s];
      assert m[..n - 1] == m0 && sizes[..n - 1] == pre;
      assert FlatIndex(m, sizes) == FlatIndex(m0, pre) * s + q % s;
      DivMod(q, s);
    }
  }

  lemma DivMod(q: nat, s: nat)
    requires s > 0
    ensures (q / s) * s + q % s == q
  {
  }

  /** ndarray.reshape([Product(a.shape[..j])] + a.shape[j..]). */
  function MergeLeading<T>(a: NdArray<T>, j: nat): (r: NdArray<T>)
    requires j <= |a.shape|
    ensures r.shape == [Product(a.shape[..j])] + a.shape[j..]
    ensures forall m :: InBounds(m, r.shape) ==>
      InBounds(RowMajorIndex(m[0], a.shape[..j]) + m[1..], a.shape) &&
      r.at(m) == a.at(RowMajorIndex(m[0], a.shape[..j]) + m[1..])
  {
    var r := NdArray([Product(a.shape[..j])] + a.shape[j..],
      (m: seq<nat>) => if |m| > 0 then a.at(RowMajorIndex(m[0], a.shape[..j]) + m[1..]) else a.at(m));
    assert forall m :: InBounds(m, r.shape) ==> InBounds(RowMajorIndex(m[0], a.shape[..j]) + m[1..], a.shape) by {
      forall m | InBounds(m, r.shape) ensures InBounds(RowMajorIndex(m[0], a.shape[..j]) + m[1..], a.shape) {
        var h := RowMajorIndex(m[0], a.shape[..j]);
        var e := h + m[1..];
        assert a.shape == a.shape[..j] + a.shape[j..];
        forall t | 0 <= t < |e| ensures e[t] < a.shape[t] {
          if t < j { assert e[t] == h[t]; } else { assert e[t] == m[t - j + 1]; }
        }
      }
    }
    r
  }
}
