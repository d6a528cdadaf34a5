/** Axis labels and the value-level helpers the library takes from numpy:
    distinctness, the order `np.unique` sorts by, and the two orders in which
    `Cube.groupby` lists the distinct labels of an axis. */
module Labels {

  /** A label stored in an axis. numpy stores one dtype per array, so the
      labels of one axis are all integers or all strings (Homogeneous); the
      constructors coerce a mix to strings (Coerce). */
  datatype Value = IntValue(i: int) | StrValue(s: string)

  predicate Distinct<X(==)>(s: seq<X>) {
    forall i, j :: 0 <= i < j < |s| ==> s[i] != s[j]
  }

  function Elements<X(==)>(s: seq<X>): set<X> {
    set x | x in s
  }

  /** `s[ps]` with integer-array indexing: the entries at the positions ps,
      in the order of ps. */
  function Pick<X>(s: seq<X>, ps: seq<nat>): (r: seq<X>)
    requires forall k :: 0 <= k < |ps| ==> ps[k] < |s|
    ensures |r| == |ps| && forall k :: 0 <= k < |ps| ==> r[k] == s[ps[k]]
  {
    seq(|ps|, k requires 0 <= k < |ps| => s[ps[k]])
  }

  /** An entry followed by a sequence repeats nothing exactly when the
      entry is new and the rest repeats nothing. */
  lemma DistinctCons<X>(x: X, t: seq<X>)
    ensures Distinct([x] + t) <==> x !in t && Distinct(t)
  {
    var s := [x] + t;
    if x in t {
      var k :| 0 <= k < |t| && t[k] == x;
      assert s[0] == s[k + 1];
    } else if !Distinct(t) {
      var i, j :| 0 <= i < j < |t| && t[i] == t[j];
      assert s[i + 1] == s[j + 1];
    } else {
      forall i, j | 0 <= i < j < |s| ensures s[i] != s[j] {
        assert s[j] == t[j - 1];
        if i > 0 {
          assert s[i] == t[i - 1];
        }
      }
    }
  }

  /** A sequence has as many different elements as it has entries exactly
      when no entry repeats. */
  lemma {:induction false} DistinctIffElementsCount<X>(s: seq<X>)
    ensures |Elements(s)| <= |s|
    ensures |Elements(s)| == |s| <==> Distinct(s)
  {
    if s != [] {
      var t := s[1..];
      DistinctIffElementsCount(t);
      assert s == [s[0]] + t;
      DistinctCons(s[0], t);
      assert Elements(s) == {s[0]} + Elements(t);
      if s[0] in t {
        assert Elements(s) == Elements(t);
      } else {
        assert |Elements(s)| == |Elements(t)| + 1;
      }
    }
  }

  lemma DistinctPrefix<X>(s: seq<X>, n: nat)
    requires Distinct(s) && n <= |s|
    ensures Distinct(s[..n])
  {
  }

  // ---------------------------------------------------------------------
  // The order numpy sorts labels by.

  /** Lexicographic order of strings by code point. */
  predicate StrLess(a: string, b: string)
    decreases |a|
  {
    if |a| == 0 then |b| > 0
    else |b| > 0 && (a[0] < b[0] || (a[0] == b[0] && StrLess(a[1..], b[1..])))
  }

  /** Integers by value, strings lexicographically by code point; integers before strings, a case no axis reaches, since coercion gives its labels one kind. */
  predicate Less(x: Value, y: Value) {
    match (x, y)
    case (IntValue(i), IntValue(j)) => i < j
    case (IntValue(_), StrValue(_)) => true
    case (StrValue(_), IntValue(_)) => false
    case (StrValue(s), StrValue(t)) => StrLess(s, t)
  }

  lemma {:induction false} StrLessIrreflexive(a: string)
    ensures !StrLess(a, a)
  {
    if |a| > 0 {
      StrLessIrreflexive(a[1..]);
    }
  }

  lemma {:induction false} StrLessTransitive(a: string, b: string, c: string)
    requires StrLess(a, b) && StrLess(b, c)
    ensures StrLess(a, c)
  {
    if |a| > 0 && a[0] == b[0] && b[0] == c[0] {
      StrLessTransitive(a[1..], b[1..], c[1..]);
    }
  }

  lemma {:induction false} StrLessTotal(a: string, b: string)
    requires a != b
    ensures StrLess(a, b) || StrLess(b, a)
  {
    if |a| > 0 && |b| > 0 && a[0] == b[0] {
      assert a == [a[0]] + a[1..] && b == [b[0]] + b[1..];
      StrLessTotal(a[1..], b[1..]);
    }
  }

  lemma LessIrreflexive(x: Value)
    ensures !Less(x, x)
  {
    if x.StrValue? { StrLessIrreflexive(x.s); }
  }

  lemma LessTransitive(x: Value, y: Value, z: Value)
    requires Less(x, y) && Less(y, z)
    ensures Less(x, z)
  {
    if x.StrValue? && y.StrValue? && z.StrValue? { StrLessTransitive(x.s, y.s, z.s); }
  }

  lemma LessTotal(x: Value, y: Value)
    requires x != y
    ensures Less(x, y) || Less(y, x)
  {
    if x.StrValue? && y.StrValue? { StrLessTotal(x.s, y.s); }
  }

  // ---------------------------------------------------------------------
  // One dtype per array. `np.atleast_1d` and `np.asarray` turn a list that
  // mixes integers and strings into an array of strings, each integer
  // written in decimal.

  predicate AllInts(vs: seq<Value>) {
    forall i :: 0 <= i < |vs| ==> vs[i].IntValue?
  }

  predicate AllStrs(vs: seq<Value>) {
    forall i :: 0 <= i < |vs| ==> vs[i].StrValue?
  }

  predicate Homogeneous(vs: seq<Value>) {
    AllInts(vs) || AllStrs(vs)
  }

  function DigitChar(d: nat): char
    requires d < 10
  {
    (48 + d) as char
  }

  /** The decimal digits of n, most significant first, without leading zeros. */
  function NatString(n: nat): (r: string)
    ensures |r| > 0 && forall t :: 0 <= t < |r| ==> '0' <= r[t] <= '9'
    ensures |r| > 1 ==> r[0] != '0'
  {
    if n < 10 then [DigitChar(n)] else NatString(n / 10) + [DigitChar(n % 10)]
  }

  /** `str(i)`: a minus sign for a negative integer, then its digits. */
  function DecimalString(i: int): (r: string)
    ensures |r| > 0
    ensures i < 0 <==> r[0] == '-'
  {
    if i < 0 then "-" + NatString(-i) else NatString(i)
  }

  function AsStr(v: Value): (r: Value)
    ensures r.StrValue?
  {
    match v
    case IntValue(i) => StrValue(DecimalString(i))
    case StrValue(_) => v
  }

  /** The labels numpy stores for a list of labels: unchanged when they are
      all integers, otherwise every one as a string. */
  function Coerce(vs: seq<Value>): (r: seq<Value>)
    ensures |r| == |vs| && Homogeneous(r)
    ensures Homogeneous(vs) ==> r == vs
    ensures !AllInts(vs) ==> forall i :: 0 <= i < |vs| ==> r[i] == AsStr(vs[i])
  {
    if AllInts(vs) then vs else seq(|vs|, i requires 0 <= i < |vs| => AsStr(vs[i]))
  }

  /** Labels drawn from one array share its dtype. */
  lemma HomogeneousSubset(a: seq<Value>, b: seq<Value>)
    requires Homogeneous(b) && forall i :: 0 <= i < |a| ==> a[i] in b
    ensures Homogeneous(a)
  {
    if AllInts(b) {
      forall i | 0 <= i < |a| ensures a[i].IntValue? {
        var j :| 0 <= j < |b| && b[j] == a[i];
      }
    } else {
      forall i | 0 <= i < |a| ensures a[i].StrValue? {
        var j :| 0 <= j < |b| && b[j] == a[i];
      }
    }
  }

  /** The integer 1 and the string "1" become the same label once coerced. */
  lemma MixedLabelsCoerced()
    ensures Coerce([IntValue(1), StrValue("1")]) == [StrValue("1"), StrValue("1")]
    ensures Coerce([IntValue(10), StrValue("9")]) == [StrValue("10"), StrValue("9")]
  {
    var a := [IntValue(1), StrValue("1")];
    assert !a[1].IntValue?;
    assert NatString(1) == "1";
    var b := [IntValue(10), StrValue("9")];
    assert !b[1].IntValue?;
    assert NatString(10) == NatString(1) + [DigitChar(0)] == "10";
  }

  predicate StrictlyIncreasing(s: seq<Value>) {
    forall i, j :: 0 <= i < j < |s| ==> Less(s[i], s[j])
  }

  // ---------------------------------------------------------------------
  // np.unique(values): the distinct labels in increasing order.

  function InsertSorted(s: seq<Value>, v: Value): seq<Value>
  {
    if s == [] then [v]
    else if v == s[0] then s
    else if Less(v, s[0]) then [v] + s
    else [s[0]] + InsertSorted(s[1..], v)
  }

  lemma {:induction false} InsertSortedElements(s: seq<Value>, v: Value)
    ensures Elements(InsertSorted(s, v)) == Elements(s) + {v}
  {
    if s != [] && v != s[0] && !Less(v, s[0]) {
      assert s == [s[0]] + s[1..];
      InsertSortedElements(s[1..], v);
      assert InsertSorted(s, v) == [s[0]] + InsertSorted(s[1..], v);
      assert Elements([s[0]] + InsertSorted(s[1..], v)) == {s[0]} + Elements(InsertSorted(s[1..], v));
      assert Elements(s) == {s[0]} + Elements(s[1..]);
    }
  }

  /** A label below every label of an increasing sequence can lead it. */
  lemma ConsIncreasing(x: Value, q: seq<Value>)
    requires StrictlyIncreasing(q)
    requires forall k :: 0 <= k < |q| ==> Less(x, q[k])
    ensures StrictlyIncreasing([x] + q)
  {
    var r := [x] + q;
    forall i, j | 0 <= i < j < |r| ensures Less(r[i], r[j]) {
      if i > 0 {
        assert r[i] == q[i - 1] && r[j] == q[j - 1];
      }
    }
  }

  /** The head of an increasing sequence is below everything inserted
      after it, given that it is below the inserted label. */
  lemma HeadBelowInserted(s: seq<Value>, v: Value)
    requires StrictlyIncreasing(s) && s != [] && Less(s[0], v)
    ensures forall k :: 0 <= k < |InsertSorted(s[1..], v)| ==> Less(s[0], InsertSorted(s[1..], v)[k])
  {
    var t := s[1..];
    var q := InsertSorted(t, v);
    InsertSortedElements(t, v);
    forall k | 0 <= k < |q| ensures Less(s[0], q[k]) {
      assert q[k] in Elements(q);
      if q[k] != v {
        var i :| 0 <= i < |t| && t[i] == q[k];
        assert s[i + 1] == q[k];
      }
    }
  }

  lemma {:induction false} InsertSortedIncreasing(s: seq<Value>, v: Value)
    requires StrictlyIncreasing(s)
    ensures StrictlyIncreasing(InsertSorted(s, v))
  {
    if s == [] || v == s[0] {
    } else if Less(v, s[0]) {
      forall k | 0 <= k < |s| ensures Less(v, s[k]) {
        if k > 0 {
          LessTransitive(v, s[0], s[k]);
        }
      }
      ConsIncreasing(v, s);
    } else {
      LessTotal(v, s[0]);
      InsertSortedIncreasing(s[1..], v);
      HeadBelowInserted(s, v);
      ConsIncreasing(s[0], InsertSorted(s[1..], v));
    }
  }

  /** The distinct labels of `values` in increasing order, as `np.unique`
      returns them. */
  function SortedUnique(values: seq<Value>): (r: seq<Value>)
    ensures StrictlyIncreasing(r)
    ensures Elements(r) == Elements(values)
    decreases |values|
  {
    if values == [] then []
    else
      var p := values[..|values| - 1];
      assert values == p + [values[|values| - 1]];
      var q := SortedUnique(p);
      InsertSortedIncreasing(q, values[|values| - 1]);
      InsertSortedElements(q, values[|values| - 1]);
      InsertSorted(q, values[|values| - 1])
  }

  lemma StrictlyIncreasingIsDistinct(s: seq<Value>)
    requires StrictlyIncreasing(s)
    ensures Distinct(s)
  {
    forall i, j | 0 <= i < j < |s| ensures s[i] != s[j] {
      if s[i] == s[j] { LessIrreflexive(s[i]); }
    }
  }

  // ---------------------------------------------------------------------
  // The distinct labels of `values` in the order they are first seen, as
  // sorting the result of np.unique(values, return_index=True) by the
  // returned first-occurrence positions gives them.

  /** The position of the first occurrence of `v` in `s`, or |s|. */
  function FirstIndex<X(==)>(s: seq<X>, v: X): (k: nat)
    ensures k <= |s|
    ensures k < |s| ==> s[k] == v
    ensures forall j :: 0 <= j < k ==> s[j] != v
    ensures v in s ==> k < |s|
    decreases |s|
  {
    if s == [] then 0
    else if s[0] == v then 0
    else 1 + FirstIndex(s[1..], v)
  }

  function FirstSeen(values: seq<Value>): (r: seq<Value>)
    decreases |values|
  {
    if values == [] then []
    else
      var p := FirstSeen(values[..|values| - 1]);
      if values[|values| - 1] in p then p else p + [values[|values| - 1]]
  }

  lemma {:induction false} FirstSeenElements(values: seq<Value>)
    ensures Elements(FirstSeen(values)) == Elements(values)
    decreases |values|
  {
    if values != [] {
      var pre := values[..|values| - 1];
      var x := values[|values| - 1];
      assert values == pre + [x];
      FirstSeenElements(pre);
      assert Elements(values) == Elements(pre) + {x};
      var p := FirstSeen(pre);
      if x in p {
        assert x in Elements(p);
      } else {
        assert Elements(p + [x]) == Elements(p) + {x};
      }
    }
  }

  lemma {:induction false} FirstSeenDistinct(values: seq<Value>)
    ensures Distinct(FirstSeen(values))
    decreases |values|
  {
    if values != [] {
      FirstSeenDistinct(values[..|values| - 1]);
    }
  }

  /** FirstSeen lists the labels by the position of their first occurrence. */
  lemma {:induction false} FirstSeenOrder(values: seq<Value>)
    ensures forall i, j :: 0 <= i < j < |FirstSeen(values)| ==>
      FirstIndex(values, FirstSeen(values)[i]) < FirstIndex(values, FirstSeen(values)[j])
    decreases |values|
  {
    if values != [] {
      var n := |values|;
      var pre := values[..n - 1];
      var x := values[n - 1];
      assert values == pre + [x];
      FirstSeenOrder(pre);
      FirstSeenElements(pre);
      var p := FirstSeen(pre);
      forall v | v in p ensures v in pre && FirstIndex(values, v) == FirstIndex(pre, v) {
        assert v in Elements(p);
        FirstIndexOfPrefix(pre, [x], v);
      }
      if x !in p {
        var r := p + [x];
        assert FirstSeen(values) == r;
        assert x !in Elements(pre);
        FirstIndexPastPrefix(pre, [x], x);
        forall i, j | 0 <= i < j < |r| ensures FirstIndex(values, r[i]) < FirstIndex(values, r[j]) {
          assert r[i] == p[i];
          if j < |p| {
            assert r[j] == p[j];
          }
        }
      }
    }
  }

  lemma {:induction false} FirstIndexOfPrefix<X>(s: seq<X>, t: seq<X>, v: X)
    requires v in s
    ensures FirstIndex(s + t, v) == FirstIndex(s, v)
    decreases |s|
  {
    if s[0] != v {
      assert (s + t)[1..] == s[1..] + t;
      FirstIndexOfPrefix(s[1..], t, v);
    }
  }

  lemma {:induction false} FirstIndexPastPrefix<X>(s: seq<X>, t: seq<X>, v: X)
    requires v !in s
    ensures FirstIndex(s + t, v) == |s| + FirstIndex(t, v)
    decreases |s|
  {
    if s != [] {
      assert (s + t)[1..] == s[1..] + t;
      FirstIndexPastPrefix(s[1..], t, v);
    } else {
      assert s + t == t;
    }
  }
}
