/** The small list helpers of the metric maker: `find`, `sort`, `diff`,
    `zeros`, and the `max`/`min` the refiner reads. */
module ListOps {

  // ---------------------------------------------------------------- find

  /** Indices of `a` at or after `from` whose element equals `v`, ascending. */
  function FindFrom<T(==)>(a: seq<T>, v: T, from: nat): (r: seq<nat>)
    requires from <= |a|
    decreases |a| - from
    ensures forall k :: 0 <= k < |r| ==> from <= r[k] < |a| && a[r[k]] == v
    ensures forall i :: from <= i < |a| && a[i] == v ==> i in r
    ensures forall k, l :: 0 <= k < l < |r| ==> r[k] < r[l]
  {
    if from == |a| then []
    else if a[from] == v then [from] + FindFrom(a, v, from + 1)
    else FindFrom(a, v, from + 1)
  }

  /** `find(array, value)`: every index holding `value`, in increasing order. */
  function Find<T(==)>(a: seq<T>, v: T): (r: seq<nat>)
    ensures forall i :: i in r <==> 0 <= i < |a| && a[i] == v
    ensures forall k, l :: 0 <= k < l < |r| ==> r[k] < r[l]
  {
    FindFrom(a, v, 0)
  }

  // ---------------------------------------------------------------- sort

  /** The order `sort` uses: the tuples (data[i], i) compared lexicographically. */
  predicate KeyLess(data: seq<real>, i: nat, j: nat)
    requires i < |data| && j < |data|
  {
    data[i] < data[j] || (data[i] == data[j] && i < j)
  }

  /** `idx` lists indices of `data` in strictly increasing (value, index) order. */
  predicate KeySorted(data: seq<real>, idx: seq<nat>)
  {
    && (forall k :: 0 <= k < |idx| ==> idx[k] < |data|)
    && (forall k, l :: 0 <= k < l < |idx| ==> KeyLess(data, idx[k], idx[l]))
  }

  /** Inserts index `i` into a key-sorted list of indices. */
  function InsertIndex(data: seq<real>, i: nat, idx: seq<nat>): (r: seq<nat>)
    requires i < |data| && KeySorted(data, idx) && i !in idx
    ensures |r| == |idx| + 1
    ensures forall x :: x in r <==> x == i || x in idx
    ensures KeySorted(data, r)
  {
    if |idx| == 0 then [i]
    else if KeyLess(data, i, idx[0]) then [i] + idx
    else
      var rest := InsertIndex(data, i, idx[1..]);
      assert forall k :: 0 <= k < |rest| ==> KeyLess(data, idx[0], rest[k]) by {
        forall k | 0 <= k < |rest|
          ensures KeyLess(data, idx[0], rest[k])
        {
          assert rest[k] in rest;
          if rest[k] != i {
            var j :| 0 <= j < |idx[1..]| && idx[1..][j] == rest[k];
            assert idx[j + 1] == rest[k];
          }
        }
      }
      [idx[0]] + rest
  }

  /** The indices 0..n-1 sorted by (value, index), by insertion. */
  function SortIndexUpTo(data: seq<real>, n: nat): (r: seq<nat>)
    requires n <= |data|
    ensures |r| == n
    ensures forall x :: x in r <==> 0 <= x < n
    ensures KeySorted(data, r)
  {
    if n == 0 then [] else InsertIndex(data, n - 1, SortIndexUpTo(data, n - 1))
  }

  /** `sort(data)`: the values ascending, and the original position of each.
      Equal values keep ascending original index, because the source sorts
      (value, index) tuples. The input is a value and cannot change. */
  function Sort(data: seq<real>): (r: (seq<real>, seq<nat>))
    ensures |r.0| == |data| && |r.1| == |data|
    ensures forall i :: 0 <= i < |data| ==> i in r.1
    ensures forall k :: 0 <= k < |data| ==> r.1[k] < |data| && r.0[k] == data[r.1[k]]
    ensures forall k, l :: 0 <= k < l < |data| ==> r.0[k] <= r.0[l]
    ensures forall k, l :: 0 <= k < l < |data| && r.0[k] == r.0[l] ==> r.1[k] < r.1[l]
  {
    var idx := SortIndexUpTo(data, |data|);
    assert forall k, l :: 0 <= k < l < |idx| ==> KeyLess(data, idx[k], idx[l]);
    (seq(|data|, k requires 0 <= k < |data| => data[idx[k]]), idx)
  }

  /** Two key-sorted index lists with the same members are the same list:
      the order `sort` produces is the only one with its properties. */
  lemma {:induction false} KeySortedUnique(data: seq<real>, a: seq<nat>, b: seq<nat>)
    requires KeySorted(data, a) && KeySorted(data, b)
    requires forall x :: x in a <==> x in b
    ensures a == b
    decreases |a|
  {
    assert |b| > 0 ==> b[0] in b;
    if |a| > 0 {
      assert a[0] in b && |b| > 0 && b[0] in a;
      assert forall i :: 0 < i < |a| ==> KeyLess(data, a[0], a[i]);
      assert forall j :: 0 < j < |b| ==> KeyLess(data, b[0], b[j]);
      assert a[0] == b[0];
      forall x
        ensures x in a[1..] <==> x in b[1..]
      {
        if x in a[1..] {
          var i :| 1 <= i < |a| && a[i] == x;
          assert KeyLess(data, a[0], a[i]);
          assert x in a && x in b;
          var j :| 0 <= j < |b| && b[j] == x;
          assert b[1..][j - 1] == x;
        }
        if x in b[1..] {
          var j :| 1 <= j < |b| && b[j] == x;
          assert KeyLess(data, b[0], b[j]);
          assert x in b && x in a;
          var i :| 0 <= i < |a| && a[i] == x;
          assert a[1..][i - 1] == x;
        }
      }
      KeySortedUnique(data, a[1..], b[1..]);
      assert a == [a[0]] + a[1..] && b == [b[0]] + b[1..];
    }
  }

  /** The index list `sort` returns is the unique key-sorted permutation of
      0..n-1: any other list with those properties is equal to it. */
  lemma SortIndexIsUnique(data: seq<real>, idx: seq<nat>)
    requires KeySorted(data, idx)
    requires forall x :: x in idx <==> 0 <= x < |data|
    ensures Sort(data).1 == idx
  {
    KeySortedUnique(data, Sort(data).1, idx);
  }

  // ---------------------------------------------------------------- diff

  /** `diff(data)`: consecutive differences, one shorter than the input. */
  function Diff(data: seq<real>): (d: seq<real>)
    ensures |d| == if |data| == 0 then 0 else |data| - 1
    ensures forall i :: 0 <= i < |d| ==> d[i] == data[i + 1] - data[i]
  {
    if |data| < 2 then [] else [data[1] - data[0]] + Diff(data[1..])
  }

  /** Running sums starting from `x0`: the inverse of `Diff`. */
  function Integrate(x0: real, d: seq<real>): (r: seq<real>)
    ensures |r| == |d| + 1 && r[0] == x0
    decreases |d|
  {
    if |d| == 0 then [x0] else [x0] + Integrate(x0 + d[0], d[1..])
  }

  /** Consecutive running sums differ by the summand between them. */
  lemma {:induction false} IntegrateStep(x0: real, d: seq<real>, k: nat)
    requires k < |d|
    ensures Integrate(x0, d)[k + 1] == Integrate(x0, d)[k] + d[k]
    decreases |d|
  {
    var t := Integrate(x0 + d[0], d[1..]);
    assert Integrate(x0, d) == [x0] + t;
    if k > 0 {
      IntegrateStep(x0 + d[0], d[1..], k - 1);
    }
  }

  /** `Diff` undoes `Integrate`. */
  lemma DiffOfIntegrate(x0: real, d: seq<real>)
    ensures Diff(Integrate(x0, d)) == d
  {
    var s := Integrate(x0, d);
    forall k | 0 <= k < |d|
      ensures Diff(s)[k] == d[k]
    {
      IntegrateStep(x0, d, k);
    }
  }

  /** A series is recovered from its first value and its differences. */
  lemma {:induction false} IntegrateOfDiff(data: seq<real>)
    requires |data| > 0
    ensures Integrate(data[0], Diff(data)) == data
    decreases |data|
  {
    if |data| >= 2 {
      var d := Diff(data);
      assert d[1..] == Diff(data[1..]) by {
        assert d == [data[1] - data[0]] + Diff(data[1..]);
      }
      assert data[0] + d[0] == data[1];
      IntegrateOfDiff(data[1..]);
      assert data == [data[0]] + data[1..];
    }
  }

  // ---------------------------------------------------------------- zeros, max, min

  /** The all-zero classification a detection starts from (one row of `zeros`). */
  function Zeros(n: nat): (r: seq<int>)
    ensures |r| == n && forall i :: 0 <= i < n ==> r[i] == 0
  {
    seq(n, _ => 0)
  }

  /** `max(y)` of a non-empty series. */
  function Max(y: seq<real>): (r: real)
    requires |y| > 0
    ensures forall i :: 0 <= i < |y| ==> y[i] <= r
    ensures exists i :: 0 <= i < |y| && y[i] == r
  {
    if |y| == 1 then y[0]
    else
      var m := Max(y[1..]);
      assert forall i :: 1 <= i < |y| ==> y[i] == y[1..][i - 1];
      if y[0] >= m then y[0] else m
  }

  /** `min(y)` of a non-empty series. */
  function Min(y: seq<real>): (r: real)
    requires |y| > 0
    ensures forall i :: 0 <= i < |y| ==> r <= y[i]
    ensures exists i :: 0 <= i < |y| && y[i] == r
  {
    if |y| == 1 then y[0]
    else
      var m := Min(y[1..]);
      assert forall i :: 1 <= i < |y| ==> y[i] == y[1..][i - 1];
      if y[0] <= m then y[0] else m
  }

  /** The maximum is the element no other element exceeds. */
  lemma MaxIs(y: seq<real>, j: nat)
    requires j < |y|
    requires forall i :: 0 <= i < |y| ==> y[i] <= y[j]
    ensures Max(y) == y[j]
  {
  }

  /** The minimum is the element no other element is below. */
  lemma MinIs(y: seq<real>, j: nat)
    requires j < |y|
    requires forall i :: 0 <= i < |y| ==> y[j] <= y[i]
    ensures Min(y) == y[j]
  {
  }
}
