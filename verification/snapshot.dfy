/** The snapshot the test at line 244 reads, modelled literally: the
    (value, code) pairs of the series (line 230), sorted ascending and then
    reversed (lines 231-232, again at 344-346), read at the rank position of
    the candidate. Sorting ascending and reversing gives the pairs in
    descending order; equal pairs are identical, so no tie-break is lost. */
module Snapshot {
  import opened RawExtrema
  import opened Refiner

  /** A (value, code) pair of the snapshot, or a (value, index) key. */
  type Pair = (real, int)

  /** Python's tuple order, strict: first by value, then by the second entry. */
  predicate PairGt(a: Pair, b: Pair)
  {
    a.0 > b.0 || (a.0 == b.0 && a.1 > b.1)
  }

  predicate PairGe(a: Pair, b: Pair)
  {
    PairGt(a, b) || a == b
  }

  /** `a` is above `q`: strictly, or at least level with it. */
  predicate Above(a: Pair, q: Pair, strict: bool)
  {
    if strict then PairGt(a, q) else PairGe(a, q)
  }

  predicate Descending(s: seq<Pair>)
  {
    forall i, j :: 0 <= i < j < |s| ==> PairGe(s[i], s[j])
  }

  /** Inserts `a` into a descending list. */
  function Insert(a: Pair, s: seq<Pair>): (r: seq<Pair>)
    requires Descending(s)
    ensures |r| == |s| + 1 && Descending(r)
    ensures forall x :: x in r <==> x == a || x in s
    ensures multiset(r) == multiset(s) + multiset{a}
    decreases |s|
  {
    if |s| == 0 || PairGe(a, s[0]) then [a] + s
    else
      var t := Insert(a, s[1..]);
      assert forall j :: 0 <= j < |t| ==> PairGe(s[0], t[j]) by {
        forall j | 0 <= j < |t|
          ensures PairGe(s[0], t[j])
        {
          if t[j] != a {
            assert t[j] in t;
            var m :| 0 <= m < |s[1..]| && s[1..][m] == t[j];
            assert s[m + 1] == t[j];
          }
        }
      }
      assert s == [s[0]] + s[1..];
      [s[0]] + t
  }

  /** The pairs in descending tuple order (`sort()` then `reverse()`). */
  function SortDescending(ps: seq<Pair>): (r: seq<Pair>)
    ensures |r| == |ps| && Descending(r)
    ensures forall x :: x in r <==> x in ps
    ensures multiset(r) == multiset(ps)
  {
    if |ps| == 0 then []
    else
      assert ps == [ps[0]] + ps[1..];
      Insert(ps[0], SortDescending(ps[1..]))
  }

  /** How many entries of `s` are above `q`. */
  function CountAbove(s: seq<Pair>, q: Pair, strict: bool): (n: nat)
    ensures n <= |s|
  {
    if |s| == 0 then 0
    else (if Above(s[0], q, strict) then 1 else 0) + CountAbove(s[1..], q, strict)
  }

  lemma {:induction false} InsertCount(a: Pair, s: seq<Pair>, q: Pair, strict: bool)
    requires Descending(s)
    ensures CountAbove(Insert(a, s), q, strict) == CountAbove(s, q, strict) + if Above(a, q, strict) then 1 else 0
    decreases |s|
  {
    var r := Insert(a, s);
    if |s| == 0 || PairGe(a, s[0]) {
      assert r[1..] == s;
    } else {
      assert r[1..] == Insert(a, s[1..]);
      InsertCount(a, s[1..], q, strict);
    }
  }

  /** Sorting keeps, for every pair, how many entries lie above it. */
  lemma {:induction false} SortCount(ps: seq<Pair>, q: Pair, strict: bool)
    ensures CountAbove(SortDescending(ps), q, strict) == CountAbove(ps, q, strict)
  {
    if |ps| > 0 {
      SortCount(ps[1..], q, strict);
      InsertCount(ps[0], SortDescending(ps[1..]), q, strict);
    }
  }

  /** In a descending list the entries above `q` are exactly a prefix, as long
      as the number of such entries. */
  lemma {:induction false} DescendingPrefix(s: seq<Pair>, q: Pair, strict: bool)
    requires Descending(s)
    ensures forall i :: 0 <= i < |s| ==> (Above(s[i], q, strict) <==> i < CountAbove(s, q, strict))
  {
    if |s| > 0 {
      var t := s[1..];
      DescendingPrefix(t, q, strict);
      if Above(s[0], q, strict) {
        forall i | 1 <= i < |s|
          ensures Above(s[i], q, strict) <==> i < CountAbove(s, q, strict)
        {
          assert s[i] == t[i - 1];
        }
      } else {
        forall i | 0 <= i < |s|
          ensures !Above(s[i], q, strict)
        {
          assert PairGe(s[0], s[i]);
        }
      }
    }
  }

  /** The snapshot: the (value, code) pair of every point, in time order. */
  function Pairs(y: seq<real>, c: seq<int>): (ps: seq<Pair>)
    requires |y| == |c|
    ensures |ps| == |y|
    ensures forall j :: 0 <= j < |y| ==> ps[j] == (y[j], c[j])
  {
    seq(|y|, j requires 0 <= j < |y| => (y[j], c[j]))
  }

  /** The (value, index) key of every point, the order the rank follows. */
  function Keys(y: seq<real>): (ks: seq<Pair>)
    ensures |ks| == |y|
    ensures forall j :: 0 <= j < |y| ==> ks[j] == (y[j], j)
  {
    seq(|y|, j requires 0 <= j < |y| => (y[j], j))
  }

  /** The test at line 244 as written: the code of the `i`-th largest
      (value, code) pair. */
  predicate LiteralSnapshotTest(y: seq<real>, c: seq<int>, i: nat)
    requires |y| == |c| && i < |y|
  {
    SortDescending(Pairs(y, c))[i].1 == 1
  }

  // ---------------------------------------------------------------- counting

  /** Above (v, 1) and above-or-level with (v, 1) differ by the points of
      value v coded 1. */
  lemma {:induction false} PeakBlock(y: seq<real>, c: seq<int>, v: real, from: nat)
    requires |y| == |c| && from <= |y| && ValidCodes(c)
    ensures CountAbove(Pairs(y, c)[from..], (v, 1), false)
         == CountAbove(Pairs(y, c)[from..], (v, 1), true) + CountPeaksWithValue(y, c, v, from)
    decreases |y| - from
  {
    if from < |y| {
      var ps := Pairs(y, c);
      assert ps[from..][1..] == ps[from + 1..];
      PeakBlock(y, c, v, from + 1);
    }
  }

  /** Above (v, 1) and above-or-level with (v, -1) differ by the points of
      value v. */
  lemma {:induction false} ValueBlock(y: seq<real>, c: seq<int>, v: real, from: nat)
    requires |y| == |c| && from <= |y| && ValidCodes(c)
    ensures CountAbove(Pairs(y, c)[from..], (v, -1), false)
         == CountAbove(Pairs(y, c)[from..], (v, 1), true) + CountValue(y, v, from)
    decreases |y| - from
  {
    if from < |y| {
      var ps := Pairs(y, c);
      assert ps[from..][1..] == ps[from + 1..];
      ValueBlock(y, c, v, from + 1);
    }
  }

  /** Past index `k`, the keys above (v, k) are the higher values and every
      point of value v. */
  lemma {:induction false} KeysAfter(y: seq<real>, c: seq<int>, v: real, k: nat, from: nat)
    requires |y| == |c| && k < from <= |y| && ValidCodes(c)
    ensures CountAbove(Keys(y)[from..], (v, k), true)
         == CountAbove(Pairs(y, c)[from..], (v, 1), true) + CountValue(y, v, from)
    decreases |y| - from
  {
    if from < |y| {
      assert Keys(y)[from..][1..] == Keys(y)[from + 1..];
      assert Pairs(y, c)[from..][1..] == Pairs(y, c)[from + 1..];
      KeysAfter(y, c, v, k, from + 1);
    }
  }

  /** The keys above (v, k) are the higher values and the points of value v
      at larger indices. */
  lemma {:induction false} KeysAbove(y: seq<real>, c: seq<int>, v: real, k: nat, from: nat)
    requires |y| == |c| && from <= k < |y| && ValidCodes(c) && y[k] == v
    ensures CountAbove(Keys(y)[from..], (v, k), true)
         == CountAbove(Pairs(y, c)[from..], (v, 1), true) + CountValue(y, v, k + 1)
    decreases k - from
  {
    assert Keys(y)[from..][1..] == Keys(y)[from + 1..];
    assert Pairs(y, c)[from..][1..] == Pairs(y, c)[from + 1..];
    if from == k {
      KeysAfter(y, c, v, k, k + 1);
    } else {
      KeysAbove(y, c, v, k, from + 1);
    }
  }

  /** Every key occurs once: level with the key of `x` there is one entry. */
  lemma {:induction false} KeyOnce(y: seq<real>, x: nat, from: nat)
    requires x < |y| && from <= |y|
    ensures CountAbove(Keys(y)[from..], (y[x], x), false)
         == CountAbove(Keys(y)[from..], (y[x], x), true) + if from <= x then 1 else 0
    decreases |y| - from
  {
    if from < |y| {
      assert Keys(y)[from..][1..] == Keys(y)[from + 1..];
      KeyOnce(y, x, from + 1);
    }
  }

  lemma {:induction false} CountValueIncludes(y: seq<real>, k: nat, from: nat)
    requires from <= k < |y|
    ensures CountValue(y, y[k], from) >= CountValue(y, y[k], k + 1) + 1
    decreases k - from
  {
    if from < k {
      CountValueIncludes(y, k, from + 1);
    }
  }

  // ---------------------------------------------------------------- the rank as a key sort

  /** The keys sorted descending are strictly descending: no key repeats. */
  lemma SortedKeysStrict(y: seq<real>)
    ensures forall m, l :: 0 <= m < l < |y| ==>
              PairGt(SortDescending(Keys(y))[m], SortDescending(Keys(y))[l])
  {
    var sk := SortDescending(Keys(y));
    forall m, l | 0 <= m < l < |y|
      ensures PairGt(sk[m], sk[l])
    {
      if sk[m] == sk[l] {
        var q := sk[l];
        assert q in Keys(y);
        var x :| 0 <= x < |y| && Keys(y)[x] == q;
        KeyOnce(y, x, 0);
        assert Keys(y)[0..] == Keys(y);
        SortCount(Keys(y), q, true);
        SortCount(Keys(y), q, false);
        DescendingPrefix(sk, q, true);
        DescendingPrefix(sk, q, false);
        assert false;
      }
    }
  }

  /** The visiting order is the index entry of the sorted keys. */
  lemma RankIsKeySort(y: seq<real>)
    ensures forall m :: 0 <= m < |y| ==>
              SortDescending(Keys(y))[m] == (y[Rank(y)[m]], Rank(y)[m])
  {
    var sk := SortDescending(Keys(y));
    var n := |y|;
    forall m | 0 <= m < n
      ensures 0 <= sk[m].1 < n && sk[m].0 == y[sk[m].1]
    {
      assert sk[m] in Keys(y);
    }
    var r: seq<nat> := seq(n, m requires 0 <= m < n => sk[m].1 as nat);
    SortedKeysStrict(y);
    forall x
      ensures x in r <==> 0 <= x < n
    {
      if 0 <= x < n {
        assert Keys(y)[x] in sk;
        var m :| 0 <= m < n && sk[m] == Keys(y)[x];
        assert r[m] == x;
      }
    }
    forall m, l | 0 <= m < l < n
      ensures y[r[m]] > y[r[l]] || (y[r[m]] == y[r[l]] && r[m] > r[l])
    {
      assert PairGt(sk[m], sk[l]);
    }
    RankIs(y, r);
  }

  /** The candidate at rank position `i` has exactly `i` keys above it: the
      higher values and the points of equal value at larger indices. */
  lemma RankPosition(y: seq<real>, c: seq<int>, i: nat)
    requires |y| == |c| && i < |y| && ValidCodes(c)
    ensures i == CountAbove(Pairs(y, c), (y[Rank(y)[i]], 1), true)
                 + CountValue(y, y[Rank(y)[i]], Rank(y)[i] + 1)
  {
    var sk := SortDescending(Keys(y));
    var k := Rank(y)[i];
    var q := (y[k], k as int);
    RankIsKeySort(y);
    assert sk[i] == q;
    SortedKeysStrict(y);
    DescendingPrefix(sk, q, true);
    if i > 0 {
      assert PairGt(sk[i - 1], sk[i]);
    }
    assert CountAbove(sk, q, true) == i;
    SortCount(Keys(y), q, true);
    KeysAbove(y, c, y[k], k, 0);
    assert Keys(y)[0..] == Keys(y) && Pairs(y, c)[0..] == Pairs(y, c);
  }

  /** The counting form of the test at line 244 is the test as written: the
      code of the pair at the candidate's rank position in the descending
      (value, code) snapshot is 1 exactly when `SnapshotMarksPeak` holds. */
  lemma SnapshotMarksPeakIsLiteral(y: seq<real>, c: seq<int>, i: nat)
    requires |y| == |c| && i < |y| && ValidCodes(c)
    ensures SnapshotMarksPeak(y, c, Rank(y)[i]) <==> LiteralSnapshotTest(y, c, i)
  {
    var ps := Pairs(y, c);
    var s := SortDescending(ps);
    var k := Rank(y)[i];
    var v := y[k];
    var g := CountAbove(ps, (v, 1), true);
    var t := CountValue(y, v, k + 1);
    var p := CountPeaksWithValue(y, c, v, 0);
    RankPosition(y, c, i);
    assert i == g + t;
    assert ps[0..] == ps;
    PeakBlock(y, c, v, 0);
    ValueBlock(y, c, v, 0);
    CountValueIncludes(y, k, 0);
    SortCount(ps, (v, 1), true);
    SortCount(ps, (v, 1), false);
    SortCount(ps, (v, -1), false);
    DescendingPrefix(s, (v, 1), true);
    DescendingPrefix(s, (v, 1), false);
    DescendingPrefix(s, (v, -1), false);
    assert !PairGt(s[i], (v, 1));
    assert PairGe(s[i], (v, -1));
    assert s[i] in ps;
    assert s[i].0 == v;
    assert PairGe(s[i], (v, 1)) <==> t < p;
  }
}
