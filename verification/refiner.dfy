/** The significance pass of `peak_finder`: candidates are visited from the
    highest value down, and each one still marked as a peak is scanned on
    both sides, demoting points as it goes. */
module Refiner {
  import opened Results
  import opened ListOps
  import opened RawExtrema
  import opened Scans

  /** The visiting order (lines 225, 234, 339, 348): `sort` of the series,
      reversed, so values descend and equal values come by descending index.
      The re-sort at line 339 sorts the unchanged series again, so this order
      is fixed for the whole run. */
  function Rank(y: seq<real>): (r: seq<nat>)
    ensures |r| == |y|
    ensures forall i :: 0 <= i < |y| ==> i in r
    ensures forall k :: 0 <= k < |r| ==> r[k] < |y|
    ensures forall k, l :: 0 <= k < l < |r| ==>
              y[r[k]] > y[r[l]] || (y[r[k]] == y[r[l]] && r[k] > r[l])
  {
    var idx := Sort(y).1;
    var r := seq(|idx|, k requires 0 <= k < |idx| => idx[|idx| - 1 - k]);
    ReversedSortDescends(y, r);
    r
  }

  /** The reversed `sort` index list lists every position once, values
      descending, ties by descending position. */
  lemma ReversedSortDescends(y: seq<real>, r: seq<nat>)
    requires |r| == |y|
    requires forall k :: 0 <= k < |r| ==> r[k] == Sort(y).1[|r| - 1 - k]
    ensures forall i :: 0 <= i < |y| ==> i in r
    ensures forall k :: 0 <= k < |r| ==> r[k] < |y|
    ensures forall k, l :: 0 <= k < l < |r| ==>
              y[r[k]] > y[r[l]] || (y[r[k]] == y[r[l]] && r[k] > r[l])
  {
    var sorted := Sort(y);
    var n := |r|;
    forall i | 0 <= i < |y|
      ensures i in r
    {
      assert i in sorted.1;
      var k :| 0 <= k < n && sorted.1[k] == i;
      assert r[n - 1 - k] == i;
    }
    forall k, l | 0 <= k < l < n
      ensures y[r[k]] > y[r[l]] || (y[r[k]] == y[r[l]] && r[k] > r[l])
    {
      var k', l' := n - 1 - k, n - 1 - l;
      assert sorted.0[l'] <= sorted.0[k'];
      assert sorted.0[k'] == y[r[k]] && sorted.0[l'] == y[r[l]];
    }
  }

  /** The rank order is the only listing of the positions with its
      properties. */
  lemma RankIs(y: seq<real>, r: seq<nat>)
    requires |r| == |y|
    requires forall k :: 0 <= k < |r| ==> r[k] < |y|
    requires forall x :: x in r <==> 0 <= x < |y|
    requires forall k, l :: 0 <= k < l < |r| ==>
               y[r[k]] > y[r[l]] || (y[r[k]] == y[r[l]] && r[k] > r[l])
    ensures Rank(y) == r
  {
    var n := |r|;
    var b := seq(n, k requires 0 <= k < n => r[n - 1 - k]);
    forall k, l | 0 <= k < l < n
      ensures KeyLess(y, b[k], b[l])
    {
      assert b[k] == r[n - 1 - k] && b[l] == r[n - 1 - l];
    }
    forall x
      ensures x in b <==> 0 <= x < |y|
    {
      if x in r {
        var k :| 0 <= k < n && r[k] == x;
        assert b[n - 1 - k] == x;
      }
    }
    SortIndexIsUnique(y, b);
  }

  /** Every index of `y` in [from, |y|) holding the value `v`. */
  function CountValue(y: seq<real>, v: real, from: nat): (n: nat)
    requires from <= |y|
    decreases |y| - from
    ensures n <= |y| - from
  {
    if from == |y| then 0
    else (if y[from] == v then 1 else 0) + CountValue(y, v, from + 1)
  }

  /** Every index of `y` in [from, |y|) holding the value `v` and coded 1. */
  function CountPeaksWithValue(y: seq<real>, c: seq<int>, v: real, from: nat): (n: nat)
    requires from <= |y| == |c|
    decreases |y| - from
    ensures n <= CountValue(y, v, from)
  {
    if from == |y| then 0
    else (if y[from] == v && c[from] == 1 then 1 else 0) + CountPeaksWithValue(y, c, v, from + 1)
  }

  /** The test at line 244. It reads the code at rank position i of a
      snapshot of (value, code) pairs sorted in descending order, taken after
      the last candidate was processed, so it sees the current codes. Both
      that list and the rank order put the points of one value in one block.
      Inside the block the rank order goes by descending index and the
      snapshot by descending code. So the point `k` sits at offset t = (equal
      values at larger indices) and sees the t-th largest code of its block.
      With every code at most 1, that code is 1 exactly when t is less than
      the number of block members coded 1; `Snapshot.SnapshotMarksPeakIsLiteral`
      proves this against the sorted snapshot itself. */
  predicate SnapshotMarksPeak(y: seq<real>, c: seq<int>, k: nat)
    requires k < |y| == |c|
  {
    CountValue(y, y[k], k + 1) < CountPeaksWithValue(y, c, y[k], 0)
  }

  /** No value occurs twice in the series. */
  predicate Distinct(y: seq<real>)
  {
    forall i, j :: 0 <= i < j < |y| ==> y[i] != y[j]
  }

  lemma {:induction false} CountValueAbsent(y: seq<real>, v: real, from: nat)
    requires from <= |y|
    requires forall j :: from <= j < |y| ==> y[j] != v
    ensures CountValue(y, v, from) == 0
    decreases |y| - from
  {
    if from < |y| {
      CountValueAbsent(y, v, from + 1);
    }
  }

  lemma {:induction false} CountPeaksUnique(y: seq<real>, c: seq<int>, k: nat, from: nat)
    requires from <= |y| == |c| && k < |y|
    requires forall j :: from <= j < |y| && j != k ==> y[j] != y[k]
    ensures CountPeaksWithValue(y, c, y[k], from) == if from <= k && c[k] == 1 then 1 else 0
    decreases |y| - from
  {
    if from < |y| {
      CountPeaksUnique(y, c, k, from + 1);
    }
  }

  /** With pairwise distinct values the snapshot test at line 244 is simply
      "the candidate is currently coded 1". */
  lemma SnapshotDistinct(y: seq<real>, c: seq<int>, k: nat)
    requires k < |y| == |c| && Distinct(y)
    ensures SnapshotMarksPeak(y, c, k) <==> c[k] == 1
  {
    assert forall j :: 0 <= j < |y| && j != k ==> y[j] != y[k] by {
      forall j | 0 <= j < |y| && j != k
        ensures y[j] != y[k]
      {
        if j < k { assert y[j] != y[k]; } else { assert y[k] != y[j]; }
      }
    }
    CountValueAbsent(y, y[k], k + 1);
    CountPeaksUnique(y, c, k, 0);
  }

  /** The main loop (lines 239-348) from rank position `i`. Each step only
      ever writes 0, to a point coded 1 or to an interior candidate; N-1 is
      never written, and neither is index 0 when the left rule exempts it. */
  function RefineFrom(y: seq<real>, minJump: real, exempt: int, rank: seq<nat>, i: nat, c: seq<int>)
    : (r: Result<seq<int>>)
    requires |c| == |y| >= 2 && i <= |rank|
    requires forall k :: 0 <= k < |rank| ==> rank[k] < |y|
    requires ValidCodes(c) && InteriorBinary(c)
    decreases |rank| - i
    ensures r.Ok? ==> |r.value| == |c|
    ensures r.Ok? ==> forall k :: 0 <= k < |c| ==>
              r.value[k] == c[k] || (r.value[k] == 0 && c[k] == 1)
    ensures r.Ok? ==> r.value[|c| - 1] == c[|c| - 1]
    ensures r.Ok? && exempt == 0 ==> r.value[0] == c[0]
    ensures r.Err? ==> r.error == UnknownError
    ensures exempt == 0 && c[0] != 0 && c[|c| - 1] != 0 ==> r.Ok?
  {
    if i == |rank| then Ok(c)
    else
      var p := rank[i];
      if SnapshotMarksPeak(y, c, p) then
        var c' :- ScanCandidate(y, minJump, exempt, p, c);
        RefineFrom(y, minJump, exempt, rank, i + 1, c')
      else
        RefineFrom(y, minJump, exempt, rank, i + 1, c)
  }

  /** With pairwise distinct values, the main loop scans exactly the
      candidates currently coded 1 and passes over every other point. */
  lemma RefineStepDistinct(y: seq<real>, minJump: real, exempt: int, rank: seq<nat>, i: nat, c: seq<int>)
    requires |c| == |y| >= 2 && i < |rank|
    requires forall k :: 0 <= k < |rank| ==> rank[k] < |y|
    requires ValidCodes(c) && InteriorBinary(c) && Distinct(y)
    ensures c[rank[i]] != 1 ==>
              RefineFrom(y, minJump, exempt, rank, i, c) == RefineFrom(y, minJump, exempt, rank, i + 1, c)
    ensures c[rank[i]] == 1 && ScanCandidate(y, minJump, exempt, rank[i], c).Err? ==>
              RefineFrom(y, minJump, exempt, rank, i, c) == Err(UnknownError)
    ensures c[rank[i]] == 1 && ScanCandidate(y, minJump, exempt, rank[i], c).Ok? ==>
              RefineFrom(y, minJump, exempt, rank, i, c)
              == RefineFrom(y, minJump, exempt, rank, i + 1, ScanCandidate(y, minJump, exempt, rank[i], c).value)
  {
    SnapshotDistinct(y, c, rank[i]);
  }

  /** With pairwise distinct values, once no remaining candidate is coded 1
      the rest of the main loop changes nothing. */
  lemma {:induction false} RefineRestUnmarked(y: seq<real>, minJump: real, exempt: int, rank: seq<nat>, i: nat, c: seq<int>)
    requires |c| == |y| >= 2 && i <= |rank|
    requires forall k :: 0 <= k < |rank| ==> rank[k] < |y|
    requires ValidCodes(c) && InteriorBinary(c) && Distinct(y)
    requires forall j :: i <= j < |rank| ==> c[rank[j]] != 1
    ensures RefineFrom(y, minJump, exempt, rank, i, c) == Ok(c)
    decreases |rank| - i
  {
    if i < |rank| {
      RefineStepDistinct(y, minJump, exempt, rank, i, c);
      RefineRestUnmarked(y, minJump, exempt, rank, i + 1, c);
    }
  }
}
