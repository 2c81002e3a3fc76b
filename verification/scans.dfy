/** The two neighbour scans `peak_finder` runs from one candidate peak `p`:
    leftwards towards index 0 and rightwards towards index N-1. Each step
    compares the candidate with the point at `q`, may demote `q` or `p` to 0,
    and ends the side when the drop to `q` exceeds the threshold or when the
    boundary is reached. */
module Scans {
  import opened Results

  /** The demotion rule applies at `q`: it is coded 1 and is not the index the
      rule exempts (index 1 on the left as written, N-1 on the right). */
  predicate RuleApplies(c: seq<int>, q: nat, exempt: int)
    requires q < |c|
  {
    c[q] == 1 && q != exempt
  }

  /** The step at `q` leaves the side significant: the drop from the candidate
      to `q` exceeds `minJump`, and the rule at `q` did not then overrule it by
      demoting the candidate. */
  predicate StopsAt(y: seq<real>, minJump: real, p: nat, q: nat, c: seq<int>, exempt: int)
    requires p < |y| && q < |y| == |c|
  {
    y[p] - y[q] > minJump && !(RuleApplies(c, q, exempt) && y[p] - y[q] <= 0.0)
  }

  /** With a non-negative threshold a side ends exactly at the first point
      more than `minJump` below the candidate. */
  lemma StopsAtNonNegative(y: seq<real>, minJump: real, p: nat, q: nat, c: seq<int>, exempt: int)
    requires p < |y| && q < |y| == |c| && minJump >= 0.0
    ensures StopsAt(y, minJump, p, q, c, exempt) <==> y[p] - y[q] > minJump
  {
  }

  /** The codes after the demotion rule has been applied at `q`: a lower
      peak at `q` is zeroed, otherwise the candidate is. */
  function ApplyRule(y: seq<real>, p: nat, q: nat, c: seq<int>, exempt: int): (r: seq<int>)
    requires p < |y| && q < |y| == |c| && p != q
    ensures |r| == |c|
    ensures RuleApplies(c, q, exempt) && y[p] > y[q] ==> r == c[q := 0]
    ensures RuleApplies(c, q, exempt) && y[p] <= y[q] ==> r == c[p := 0]
    ensures !RuleApplies(c, q, exempt) ==> r == c
  {
    if RuleApplies(c, q, exempt) then
      if y[p] - y[q] > 0.0 then c[q := 0] else c[p := 0]
    else c
  }

  // ---------------------------------------------------------------- left

  /** The left scan of candidate `p`, currently examining `q` (the loop of
      lines 249-283). The flag `left_sig` is never read after the loop, and
      inside it only this step's verdict decides whether to go on (an
      earlier verdict was 0 or -1, and both continue), so it is not kept.
      At index 0 the boundary is resolved from the code `q` had before this
      step's writes. */
  function LeftScan(y: seq<real>, minJump: real, exempt: int, p: nat, q: nat, c: seq<int>): (r: Result<seq<int>>)
    requires q < p < |y| == |c|
    decreases q
    ensures r.Ok? ==> |r.value| == |c|
    ensures r.Ok? ==> forall k :: 0 <= k < |c| ==>
              r.value[k] == c[k] || (r.value[k] == 0 && (c[k] == 1 || k == p))
    ensures r.Ok? ==> forall k :: q < k < |c| && k != p ==> r.value[k] == c[k]
    ensures r.Ok? && exempt == 0 ==> r.value[0] == c[0]
    ensures r.Err? ==> r.error == UnknownError && c[0] == 0
  {
    var seen := c[q];
    var c' := ApplyRule(y, p, q, c, exempt);
    if q == 0 then
      if seen == 0 then Err(UnknownError)
      else if seen == 1 then Ok(c'[p := 0])
      else Ok(c')
    else if StopsAt(y, minJump, p, q, c, exempt) then Ok(c')
    else LeftScan(y, minJump, exempt, p, q - 1, c')
  }

  /** A left scan that started at `from` examines `k`: no step between them
      ended the side. */
  predicate LeftReaches(y: seq<real>, minJump: real, exempt: int, p: nat, c: seq<int>, from: nat, k: nat)
    requires from < p < |y| == |c|
  {
    k <= from && forall j :: k < j <= from ==> !StopsAt(y, minJump, p, j, c, exempt)
  }

  /** The left scan from `from` demotes the candidate: it meets a peak the
      rule applies to that is not lower, or it reaches a boundary peak. */
  predicate LeftDemotes(y: seq<real>, minJump: real, exempt: int, p: nat, c: seq<int>, from: nat)
    requires from < p < |y| == |c|
  {
    || (exists k :: 0 <= k <= from && LeftReaches(y, minJump, exempt, p, c, from, k)
                    && RuleApplies(c, k, exempt) && y[p] <= y[k])
    || (LeftReaches(y, minJump, exempt, p, c, from, 0) && c[0] == 1)
  }

  /** The left scan stated point by point: it fails exactly when it reaches
      index 0 and finds it coded 0; otherwise it zeroes every lower peak it
      reaches that the rule applies to, zeroes the candidate exactly when
      `LeftDemotes`, and changes nothing else. */
  lemma {:induction false} LeftScanMeaning(y: seq<real>, minJump: real, exempt: int, p: nat, q: nat, c: seq<int>)
    requires q < p < |y| == |c|
    ensures LeftScan(y, minJump, exempt, p, q, c).Err? <==>
              LeftReaches(y, minJump, exempt, p, c, q, 0) && c[0] == 0
    ensures LeftScan(y, minJump, exempt, p, q, c).Ok? ==>
              forall k :: 0 <= k < |c| && k != p ==>
                LeftScan(y, minJump, exempt, p, q, c).value[k] ==
                  if LeftReaches(y, minJump, exempt, p, c, q, k) && RuleApplies(c, k, exempt) && y[p] > y[k]
                  then 0 else c[k]
    ensures LeftScan(y, minJump, exempt, p, q, c).Ok? ==>
              LeftScan(y, minJump, exempt, p, q, c).value[p] ==
                if LeftDemotes(y, minJump, exempt, p, c, q) then 0 else c[p]
    decreases q
  {
    var r := LeftScan(y, minJump, exempt, p, q, c);
    var c' := ApplyRule(y, p, q, c, exempt);
    if q == 0 {
      if c[0] == 1 {
        assert LeftReaches(y, minJump, exempt, p, c, q, 0);
      } else {
        assert !LeftDemotes(y, minJump, exempt, p, c, q) by {
          assert !RuleApplies(c, 0, exempt);
        }
      }
    } else if StopsAt(y, minJump, p, q, c, exempt) {
      assert r == Ok(c');
      assert LeftReaches(y, minJump, exempt, p, c, q, q);
      assert forall k :: 0 <= k < q ==> !LeftReaches(y, minJump, exempt, p, c, q, k);
      assert !LeftDemotes(y, minJump, exempt, p, c, q);
    } else {
      LeftScanMeaning(y, minJump, exempt, p, q - 1, c');
      assert r == LeftScan(y, minJump, exempt, p, q - 1, c');
      // Below `q` the codes are untouched, so the later steps decide as they
      // would have on `c`.
      assert forall j :: 0 <= j < q ==> c'[j] == c[j];
      assert forall j :: 0 <= j < q ==>
        StopsAt(y, minJump, p, j, c', exempt) == StopsAt(y, minJump, p, j, c, exempt);
      assert forall k :: 0 <= k < q ==>
        LeftReaches(y, minJump, exempt, p, c', q - 1, k) == LeftReaches(y, minJump, exempt, p, c, q, k);
      assert forall k :: 0 <= k < q ==> RuleApplies(c', k, exempt) == RuleApplies(c, k, exempt);
      assert LeftReaches(y, minJump, exempt, p, c, q, q);
      if r.Ok? {
        var d := r.value;
        forall k | 0 <= k < |c| && k != p
          ensures d[k] == if LeftReaches(y, minJump, exempt, p, c, q, k) && RuleApplies(c, k, exempt) && y[p] > y[k]
                          then 0 else c[k]
        {
          if k >= q {
            assert !LeftReaches(y, minJump, exempt, p, c', q - 1, k);
          }
        }
        LeftDemotesStep(y, minJump, exempt, p, q, c, c');
      }
    }
  }

  /** One non-final step of the left scan, seen from the candidate: it is
      demoted over the whole scan exactly when this step or the rest of the
      scan demotes it. */
  lemma LeftDemotesStep(y: seq<real>, minJump: real, exempt: int, p: nat, q: nat, c: seq<int>, c': seq<int>)
    requires 0 < q < p < |y| == |c|
    requires c' == ApplyRule(y, p, q, c, exempt)
    requires !StopsAt(y, minJump, p, q, c, exempt)
    requires forall k :: 0 <= k < q ==>
      LeftReaches(y, minJump, exempt, p, c', q - 1, k) == LeftReaches(y, minJump, exempt, p, c, q, k)
    requires forall k :: 0 <= k < q ==> RuleApplies(c', k, exempt) == RuleApplies(c, k, exempt)
    requires forall j :: 0 <= j < q ==> c'[j] == c[j]
    ensures (c'[p] == 0 && c[p] != 0) || LeftDemotes(y, minJump, exempt, p, c', q - 1)
            ==> LeftDemotes(y, minJump, exempt, p, c, q)
    ensures LeftDemotes(y, minJump, exempt, p, c, q)
            ==> c'[p] == 0 || LeftDemotes(y, minJump, exempt, p, c', q - 1)
  {
    assert LeftReaches(y, minJump, exempt, p, c, q, q);
    if c'[p] == 0 && c[p] != 0 {
      assert RuleApplies(c, q, exempt) && y[p] <= y[q];
    }
    if LeftDemotes(y, minJump, exempt, p, c', q - 1) {
      if LeftReaches(y, minJump, exempt, p, c', q - 1, 0) && c'[0] == 1 {
        assert LeftReaches(y, minJump, exempt, p, c, q, 0);
      } else {
        var k :| 0 <= k <= q - 1 && LeftReaches(y, minJump, exempt, p, c', q - 1, k)
                 && RuleApplies(c', k, exempt) && y[p] <= y[k];
        assert LeftReaches(y, minJump, exempt, p, c, q, k);
      }
    }
    if LeftDemotes(y, minJump, exempt, p, c, q) && c'[p] != 0 {
      if LeftReaches(y, minJump, exempt, p, c, q, 0) && c[0] == 1 {
        assert LeftReaches(y, minJump, exempt, p, c', q - 1, 0);
      } else {
        var k :| 0 <= k <= q && LeftReaches(y, minJump, exempt, p, c, q, k)
                 && RuleApplies(c, k, exempt) && y[p] <= y[k];
        assert k < q;
        assert LeftReaches(y, minJump, exempt, p, c', q - 1, k);
      }
    }
  }

  // ---------------------------------------------------------------- right

  /** The right scan of candidate `p`, currently examining `q` (the loop of
      lines 291-331), mirrored from the left scan; its rule always exempts
      index N-1. */
  function RightScan(y: seq<real>, minJump: real, p: nat, q: nat, c: seq<int>): (r: Result<seq<int>>)
    requires p < q < |y| == |c|
    decreases |y| - q
    ensures r.Ok? ==> |r.value| == |c|
    ensures r.Ok? ==> forall k :: 0 <= k < |c| ==>
              r.value[k] == c[k] || (r.value[k] == 0 && (c[k] == 1 || k == p))
    ensures r.Ok? ==> forall k :: 0 <= k < q && k != p ==> r.value[k] == c[k]
    ensures r.Ok? ==> r.value[|c| - 1] == c[|c| - 1]
    ensures r.Err? ==> r.error == UnknownError && c[|c| - 1] == 0
  {
    var last := |y| - 1;
    var seen := c[q];
    var c' := ApplyRule(y, p, q, c, last);
    if q == last then
      if seen == 0 then Err(UnknownError)
      else if seen == 1 then Ok(c'[p := 0])
      else Ok(c')
    else if StopsAt(y, minJump, p, q, c, last) then Ok(c')
    else RightScan(y, minJump, p, q + 1, c')
  }

  /** `StopsAt` and `RuleApplies` for the right scan, whose exempt index is N-1. */
  predicate StopsRight(y: seq<real>, minJump: real, p: nat, q: nat, c: seq<int>)
    requires p < |y| && q < |y| == |c|
  {
    StopsAt(y, minJump, p, q, c, |y| - 1)
  }

  predicate RuleAppliesRight(c: seq<int>, q: nat)
    requires q < |c|
  {
    RuleApplies(c, q, |c| - 1)
  }

  /** A right scan that started at `from` examines `k`: no step between them
      ended the side. */
  predicate RightReaches(y: seq<real>, minJump: real, p: nat, c: seq<int>, from: nat, k: nat)
    requires p < from < |y| == |c|
  {
    from <= k < |y| && forall j :: from <= j < k ==> !StopsRight(y, minJump, p, j, c)
  }

  /** The right scan from `from` demotes the candidate: it meets a peak the
      rule applies to that is not lower, or it reaches a boundary peak. */
  predicate RightDemotes(y: seq<real>, minJump: real, p: nat, c: seq<int>, from: nat)
    requires p < from < |y| == |c|
  {
    || (exists k :: from <= k < |y| && RightReaches(y, minJump, p, c, from, k)
                    && RuleAppliesRight(c, k) && y[p] <= y[k])
    || (RightReaches(y, minJump, p, c, from, |y| - 1) && c[|y| - 1] == 1)
  }

  /** The right scan stated point by point, mirroring `LeftScanMeaning`. */
  lemma {:induction false} RightScanMeaning(y: seq<real>, minJump: real, p: nat, q: nat, c: seq<int>)
    requires p < q < |y| == |c|
    ensures RightScan(y, minJump, p, q, c).Err? <==>
              RightReaches(y, minJump, p, c, q, |y| - 1) && c[|y| - 1] == 0
    ensures RightScan(y, minJump, p, q, c).Ok? ==>
              forall k :: 0 <= k < |c| && k != p ==>
                RightScan(y, minJump, p, q, c).value[k] ==
                  if RightReaches(y, minJump, p, c, q, k) && RuleAppliesRight(c, k) && y[p] > y[k]
                  then 0 else c[k]
    ensures RightScan(y, minJump, p, q, c).Ok? ==>
              RightScan(y, minJump, p, q, c).value[p] ==
                if RightDemotes(y, minJump, p, c, q) then 0 else c[p]
    decreases |y| - q
  {
    var last := |y| - 1;
    var r := RightScan(y, minJump, p, q, c);
    var c' := ApplyRule(y, p, q, c, last);
    if q == last {
      if c[last] == 1 {
        assert RightReaches(y, minJump, p, c, q, last);
      } else {
        assert !RightDemotes(y, minJump, p, c, q) by {
          assert !RuleAppliesRight(c, last);
        }
      }
    } else if StopsRight(y, minJump, p, q, c) {
      assert r == Ok(c');
      assert RightReaches(y, minJump, p, c, q, q);
      assert forall k :: q < k < |y| ==> !RightReaches(y, minJump, p, c, q, k);
      assert !RightDemotes(y, minJump, p, c, q);
    } else {
      RightScanMeaning(y, minJump, p, q + 1, c');
      assert r == RightScan(y, minJump, p, q + 1, c');
      RightStepFrame(y, minJump, p, q, c, c');
      assert RightReaches(y, minJump, p, c, q, q);
      if r.Ok? {
        var d := r.value;
        forall k | 0 <= k < |c| && k != p
          ensures d[k] == if RightReaches(y, minJump, p, c, q, k) && RuleAppliesRight(c, k) && y[p] > y[k]
                          then 0 else c[k]
        {
          if k <= q {
            assert !RightReaches(y, minJump, p, c', q + 1, k);
          }
        }
        RightDemotesStep(y, minJump, p, q, c, c');
      }
    }
  }

  /** Above `q` a right step leaves the codes untouched, so the later steps
      decide as they would have on `c`. */
  lemma RightStepFrame(y: seq<real>, minJump: real, p: nat, q: nat, c: seq<int>, c': seq<int>)
    requires p < q < |y| - 1 && |y| == |c|
    requires c' == ApplyRule(y, p, q, c, |y| - 1)
    requires !StopsRight(y, minJump, p, q, c)
    ensures forall j :: q < j < |y| ==> c'[j] == c[j]
    ensures forall j :: q < j < |y| ==>
              StopsRight(y, minJump, p, j, c') == StopsRight(y, minJump, p, j, c)
    ensures forall k :: q < k < |y| ==>
              RightReaches(y, minJump, p, c', q + 1, k) == RightReaches(y, minJump, p, c, q, k)
    ensures forall k :: q < k < |y| ==> RuleAppliesRight(c', k) == RuleAppliesRight(c, k)
  {
    assert forall j :: q < j < |y| ==> c'[j] == c[j];
    assert forall j :: q < j < |y| ==>
      StopsRight(y, minJump, p, j, c') == StopsRight(y, minJump, p, j, c);
  }

  /** One non-final step of the right scan, seen from the candidate. */
  lemma RightDemotesStep(y: seq<real>, minJump: real, p: nat, q: nat, c: seq<int>, c': seq<int>)
    requires p < q < |y| - 1 && |y| == |c|
    requires c' == ApplyRule(y, p, q, c, |y| - 1)
    requires !StopsRight(y, minJump, p, q, c)
    requires forall k :: q < k < |y| ==>
      RightReaches(y, minJump, p, c', q + 1, k) == RightReaches(y, minJump, p, c, q, k)
    requires forall k :: q < k < |y| ==> RuleAppliesRight(c', k) == RuleAppliesRight(c, k)
    requires forall j :: q < j < |y| ==> c'[j] == c[j]
    ensures (c'[p] == 0 && c[p] != 0) || RightDemotes(y, minJump, p, c', q + 1)
            ==> RightDemotes(y, minJump, p, c, q)
    ensures RightDemotes(y, minJump, p, c, q)
            ==> c'[p] == 0 || RightDemotes(y, minJump, p, c', q + 1)
  {
    var last := |y| - 1;
    assert RightReaches(y, minJump, p, c, q, q);
    if c'[p] == 0 && c[p] != 0 {
      assert RuleAppliesRight(c, q) && y[p] <= y[q];
    }
    if RightDemotes(y, minJump, p, c', q + 1) {
      if RightReaches(y, minJump, p, c', q + 1, last) && c'[last] == 1 {
        assert RightReaches(y, minJump, p, c, q, last);
      } else {
        var k :| q + 1 <= k < |y| && RightReaches(y, minJump, p, c', q + 1, k)
                 && RuleAppliesRight(c', k) && y[p] <= y[k];
        assert RightReaches(y, minJump, p, c, q, k);
      }
    }
    if RightDemotes(y, minJump, p, c, q) && c'[p] != 0 {
      if RightReaches(y, minJump, p, c, q, last) && c[last] == 1 {
        assert RightReaches(y, minJump, p, c', q + 1, last);
      } else {
        var k :| q <= k < |y| && RightReaches(y, minJump, p, c, q, k)
                 && RuleAppliesRight(c, k) && y[p] <= y[k];
        assert k > q;
        assert RightReaches(y, minJump, p, c', q + 1, k);
      }
    }
  }

  // ---------------------------------------------------------------- one candidate

  /** Both scans of one candidate (lines 245-331). A candidate at either end
      of the series is never scanned. The right scan runs even when the left
      one has already demoted the candidate. */
  function ScanCandidate(y: seq<real>, minJump: real, exempt: int, p: nat, c: seq<int>): (r: Result<seq<int>>)
    requires p < |y| == |c|
    ensures r.Ok? ==> |r.value| == |c|
    ensures r.Ok? ==> forall k :: 0 <= k < |c| ==>
              r.value[k] == c[k] || (r.value[k] == 0 && (c[k] == 1 || k == p))
    ensures r.Ok? ==> r.value[|c| - 1] == c[|c| - 1]
    ensures r.Ok? && exempt == 0 ==> r.value[0] == c[0]
    ensures r.Err? ==> r.error == UnknownError && (c[0] == 0 || c[|c| - 1] == 0)
    ensures p == 0 || p == |c| - 1 ==> r == Ok(c)
  {
    if p == 0 || p == |y| - 1 then Ok(c)
    else
      var afterLeft :- LeftScan(y, minJump, exempt, p, p - 1, c);
      RightScan(y, minJump, p, p + 1, afterLeft)
  }
}
