/** The raw extrema detector `calculate_peak_valley`: codes every point of a
    series as 1 (peak), 0 (neither) or -1 (valley) from the signs of its
    first differences, before any significance testing. */
module RawExtrema {
  import opened Results
  import opened ListOps

  /** The running sign of a slope: a flat slope counts as rising. */
  function Sign(x: real): (s: int)
    ensures s == -1 || s == 1
    ensures s == 1 <==> x >= 0.0
  {
    if x < 0.0 then -1 else 1
  }

  /** The interior loop over slope indices `i` in [i, stop), carrying the sign
      of the previous slope in `last`. Only a rising-to-falling flip marks a
      peak; the running sign follows every flip. */
  function MarkFlips(d: seq<real>, i: nat, stop: nat, last: int, codes: seq<int>): (r: seq<int>)
    requires 1 <= i <= |d| && stop <= |d| && |codes| == |d| + 1
    requires last == Sign(d[i - 1])
    decreases stop - i
    ensures |r| == |codes|
    ensures forall k {:trigger r[k]} :: i <= k < stop ==> r[k] == if d[k - 1] >= 0.0 && d[k] < 0.0 then 1 else codes[k]
    ensures forall k :: 0 <= k < |codes| && (k < i || k >= stop) ==> r[k] == codes[k]
  {
    if i >= stop then codes
    else
      var sign := Sign(d[i]);
      var codes' := if sign == -last && sign < last then codes[i := 1] else codes;
      var last' := if sign == -last then sign else last;
      MarkFlips(d, i + 1, stop, last', codes')
  }

  /** The detector with its interior loop reaching index N-2 when `lastTurn`
      holds, and stopping at N-3 otherwise. The endpoints are decided by
      strict comparisons on the first and last slopes. A series of fewer
      than two points has no first slope to read. */
  function CalculatePeakValleyTo(y: seq<real>, lastTurn: bool): (r: Result<seq<int>>)
    ensures r.Err? <==> |y| < 2
    ensures r.Err? ==> r.error == InsufficientData
    ensures r.Ok? ==> |r.value| == |y|
    ensures r.Ok? ==> r.value[0] == if y[1] > y[0] then -1 else 1
    ensures r.Ok? ==> r.value[|y| - 1] == if y[|y| - 1] > y[|y| - 2] then 1 else -1
    ensures r.Ok? ==> forall i {:trigger r.value[i]} :: 1 <= i <= |y| - 2 ==>
              r.value[i] == if (lastTurn || i <= |y| - 3) && y[i] >= y[i - 1] && y[i + 1] < y[i] then 1 else 0
    ensures r.Ok? ==> RawShape(r.value) && PeaksAreTurns(y, r.value)
  {
    if |y| < 2 then Err(InsufficientData)
    else
      var n := |y|;
      var d := Diff(y);
      var stop := if lastTurn then n - 1 else n - 2;
      var flips := MarkFlips(d, 1, stop, Sign(d[0]), Zeros(n));
      var first := if d[0] > 0.0 then -1 else 1;
      var final := if d[n - 2] > 0.0 then 1 else -1;
      var out := flips[0 := first][n - 1 := final];
      assert forall i :: 1 <= i <= n - 2 ==> out[i] == flips[i];
      assert forall i {:trigger flips[i]} :: 1 <= i <= n - 2 ==>
        flips[i] == if (lastTurn || i <= n - 3) && y[i] >= y[i - 1] && y[i + 1] < y[i] then 1 else 0;
      ClosedFormShape(y, out, lastTurn);
      Ok(out)
  }

  /** `calculate_peak_valley(y)` as written. The interior loop runs over
      1..N-3 (line 152), so index N-2 is never examined. */
  function CalculatePeakValley(y: seq<real>): (r: Result<seq<int>>)
    ensures r.Err? <==> |y| < 2
    ensures r.Err? ==> r.error == InsufficientData
    ensures r.Ok? ==> |r.value| == |y|
    ensures r.Ok? ==> r.value[0] == if y[1] > y[0] then -1 else 1
    ensures r.Ok? ==> r.value[|y| - 1] == if y[|y| - 1] > y[|y| - 2] then 1 else -1
    ensures r.Ok? ==> forall i {:trigger r.value[i]} :: 1 <= i <= |y| - 2 ==>
              r.value[i] == if i <= |y| - 3 && y[i] >= y[i - 1] && y[i + 1] < y[i] then 1 else 0
    ensures r.Ok? ==> RawShape(r.value) && PeaksAreTurns(y, r.value)
  {
    CalculatePeakValleyTo(y, false)
  }

  /** The detector as the comment on line 151 describes it: a peak wherever
      a non-negative slope turns negative, so every interior point, N-2
      included, is a peak exactly when it is a rise-then-fall. */
  function CalculatePeakValleyIntended(y: seq<real>): (r: Result<seq<int>>)
    ensures r.Err? <==> |y| < 2
    ensures r.Err? ==> r.error == InsufficientData
    ensures r.Ok? ==> |r.value| == |y|
    ensures r.Ok? ==> r.value[0] == if y[1] > y[0] then -1 else 1
    ensures r.Ok? ==> r.value[|y| - 1] == if y[|y| - 1] > y[|y| - 2] then 1 else -1
    ensures r.Ok? ==> forall i :: 0 < i < |y| - 1 ==>
              (r.value[i] == 1 <==> y[i - 1] <= y[i] && y[i + 1] < y[i])
    ensures r.Ok? ==> RawShape(r.value) && PeaksAreTurns(y, r.value)
  {
    CalculatePeakValleyTo(y, true)
  }

  /** Every code the detector produces is -1, 0 or 1. */
  predicate ValidCodes(c: seq<int>)
  {
    forall k :: 0 <= k < |c| ==> -1 <= c[k] <= 1
  }

  /** Codes whose interior points are 0 or 1, as the detector leaves them. */
  predicate InteriorBinary(c: seq<int>)
  {
    forall k :: 0 < k < |c| - 1 ==> c[k] == 0 || c[k] == 1
  }

  /** Codes whose endpoints are nonzero and whose interior is 0 or 1. */
  predicate RawShape(c: seq<int>)
  {
    && |c| >= 2
    && ValidCodes(c)
    && c[0] != 0 && c[|c| - 1] != 0
    && InteriorBinary(c)
  }

  /** Every interior point coded 1 is higher than (or level with) its left
      neighbour and strictly higher than its right neighbour. */
  predicate PeaksAreTurns(y: seq<real>, c: seq<int>)
    requires |c| == |y|
  {
    forall i :: 0 < i < |y| - 1 && c[i] == 1 ==> y[i + 1] < y[i] && y[i - 1] <= y[i]
  }

  /** The closed form the detector meets has the raw shape. */
  lemma ClosedFormShape(y: seq<real>, c: seq<int>, lastTurn: bool)
    requires |c| == |y| >= 2
    requires c[0] in {-1, 1} && c[|y| - 1] in {-1, 1}
    requires forall i {:trigger c[i]} :: 1 <= i <= |y| - 2 ==>
               c[i] == if (lastTurn || i <= |y| - 3) && y[i] >= y[i - 1] && y[i + 1] < y[i] then 1 else 0
    ensures RawShape(c) && PeaksAreTurns(y, c)
  {
    forall k | 0 <= k < |c|
      ensures -1 <= c[k] <= 1
    {
      if 0 < k < |c| - 1 {
        assert 1 <= k <= |y| - 2;
      }
    }
  }
}
