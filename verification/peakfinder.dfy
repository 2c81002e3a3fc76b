/** `peak_finder` (lines 182-372) as a whole: the raw extrema, the
    significance pass over the candidates, and the valley pass. */
module PeakValley {
  import opened Results
  import opened ListOps
  import opened RawExtrema
  import opened Scans
  import opened Refiner
  import opened Valleys

  /** The left-scan index the significance rule skips as written (line 262).
      The comment above it names the first point, index 0; the code names 1. */
  const AsWrittenExempt: int := 1

  /** The index the left rule evidently means to skip: the first point, the
      mirror image of the right scan skipping the last one (line 307). */
  const IntendedExempt: int := 0

  /** Whether the raw loop reaches index N-2. As written it does not: its
      range stops at N-3 (line 152). */
  const AsWrittenLastTurn: bool := false

  /** The comment on line 151 asks for a peak at every slope change, which
      includes the turn at index N-2. */
  const IntendedLastTurn: bool := true

  /** Line 216: the least drop that makes a peak significant, a fraction
      `sensitivity` of the series' range. */
  function MinJump(y: seq<real>, sensitivity: real): (m: real)
    requires |y| > 0
    ensures sensitivity >= 0.0 ==> m >= 0.0
  {
    var range := Max(y) - Min(y);
    assert range >= 0.0 by {
      assert Min(y) <= y[0] <= Max(y);
    }
    range * sensitivity
  }

  /** The raw codes of a series long enough to have them. */
  function Raw(y: seq<real>, lastTurn: bool): (c: seq<int>)
    requires |y| >= 2
    ensures |c| == |y| && RawShape(c) && PeaksAreTurns(y, c)
  {
    CalculatePeakValleyTo(y, lastTurn).value
  }

  /** Everything up to the valley pass: `max`/`min` of the series (line 216,
      raising on an empty one), the raw codes (line 221), then every
      candidate in rank order (lines 239-348). */
  function Refine(y: seq<real>, sensitivity: real, exempt: int, lastTurn: bool): (r: Result<seq<int>>)
    ensures r.Err? && r.error == EmptySeries <==> |y| == 0
    ensures r.Err? && r.error == InsufficientData <==> |y| == 1
    ensures r.Err? ==> r.error in {EmptySeries, InsufficientData, UnknownError}
    ensures r.Ok? ==> |y| >= 2 && |r.value| == |y|
    ensures r.Ok? ==> forall k :: 0 <= k < |y| ==>
              r.value[k] == Raw(y, lastTurn)[k] || (r.value[k] == 0 && Raw(y, lastTurn)[k] == 1)
    ensures r.Ok? ==> r.value[|y| - 1] == Raw(y, lastTurn)[|y| - 1]
    ensures r.Ok? && exempt == 0 ==> r.value[0] == Raw(y, lastTurn)[0]
    ensures exempt == 0 && |y| >= 2 ==> r.Ok?
  {
    if |y| == 0 then Err(EmptySeries)
    else
      var minJump := MinJump(y, sensitivity);
      var raw :- CalculatePeakValleyTo(y, lastTurn);
      RefineFrom(y, minJump, exempt, Rank(y), 0, raw)
  }

  /** `peak_finder(y_data, sensitivity)` with the left rule skipping index
      `exempt`, and the raw loop reaching index N-2 when `lastTurn`. A success codes every point 1 (peak), 0 or -1 (valley): a
      peak only where the raw detector found one, the last point as the raw
      detector coded it, and every raw valley (only the ends can be one)
      still a valley. With the first point skipped, no scan ever raises and
      both ends keep a nonzero code. */
  function PeakFinderWith(y: seq<real>, sensitivity: real, exempt: int, lastTurn: bool): (r: Result<seq<int>>)
    ensures r.Err? && r.error == EmptySeries <==> |y| == 0
    ensures r.Err? && r.error == InsufficientData <==> |y| == 1
    ensures r.Ok? ==> |y| >= 2 && |r.value| == |y| && ValidCodes(r.value)
    ensures r.Ok? ==> forall k :: 0 <= k < |y| && r.value[k] == 1 ==> Raw(y, lastTurn)[k] == 1
    ensures r.Ok? ==> forall k :: 0 <= k < |y| && Raw(y, lastTurn)[k] == -1 ==> r.value[k] == -1
    ensures r.Ok? ==> r.value[|y| - 1] == Raw(y, lastTurn)[|y| - 1]
    ensures exempt == 0 && |y| >= 2 ==> r.Ok? || r.error == ValleyPositionUnset
    ensures r.Ok? && exempt == 0 ==> r.value[0] != 0 && r.value[|y| - 1] != 0
  {
    var refined :- Refine(y, sensitivity, exempt, lastTurn);
    var r := SetValleys(y, refined);
    if r.Ok? then
      ValleyPassKeeps(Raw(y, lastTurn), refined, r.value);
      r
    else r
  }

  /** What the two passes keep of the raw codes, composed: the significance
      pass only clears peaks and the valley pass only writes -1. */
  lemma ValleyPassKeeps(raw: seq<int>, refined: seq<int>, out: seq<int>)
    requires |raw| == |refined| == |out| && RawShape(raw)
    requires forall k :: 0 <= k < |raw| ==> refined[k] == raw[k] || (refined[k] == 0 && raw[k] == 1)
    requires forall k :: 0 <= k < |raw| ==> out[k] == refined[k] || out[k] == -1
    ensures ValidCodes(out)
    ensures forall k :: 0 <= k < |raw| && out[k] == 1 ==> raw[k] == 1
    ensures forall k :: 0 <= k < |raw| && raw[k] == -1 ==> out[k] == -1
    ensures forall k :: 0 <= k < |raw| && refined[k] != 0 ==> out[k] != 0
  {
  }

  /** `peak_finder` as written. */
  function PeakFinder(y: seq<real>, sensitivity: real): (r: Result<seq<int>>)
    ensures r.Err? && r.error == EmptySeries <==> |y| == 0
    ensures r.Err? && r.error == InsufficientData <==> |y| == 1
    ensures r.Ok? ==> |y| >= 2 && |r.value| == |y| && ValidCodes(r.value)
    ensures r.Ok? ==> forall k :: 0 <= k < |y| && r.value[k] == 1 ==> Raw(y, AsWrittenLastTurn)[k] == 1
    ensures r.Ok? ==> forall k :: 0 <= k < |y| && Raw(y, AsWrittenLastTurn)[k] == -1 ==> r.value[k] == -1
    ensures r.Ok? ==> r.value[|y| - 1] == Raw(y, AsWrittenLastTurn)[|y| - 1]
  {
    PeakFinderWith(y, sensitivity, AsWrittenExempt, AsWrittenLastTurn)
  }

  /** `peak_finder` corrected: the left rule skips the first point, and the
      raw loop examines every interior point. */
  function PeakFinderIntended(y: seq<real>, sensitivity: real): (r: Result<seq<int>>)
    ensures r.Err? && r.error == EmptySeries <==> |y| == 0
    ensures r.Err? && r.error == InsufficientData <==> |y| == 1
    ensures |y| >= 2 ==> r.Ok? || r.error == ValleyPositionUnset
    ensures r.Ok? ==> |r.value| == |y| && ValidCodes(r.value)
    ensures r.Ok? ==> r.value[0] != 0 && r.value[|y| - 1] != 0
    ensures r.Ok? ==> forall k :: 0 <= k < |y| && r.value[k] == 1 ==> Raw(y, IntendedLastTurn)[k] == 1
  {
    PeakFinderWith(y, sensitivity, IntendedExempt, IntendedLastTurn)
  }

  // ---------------------------------------------------------------- valleys

  /** The raw codes put a strictly lower non-peak after every peak, unless
      the series opens with two equal values. */
  lemma RawPeaksDescend(y: seq<real>, lastTurn: bool)
    requires |y| >= 2 && y[0] != y[1]
    ensures PeaksDescend(y, Raw(y, lastTurn))
  {
    var c := Raw(y, lastTurn);
    var n := |y|;
    assert forall i {:trigger c[i]} :: 1 <= i <= n - 2 ==>
      c[i] == if (lastTurn || i <= n - 3) && y[i] >= y[i - 1] && y[i + 1] < y[i] then 1 else 0;
    forall i | 0 <= i < n - 1
      ensures DescendsAfter(y, c, i)
    {
      if c[i] == 1 {
        if i == 0 {
          assert y[1] < y[0];
        } else {
          assert y[i + 1] < y[i];
        }
      }
    }
  }

  /** Removing peaks keeps every remaining peak followed by a lower
      non-peak. */
  lemma FewerPeaksDescend(y: seq<real>, c: seq<int>, d: seq<int>)
    requires |y| == |c| == |d|
    requires PeaksDescend(y, c)
    requires forall k :: 0 <= k < |d| && d[k] == 1 ==> c[k] == 1
    ensures PeaksDescend(y, d)
  {
    forall i | 0 <= i < |y| - 1
      ensures DescendsAfter(y, d, i)
    {
      assert DescendsAfter(y, c, i);
    }
  }

  /** Unless the series opens with two equal values, the valley pass never
      meets an unset low point, and its result is the reference marking of
      the refined codes: -1 exactly at the first lowest point between two
      consecutive surviving peaks. */
  lemma ValleysAreMarked(y: seq<real>, sensitivity: real, exempt: int, lastTurn: bool)
    requires |y| >= 2 && y[0] != y[1]
    ensures Refine(y, sensitivity, exempt, lastTurn).Ok? ==>
              PeakFinderWith(y, sensitivity, exempt, lastTurn) == Ok(Marked(y, Refine(y, sensitivity, exempt, lastTurn).value))
  {
    if Refine(y, sensitivity, exempt, lastTurn).Ok? {
      var refined := Refine(y, sensitivity, exempt, lastTurn).value;
      RawPeaksDescend(y, lastTurn);
      FewerPeaksDescend(y, Raw(y, lastTurn), refined);
      SetValleysMeaning(y, refined);
    }
  }

  /** No two neighbouring points are level. */
  predicate NoLevelSteps(y: seq<real>)
  {
    forall i :: 0 < i < |y| ==> y[i - 1] != y[i]
  }

  /** Without level steps every raw peak is reached by a strict rise: the
      interior rule admits a level approach, the last point does not. */
  lemma RawPeaksRise(y: seq<real>, lastTurn: bool)
    requires |y| >= 2 && NoLevelSteps(y)
    ensures PeaksRise(y, Raw(y, lastTurn))
  {
    var c := Raw(y, lastTurn);
    forall i | 0 < i < |y|
      ensures RisesTo(y, c, i)
    {
      if c[i] == 1 && i < |y| - 1 {
        assert y[i - 1] <= y[i] && y[i - 1] != y[i];
      }
    }
  }

  /** Removing peaks keeps every remaining peak reached by a strict rise. */
  lemma FewerPeaksRise(y: seq<real>, c: seq<int>, d: seq<int>)
    requires |y| == |c| == |d|
    requires PeaksRise(y, c)
    requires forall k :: 0 <= k < |d| && d[k] == 1 ==> c[k] == 1
    ensures PeaksRise(y, d)
  {
    forall i | 0 < i < |y|
      ensures RisesTo(y, d, i)
    {
      assert RisesTo(y, c, i);
    }
  }

  /** Without level steps, every point `peak_finder` codes -1 between two
      of its peaks lies strictly below the nearest peak on either side. */
  lemma ValleysBelowSurvivingPeaks(y: seq<real>, sensitivity: real, exempt: int, lastTurn: bool, k: nat)
    requires |y| >= 2 && NoLevelSteps(y) && k < |y|
    ensures var r := PeakFinderWith(y, sensitivity, exempt, lastTurn);
              r.Ok? && r.value[k] == -1 && PrevPeak(r.value, k) >= 0 && NextPeak(r.value, k + 1) < |y| ==>
                y[k] < y[PrevPeak(r.value, k)] && y[k] < y[NextPeak(r.value, k + 1)]
  {
    if Refine(y, sensitivity, exempt, lastTurn).Ok? {
      var refined := Refine(y, sensitivity, exempt, lastTurn).value;
      ValleysAreMarked(y, sensitivity, exempt, lastTurn);
      RawPeaksDescend(y, lastTurn);
      FewerPeaksDescend(y, Raw(y, lastTurn), refined);
      RawPeaksRise(y, lastTurn);
      FewerPeaksRise(y, Raw(y, lastTurn), refined);
      MarkedValleyBelowPeaks(y, refined, k);
    }
  }

  /** With the first point skipped by the left rule, and a series that does
      not open with two equal values, `peak_finder` always succeeds. */
  lemma IntendedSucceeds(y: seq<real>, sensitivity: real)
    requires |y| >= 2 && y[0] != y[1]
    ensures PeakFinderIntended(y, sensitivity).Ok?
  {
    ValleysAreMarked(y, sensitivity, IntendedExempt, IntendedLastTurn);
  }
}
