/** The valley pass at the end of `peak_finder` (lines 351-369): between each
    pair of consecutive surviving peaks, the lowest point is marked -1. */
module Valleys {
  import opened Results
  import opened ListOps

  /** The pass from index `i`. `seen` records that a first peak has been met;
      `low` is the low-water mark and `lowPos` where it was last lowered
      (`None` while the source's variable is still unbound). Reaching a peak
      after the first commits the mark and resets it to the series maximum
      `top`; every point then lowers the mark if it is strictly below it. */
  function ValleysFrom(y: seq<real>, top: real, i: nat, c: seq<int>, seen: bool, low: real, lowPos: Option<nat>)
    : (r: Result<seq<int>>)
    requires i <= |y| == |c|
    requires lowPos.Some? ==> lowPos.value < i
    decreases |y| - i
    ensures r.Ok? ==> |r.value| == |c|
    ensures r.Ok? ==> forall k :: 0 <= k < |c| ==> r.value[k] == c[k] || r.value[k] == -1
    ensures r.Ok? && |c| > 0 ==> r.value[|c| - 1] == c[|c| - 1]
    ensures r.Err? ==> r.error == ValleyPositionUnset
  {
    if i == |y| then Ok(c)
    else if c[i] == 1 && seen && lowPos.None? then Err(ValleyPositionUnset)
    else
      var c' := if c[i] == 1 && seen then c[lowPos.value := -1] else c;
      var low' := if c[i] == 1 then top else low;
      var seen' := seen || c[i] == 1;
      if y[i] < low' then ValleysFrom(y, top, i + 1, c', seen', y[i], Some(i))
      else ValleysFrom(y, top, i + 1, c', seen', low', lowPos)
  }

  /** The whole valley pass, starting with no peak seen and the mark at the
      series maximum. `max` of an empty series raises. */
  function SetValleys(y: seq<real>, c: seq<int>): (r: Result<seq<int>>)
    requires |y| == |c|
    ensures r.Ok? ==> |r.value| == |c|
    ensures r.Ok? ==> forall k :: 0 <= k < |c| ==> r.value[k] == c[k] || r.value[k] == -1
    ensures r.Ok? && |c| > 0 ==> r.value[|c| - 1] == c[|c| - 1]
    ensures r.Err? ==> r.error in {EmptySeries, ValleyPositionUnset}
    ensures r.Err? && r.error == EmptySeries <==> |y| == 0
  {
    if |y| == 0 then Err(EmptySeries)
    else ValleysFrom(y, Max(y), 0, c, false, Max(y), None)
  }

  // ---------------------------------------------------------------- reference

  /** The last index at or before `k` coded 1, or -1 if there is none. */
  function PrevPeak(c: seq<int>, k: int): (a: int)
    requires -1 <= k < |c|
    decreases k + 1
    ensures -1 <= a <= k
    ensures a >= 0 ==> c[a] == 1
    ensures forall j :: a < j <= k ==> c[j] != 1
  {
    if k < 0 then -1 else if c[k] == 1 then k else PrevPeak(c, k - 1)
  }

  /** The first index at or after `k` coded 1, or |c| if there is none. */
  function NextPeak(c: seq<int>, k: nat): (b: nat)
    requires k <= |c|
    decreases |c| - k
    ensures k <= b <= |c|
    ensures b < |c| ==> c[b] == 1
    ensures forall j :: k <= j < b ==> c[j] != 1
  {
    if k == |c| then k else if c[k] == 1 then k else NextPeak(c, k + 1)
  }

  /** The first position holding the least value of y[lo..hi). */
  function ArgMin(y: seq<real>, lo: nat, hi: nat): (m: nat)
    requires lo < hi <= |y|
    decreases hi - lo
    ensures lo <= m < hi
    ensures forall j :: lo <= j < hi ==> y[m] <= y[j]
    ensures forall j :: lo <= j < m ==> y[m] < y[j]
  {
    if hi == lo + 1 then lo
    else
      var m := ArgMin(y, lo, hi - 1);
      if y[hi - 1] < y[m] then hi - 1 else m
  }

  /** `k` is the valley between two consecutive peaks: there is a peak at or
      before it and one after it, and `k` is the first position of the least
      value from the earlier peak up to just before the later one. */
  predicate IsValley(y: seq<real>, c: seq<int>, k: nat)
    requires k < |c| == |y|
  {
    var a := PrevPeak(c, k);
    var b := NextPeak(c, k + 1);
    0 <= a && b < |c| && k == ArgMin(y, a, b)
  }

  /** The reference marking: every valley coded -1, every other code kept. */
  function Marked(y: seq<real>, c: seq<int>): (m: seq<int>)
    requires |y| == |c|
    ensures |m| == |c|
    ensures forall k :: 0 <= k < |c| ==> m[k] == if IsValley(y, c, k) then -1 else c[k]
  {
    seq(|c|, k requires 0 <= k < |c| => if IsValley(y, c, k) then -1 else c[k])
  }

  /** A point coded 1 is followed by a strictly lower point that is not
      coded 1 (true of raw peaks when no value repeats). */
  predicate DescendsAfter(y: seq<real>, c: seq<int>, i: nat)
    requires i < |y| - 1 && |y| == |c|
  {
    c[i] == 1 ==> y[i + 1] < y[i] && c[i + 1] != 1
  }

  predicate PeaksDescend(y: seq<real>, c: seq<int>)
    requires |y| == |c|
  {
    forall i :: 0 <= i < |y| - 1 ==> DescendsAfter(y, c, i)
  }

  /** A point coded 1 is reached by a strict rise from its left neighbour
      (true of raw peaks when no value repeats). */
  predicate RisesTo(y: seq<real>, c: seq<int>, i: nat)
    requires 0 < i < |y| == |c|
  {
    c[i] == 1 ==> y[i - 1] < y[i]
  }

  predicate PeaksRise(y: seq<real>, c: seq<int>)
    requires |y| == |c|
  {
    forall i :: 0 < i < |y| ==> RisesTo(y, c, i)
  }

  /** When every peak is approached by a strict rise and left by a strict
      fall, each valley lies strictly below both peaks that enclose it. */
  lemma ValleyBelowPeaks(y: seq<real>, c: seq<int>, k: nat)
    requires k < |c| == |y|
    requires PeaksDescend(y, c) && PeaksRise(y, c)
    requires IsValley(y, c, k)
    ensures y[k] < y[PrevPeak(c, k)] && y[k] < y[NextPeak(c, k + 1)]
  {
    var a := PrevPeak(c, k);
    var b := NextPeak(c, k + 1);
    assert DescendsAfter(y, c, a);
    assert a + 1 < b;
    assert y[k] <= y[a + 1];
    assert RisesTo(y, c, b);
    assert y[k] <= y[b - 1];
  }

  /** When every peak is followed by a strictly lower non-peak, no peak is
      ever a valley, so the marking keeps exactly the peaks it was given. */
  lemma MarkedKeepsPeaks(y: seq<real>, c: seq<int>, j: nat)
    requires j < |c| == |y| && PeaksDescend(y, c)
    ensures Marked(y, c)[j] == 1 <==> c[j] == 1
  {
    if c[j] == 1 && j < |c| - 1 {
      assert DescendsAfter(y, c, j);
      var b := NextPeak(c, j + 1);
      if b < |c| {
        assert j + 1 < b;
        assert y[ArgMin(y, j, b)] <= y[j + 1];
      }
    }
  }

  /** The same, read off the marked codes alone: a point marked -1 between
      two marked peaks lies strictly below the nearest one on either side,
      provided only the ends were coded -1 beforehand. */
  lemma MarkedValleyBelowPeaks(y: seq<real>, c: seq<int>, k: nat)
    requires k < |c| == |y|
    requires PeaksDescend(y, c) && PeaksRise(y, c)
    requires forall j :: 0 < j < |c| - 1 ==> c[j] != -1
    ensures var m := Marked(y, c);
              m[k] == -1 && PrevPeak(m, k) >= 0 && NextPeak(m, k + 1) < |c| ==>
                y[k] < y[PrevPeak(m, k)] && y[k] < y[NextPeak(m, k + 1)]
  {
    var m := Marked(y, c);
    forall j | 0 <= j < |c|
      ensures m[j] == 1 <==> c[j] == 1
    {
      MarkedKeepsPeaks(y, c, j);
    }
    var a := PrevPeak(c, k);
    var b := NextPeak(c, k + 1);
    PrevPeakIs(m, k, a);
    NextPeakIs(m, k + 1, b);
    if m[k] == -1 && a >= 0 && b < |c| {
      assert c[k] != -1;
      ValleyBelowPeaks(y, c, k);
    }
  }

  // ---------------------------------------------------------------- proof

  lemma {:induction false} PrevPeakIs(c: seq<int>, k: int, a: int)
    requires -1 <= a <= k < |c|
    requires a >= 0 ==> c[a] == 1
    requires forall j :: a < j <= k ==> c[j] != 1
    ensures PrevPeak(c, k) == a
    decreases k - a
  {
    if a < k {
      PrevPeakIs(c, k - 1, a);
    }
  }

  lemma {:induction false} NextPeakIs(c: seq<int>, k: nat, b: nat)
    requires k <= b <= |c|
    requires b < |c| ==> c[b] == 1
    requires forall j :: k <= j < b ==> c[j] != 1
    ensures NextPeak(c, k) == b
    decreases b - k
  {
    if k < b {
      NextPeakIs(c, k + 1, b);
    }
  }

  /** What the pass has established on reaching index `i`, in terms of the
      reference: valleys before the last peak met are marked, `seen` says a
      peak was met, and the mark holds the least value since that peak. */
  ghost predicate PassState(y: seq<real>, c: seq<int>, top: real, i: nat, cur: seq<int>,
                            seen: bool, low: real, lowPos: Option<nat>)
    requires i <= |y| == |c|
  {
    var a := PrevPeak(c, i - 1);
    && |cur| == |c|
    && (forall j :: 0 <= j < |y| ==> y[j] <= top)
    && (lowPos.Some? ==> lowPos.value < i)
    && (forall k :: 0 <= k < |c| ==> cur[k] == if k < a && IsValley(y, c, k) then -1 else c[k])
    && (seen <==> a >= 0)
    && (a >= 0 ==>
          var m := ArgMin(y, a, i);
          && (y[m] < top ==> low == y[m] && lowPos == Some(m))
          && (y[m] >= top ==> low == top))
  }

  /** At the end of the series the marked codes are the reference ones:
      nothing at or after the last peak is a valley. */
  lemma PassStateFinal(y: seq<real>, c: seq<int>, top: real, cur: seq<int>,
                       seen: bool, low: real, lowPos: Option<nat>)
    requires |y| == |c|
    requires PassState(y, c, top, |y|, cur, seen, low, lowPos)
    ensures ValleysFrom(y, top, |y|, cur, seen, low, lowPos) == Ok(Marked(y, c))
  {
    var a := PrevPeak(c, |y| - 1);
    forall k | 0 <= k < |c| && a <= k
      ensures !IsValley(y, c, k)
    {
      if a >= 0 {
        NextPeakIs(c, k + 1, |c|);
      } else {
        PrevPeakIs(c, k, -1);
      }
    }
    assert cur == Marked(y, c);
  }

  /** A point that is not a peak only moves the low-water mark. */
  lemma StepNonPeak(y: seq<real>, c: seq<int>, top: real, i: nat, cur: seq<int>,
                    seen: bool, low: real, lowPos: Option<nat>)
    requires i < |y| == |c| && c[i] != 1
    requires PassState(y, c, top, i, cur, seen, low, lowPos)
    ensures PassState(y, c, top, i + 1, cur, seen,
                      if y[i] < low then y[i] else low,
                      if y[i] < low then Some(i) else lowPos)
  {
    var a := PrevPeak(c, i - 1);
    PrevPeakIs(c, i, a);
    if a >= 0 {
      var m := ArgMin(y, a, i);
      assert ArgMin(y, a, i + 1) == if y[i] < y[m] then i else m;
    }
  }

  /** A peak commits the mark of the stretch since the previous peak (bound,
      because that peak is followed by a strictly lower point) and restarts
      the mark from the maximum. */
  lemma StepPeak(y: seq<real>, c: seq<int>, top: real, i: nat, cur: seq<int>,
                 seen: bool, low: real, lowPos: Option<nat>)
    requires i < |y| == |c| && c[i] == 1
    requires PeaksDescend(y, c)
    requires PassState(y, c, top, i, cur, seen, low, lowPos)
    ensures seen ==> lowPos.Some?
    ensures PassState(y, c, top, i + 1,
                      if seen then cur[lowPos.value := -1] else cur, true,
                      if y[i] < top then y[i] else top,
                      if y[i] < top then Some(i) else lowPos)
  {
    var a := PrevPeak(c, i - 1);
    PrevPeakIs(c, i, i);
    assert ArgMin(y, i, i + 1) == i;
    if seen {
      assert DescendsAfter(y, c, a);
      var m := ArgMin(y, a, i);
      assert y[m] <= y[a + 1] < y[a] <= top;
      assert lowPos == Some(m);
      ValleysBetween(y, c, a, i);
    } else {
      NoValleysBefore(y, c, i);
    }
  }

  /** Between two consecutive peaks the only valley is the first lowest
      point from the earlier peak on. */
  lemma ValleysBetween(y: seq<real>, c: seq<int>, a: nat, i: nat)
    requires a < i < |c| == |y| && c[a] == 1 && c[i] == 1
    requires forall j :: a < j < i ==> c[j] != 1
    ensures forall k :: a <= k < i ==> (IsValley(y, c, k) <==> k == ArgMin(y, a, i))
  {
    forall k | a <= k < i
      ensures IsValley(y, c, k) <==> k == ArgMin(y, a, i)
    {
      PrevPeakIs(c, k, a);
      NextPeakIs(c, k + 1, i);
    }
  }

  /** Nothing before the first peak is a valley. */
  lemma NoValleysBefore(y: seq<real>, c: seq<int>, i: nat)
    requires i <= |c| == |y|
    requires forall j :: 0 <= j < i ==> c[j] != 1
    ensures forall k :: 0 <= k < i ==> !IsValley(y, c, k)
  {
    forall k | 0 <= k < i
      ensures !IsValley(y, c, k)
    {
      PrevPeakIs(c, k, -1);
    }
  }

  /** One step of the pass at a peak whose commit position is bound. */
  lemma UnfoldAtPeak(y: seq<real>, top: real, i: nat, cur: seq<int>, seen: bool, low: real, lowPos: Option<nat>)
    requires i < |y| == |cur| && cur[i] == 1
    requires lowPos.Some? ==> lowPos.value < i
    requires seen ==> lowPos.Some?
    ensures ValleysFrom(y, top, i, cur, seen, low, lowPos)
         == ValleysFrom(y, top, i + 1, if seen then cur[lowPos.value := -1] else cur, true,
                        if y[i] < top then y[i] else top, if y[i] < top then Some(i) else lowPos)
  {
  }

  /** One step of the pass at a point that is not a peak. */
  lemma UnfoldOffPeak(y: seq<real>, top: real, i: nat, cur: seq<int>, seen: bool, low: real, lowPos: Option<nat>)
    requires i < |y| == |cur| && cur[i] != 1
    requires lowPos.Some? ==> lowPos.value < i
    ensures ValleysFrom(y, top, i, cur, seen, low, lowPos)
         == ValleysFrom(y, top, i + 1, cur, seen,
                        if y[i] < low then y[i] else low, if y[i] < low then Some(i) else lowPos)
  {
  }

  lemma {:induction false} ValleysFromMeaning(y: seq<real>, c: seq<int>, top: real, i: nat, cur: seq<int>,
                                              seen: bool, low: real, lowPos: Option<nat>)
    requires i <= |y| == |c|
    requires PeaksDescend(y, c)
    requires PassState(y, c, top, i, cur, seen, low, lowPos)
    ensures ValleysFrom(y, top, i, cur, seen, low, lowPos) == Ok(Marked(y, c))
    decreases |y| - i, 1
  {
    if i == |y| {
      PassStateFinal(y, c, top, cur, seen, low, lowPos);
    } else {
      if c[i] == 1 {
        MeaningAtPeak(y, c, top, i, cur, seen, low, lowPos);
      } else {
        MeaningOffPeak(y, c, top, i, cur, seen, low, lowPos);
      }
    }
  }

  lemma {:induction false} MeaningAtPeak(y: seq<real>, c: seq<int>, top: real, i: nat, cur: seq<int>,
                                  seen: bool, low: real, lowPos: Option<nat>)
    requires i < |y| == |c| && c[i] == 1
    requires PeaksDescend(y, c)
    requires PassState(y, c, top, i, cur, seen, low, lowPos)
    ensures ValleysFrom(y, top, i, cur, seen, low, lowPos) == Ok(Marked(y, c))
    decreases |y| - i, 0
  {
    StepPeak(y, c, top, i, cur, seen, low, lowPos);
    var cur' := if seen then cur[lowPos.value := -1] else cur;
    var low' := if y[i] < top then y[i] else top;
    var pos' := if y[i] < top then Some(i) else lowPos;
    AtPeakNext(y, c, top, i, cur, seen, low, lowPos, cur', low', pos');
    ValleysFromMeaning(y, c, top, i + 1, cur', true, low', pos');
  }

  /** The pass state after a peak, and the step of the pass that reaches it. */
  lemma AtPeakNext(y: seq<real>, c: seq<int>, top: real, i: nat, cur: seq<int>,
                   seen: bool, low: real, lowPos: Option<nat>,
                   cur': seq<int>, low': real, pos': Option<nat>)
    requires i < |y| == |c| && c[i] == 1
    requires PassState(y, c, top, i, cur, seen, low, lowPos)
    requires seen ==> lowPos.Some?
    requires cur' == if seen then cur[lowPos.value := -1] else cur
    requires low' == (if y[i] < top then y[i] else top)
    requires pos' == if y[i] < top then Some(i) else lowPos
    ensures pos'.Some? ==> pos'.value < i + 1
    ensures ValleysFrom(y, top, i, cur, seen, low, lowPos) == ValleysFrom(y, top, i + 1, cur', true, low', pos')
  {
    assert cur[i] == c[i];
    UnfoldAtPeak(y, top, i, cur, seen, low, lowPos);
  }

  lemma {:induction false} MeaningOffPeak(y: seq<real>, c: seq<int>, top: real, i: nat, cur: seq<int>,
                                  seen: bool, low: real, lowPos: Option<nat>)
    requires i < |y| == |c| && c[i] != 1
    requires PeaksDescend(y, c)
    requires PassState(y, c, top, i, cur, seen, low, lowPos)
    ensures ValleysFrom(y, top, i, cur, seen, low, lowPos) == Ok(Marked(y, c))
    decreases |y| - i, 0
  {
    StepNonPeak(y, c, top, i, cur, seen, low, lowPos);
    var low' := if y[i] < low then y[i] else low;
    var pos' := if y[i] < low then Some(i) else lowPos;
    OffPeakNext(y, c, top, i, cur, seen, low, lowPos, low', pos');
    ValleysFromMeaning(y, c, top, i + 1, cur, seen, low', pos');
  }

  /** The step of the pass at a point that is not a peak. */
  lemma OffPeakNext(y: seq<real>, c: seq<int>, top: real, i: nat, cur: seq<int>,
                    seen: bool, low: real, lowPos: Option<nat>, low': real, pos': Option<nat>)
    requires i < |y| == |c| && c[i] != 1
    requires PassState(y, c, top, i, cur, seen, low, lowPos)
    requires low' == (if y[i] < low then y[i] else low)
    requires pos' == if y[i] < low then Some(i) else lowPos
    ensures pos'.Some? ==> pos'.value < i + 1
    ensures ValleysFrom(y, top, i, cur, seen, low, lowPos) == ValleysFrom(y, top, i + 1, cur, seen, low', pos')
  {
    assert cur[i] == c[i];
    UnfoldOffPeak(y, top, i, cur, seen, low, lowPos);
  }

  /** The valley pass, when every peak is followed by a strictly lower
      non-peak, always succeeds and marks -1 exactly the first position of the
      least value between each two consecutive peaks, keeping every other
      code. */
  lemma SetValleysMeaning(y: seq<real>, c: seq<int>)
    requires |y| == |c| >= 1
    requires PeaksDescend(y, c)
    ensures SetValleys(y, c) == Ok(Marked(y, c))
  {
    PrevPeakIs(c, -1, -1);
    ValleysFromMeaning(y, c, Max(y), 0, c, false, Max(y), None);
  }
}
