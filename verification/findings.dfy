/** Concrete runs showing what the left rule's exempt index does (line 262):
    as written it skips index 1, so a scan may zero the first point, and a
    later scan that reaches the zeroed point raises. Skipping index 0
    instead keeps both ends nonzero (`PeakValley.PeakFinderWith`). Two more
    series show what ties do: an opening level pair breaks the valley pass,
    and a level step lets a valley be as high as a peak. */
module Findings {
  import opened Results
  import opened ListOps
  import opened RawExtrema
  import opened Scans
  import opened Refiner
  import opened Valleys
  import opened PeakValley

  /** Seven distinct values whose two interior peaks are both within the
      threshold of the first point. */
  const Seven: seq<real> := [5.0, 4.8, 5.8, 4.5, 5.5, 4.9, 5.2]

  /** A series whose highest peak drops by exactly the threshold on both sides. */
  const Five: seq<real> := [5.0, 1.0, 10.0, 1.0, 3.0]

  lemma SevenMax()
    ensures Max(Seven) == 5.8
  {
    MaxIs(Seven, 2);
  }

  lemma SevenMin()
    ensures Min(Seven) == 4.5
  {
    MinIs(Seven, 3);
  }

  lemma SevenThreshold()
    ensures MinJump(Seven, 0.8) == 1.04
  {
    SevenMax();
    SevenMin();
  }

  lemma SevenRawCodes()
    ensures CalculatePeakValley(Seven).Ok?
    ensures var c := CalculatePeakValley(Seven).value;
              c[0] == 1 && c[1] == 0 && c[2] == 1 && c[3] == 0 && c[4] == 1 && c[5] == 0 && c[6] == 1
  {
    var c := CalculatePeakValley(Seven).value;
    assert c[1] == 0 && c[2] == 1 && c[3] == 0 && c[4] == 1 && c[5] == 0;
  }

  lemma SevenCodesAre(c: seq<int>)
    requires |c| == 7
    requires c[0] == 1 && c[1] == 0 && c[2] == 1 && c[3] == 0 && c[4] == 1 && c[5] == 0 && c[6] == 1
    ensures c == [1, 0, 1, 0, 1, 0, 1]
  {
  }

  lemma SevenRaw()
    ensures CalculatePeakValley(Seven) == Ok([1, 0, 1, 0, 1, 0, 1])
  {
    SevenRawCodes();
    SevenCodesAre(CalculatePeakValley(Seven).value);
  }

  lemma SevenRank()
    ensures Rank(Seven) == [2, 4, 6, 0, 5, 1, 3]
  {
    var r: seq<nat> := [2, 4, 6, 0, 5, 1, 3];
    forall x
      ensures x in r <==> 0 <= x < 7
    {
    }
    RankIs(Seven, r);
  }

  /** The highest peak (index 2) zeroes the first point on its way left,
      and is itself zeroed because the first point was a peak. */
  lemma SevenFirstScan()
    ensures ScanCandidate(Seven, 1.04, 1, 2, [1, 0, 1, 0, 1, 0, 1]) == Ok([0, 0, 0, 0, 1, 0, 1])
  {
    var c := [1, 0, 1, 0, 1, 0, 1];
    assert LeftScan(Seven, 1.04, 1, 2, 1, c) == LeftScan(Seven, 1.04, 1, 2, 0, c);
    assert ApplyRule(Seven, 2, 0, c, 1) == [0, 0, 1, 0, 1, 0, 1];
    assert [0, 0, 1, 0, 1, 0, 1][2 := 0] == [0, 0, 0, 0, 1, 0, 1];
    assert LeftScan(Seven, 1.04, 1, 2, 0, c) == Ok([0, 0, 0, 0, 1, 0, 1]);
    assert RightScan(Seven, 1.04, 2, 3, [0, 0, 0, 0, 1, 0, 1]) == Ok([0, 0, 0, 0, 1, 0, 1]);
  }

  /** The next peak (index 4) scans left down to the zeroed first point. */
  lemma SevenSecondScan()
    ensures ScanCandidate(Seven, 1.04, 1, 4, [0, 0, 0, 0, 1, 0, 1]) == Err(UnknownError)
  {
  }

  lemma SevenRefineFirst()
    ensures RefineFrom(Seven, 1.04, 1, [2, 4, 6, 0, 5, 1, 3], 0, [1, 0, 1, 0, 1, 0, 1])
         == RefineFrom(Seven, 1.04, 1, [2, 4, 6, 0, 5, 1, 3], 1, [0, 0, 0, 0, 1, 0, 1])
  {
    assert SnapshotMarksPeak(Seven, [1, 0, 1, 0, 1, 0, 1], 2);
    SevenFirstScan();
  }

  lemma SevenRefineSecond()
    ensures RefineFrom(Seven, 1.04, 1, [2, 4, 6, 0, 5, 1, 3], 1, [0, 0, 0, 0, 1, 0, 1]) == Err(UnknownError)
  {
    assert SnapshotMarksPeak(Seven, [0, 0, 0, 0, 1, 0, 1], 4);
    SevenSecondScan();
  }

  /** As written, `peak_finder` raises on a series of distinct values: the
      "end peaks were not set properly" error of line 280. */
  lemma AsWrittenRaisesUnknown()
    ensures PeakFinder(Seven, 0.8) == Err(UnknownError)
  {
    SevenThreshold();
    SevenRaw();
    SevenRank();
    SevenRefineFirst();
    SevenRefineSecond();
  }

  lemma FiveRange()
    ensures Max(Five) == 10.0 && Min(Five) == 1.0
  {
    MaxIs(Five, 2);
    MinIs(Five, 1);
  }

  lemma FiveThreshold()
    ensures MinJump(Five, 1.0) == 9.0
  {
    FiveRange();
  }

  lemma FiveRaw()
    ensures CalculatePeakValley(Five) == Ok([1, 0, 1, 0, 1])
  {
    var c := CalculatePeakValley(Five).value;
    assert c[1] == 0 && c[2] == 1 && c[3] == 0;
    assert c == [1, 0, 1, 0, 1];
  }

  lemma FiveRank()
    ensures Rank(Five) == [2, 0, 4, 3, 1]
  {
    var r: seq<nat> := [2, 0, 4, 3, 1];
    forall x
      ensures x in r <==> 0 <= x < 5
    {
    }
    RankIs(Five, r);
  }

  /** As written, the highest peak zeroes the first point and is then
      zeroed itself; the first point stays coded 0. */
  lemma FiveScanAsWritten()
    ensures ScanCandidate(Five, 9.0, 1, 2, [1, 0, 1, 0, 1]) == Ok([0, 0, 0, 0, 1])
  {
    var c := [1, 0, 1, 0, 1];
    assert LeftScan(Five, 9.0, 1, 2, 1, c) == LeftScan(Five, 9.0, 1, 2, 0, c);
    assert ApplyRule(Five, 2, 0, c, 1) == [0, 0, 1, 0, 1];
    assert [0, 0, 1, 0, 1][2 := 0] == [0, 0, 0, 0, 1];
    assert LeftScan(Five, 9.0, 1, 2, 0, c) == Ok([0, 0, 0, 0, 1]);
    assert [0, 0, 0, 0, 1][2 := 0] == [0, 0, 0, 0, 1];
    assert RightScan(Five, 9.0, 2, 4, [0, 0, 0, 0, 1]) == Ok([0, 0, 0, 0, 1]);
    assert RightScan(Five, 9.0, 2, 3, [0, 0, 0, 0, 1]) == RightScan(Five, 9.0, 2, 4, [0, 0, 0, 0, 1]);
  }

  /** Skipping the first point, only the highest peak is zeroed. */
  lemma FiveScanIntended()
    ensures ScanCandidate(Five, 9.0, 0, 2, [1, 0, 1, 0, 1]) == Ok([1, 0, 0, 0, 1])
  {
    var c := [1, 0, 1, 0, 1];
    assert LeftScan(Five, 9.0, 0, 2, 1, c) == LeftScan(Five, 9.0, 0, 2, 0, c);
    assert c[2 := 0] == [1, 0, 0, 0, 1];
    assert LeftScan(Five, 9.0, 0, 2, 0, c) == Ok([1, 0, 0, 0, 1]);
    assert [1, 0, 0, 0, 1][2 := 0] == [1, 0, 0, 0, 1];
    assert RightScan(Five, 9.0, 2, 4, [1, 0, 0, 0, 1]) == Ok([1, 0, 0, 0, 1]);
    assert RightScan(Five, 9.0, 2, 3, [1, 0, 0, 0, 1]) == RightScan(Five, 9.0, 2, 4, [1, 0, 0, 0, 1]);
  }

  /** The rest of the ranking only visits ends and points coded 0. */
  lemma FiveRefineRest(exempt: int, c: seq<int>)
    requires c == [0, 0, 0, 0, 1] || c == [1, 0, 0, 0, 1]
    ensures RefineFrom(Five, 9.0, exempt, [2, 0, 4, 3, 1], 1, c) == Ok(c)
  {
    var rank: seq<nat> := [2, 0, 4, 3, 1];
    assert !SnapshotMarksPeak(Five, c, 3);
    assert !SnapshotMarksPeak(Five, c, 1);
    assert RefineFrom(Five, 9.0, exempt, rank, 3, c) == Ok(c);
  }

  lemma FiveRefine(exempt: int)
    requires exempt == 0 || exempt == 1
    ensures RefineFrom(Five, 9.0, exempt, [2, 0, 4, 3, 1], 0, [1, 0, 1, 0, 1])
         == Ok(if exempt == 1 then [0, 0, 0, 0, 1] else [1, 0, 0, 0, 1])
  {
    assert SnapshotMarksPeak(Five, [1, 0, 1, 0, 1], 2);
    if exempt == 1 {
      FiveScanAsWritten();
      FiveRefineRest(1, [0, 0, 0, 0, 1]);
    } else {
      FiveScanIntended();
      FiveRefineRest(0, [1, 0, 0, 0, 1]);
    }
  }

  /** The valley pass over the two refined codings. */
  lemma FiveValleysAsWritten()
    ensures SetValleys(Five, [0, 0, 0, 0, 1]) == Ok([0, 0, 0, 0, 1])
  {
    FiveRange();
  }

  lemma FivePassIntended()
    ensures ValleysFrom(Five, 10.0, 0, [1, 0, 0, 0, 1], false, 10.0, None) == Ok([1, -1, 0, 0, 1])
  {
    var c := [1, 0, 0, 0, 1];
    assert ValleysFrom(Five, 10.0, 0, c, false, 10.0, None) == ValleysFrom(Five, 10.0, 1, c, true, 5.0, Some(0));
    assert ValleysFrom(Five, 10.0, 1, c, true, 5.0, Some(0)) == ValleysFrom(Five, 10.0, 2, c, true, 1.0, Some(1));
    assert ValleysFrom(Five, 10.0, 2, c, true, 1.0, Some(1)) == ValleysFrom(Five, 10.0, 4, c, true, 1.0, Some(1));
    assert c[1 := -1] == [1, -1, 0, 0, 1];
  }

  lemma FiveValleysIntended()
    ensures SetValleys(Five, [1, 0, 0, 0, 1]) == Ok([1, -1, 0, 0, 1])
  {
    FiveRange();
    FivePassIntended();
  }

  /** As written, the first point of this series ends up coded 0. */
  lemma AsWrittenZeroesStart()
    ensures PeakFinder(Five, 1.0) == Ok([0, 0, 0, 0, 1])
  {
    FiveThreshold();
    FiveRaw();
    FiveRank();
    FiveRefine(1);
    FiveValleysAsWritten();
  }

  /** Skipping the first point, the same series keeps its first peak, and the
      lowest point before the last peak becomes a valley. */
  lemma IntendedKeepsStart()
    ensures PeakFinderIntended(Five, 1.0) == Ok([1, -1, 0, 0, 1])
  {
    FiveThreshold();
    FiveRaw();
    FiveRank();
    FiveRefine(0);
    FiveValleysIntended();
  }

  /** A series opening with two equal values: both are raw peaks with no
      strictly lower point between them. */
  const Tied: seq<real> := [2.0, 2.0, 1.0, 2.0, 2.0]

  lemma TiedRange()
    ensures Max(Tied) == 2.0 && Min(Tied) == 1.0
  {
    MaxIs(Tied, 0);
    MinIs(Tied, 2);
  }

  lemma TiedRawCodes()
    ensures CalculatePeakValley(Tied).Ok?
    ensures var c := CalculatePeakValley(Tied).value;
              c[0] == 1 && c[1] == 1 && c[2] == 0 && c[3] == 0 && c[4] == -1
  {
    var c := CalculatePeakValley(Tied).value;
    assert c[1] == 1 && c[2] == 0 && c[3] == 0;
  }

  lemma TiedCodesAre(c: seq<int>)
    requires |c| == 5
    requires c[0] == 1 && c[1] == 1 && c[2] == 0 && c[3] == 0 && c[4] == -1
    ensures c == [1, 1, 0, 0, -1]
  {
  }

  lemma TiedRaw()
    ensures CalculatePeakValley(Tied) == Ok([1, 1, 0, 0, -1])
  {
    TiedRawCodes();
    TiedCodesAre(CalculatePeakValley(Tied).value);
  }

  /** Equal values are visited by descending index. */
  lemma TiedRank()
    ensures Rank(Tied) == [4, 3, 1, 0, 2]
  {
    var r: seq<nat> := [4, 3, 1, 0, 2];
    forall x
      ensures x in r <==> 0 <= x < 5
    {
    }
    RankIs(Tied, r);
  }

  lemma TiedScan(exempt: int)
    ensures ScanCandidate(Tied, 0.5, exempt, 3, [1, 1, 0, 0, -1]) == Ok([1, 1, 0, 0, -1])
  {
    var c := [1, 1, 0, 0, -1];
    assert LeftScan(Tied, 0.5, exempt, 3, 2, c) == Ok(c);
    assert RightScan(Tied, 0.5, 3, 4, c) == Ok(c);
  }

  /** The snapshot test sends the last point and index 3 (coded 0, but in
      the block of the value 2, which holds two points coded 1) to the
      scans; neither scan changes anything. */
  lemma TiedRefineScans(exempt: int)
    ensures RefineFrom(Tied, 0.5, exempt, [4, 3, 1, 0, 2], 0, [1, 1, 0, 0, -1])
         == RefineFrom(Tied, 0.5, exempt, [4, 3, 1, 0, 2], 2, [1, 1, 0, 0, -1])
  {
    var c := [1, 1, 0, 0, -1];
    var rank: seq<nat> := [4, 3, 1, 0, 2];
    assert SnapshotMarksPeak(Tied, c, 4);
    assert RefineFrom(Tied, 0.5, exempt, rank, 0, c) == RefineFrom(Tied, 0.5, exempt, rank, 1, c);
    assert SnapshotMarksPeak(Tied, c, 3);
    TiedScan(exempt);
  }

  /** The other three points fail the snapshot test. */
  lemma TiedRefineRest(exempt: int)
    ensures RefineFrom(Tied, 0.5, exempt, [4, 3, 1, 0, 2], 2, [1, 1, 0, 0, -1]) == Ok([1, 1, 0, 0, -1])
  {
    var c := [1, 1, 0, 0, -1];
    assert !SnapshotMarksPeak(Tied, c, 1);
    assert !SnapshotMarksPeak(Tied, c, 0);
    assert !SnapshotMarksPeak(Tied, c, 2);
  }

  lemma TiedRefine(exempt: int)
    ensures RefineFrom(Tied, 0.5, exempt, [4, 3, 1, 0, 2], 0, [1, 1, 0, 0, -1]) == Ok([1, 1, 0, 0, -1])
  {
    TiedRefineScans(exempt);
    TiedRefineRest(exempt);
  }

  lemma TiedFirstPeak()
    ensures ValleysFrom(Tied, 2.0, 0, [1, 1, 0, 0, -1], false, 2.0, None)
         == ValleysFrom(Tied, 2.0, 1, [1, 1, 0, 0, -1], true, 2.0, None)
  {
  }

  /** The second peak commits a low point the pass never recorded: nothing
      after the first peak is below the maximum. */
  lemma TiedValleys()
    ensures SetValleys(Tied, [1, 1, 0, 0, -1]) == Err(ValleyPositionUnset)
  {
    TiedRange();
    TiedFirstPeak();
  }

  /** `peak_finder` raises on this series whichever index the left rule
      skips: the unbound low point read at line 365. */
  lemma TiedStartUnset()
    ensures PeakFinder(Tied, 0.5) == Err(ValleyPositionUnset)
    ensures PeakFinderIntended(Tied, 0.5) == Err(ValleyPositionUnset)
  {
    TiedUnsetAsWritten();
    TiedUnsetIntended();
  }

  lemma TiedUnsetAsWritten()
    ensures PeakFinder(Tied, 0.5) == Err(ValleyPositionUnset)
  {
    TiedRange();
    TiedRaw();
    TiedRank();
    TiedRefine(AsWrittenExempt);
    TiedValleys();
  }

  lemma TiedUnsetIntended()
    ensures PeakFinderIntended(Tied, 0.5) == Err(ValleyPositionUnset)
  {
    TiedRange();
    TiedRawIntended();
    TiedRank();
    TiedRefine(IntendedExempt);
    TiedValleys();
  }

  /** The corrected detector also examines index 3, a rise that does not
      fall, so the codes are the same. */
  lemma TiedRawIntended()
    ensures CalculatePeakValleyTo(Tied, true) == Ok([1, 1, 0, 0, -1])
  {
    var c := CalculatePeakValleyTo(Tied, true).value;
    assert c[1] == 1 && c[2] == 0 && c[3] == 0;
    assert c == [1, 1, 0, 0, -1];
  }

  /** A series with one level step: as written, the valley at index 2 is as
      high as the peak at index 3, so a valley need not lie strictly below
      the surviving peaks around it when neighbouring values repeat. */
  const Ridge: seq<real> := [0.0, 3.0, 2.0, 2.0, 1.0, 0.0]

  lemma RidgeMax()
    ensures Max(Ridge) == 3.0
  {
    MaxIs(Ridge, 1);
  }

  lemma RidgeMin()
    ensures Min(Ridge) == 0.0
  {
    MinIs(Ridge, 0);
  }

  lemma RidgeRange()
    ensures Max(Ridge) == 3.0 && Min(Ridge) == 0.0
  {
    RidgeMax();
    RidgeMin();
  }

  lemma RidgeThreshold()
    ensures MinJump(Ridge, 0.1) == 0.3
  {
    RidgeRange();
  }

  lemma RidgeRaw()
    ensures CalculatePeakValley(Ridge) == Ok([-1, 1, 0, 1, 0, -1])
  {
    var c := CalculatePeakValley(Ridge).value;
    assert c[1] == 1 && c[2] == 0 && c[3] == 1 && c[4] == 0;
    assert c == [-1, 1, 0, 1, 0, -1];
  }

  /** The level pair is visited by descending index. */
  lemma RidgeRank()
    ensures Rank(Ridge) == [1, 3, 2, 4, 5, 0]
  {
    var r: seq<nat> := [1, 3, 2, 4, 5, 0];
    forall x
      ensures x in r <==> 0 <= x < 6
    {
    }
    RankIs(Ridge, r);
  }

  /** Both peaks drop by more than the threshold before anything higher. */
  lemma RidgeScans()
    ensures ScanCandidate(Ridge, 0.3, 1, 1, [-1, 1, 0, 1, 0, -1]) == Ok([-1, 1, 0, 1, 0, -1])
    ensures ScanCandidate(Ridge, 0.3, 1, 3, [-1, 1, 0, 1, 0, -1]) == Ok([-1, 1, 0, 1, 0, -1])
  {
    var c := [-1, 1, 0, 1, 0, -1];
    assert LeftScan(Ridge, 0.3, 1, 1, 0, c) == Ok(c);
    assert RightScan(Ridge, 0.3, 1, 2, c) == Ok(c);
    assert LeftScan(Ridge, 0.3, 1, 3, 2, c) == Ok(c);
    assert RightScan(Ridge, 0.3, 3, 4, c) == Ok(c);
  }

  /** The two peaks lead the ranking; each passes the snapshot test and
      its scans change nothing. */
  lemma RidgeRefineFirst()
    ensures RefineFrom(Ridge, 0.3, 1, [1, 3, 2, 4, 5, 0], 0, [-1, 1, 0, 1, 0, -1])
         == RefineFrom(Ridge, 0.3, 1, [1, 3, 2, 4, 5, 0], 1, [-1, 1, 0, 1, 0, -1])
  {
    RidgeScans();
    assert SnapshotMarksPeak(Ridge, [-1, 1, 0, 1, 0, -1], 1);
  }

  lemma RidgeRefineSecond()
    ensures RefineFrom(Ridge, 0.3, 1, [1, 3, 2, 4, 5, 0], 1, [-1, 1, 0, 1, 0, -1])
         == RefineFrom(Ridge, 0.3, 1, [1, 3, 2, 4, 5, 0], 2, [-1, 1, 0, 1, 0, -1])
  {
    RidgeScans();
    assert SnapshotMarksPeak(Ridge, [-1, 1, 0, 1, 0, -1], 3);
  }

  /** The other four points fail the snapshot test. */
  lemma RidgeRefineRest()
    ensures RefineFrom(Ridge, 0.3, 1, [1, 3, 2, 4, 5, 0], 2, [-1, 1, 0, 1, 0, -1]) == Ok([-1, 1, 0, 1, 0, -1])
  {
    var c := [-1, 1, 0, 1, 0, -1];
    assert !SnapshotMarksPeak(Ridge, c, 2);
    assert !SnapshotMarksPeak(Ridge, c, 4);
    assert !SnapshotMarksPeak(Ridge, c, 5);
    assert !SnapshotMarksPeak(Ridge, c, 0);
  }

  lemma RidgeRefine()
    ensures RefineFrom(Ridge, 0.3, 1, [1, 3, 2, 4, 5, 0], 0, [-1, 1, 0, 1, 0, -1]) == Ok([-1, 1, 0, 1, 0, -1])
  {
    RidgeRefineFirst();
    RidgeRefineSecond();
    RidgeRefineRest();
  }

  lemma RidgePass()
    ensures ValleysFrom(Ridge, 3.0, 0, [-1, 1, 0, 1, 0, -1], false, 3.0, None) == Ok([-1, 1, -1, 1, 0, -1])
  {
    var c := [-1, 1, 0, 1, 0, -1];
    assert ValleysFrom(Ridge, 3.0, 0, c, false, 3.0, None) == ValleysFrom(Ridge, 3.0, 2, c, true, 3.0, None);
    assert ValleysFrom(Ridge, 3.0, 2, c, true, 3.0, None) == ValleysFrom(Ridge, 3.0, 4, c[2 := -1], true, 2.0, Some(3));
    assert c[2 := -1] == [-1, 1, -1, 1, 0, -1];
  }

  /** As written, `peak_finder` keeps both peaks and marks index 2, level
      with the peak at index 3, as the valley between them. */
  lemma LevelValleyMeetsPeak()
    ensures PeakFinder(Ridge, 0.1) == Ok([-1, 1, -1, 1, 0, -1])
    ensures Ridge[2] == Ridge[3]
  {
    RidgeRange();
    RidgeThreshold();
    RidgeRaw();
    RidgeRank();
    RidgeRefine();
    RidgePass();
  }

  /** One turn of the main loop over a series of distinct values: a point
      not coded 1 is passed over, one coded 1 continues from its scan. */
  lemma DistinctStep(y: seq<real>, minJump: real, exempt: int, rank: seq<nat>, i: nat, c: seq<int>, c': seq<int>)
    requires |c| == |y| >= 2 && i < |rank|
    requires forall k :: 0 <= k < |rank| ==> rank[k] < |y|
    requires ValidCodes(c) && InteriorBinary(c) && Distinct(y)
    requires if c[rank[i]] == 1 then ScanCandidate(y, minJump, exempt, rank[i], c) == Ok(c') else c' == c
    ensures RefineFrom(y, minJump, exempt, rank, i, c) == RefineFrom(y, minJump, exempt, rank, i + 1, c')
  {
    RefineStepDistinct(y, minJump, exempt, rank, i, c);
  }

  /** A series whose highest point sits at index N-2: the as-written loop
      never examines it (line 152). */
  const Climb: seq<real> := [0.0, 5.0, 4.0, 6.0, 7.0, 8.0, 9.0, 8.9]

  /** Its visiting order, highest value first. */
  const ClimbOrder: seq<nat> := [6, 7, 5, 4, 3, 1, 2, 0]

  /** The raw codes as written: the highest point is missed ... */
  const ClimbMissed: seq<int> := [-1, 1, 0, 0, 0, 0, 0, -1]

  /** ... and corrected: it is found. */
  const ClimbFound: seq<int> := [-1, 1, 0, 0, 0, 0, 1, -1]

  /** The corrected output, the valley between the two peaks marked. */
  const ClimbMarked: seq<int> := [-1, 1, -1, 0, 0, 0, 1, -1]

  lemma ClimbMax()
    ensures Max(Climb) == 9.0
  {
    MaxIs(Climb, 6);
  }

  lemma ClimbMin()
    ensures Min(Climb) == 0.0
  {
    MinIs(Climb, 0);
  }

  lemma ClimbThreshold()
    ensures MinJump(Climb, 0.1) == 0.9
  {
    ClimbMax();
    ClimbMin();
  }

  lemma ClimbDistinct()
    ensures Distinct(Climb)
  {
  }

  lemma ClimbCodesAre(c: seq<int>, top: int)
    requires |c| == 8 && c[0] == -1 && c[1] == 1 && c[2] == 0 && c[3] == 0 && c[7] == -1
    requires c[4] == 0 && c[5] == 0 && c[6] == top
    ensures c == [-1, 1, 0, 0, 0, 0, top, -1]
  {
  }

  lemma ClimbRawAsWritten()
    ensures CalculatePeakValleyTo(Climb, false) == Ok([-1, 1, 0, 0, 0, 0, 0, -1])
  {
    ClimbRawAsWrittenLow();
    ClimbRawAsWrittenHigh();
    ClimbCodesAre(CalculatePeakValleyTo(Climb, false).value, 0);
  }

  lemma ClimbRawAsWrittenLow()
    ensures CalculatePeakValleyTo(Climb, false).Ok?
    ensures var c := CalculatePeakValleyTo(Climb, false).value;
              |c| == 8 && c[0] == -1 && c[1] == 1 && c[2] == 0 && c[3] == 0 && c[7] == -1
  {
    var c := CalculatePeakValleyTo(Climb, false).value;
    assert c[1] == 1;
    assert c[2] == 0;
    assert c[3] == 0;
  }

  lemma ClimbRawAsWrittenHigh()
    ensures CalculatePeakValleyTo(Climb, false).Ok?
    ensures var c := CalculatePeakValleyTo(Climb, false).value;
              |c| == 8 && c[4] == 0 && c[5] == 0 && c[6] == 0
  {
    var c := CalculatePeakValleyTo(Climb, false).value;
    assert c[4] == 0;
    assert c[5] == 0;
    assert c[6] == 0;
  }

  lemma ClimbRawIntended()
    ensures CalculatePeakValleyTo(Climb, true) == Ok([-1, 1, 0, 0, 0, 0, 1, -1])
  {
    ClimbRawIntendedLow();
    ClimbRawIntendedHigh();
    ClimbCodesAre(CalculatePeakValleyTo(Climb, true).value, 1);
  }

  lemma ClimbRawIntendedLow()
    ensures CalculatePeakValleyTo(Climb, true).Ok?
    ensures var c := CalculatePeakValleyTo(Climb, true).value;
              |c| == 8 && c[0] == -1 && c[1] == 1 && c[2] == 0 && c[3] == 0 && c[7] == -1
  {
    var c := CalculatePeakValleyTo(Climb, true).value;
    assert c[1] == 1;
    assert c[2] == 0;
    assert c[3] == 0;
  }

  lemma ClimbRawIntendedHigh()
    ensures CalculatePeakValleyTo(Climb, true).Ok?
    ensures var c := CalculatePeakValleyTo(Climb, true).value;
              |c| == 8 && c[4] == 0 && c[5] == 0 && c[6] == 1
  {
    var c := CalculatePeakValleyTo(Climb, true).value;
    assert c[4] == 0;
    assert c[5] == 0;
    assert c[6] == 1;
  }

  lemma ClimbRank()
    ensures Rank(Climb) == ClimbOrder
  {
    forall x
      ensures x in ClimbOrder <==> 0 <= x < 8
    {
    }
    RankIs(Climb, ClimbOrder);
  }

  /** The early peak drops by more than the threshold on both sides before
      anything higher; as written its scan changes nothing ... */
  lemma ClimbScanAsWritten()
    ensures ScanCandidate(Climb, 0.9, 1, 1, ClimbMissed) == Ok(ClimbMissed)
  {
    assert LeftScan(Climb, 0.9, 1, 1, 0, ClimbMissed) == Ok(ClimbMissed);
    assert RightScan(Climb, 0.9, 1, 2, ClimbMissed) == Ok(ClimbMissed);
  }

  /** ... nor does it corrected ... */
  lemma ClimbScanEarly()
    ensures ScanCandidate(Climb, 0.9, 0, 1, ClimbFound) == Ok(ClimbFound)
  {
    assert LeftScan(Climb, 0.9, 0, 1, 0, ClimbFound) == Ok(ClimbFound);
    assert RightScan(Climb, 0.9, 1, 2, ClimbFound) == Ok(ClimbFound);
  }

  /** ... and the highest point, once it is found, is never demoted. */
  lemma ClimbScanTop()
    ensures ScanCandidate(Climb, 0.9, 0, 6, ClimbFound) == Ok(ClimbFound)
  {
    assert LeftScan(Climb, 0.9, 0, 6, 5, ClimbFound) == Ok(ClimbFound);
    assert RightScan(Climb, 0.9, 6, 7, ClimbFound) == Ok(ClimbFound);
  }

  /** As written, the first five ranks are not coded 1. */
  lemma ClimbRefineAsWrittenHead()
    ensures RefineFrom(Climb, 0.9, 1, ClimbOrder, 0, ClimbMissed)
         == RefineFrom(Climb, 0.9, 1, ClimbOrder, 3, ClimbMissed)
  {
    var c := ClimbMissed;
    ClimbDistinct();
    assert ValidCodes(c) && InteriorBinary(c);
    RefineStepDistinct(Climb, 0.9, 1, ClimbOrder, 0, c);
    RefineStepDistinct(Climb, 0.9, 1, ClimbOrder, 1, c);
    RefineStepDistinct(Climb, 0.9, 1, ClimbOrder, 2, c);
  }

  lemma ClimbRefineAsWrittenNext()
    ensures RefineFrom(Climb, 0.9, 1, ClimbOrder, 3, ClimbMissed)
         == RefineFrom(Climb, 0.9, 1, ClimbOrder, 5, ClimbMissed)
  {
    var c := ClimbMissed;
    ClimbDistinct();
    assert ValidCodes(c) && InteriorBinary(c);
    RefineStepDistinct(Climb, 0.9, 1, ClimbOrder, 3, c);
    RefineStepDistinct(Climb, 0.9, 1, ClimbOrder, 4, c);
  }

  /** Then the peak at index 1 is scanned unchanged ... */
  lemma ClimbRefineAsWrittenScan()
    ensures RefineFrom(Climb, 0.9, 1, ClimbOrder, 5, ClimbMissed)
         == RefineFrom(Climb, 0.9, 1, ClimbOrder, 6, ClimbMissed)
  {
    var c := ClimbMissed;
    ClimbDistinct();
    ClimbScanAsWritten();
    assert ValidCodes(c) && InteriorBinary(c);
    DistinctStep(Climb, 0.9, 1, ClimbOrder, 5, c, c);
  }

  /** ... and nothing after it is coded 1. */
  lemma ClimbRefineAsWrittenRest()
    ensures RefineFrom(Climb, 0.9, 1, ClimbOrder, 6, ClimbMissed) == Ok(ClimbMissed)
  {
    var c := ClimbMissed;
    ClimbDistinct();
    assert ValidCodes(c) && InteriorBinary(c);
    RefineRestUnmarked(Climb, 0.9, 1, ClimbOrder, 6, c);
  }

  /** Corrected, the highest point leads the ranking and its scans change
      nothing. */
  lemma ClimbRefineIntendedFirst()
    ensures RefineFrom(Climb, 0.9, 0, ClimbOrder, 0, ClimbFound)
         == RefineFrom(Climb, 0.9, 0, ClimbOrder, 1, ClimbFound)
  {
    var c := ClimbFound;
    ClimbDistinct();
    ClimbScanTop();
    assert ValidCodes(c) && InteriorBinary(c);
    DistinctStep(Climb, 0.9, 0, ClimbOrder, 0, c, c);
  }

  /** The next four ranks are not coded 1. */
  lemma ClimbRefineIntendedSecond()
    ensures RefineFrom(Climb, 0.9, 0, ClimbOrder, 1, ClimbFound)
         == RefineFrom(Climb, 0.9, 0, ClimbOrder, 3, ClimbFound)
  {
    var c := ClimbFound;
    ClimbDistinct();
    assert ValidCodes(c) && InteriorBinary(c);
    RefineStepDistinct(Climb, 0.9, 0, ClimbOrder, 1, c);
    RefineStepDistinct(Climb, 0.9, 0, ClimbOrder, 2, c);
  }

  lemma ClimbRefineIntendedThird()
    ensures RefineFrom(Climb, 0.9, 0, ClimbOrder, 3, ClimbFound)
         == RefineFrom(Climb, 0.9, 0, ClimbOrder, 5, ClimbFound)
  {
    var c := ClimbFound;
    ClimbDistinct();
    assert ValidCodes(c) && InteriorBinary(c);
    RefineStepDistinct(Climb, 0.9, 0, ClimbOrder, 3, c);
    RefineStepDistinct(Climb, 0.9, 0, ClimbOrder, 4, c);
  }

  /** Then the peak at index 1 is scanned unchanged ... */
  lemma ClimbRefineIntendedScan()
    ensures RefineFrom(Climb, 0.9, 0, ClimbOrder, 5, ClimbFound)
         == RefineFrom(Climb, 0.9, 0, ClimbOrder, 6, ClimbFound)
  {
    var c := ClimbFound;
    ClimbDistinct();
    ClimbScanEarly();
    assert ValidCodes(c) && InteriorBinary(c);
    DistinctStep(Climb, 0.9, 0, ClimbOrder, 5, c, c);
  }

  /** ... and nothing after it is coded 1. */
  lemma ClimbRefineIntendedRest()
    ensures RefineFrom(Climb, 0.9, 0, ClimbOrder, 6, ClimbFound) == Ok(ClimbFound)
  {
    var c := ClimbFound;
    ClimbDistinct();
    assert ValidCodes(c) && InteriorBinary(c);
    RefineRestUnmarked(Climb, 0.9, 0, ClimbOrder, 6, c);
  }

  lemma ClimbRefinedAsWritten()
    ensures Refine(Climb, 0.1, 1, false) == Ok(ClimbMissed)
  {
    ClimbThreshold();
    ClimbRawAsWritten();
    ClimbRank();
    ClimbRefineAsWrittenHead();
    ClimbRefineAsWrittenNext();
    ClimbRefineAsWrittenScan();
    ClimbRefineAsWrittenRest();
  }

  lemma ClimbRefinedIntended()
    ensures Refine(Climb, 0.1, 0, true) == Ok(ClimbFound)
  {
    ClimbThreshold();
    ClimbRawIntended();
    ClimbRank();
    ClimbRefineIntendedFirst();
    ClimbRefineIntendedSecond();
    ClimbRefineIntendedThird();
    ClimbRefineIntendedScan();
    ClimbRefineIntendedRest();
  }

  /** With one peak there is no pair of peaks to mark a valley between. */
  lemma ClimbValleysAsWritten()
    ensures SetValleys(Climb, ClimbMissed) == Ok(ClimbMissed)
  {
    ClimbMax();
    ClimbValleysAsWrittenHead();
    ClimbValleysAsWrittenTail();
  }

  /** Past the peak the pass tracks the lowest point, 4.0 at index 2 ... */
  lemma ClimbValleysAsWrittenHead()
    ensures ValleysFrom(Climb, 9.0, 0, ClimbMissed, false, 9.0, None)
         == ValleysFrom(Climb, 9.0, 4, ClimbMissed, true, 4.0, Some(2))
  {
    var c := ClimbMissed;
    assert ValleysFrom(Climb, 9.0, 0, c, false, 9.0, None) == ValleysFrom(Climb, 9.0, 2, c, true, 5.0, Some(1));
  }

  /** ... and meets no second peak to mark it against. */
  lemma ClimbValleysAsWrittenTail()
    ensures ValleysFrom(Climb, 9.0, 4, ClimbMissed, true, 4.0, Some(2)) == Ok(ClimbMissed)
  {
    var c := ClimbMissed;
    assert ValleysFrom(Climb, 9.0, 4, c, true, 4.0, Some(2)) == ValleysFrom(Climb, 9.0, 6, c, true, 4.0, Some(2));
  }

  /** With the peak at index 6 found, the lowest point between the two peaks
      becomes a valley. */
  lemma ClimbValleysIntended()
    ensures SetValleys(Climb, ClimbFound) == Ok(ClimbMarked)
  {
    var c := ClimbFound;
    ClimbMax();
    ClimbValleysIntendedHead();
    ClimbValleysIntendedTail();
  }

  /** At the second peak the lowest point is marked; the last point after
      it closes no further pair. */
  lemma ClimbValleysIntendedTail()
    ensures ValleysFrom(Climb, 9.0, 6, ClimbFound, true, 4.0, Some(2)) == Ok(ClimbMarked)
  {
    var c := ClimbFound;
    var c' := ClimbMarked;
    assert c[2 := -1] == c';
    assert ValleysFrom(Climb, 9.0, 6, c, true, 4.0, Some(2)) == ValleysFrom(Climb, 9.0, 7, c', true, 9.0, Some(2));
    assert ValleysFrom(Climb, 9.0, 7, c', true, 9.0, Some(2)) == ValleysFrom(Climb, 9.0, 8, c', true, 8.9, Some(7));
  }

  /** Up to the second peak the pass only tracks the lowest point, 4.0 at index 2. */
  lemma ClimbValleysIntendedHead()
    ensures ValleysFrom(Climb, 9.0, 0, ClimbFound, false, 9.0, None)
         == ValleysFrom(Climb, 9.0, 6, ClimbFound, true, 4.0, Some(2))
  {
    var c := ClimbFound;
    assert ValleysFrom(Climb, 9.0, 0, c, false, 9.0, None) == ValleysFrom(Climb, 9.0, 2, c, true, 5.0, Some(1));
    assert ValleysFrom(Climb, 9.0, 2, c, true, 5.0, Some(1)) == ValleysFrom(Climb, 9.0, 4, c, true, 4.0, Some(2));
  }

  /** As written, the highest point, a rise-then-fall at index N-2, is
      never a peak: the only peak left is 5.0, and the last point, 8.9,
      stays a valley above it. */
  lemma LastTurnMissed()
    ensures PeakFinder(Climb, 0.1) == Ok([-1, 1, 0, 0, 0, 0, 0, -1])
    ensures Climb[5] <= Climb[6] && Climb[7] < Climb[6] && Climb[7] > Climb[1]
  {
    ClimbRefinedAsWritten();
    ClimbValleysAsWritten();
  }

  /** With every interior point examined, the highest point is a surviving
      peak and the valley between the two peaks is marked. */
  lemma IntendedFindsLastTurn()
    ensures PeakFinderIntended(Climb, 0.1) == Ok([-1, 1, -1, 0, 0, 0, 1, -1])
  {
    ClimbRefinedIntended();
    ClimbValleysIntended();
  }

  /** A series whose last point is a valley above the only surviving peak,
      under both rules. */
  const Steep: seq<real> := [5.0, 4.0, 10.0, 9.0]

  /** Its visiting order, highest value first. */
  const SteepOrder: seq<nat> := [2, 3, 0, 1]

  /** The corrected raw codes, with the peak at index 2 found ... */
  const SteepFound: seq<int> := [1, 0, 1, -1]

  /** ... and the codes both variants end with. */
  const SteepKept: seq<int> := [1, 0, 0, -1]

  lemma SteepMax()
    ensures Max(Steep) == 10.0
  {
    MaxIs(Steep, 2);
  }

  lemma SteepMin()
    ensures Min(Steep) == 4.0
  {
    MinIs(Steep, 1);
  }

  lemma SteepThreshold()
    ensures MinJump(Steep, 1.0) == 6.0
  {
    SteepMax();
    SteepMin();
  }

  lemma SteepRaw()
    ensures CalculatePeakValleyTo(Steep, false) == Ok([1, 0, 0, -1])
    ensures CalculatePeakValleyTo(Steep, true) == Ok([1, 0, 1, -1])
  {
    var c := CalculatePeakValleyTo(Steep, false).value;
    assert c[1] == 0 && c[2] == 0;
    assert c == [1, 0, 0, -1];
    var d := CalculatePeakValleyTo(Steep, true).value;
    assert d[1] == 0 && d[2] == 1;
    assert d == [1, 0, 1, -1];
  }

  lemma SteepRank()
    ensures Rank(Steep) == SteepOrder
  {
    forall x
      ensures x in SteepOrder <==> 0 <= x < 4
    {
    }
    RankIs(Steep, SteepOrder);
  }

  /** Found, the peak at index 2 walks left to the first point, coded 1,
      without ever dropping by more than the threshold, and is demoted. */
  lemma SteepScan()
    ensures ScanCandidate(Steep, 6.0, 0, 2, SteepFound) == Ok(SteepKept)
  {
    assert LeftScan(Steep, 6.0, 0, 2, 1, SteepFound) == LeftScan(Steep, 6.0, 0, 2, 0, SteepFound);
    assert SteepFound[2 := 0] == SteepKept;
    assert LeftScan(Steep, 6.0, 0, 2, 0, SteepFound) == Ok(SteepKept);
    assert RightScan(Steep, 6.0, 2, 3, SteepKept) == Ok(SteepKept);
  }

  /** Once index 2 is not coded 1, the loop meets only the first point, an
      end whose scan changes nothing. */
  lemma SteepRefineRest(exempt: int)
    ensures RefineFrom(Steep, 6.0, exempt, SteepOrder, 1, SteepKept) == Ok(SteepKept)
  {
    var c := SteepKept;
    assert Distinct(Steep);
    assert ValidCodes(c) && InteriorBinary(c);
    RefineStepDistinct(Steep, 6.0, exempt, SteepOrder, 1, c);
    DistinctStep(Steep, 6.0, exempt, SteepOrder, 2, c, c);
    RefineRestUnmarked(Steep, 6.0, exempt, SteepOrder, 3, c);
  }

  /** As written, index 2 is never coded 1 and the loop changes nothing. */
  lemma SteepRefineAsWritten()
    ensures RefineFrom(Steep, 6.0, 1, SteepOrder, 0, SteepKept) == Ok(SteepKept)
  {
    var c := SteepKept;
    assert Distinct(Steep);
    assert ValidCodes(c) && InteriorBinary(c);
    RefineStepDistinct(Steep, 6.0, 1, SteepOrder, 0, c);
    SteepRefineRest(1);
  }

  /** Corrected, index 2 is scanned first and demoted. */
  lemma SteepRefineIntended()
    ensures RefineFrom(Steep, 6.0, 0, SteepOrder, 0, SteepFound) == Ok(SteepKept)
  {
    var c := SteepFound;
    assert Distinct(Steep);
    assert ValidCodes(c) && InteriorBinary(c);
    SteepScan();
    DistinctStep(Steep, 6.0, 0, SteepOrder, 0, c, SteepKept);
    SteepRefineRest(0);
  }

  lemma SteepValleys()
    ensures SetValleys(Steep, SteepKept) == Ok(SteepKept)
  {
    SteepMax();
    assert ValleysFrom(Steep, 10.0, 0, SteepKept, false, 10.0, None) == ValleysFrom(Steep, 10.0, 1, SteepKept, true, 5.0, Some(0));
  }

  /** With distinct values and no level step, the last point, a valley, is
      higher than the only surviving peak, whichever rules apply: the height
      property holds only for valleys between two peaks. */
  lemma EndValleyAbovePeak()
    ensures PeakFinder(Steep, 1.0) == Ok([1, 0, 0, -1])
    ensures PeakFinderIntended(Steep, 1.0) == Ok([1, 0, 0, -1])
    ensures Steep[3] > Steep[0]
  {
    SteepThreshold();
    SteepRaw();
    SteepRank();
    SteepRefineAsWritten();
    SteepRefineIntended();
    SteepValleys();
  }

  /** A series on which, as written, a larger sensitivity keeps more peaks. */
  const Wobble: seq<real> := [1.0, 0.0, 3.0, 2.0, 6.0, 4.0, 5.0]

  /** Its visiting order, highest value first. */
  const WobbleRank: seq<nat> := [4, 6, 5, 2, 3, 0, 1]

  /** The raw codes, under either detector: peaks at 0, 2, 4 and 6. */
  const WobbleRaw: seq<int> := [1, 0, 1, 0, 1, 0, 1]

  /** The codes once the highest point, 6.0, has been demoted by its right scan. */
  const TallDemoted: seq<int> := [1, 0, 1, 0, 0, 0, 1]

  /** Only the two end peaks are left ... */
  const EndsOnly: seq<int> := [1, 0, 0, 0, 0, 0, 1]

  /** ... or only the last one. */
  const LastOnly: seq<int> := [0, 0, 0, 0, 0, 0, 1]

  /** Two end peaks with the valley between them marked. */
  const EndsMarked: seq<int> := [1, -1, 0, 0, 0, 0, 1]

  lemma WobbleMax()
    ensures Max(Wobble) == 6.0
  {
    MaxIs(Wobble, 4);
  }

  lemma WobbleMin()
    ensures Min(Wobble) == 0.0
  {
    MinIs(Wobble, 1);
  }

  lemma WobbleThresholds()
    ensures MinJump(Wobble, 0.65) == 3.9 && MinJump(Wobble, 0.7) == 4.2
  {
    WobbleMax();
    WobbleMin();
  }

  lemma WobbleRawAsWritten()
    ensures CalculatePeakValleyTo(Wobble, false) == Ok(WobbleRaw)
  {
    var c := CalculatePeakValleyTo(Wobble, false).value;
    assert c[1] == 0 && c[2] == 1 && c[3] == 0 && c[4] == 1 && c[5] == 0;
    assert c == WobbleRaw;
  }

  lemma WobbleRawIntended()
    ensures CalculatePeakValleyTo(Wobble, true) == Ok(WobbleRaw)
  {
    var c := CalculatePeakValleyTo(Wobble, true).value;
    assert c[1] == 0 && c[2] == 1 && c[3] == 0 && c[4] == 1 && c[5] == 0;
    assert c == WobbleRaw;
  }

  lemma WobbleRanking()
    ensures Rank(Wobble) == WobbleRank
  {
    forall x
      ensures x in WobbleRank <==> 0 <= x < 7
    {
    }
    RankIs(Wobble, WobbleRank);
  }

  /** At threshold 3.9 the highest point's left scan stops at once (6.0 - 2.0
      > 3.9), so the peak at 2 survives it; the right scan reaches the last
      point, coded 1, and demotes the candidate. */
  lemma TallScanNarrow(exempt: int)
    requires 0 <= exempt <= 1
    ensures ScanCandidate(Wobble, 3.9, exempt, 4, WobbleRaw) == Ok(TallDemoted)
  {
    assert LeftScan(Wobble, 3.9, exempt, 4, 3, WobbleRaw) == Ok(WobbleRaw);
    assert RightScan(Wobble, 3.9, 4, 5, WobbleRaw) == RightScan(Wobble, 3.9, 4, 6, WobbleRaw);
    assert WobbleRaw[4 := 0] == TallDemoted;
  }

  /** At threshold 4.2 the left scan goes on to index 2 and zeroes the lower
      peak there before it stops at index 1. */
  lemma TallScanWide(exempt: int)
    requires 0 <= exempt <= 1
    ensures ScanCandidate(Wobble, 4.2, exempt, 4, WobbleRaw) == Ok(EndsOnly)
  {
    var c := [1, 0, 0, 0, 1, 0, 1];
    assert LeftScan(Wobble, 4.2, exempt, 4, 3, WobbleRaw) == LeftScan(Wobble, 4.2, exempt, 4, 2, WobbleRaw);
    assert ApplyRule(Wobble, 4, 2, WobbleRaw, exempt) == c;
    assert LeftScan(Wobble, 4.2, exempt, 4, 2, WobbleRaw) == LeftScan(Wobble, 4.2, exempt, 4, 1, c);
    assert LeftScan(Wobble, 4.2, exempt, 4, 1, c) == Ok(c);
    assert RightScan(Wobble, 4.2, 4, 5, c) == RightScan(Wobble, 4.2, 4, 6, c);
    assert c[4 := 0] == EndsOnly;
  }

  /** The right scan of the peak at 2 walks to the last point, coded 1, and
      demotes it (it is 0 already in both uses). */
  lemma SecondScanRight(c: seq<int>)
    requires c == LastOnly || c == EndsOnly
    ensures RightScan(Wobble, 3.9, 2, 3, c) == Ok(c)
  {
    assert RightScan(Wobble, 3.9, 2, 3, c) == RightScan(Wobble, 3.9, 2, 4, c);
    assert RightScan(Wobble, 3.9, 2, 4, c) == RightScan(Wobble, 3.9, 2, 5, c);
    assert RightScan(Wobble, 3.9, 2, 5, c) == RightScan(Wobble, 3.9, 2, 6, c);
    assert c[2 := 0] == c;
  }

  /** As written, the peak at 2 reaches index 0 with the left rule still
      applying there: it zeroes the first point (line 264) and then, at the
      boundary, demotes itself. */
  lemma SecondScanAsWritten()
    ensures ScanCandidate(Wobble, 3.9, 1, 2, TallDemoted) == Ok(LastOnly)
  {
    assert LeftScan(Wobble, 3.9, 1, 2, 1, TallDemoted) == LeftScan(Wobble, 3.9, 1, 2, 0, TallDemoted);
    assert ApplyRule(Wobble, 2, 0, TallDemoted, 1) == [0, 0, 1, 0, 0, 0, 1];
    assert [0, 0, 1, 0, 0, 0, 1][2 := 0] == LastOnly;
    assert LeftScan(Wobble, 3.9, 1, 2, 0, TallDemoted) == Ok(LastOnly);
    SecondScanRight(LastOnly);
  }

  /** Corrected, index 0 is exempt: the peak at 2 is demoted and the first
      point survives. */
  lemma SecondScanIntended()
    ensures ScanCandidate(Wobble, 3.9, 0, 2, TallDemoted) == Ok(EndsOnly)
  {
    assert LeftScan(Wobble, 3.9, 0, 2, 1, TallDemoted) == LeftScan(Wobble, 3.9, 0, 2, 0, TallDemoted);
    assert TallDemoted[2 := 0] == EndsOnly;
    assert LeftScan(Wobble, 3.9, 0, 2, 0, TallDemoted) == Ok(EndsOnly);
    SecondScanRight(EndsOnly);
  }

  /** At threshold 3.9 the highest point is scanned and demoted ... */
  lemma NarrowRefineFirst(exempt: int)
    requires 0 <= exempt <= 1
    ensures RefineFrom(Wobble, 3.9, exempt, WobbleRank, 0, WobbleRaw)
         == RefineFrom(Wobble, 3.9, exempt, WobbleRank, 1, TallDemoted)
  {
    assert Distinct(Wobble);
    assert ValidCodes(WobbleRaw) && InteriorBinary(WobbleRaw);
    TallScanNarrow(exempt);
    DistinctStep(Wobble, 3.9, exempt, WobbleRank, 0, WobbleRaw, TallDemoted);
  }

  /** ... the last point is an end and is skipped, and index 5 is no peak. */
  lemma NarrowRefineNext(exempt: int)
    ensures RefineFrom(Wobble, 3.9, exempt, WobbleRank, 1, TallDemoted)
         == RefineFrom(Wobble, 3.9, exempt, WobbleRank, 3, TallDemoted)
  {
    assert Distinct(Wobble);
    assert ValidCodes(TallDemoted) && InteriorBinary(TallDemoted);
    DistinctStep(Wobble, 3.9, exempt, WobbleRank, 1, TallDemoted, TallDemoted);
    RefineStepDistinct(Wobble, 3.9, exempt, WobbleRank, 2, TallDemoted);
  }

  /** As written, the peak at 2 takes the first point down with it ... */
  lemma NarrowRefineAsWritten()
    ensures RefineFrom(Wobble, 3.9, 1, WobbleRank, 3, TallDemoted)
         == RefineFrom(Wobble, 3.9, 1, WobbleRank, 4, LastOnly)
  {
    assert Distinct(Wobble);
    assert ValidCodes(TallDemoted) && InteriorBinary(TallDemoted);
    SecondScanAsWritten();
    DistinctStep(Wobble, 3.9, 1, WobbleRank, 3, TallDemoted, LastOnly);
  }

  /** ... and nothing after it is coded 1. */
  lemma LastOnlyRest()
    ensures RefineFrom(Wobble, 3.9, 1, WobbleRank, 4, LastOnly) == Ok(LastOnly)
  {
    assert Distinct(Wobble);
    assert ValidCodes(LastOnly) && InteriorBinary(LastOnly);
    RefineRestUnmarked(Wobble, 3.9, 1, WobbleRank, 4, LastOnly);
  }

  /** Corrected, only the peak at 2 goes; the first point is an end and is
      skipped. */
  lemma NarrowRefineIntended()
    ensures RefineFrom(Wobble, 3.9, 0, WobbleRank, 3, TallDemoted)
         == RefineFrom(Wobble, 3.9, 0, WobbleRank, 4, EndsOnly)
  {
    assert Distinct(Wobble);
    assert ValidCodes(TallDemoted) && InteriorBinary(TallDemoted);
    SecondScanIntended();
    DistinctStep(Wobble, 3.9, 0, WobbleRank, 3, TallDemoted, EndsOnly);
  }

  /** Once only the two ends are coded 1, the rest of the loop from rank
      position i on changes nothing: both ends are skipped. */
  lemma EndsOnlyRest(minJump: real, exempt: int, i: nat)
    requires 1 <= i <= 5
    ensures RefineFrom(Wobble, minJump, exempt, WobbleRank, i, EndsOnly) == Ok(EndsOnly)
    decreases 5 - i
  {
    assert Distinct(Wobble);
    assert ValidCodes(EndsOnly) && InteriorBinary(EndsOnly);
    DistinctStep(Wobble, minJump, exempt, WobbleRank, i, EndsOnly, EndsOnly);
    if i < 5 {
      EndsOnlyRest(minJump, exempt, i + 1);
    } else {
      RefineRestUnmarked(Wobble, minJump, exempt, WobbleRank, 6, EndsOnly);
    }
  }

  /** At threshold 4.2, under either rule: the highest point zeroes the peak
      at 2 and is demoted itself, leaving the two ends. */
  lemma WideRefine(exempt: int)
    requires 0 <= exempt <= 1
    ensures RefineFrom(Wobble, 4.2, exempt, WobbleRank, 0, WobbleRaw)
         == RefineFrom(Wobble, 4.2, exempt, WobbleRank, 1, EndsOnly)
  {
    assert Distinct(Wobble);
    assert ValidCodes(WobbleRaw) && InteriorBinary(WobbleRaw);
    TallScanWide(exempt);
    DistinctStep(Wobble, 4.2, exempt, WobbleRank, 0, WobbleRaw, EndsOnly);
  }

  /** A lone peak closes no pair: nothing becomes a valley. */
  lemma LastOnlyValleys()
    ensures SetValleys(Wobble, LastOnly) == Ok(LastOnly)
  {
    WobbleMax();
    LastOnlyPass();
    assert ValleysFrom(Wobble, 6.0, 6, LastOnly, false, 0.0, Some(1)) == ValleysFrom(Wobble, 6.0, 7, LastOnly, true, 5.0, Some(6));
  }

  /** Before the only peak the pass just tracks the low point. */
  lemma LastOnlyPass()
    ensures ValleysFrom(Wobble, 6.0, 0, LastOnly, false, 6.0, None) == ValleysFrom(Wobble, 6.0, 6, LastOnly, false, 0.0, Some(1))
  {
    assert ValleysFrom(Wobble, 6.0, 0, LastOnly, false, 6.0, None) == ValleysFrom(Wobble, 6.0, 2, LastOnly, false, 0.0, Some(1));
    assert ValleysFrom(Wobble, 6.0, 2, LastOnly, false, 0.0, Some(1)) == ValleysFrom(Wobble, 6.0, 4, LastOnly, false, 0.0, Some(1));
  }

  /** Between the two end peaks, the lowest point, index 1, becomes the valley. */
  lemma EndsOnlyValleys()
    ensures SetValleys(Wobble, EndsOnly) == Ok(EndsMarked)
  {
    WobbleMax();
    EndsOnlyPass();
    EndsOnlyClose();
  }

  /** From the first peak on, the pass tracks the low point 0.0 at index 1 ... */
  lemma EndsOnlyPass()
    ensures ValleysFrom(Wobble, 6.0, 0, EndsOnly, false, 6.0, None) == ValleysFrom(Wobble, 6.0, 6, EndsOnly, true, 0.0, Some(1))
  {
    assert ValleysFrom(Wobble, 6.0, 0, EndsOnly, false, 6.0, None) == ValleysFrom(Wobble, 6.0, 1, EndsOnly, true, 1.0, Some(0));
    assert ValleysFrom(Wobble, 6.0, 1, EndsOnly, true, 1.0, Some(0)) == ValleysFrom(Wobble, 6.0, 2, EndsOnly, true, 0.0, Some(1));
    assert ValleysFrom(Wobble, 6.0, 2, EndsOnly, true, 0.0, Some(1)) == ValleysFrom(Wobble, 6.0, 4, EndsOnly, true, 0.0, Some(1));
  }

  /** ... and marks it at the second peak. */
  lemma EndsOnlyClose()
    ensures ValleysFrom(Wobble, 6.0, 6, EndsOnly, true, 0.0, Some(1)) == Ok(EndsMarked)
  {
    assert EndsOnly[1 := -1] == EndsMarked;
    assert ValleysFrom(Wobble, 6.0, 6, EndsOnly, true, 0.0, Some(1)) == ValleysFrom(Wobble, 6.0, 7, EndsMarked, true, 5.0, Some(6));
  }

  /** As written, a smaller sensitivity, which should keep at least as many
      peaks, keeps fewer: at 0.65 only the last point is a peak, at 0.7 both
      ends are. At 0.65 the peak at 2 zeroes the first point through the
      line-262 rule before it is demoted itself; at 0.7 the highest point
      zeroes the peak at 2 first. */
  lemma SensitivityNotMonotone()
    ensures PeakFinder(Wobble, 0.65) == Ok([0, 0, 0, 0, 0, 0, 1])
    ensures PeakFinder(Wobble, 0.7) == Ok([1, -1, 0, 0, 0, 0, 1])
  {
    NarrowAsWritten();
    WideAsWritten();
  }

  lemma NarrowAsWritten()
    ensures PeakFinder(Wobble, 0.65) == Ok(LastOnly)
  {
    WobbleThresholds();
    WobbleRawAsWritten();
    WobbleRanking();
    NarrowRefineFirst(1);
    NarrowRefineNext(1);
    NarrowRefineAsWritten();
    LastOnlyRest();
    LastOnlyValleys();
  }

  lemma WideAsWritten()
    ensures PeakFinder(Wobble, 0.7) == Ok(EndsMarked)
  {
    WobbleThresholds();
    WobbleRawAsWritten();
    WobbleRanking();
    WideRefine(1);
    EndsOnlyRest(4.2, 1, 1);
    EndsOnlyValleys();
  }

  /** Corrected, both sensitivities give the same two end peaks. */
  lemma IntendedSensitivityAgrees()
    ensures PeakFinderIntended(Wobble, 0.65) == Ok([1, -1, 0, 0, 0, 0, 1])
    ensures PeakFinderIntended(Wobble, 0.7) == Ok([1, -1, 0, 0, 0, 0, 1])
  {
    NarrowIntended();
    WideIntended();
  }

  lemma NarrowIntended()
    ensures PeakFinderIntended(Wobble, 0.65) == Ok(EndsMarked)
  {
    WobbleThresholds();
    WobbleRawIntended();
    WobbleRanking();
    NarrowRefineFirst(0);
    NarrowRefineNext(0);
    NarrowRefineIntended();
    EndsOnlyRest(3.9, 0, 4);
    EndsOnlyValleys();
  }

  lemma WideIntended()
    ensures PeakFinderIntended(Wobble, 0.7) == Ok(EndsMarked)
  {
    WobbleThresholds();
    WobbleRawIntended();
    WobbleRanking();
    WideRefine(0);
    EndsOnlyRest(4.2, 0, 1);
    EndsOnlyValleys();
  }
}
