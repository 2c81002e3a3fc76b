/** The source's own test vectors (`metricmakertest.py`), restated as facts
    about the model. The series values are taken as exact decimals. */
module Scenarios {
  import opened Results
  import opened ListOps
  import opened RawExtrema
  import opened Scans
  import opened Refiner
  import opened Valleys
  import opened PeakValley

  /** The time course used by the detector tests. */
  const TimeCourse: seq<real> :=
    [1.2672097275, 1.590688972, 1.686169412, 0.668113898, 0.454789704667,
     0.577257919667, 0.747457979667, 1.04653912833, 1.50108848933, 1.58878468067,
     2.12204150567, 1.92499022267, 2.41681636767]

  // ---------------------------------------------------------------- helpers

  lemma DiffExample()
    ensures Diff([1.2, 2.5, 0.4, 1.0, 2.0]) == [1.3, -2.1, 0.6, 1.0]
  {
    var d := Diff([1.2, 2.5, 0.4, 1.0, 2.0]);
    assert d[0] == 1.3 && d[1] == -2.1 && d[2] == 0.6 && d[3] == 1.0;
  }

  /** The index half of the first `sort` test vector. */
  lemma SortExampleIndex()
    ensures Sort([1.0, 5.0, 3.0, 2.0, 7.0, 8.0, 1.0, 2.0]).1 == [0, 6, 3, 7, 2, 1, 4, 5]
  {
    var data := [1.0, 5.0, 3.0, 2.0, 7.0, 8.0, 1.0, 2.0];
    var idx: seq<nat> := [0, 6, 3, 7, 2, 1, 4, 5];
    forall x
      ensures x in idx <==> 0 <= x < |data|
    {
    }
    SortExampleKeySorted(data, idx);
    SortIndexIsUnique(data, idx);
  }

  /** The expected index list reads the data in (value, index) order. */
  lemma SortExampleKeySorted(data: seq<real>, idx: seq<nat>)
    requires data == [1.0, 5.0, 3.0, 2.0, 7.0, 8.0, 1.0, 2.0]
    requires idx == [0, 6, 3, 7, 2, 1, 4, 5]
    ensures KeySorted(data, idx)
  {
    var v := [1.0, 1.0, 2.0, 2.0, 3.0, 5.0, 7.0, 8.0];
    assert forall k :: 0 <= k < 8 ==> data[idx[k]] == v[k];
  }

  lemma SortExample()
    ensures Sort([1.0, 5.0, 3.0, 2.0, 7.0, 8.0, 1.0, 2.0])
         == ([1.0, 1.0, 2.0, 2.0, 3.0, 5.0, 7.0, 8.0], [0, 6, 3, 7, 2, 1, 4, 5])
  {
    SortExampleIndex();
    var r := Sort([1.0, 5.0, 3.0, 2.0, 7.0, 8.0, 1.0, 2.0]);
    assert r.0 == [1.0, 1.0, 2.0, 2.0, 3.0, 5.0, 7.0, 8.0];
  }

  lemma SortAllEqual()
    ensures Sort([1.0, 1.0, 1.0, 1.0, 1.0, 1.0]) == ([1.0, 1.0, 1.0, 1.0, 1.0, 1.0], [0, 1, 2, 3, 4, 5])
  {
    var data := [1.0, 1.0, 1.0, 1.0, 1.0, 1.0];
    var idx: seq<nat> := [0, 1, 2, 3, 4, 5];
    forall x
      ensures x in idx <==> 0 <= x < |data|
    {
    }
    SortIndexIsUnique(data, idx);
    var r := Sort(data);
    assert r.0 == data;
  }

  lemma FindExample()
    ensures Find([1, 0, 1, 0, -1, 0, -1, 0, 1, -1], 1) == [0, 2, 8]
  {
    var a := [1, 0, 1, 0, -1, 0, -1, 0, 1, -1];
    FindExampleTail(a);
    assert FindFrom(a, 1, 2) == [2, 8];
    assert FindFrom(a, 1, 1) == [2, 8];
    assert FindFrom(a, 1, 0) == [0, 2, 8];
  }

  /** From index 3 on, only index 8 holds a 1. */
  lemma FindExampleTail(a: seq<int>)
    requires a == [1, 0, 1, 0, -1, 0, -1, 0, 1, -1]
    ensures FindFrom(a, 1, 3) == [8]
  {
    assert FindFrom(a, 1, 9) == [];
    assert FindFrom(a, 1, 8) == [8];
    assert FindFrom(a, 1, 7) == [8];
    assert FindFrom(a, 1, 6) == [8];
    assert FindFrom(a, 1, 5) == [8];
    assert FindFrom(a, 1, 4) == [8];
    assert FindFrom(a, 1, 3) == [8];
  }

  // ---------------------------------------------------------------- raw codes

  /** Points 0 to 6 of the raw codes. */
  lemma TimeCourseRawFirst()
    ensures CalculatePeakValley(TimeCourse).Ok?
    ensures var c := CalculatePeakValley(TimeCourse).value;
              c[0] == -1 && c[1] == 0 && c[2] == 1 && c[3] == 0 && c[4] == 0 && c[5] == 0 && c[6] == 0
  {
    var c := CalculatePeakValley(TimeCourse).value;
    assert c[1] == 0 && c[2] == 1 && c[3] == 0 && c[4] == 0 && c[5] == 0 && c[6] == 0;
  }

  /** Points 7 to 12 of the raw codes. */
  lemma TimeCourseRawSecond()
    ensures CalculatePeakValley(TimeCourse).Ok?
    ensures var c := CalculatePeakValley(TimeCourse).value;
              c[7] == 0 && c[8] == 0 && c[9] == 0 && c[10] == 1 && c[11] == 0 && c[12] == 1
  {
    var c := CalculatePeakValley(TimeCourse).value;
    assert c[7] == 0 && c[8] == 0 && c[9] == 0 && c[10] == 1 && c[11] == 0;
  }

  lemma RawCodesAre(c: seq<int>)
    requires |c| == 13
    requires c[0] == -1 && c[1] == 0 && c[2] == 1 && c[3] == 0 && c[4] == 0 && c[5] == 0 && c[6] == 0
    requires c[7] == 0 && c[8] == 0 && c[9] == 0 && c[10] == 1 && c[11] == 0 && c[12] == 1
    ensures c == [-1, 0, 1, 0, 0, 0, 0, 0, 0, 0, 1, 0, 1]
  {
  }

  lemma TimeCourseRaw()
    ensures CalculatePeakValley(TimeCourse) == Ok([-1, 0, 1, 0, 0, 0, 0, 0, 0, 0, 1, 0, 1])
  {
    TimeCourseRawFirst();
    TimeCourseRawSecond();
    RawCodesAre(CalculatePeakValley(TimeCourse).value);
  }

  // ---------------------------------------------------------------- peak_finder

  lemma TimeCourseMax()
    ensures Max(TimeCourse) == 2.41681636767
  {
    MaxIs(TimeCourse, 12);
  }

  lemma TimeCourseMin()
    ensures Min(TimeCourse) == 0.454789704667
  {
    var y := TimeCourse;
    assert forall i :: 0 <= i < |y| ==> y[4] <= y[i];
    MinIs(y, 4);
  }

  lemma TimeCourseRank()
    ensures Rank(TimeCourse) == [12, 10, 11, 2, 1, 9, 8, 0, 7, 6, 3, 5, 4]
  {
    var r: seq<nat> := [12, 10, 11, 2, 1, 9, 8, 0, 7, 6, 3, 5, 4];
    forall x
      ensures x in r <==> 0 <= x < 13
    {
    }
    RankIs(TimeCourse, r);
  }

  lemma TimeCourseDistinct()
    ensures Distinct(TimeCourse)
  {
  }

  /** The visiting order of the time course, highest value first. */
  const Ranking: seq<nat> := [12, 10, 11, 2, 1, 9, 8, 0, 7, 6, 3, 5, 4]

  /** The raw codes of the time course: peaks at 2, 10 and the last point. */
  const RawCodes: seq<int> := [-1, 0, 1, 0, 0, 0, 0, 0, 0, 0, 1, 0, 1]

  /** The raw codes with the peak at 10 demoted ... */
  const LateDropped: seq<int> := [-1, 0, 1, 0, 0, 0, 0, 0, 0, 0, 0, 0, 1]

  /** ... with the peak at 2 demoted ... */
  const EarlyDropped: seq<int> := [-1, 0, 0, 0, 0, 0, 0, 0, 0, 0, 1, 0, 1]

  /** ... and with both demoted. */
  const BothDropped: seq<int> := [-1, 0, 0, 0, 0, 0, 0, 0, 0, 0, 0, 0, 1]

  /** One turn of the main loop over the time course at a point not coded 1. */
  lemma StepPassed(minJump: real, exempt: int, i: nat, c: seq<int>)
    requires i < 13 && |c| == 13 && ValidCodes(c) && InteriorBinary(c)
    requires c[Ranking[i]] != 1
    ensures RefineFrom(TimeCourse, minJump, exempt, Ranking, i, c)
         == RefineFrom(TimeCourse, minJump, exempt, Ranking, i + 1, c)
  {
    TimeCourseDistinct();
    RefineStepDistinct(TimeCourse, minJump, exempt, Ranking, i, c);
  }

  /** One turn of the main loop over the time course at a point coded 1. */
  lemma StepScanned(minJump: real, exempt: int, i: nat, p: nat, c: seq<int>, c': seq<int>)
    requires i < 13 && |c| == 13 && ValidCodes(c) && InteriorBinary(c)
    requires Ranking[i] == p && c[p] == 1
    requires ScanCandidate(TimeCourse, minJump, exempt, p, c) == Ok(c')
    ensures RefineFrom(TimeCourse, minJump, exempt, Ranking, i, c)
         == RefineFrom(TimeCourse, minJump, exempt, Ranking, i + 1, c')
  {
    TimeCourseDistinct();
    RefineStepDistinct(TimeCourse, minJump, exempt, Ranking, i, c);
  }

  lemma ThresholdTenth()
    ensures MinJump(TimeCourse, 0.1) == 0.1962026663003
  {
    TimeCourseMax();
    TimeCourseMin();
  }

  lemma TenthScan10()
    ensures ScanCandidate(TimeCourse, 0.1962026663003, 1, 10, RawCodes) == Ok(RawCodes)
  {
    assert LeftScan(TimeCourse, 0.1962026663003, 1, 10, 9, RawCodes) == Ok(RawCodes);
    assert RightScan(TimeCourse, 0.1962026663003, 10, 11, RawCodes) == Ok(RawCodes);
  }

  lemma TenthScan2()
    ensures ScanCandidate(TimeCourse, 0.1962026663003, 1, 2, RawCodes) == Ok(RawCodes)
  {
    assert LeftScan(TimeCourse, 0.1962026663003, 1, 2, 1, RawCodes) == LeftScan(TimeCourse, 0.1962026663003, 1, 2, 0, RawCodes);
    assert LeftScan(TimeCourse, 0.1962026663003, 1, 2, 0, RawCodes) == Ok(RawCodes);
    assert RightScan(TimeCourse, 0.1962026663003, 2, 3, RawCodes) == Ok(RawCodes);
  }

  lemma TenthRefineStep0()
    ensures RefineFrom(TimeCourse, 0.1962026663003, 1, Ranking, 0, RawCodes)
         == RefineFrom(TimeCourse, 0.1962026663003, 1, Ranking, 1, RawCodes)
  {
    var c := RawCodes;
    assert ValidCodes(c) && InteriorBinary(c);
    StepScanned(0.1962026663003, 1, 0, 12, c, RawCodes);
  }

  lemma TenthRefineStep1()
    ensures RefineFrom(TimeCourse, 0.1962026663003, 1, Ranking, 1, RawCodes)
         == RefineFrom(TimeCourse, 0.1962026663003, 1, Ranking, 2, RawCodes)
  {
    var c := RawCodes;
    assert ValidCodes(c) && InteriorBinary(c);
    TenthScan10();
    StepScanned(0.1962026663003, 1, 1, 10, c, RawCodes);
  }

  lemma TenthRefineStep2()
    ensures RefineFrom(TimeCourse, 0.1962026663003, 1, Ranking, 2, RawCodes)
         == RefineFrom(TimeCourse, 0.1962026663003, 1, Ranking, 3, RawCodes)
  {
    StepPassed(0.1962026663003, 1, 2, RawCodes);
  }

  lemma TenthRefineStep3()
    ensures RefineFrom(TimeCourse, 0.1962026663003, 1, Ranking, 3, RawCodes)
         == RefineFrom(TimeCourse, 0.1962026663003, 1, Ranking, 4, RawCodes)
  {
    var c := RawCodes;
    assert ValidCodes(c) && InteriorBinary(c);
    TenthScan2();
    StepScanned(0.1962026663003, 1, 3, 2, c, RawCodes);
  }

  lemma TenthRefineRest()
    ensures RefineFrom(TimeCourse, 0.1962026663003, 1, Ranking, 4, RawCodes) == Ok(RawCodes)
  {
    TimeCourseDistinct();
    RefineRestUnmarked(TimeCourse, 0.1962026663003, 1, Ranking, 4, RawCodes);
  }

  lemma TenthRefine()
    ensures RefineFrom(TimeCourse, 0.1962026663003, 1, Rank(TimeCourse), 0, RawCodes) == Ok(RawCodes)
  {
    TimeCourseRank();
    TenthRefineStep0();
    TenthRefineStep1();
    TenthRefineStep2();
    TenthRefineStep3();
    TenthRefineRest();
  }

  /** The valley pass, three indices at a time: the pass state on
      reaching index 3, 6, 9, 12 and the end of the series. */
  lemma TenthPassTo3()
    ensures ValleysFrom(TimeCourse, 2.41681636767, 0, RawCodes, false, 2.41681636767, None) == ValleysFrom(TimeCourse, 2.41681636767, 3, RawCodes, true, 1.686169412, Some(2))
  {
    assert ValleysFrom(TimeCourse, 2.41681636767, 0, RawCodes, false, 2.41681636767, None) == ValleysFrom(TimeCourse, 2.41681636767, 1, RawCodes, false, 1.2672097275, Some(0));
    assert ValleysFrom(TimeCourse, 2.41681636767, 1, RawCodes, false, 1.2672097275, Some(0)) == ValleysFrom(TimeCourse, 2.41681636767, 2, RawCodes, false, 1.2672097275, Some(0));
    assert ValleysFrom(TimeCourse, 2.41681636767, 2, RawCodes, false, 1.2672097275, Some(0)) == ValleysFrom(TimeCourse, 2.41681636767, 3, RawCodes, true, 1.686169412, Some(2));
  }

  lemma TenthPassTo6()
    ensures ValleysFrom(TimeCourse, 2.41681636767, 3, RawCodes, true, 1.686169412, Some(2)) == ValleysFrom(TimeCourse, 2.41681636767, 6, RawCodes, true, 0.454789704667, Some(4))
  {
    assert ValleysFrom(TimeCourse, 2.41681636767, 3, RawCodes, true, 1.686169412, Some(2)) == ValleysFrom(TimeCourse, 2.41681636767, 4, RawCodes, true, 0.668113898, Some(3));
    assert ValleysFrom(TimeCourse, 2.41681636767, 4, RawCodes, true, 0.668113898, Some(3)) == ValleysFrom(TimeCourse, 2.41681636767, 5, RawCodes, true, 0.454789704667, Some(4));
    assert ValleysFrom(TimeCourse, 2.41681636767, 5, RawCodes, true, 0.454789704667, Some(4)) == ValleysFrom(TimeCourse, 2.41681636767, 6, RawCodes, true, 0.454789704667, Some(4));
  }

  lemma TenthPassTo9()
    ensures ValleysFrom(TimeCourse, 2.41681636767, 6, RawCodes, true, 0.454789704667, Some(4)) == ValleysFrom(TimeCourse, 2.41681636767, 9, RawCodes, true, 0.454789704667, Some(4))
  {
    assert ValleysFrom(TimeCourse, 2.41681636767, 6, RawCodes, true, 0.454789704667, Some(4)) == ValleysFrom(TimeCourse, 2.41681636767, 7, RawCodes, true, 0.454789704667, Some(4));
    assert ValleysFrom(TimeCourse, 2.41681636767, 7, RawCodes, true, 0.454789704667, Some(4)) == ValleysFrom(TimeCourse, 2.41681636767, 8, RawCodes, true, 0.454789704667, Some(4));
    assert ValleysFrom(TimeCourse, 2.41681636767, 8, RawCodes, true, 0.454789704667, Some(4)) == ValleysFrom(TimeCourse, 2.41681636767, 9, RawCodes, true, 0.454789704667, Some(4));
  }

  lemma TenthPassTo12()
    ensures ValleysFrom(TimeCourse, 2.41681636767, 9, RawCodes, true, 0.454789704667, Some(4)) == ValleysFrom(TimeCourse, 2.41681636767, 12, [-1, 0, 1, 0, -1, 0, 0, 0, 0, 0, 1, 0, 1], true, 1.92499022267, Some(11))
  {
    assert ValleysFrom(TimeCourse, 2.41681636767, 9, RawCodes, true, 0.454789704667, Some(4)) == ValleysFrom(TimeCourse, 2.41681636767, 10, RawCodes, true, 0.454789704667, Some(4));
    assert RawCodes[4 := -1] == [-1, 0, 1, 0, -1, 0, 0, 0, 0, 0, 1, 0, 1];
    assert ValleysFrom(TimeCourse, 2.41681636767, 10, RawCodes, true, 0.454789704667, Some(4)) == ValleysFrom(TimeCourse, 2.41681636767, 11, [-1, 0, 1, 0, -1, 0, 0, 0, 0, 0, 1, 0, 1], true, 2.12204150567, Some(10));
    assert ValleysFrom(TimeCourse, 2.41681636767, 11, [-1, 0, 1, 0, -1, 0, 0, 0, 0, 0, 1, 0, 1], true, 2.12204150567, Some(10)) == ValleysFrom(TimeCourse, 2.41681636767, 12, [-1, 0, 1, 0, -1, 0, 0, 0, 0, 0, 1, 0, 1], true, 1.92499022267, Some(11));
  }

  lemma TenthPassToEnd()
    ensures ValleysFrom(TimeCourse, 2.41681636767, 12, [-1, 0, 1, 0, -1, 0, 0, 0, 0, 0, 1, 0, 1], true, 1.92499022267, Some(11)) == ValleysFrom(TimeCourse, 2.41681636767, 13, [-1, 0, 1, 0, -1, 0, 0, 0, 0, 0, 1, -1, 1], true, 2.41681636767, Some(11))
  {
    assert [-1, 0, 1, 0, -1, 0, 0, 0, 0, 0, 1, 0, 1][11 := -1] == [-1, 0, 1, 0, -1, 0, 0, 0, 0, 0, 1, -1, 1];
    assert ValleysFrom(TimeCourse, 2.41681636767, 12, [-1, 0, 1, 0, -1, 0, 0, 0, 0, 0, 1, 0, 1], true, 1.92499022267, Some(11)) == ValleysFrom(TimeCourse, 2.41681636767, 13, [-1, 0, 1, 0, -1, 0, 0, 0, 0, 0, 1, -1, 1], true, 2.41681636767, Some(11));
  }

  lemma TenthValleys()
    ensures SetValleys(TimeCourse, RawCodes) == Ok([-1, 0, 1, 0, -1, 0, 0, 0, 0, 0, 1, -1, 1])
  {
    TimeCourseMax();
    TenthPassTo3();
    TenthPassTo6();
    TenthPassTo9();
    TenthPassTo12();
    TenthPassToEnd();
  }

  lemma PeakFinderAtTenth()
    ensures PeakFinder(TimeCourse, 0.1) == Ok([-1, 0, 1, 0, -1, 0, 0, 0, 0, 0, 1, -1, 1])
  {
    ThresholdTenth();
    TimeCourseRaw();
    TenthRefine();
    TenthValleys();
  }

  lemma ThresholdHalf()
    ensures MinJump(TimeCourse, 0.5) == 0.9810133315015
  {
    TimeCourseMax();
    TimeCourseMin();
  }

  /** The scans of index 10: the left scan stops at index 7, the right
      scan demotes the candidate at the last point. */
  lemma HalfScan10Left()
    ensures LeftScan(TimeCourse, 0.9810133315015, 1, 10, 9, RawCodes) == Ok(RawCodes)
  {
    assert LeftScan(TimeCourse, 0.9810133315015, 1, 10, 9, RawCodes) == LeftScan(TimeCourse, 0.9810133315015, 1, 10, 8, RawCodes);
    assert LeftScan(TimeCourse, 0.9810133315015, 1, 10, 8, RawCodes) == LeftScan(TimeCourse, 0.9810133315015, 1, 10, 7, RawCodes);
    assert LeftScan(TimeCourse, 0.9810133315015, 1, 10, 7, RawCodes) == Ok(RawCodes);
  }

  lemma HalfScan10Right()
    ensures RightScan(TimeCourse, 0.9810133315015, 10, 11, RawCodes) == Ok(LateDropped)
  {
    assert RightScan(TimeCourse, 0.9810133315015, 10, 11, RawCodes) == RightScan(TimeCourse, 0.9810133315015, 10, 12, RawCodes);
    assert RawCodes[10 := 0] == LateDropped;
    assert RightScan(TimeCourse, 0.9810133315015, 10, 12, RawCodes) == Ok(LateDropped);
  }

  lemma HalfScan10()
    ensures ScanCandidate(TimeCourse, 0.9810133315015, 1, 10, RawCodes) == Ok(LateDropped)
  {
    HalfScan10Left();
    HalfScan10Right();
  }

  lemma HalfScan2()
    ensures ScanCandidate(TimeCourse, 0.9810133315015, 1, 2, LateDropped) == Ok(LateDropped)
  {
    assert LeftScan(TimeCourse, 0.9810133315015, 1, 2, 1, LateDropped) == LeftScan(TimeCourse, 0.9810133315015, 1, 2, 0, LateDropped);
    assert LeftScan(TimeCourse, 0.9810133315015, 1, 2, 0, LateDropped) == Ok(LateDropped);
    assert RightScan(TimeCourse, 0.9810133315015, 2, 3, LateDropped) == Ok(LateDropped);
  }

  lemma HalfRefineStep0()
    ensures RefineFrom(TimeCourse, 0.9810133315015, 1, Ranking, 0, RawCodes)
         == RefineFrom(TimeCourse, 0.9810133315015, 1, Ranking, 1, RawCodes)
  {
    var c := RawCodes;
    assert ValidCodes(c) && InteriorBinary(c);
    StepScanned(0.9810133315015, 1, 0, 12, c, RawCodes);
  }

  lemma HalfRefineStep1()
    ensures RefineFrom(TimeCourse, 0.9810133315015, 1, Ranking, 1, RawCodes)
         == RefineFrom(TimeCourse, 0.9810133315015, 1, Ranking, 2, LateDropped)
  {
    var c := RawCodes;
    assert ValidCodes(c) && InteriorBinary(c);
    HalfScan10();
    StepScanned(0.9810133315015, 1, 1, 10, c, LateDropped);
  }

  lemma HalfRefineStep2()
    ensures RefineFrom(TimeCourse, 0.9810133315015, 1, Ranking, 2, LateDropped)
         == RefineFrom(TimeCourse, 0.9810133315015, 1, Ranking, 3, LateDropped)
  {
    StepPassed(0.9810133315015, 1, 2, LateDropped);
  }

  lemma HalfRefineStep3()
    ensures RefineFrom(TimeCourse, 0.9810133315015, 1, Ranking, 3, LateDropped)
         == RefineFrom(TimeCourse, 0.9810133315015, 1, Ranking, 4, LateDropped)
  {
    var c := LateDropped;
    assert ValidCodes(c) && InteriorBinary(c);
    HalfScan2();
    StepScanned(0.9810133315015, 1, 3, 2, c, LateDropped);
  }

  lemma HalfRefineRest()
    ensures RefineFrom(TimeCourse, 0.9810133315015, 1, Ranking, 4, LateDropped) == Ok(LateDropped)
  {
    TimeCourseDistinct();
    RefineRestUnmarked(TimeCourse, 0.9810133315015, 1, Ranking, 4, LateDropped);
  }

  lemma HalfRefine()
    ensures RefineFrom(TimeCourse, 0.9810133315015, 1, Rank(TimeCourse), 0, RawCodes) == Ok(LateDropped)
  {
    TimeCourseRank();
    HalfRefineStep0();
    HalfRefineStep1();
    HalfRefineStep2();
    HalfRefineStep3();
    HalfRefineRest();
  }

  /** The valley pass, three indices at a time: the pass state on
      reaching index 3, 6, 9, 12 and the end of the series. */
  lemma HalfPassTo3()
    ensures ValleysFrom(TimeCourse, 2.41681636767, 0, LateDropped, false, 2.41681636767, None) == ValleysFrom(TimeCourse, 2.41681636767, 3, LateDropped, true, 1.686169412, Some(2))
  {
    assert ValleysFrom(TimeCourse, 2.41681636767, 0, LateDropped, false, 2.41681636767, None) == ValleysFrom(TimeCourse, 2.41681636767, 1, LateDropped, false, 1.2672097275, Some(0));
    assert ValleysFrom(TimeCourse, 2.41681636767, 1, LateDropped, false, 1.2672097275, Some(0)) == ValleysFrom(TimeCourse, 2.41681636767, 2, LateDropped, false, 1.2672097275, Some(0));
    assert ValleysFrom(TimeCourse, 2.41681636767, 2, LateDropped, false, 1.2672097275, Some(0)) == ValleysFrom(TimeCourse, 2.41681636767, 3, LateDropped, true, 1.686169412, Some(2));
  }

  lemma HalfPassTo6()
    ensures ValleysFrom(TimeCourse, 2.41681636767, 3, LateDropped, true, 1.686169412, Some(2)) == ValleysFrom(TimeCourse, 2.41681636767, 6, LateDropped, true, 0.454789704667, Some(4))
  {
    assert ValleysFrom(TimeCourse, 2.41681636767, 3, LateDropped, true, 1.686169412, Some(2)) == ValleysFrom(TimeCourse, 2.41681636767, 4, LateDropped, true, 0.668113898, Some(3));
    assert ValleysFrom(TimeCourse, 2.41681636767, 4, LateDropped, true, 0.668113898, Some(3)) == ValleysFrom(TimeCourse, 2.41681636767, 5, LateDropped, true, 0.454789704667, Some(4));
    assert ValleysFrom(TimeCourse, 2.41681636767, 5, LateDropped, true, 0.454789704667, Some(4)) == ValleysFrom(TimeCourse, 2.41681636767, 6, LateDropped, true, 0.454789704667, Some(4));
  }

  lemma HalfPassTo9()
    ensures ValleysFrom(TimeCourse, 2.41681636767, 6, LateDropped, true, 0.454789704667, Some(4)) == ValleysFrom(TimeCourse, 2.41681636767, 9, LateDropped, true, 0.454789704667, Some(4))
  {
    assert ValleysFrom(TimeCourse, 2.41681636767, 6, LateDropped, true, 0.454789704667, Some(4)) == ValleysFrom(TimeCourse, 2.41681636767, 7, LateDropped, true, 0.454789704667, Some(4));
    assert ValleysFrom(TimeCourse, 2.41681636767, 7, LateDropped, true, 0.454789704667, Some(4)) == ValleysFrom(TimeCourse, 2.41681636767, 8, LateDropped, true, 0.454789704667, Some(4));
    assert ValleysFrom(TimeCourse, 2.41681636767, 8, LateDropped, true, 0.454789704667, Some(4)) == ValleysFrom(TimeCourse, 2.41681636767, 9, LateDropped, true, 0.454789704667, Some(4));
  }

  lemma HalfPassTo12()
    ensures ValleysFrom(TimeCourse, 2.41681636767, 9, LateDropped, true, 0.454789704667, Some(4)) == ValleysFrom(TimeCourse, 2.41681636767, 12, LateDropped, true, 0.454789704667, Some(4))
  {
    assert ValleysFrom(TimeCourse, 2.41681636767, 9, LateDropped, true, 0.454789704667, Some(4)) == ValleysFrom(TimeCourse, 2.41681636767, 10, LateDropped, true, 0.454789704667, Some(4));
    assert ValleysFrom(TimeCourse, 2.41681636767, 10, LateDropped, true, 0.454789704667, Some(4)) == ValleysFrom(TimeCourse, 2.41681636767, 11, LateDropped, true, 0.454789704667, Some(4));
    assert ValleysFrom(TimeCourse, 2.41681636767, 11, LateDropped, true, 0.454789704667, Some(4)) == ValleysFrom(TimeCourse, 2.41681636767, 12, LateDropped, true, 0.454789704667, Some(4));
  }

  lemma HalfPassToEnd()
    ensures ValleysFrom(TimeCourse, 2.41681636767, 12, LateDropped, true, 0.454789704667, Some(4)) == ValleysFrom(TimeCourse, 2.41681636767, 13, [-1, 0, 1, 0, -1, 0, 0, 0, 0, 0, 0, 0, 1], true, 2.41681636767, Some(4))
  {
    assert LateDropped[4 := -1] == [-1, 0, 1, 0, -1, 0, 0, 0, 0, 0, 0, 0, 1];
    assert ValleysFrom(TimeCourse, 2.41681636767, 12, LateDropped, true, 0.454789704667, Some(4)) == ValleysFrom(TimeCourse, 2.41681636767, 13, [-1, 0, 1, 0, -1, 0, 0, 0, 0, 0, 0, 0, 1], true, 2.41681636767, Some(4));
  }

  lemma HalfValleys()
    ensures SetValleys(TimeCourse, LateDropped) == Ok([-1, 0, 1, 0, -1, 0, 0, 0, 0, 0, 0, 0, 1])
  {
    TimeCourseMax();
    HalfPassTo3();
    HalfPassTo6();
    HalfPassTo9();
    HalfPassTo12();
    HalfPassToEnd();
  }

  lemma PeakFinderAtHalf()
    ensures PeakFinder(TimeCourse, 0.5) == Ok([-1, 0, 1, 0, -1, 0, 0, 0, 0, 0, 0, 0, 1])
  {
    ThresholdHalf();
    TimeCourseRaw();
    HalfRefine();
    HalfValleys();
  }

  lemma ThresholdOne()
    ensures MinJump(TimeCourse, 1.0) == 1.962026663003
  {
    TimeCourseMax();
    TimeCourseMin();
  }

  /** The left scan of index 10, three indices at a time: it demotes the
      peak at index 2 on the way and stops at the first point; the right
      scan then demotes the candidate at the last point. */
  lemma OneScan10LeftTo6()
    ensures LeftScan(TimeCourse, 1.962026663003, 1, 10, 9, RawCodes) == LeftScan(TimeCourse, 1.962026663003, 1, 10, 6, RawCodes)
  {
    assert LeftScan(TimeCourse, 1.962026663003, 1, 10, 9, RawCodes) == LeftScan(TimeCourse, 1.962026663003, 1, 10, 8, RawCodes);
    assert LeftScan(TimeCourse, 1.962026663003, 1, 10, 8, RawCodes) == LeftScan(TimeCourse, 1.962026663003, 1, 10, 7, RawCodes);
    assert LeftScan(TimeCourse, 1.962026663003, 1, 10, 7, RawCodes) == LeftScan(TimeCourse, 1.962026663003, 1, 10, 6, RawCodes);
  }

  lemma OneScan10LeftTo3()
    ensures LeftScan(TimeCourse, 1.962026663003, 1, 10, 6, RawCodes) == LeftScan(TimeCourse, 1.962026663003, 1, 10, 3, RawCodes)
  {
    assert LeftScan(TimeCourse, 1.962026663003, 1, 10, 6, RawCodes) == LeftScan(TimeCourse, 1.962026663003, 1, 10, 5, RawCodes);
    assert LeftScan(TimeCourse, 1.962026663003, 1, 10, 5, RawCodes) == LeftScan(TimeCourse, 1.962026663003, 1, 10, 4, RawCodes);
    assert LeftScan(TimeCourse, 1.962026663003, 1, 10, 4, RawCodes) == LeftScan(TimeCourse, 1.962026663003, 1, 10, 3, RawCodes);
  }

  lemma OneScan10LeftTo0()
    ensures LeftScan(TimeCourse, 1.962026663003, 1, 10, 3, RawCodes) == LeftScan(TimeCourse, 1.962026663003, 1, 10, 0, EarlyDropped)
  {
    assert LeftScan(TimeCourse, 1.962026663003, 1, 10, 3, RawCodes) == LeftScan(TimeCourse, 1.962026663003, 1, 10, 2, RawCodes);
    assert ApplyRule(TimeCourse, 10, 2, RawCodes, 1) == EarlyDropped;
    assert LeftScan(TimeCourse, 1.962026663003, 1, 10, 2, RawCodes) == LeftScan(TimeCourse, 1.962026663003, 1, 10, 1, EarlyDropped);
    assert LeftScan(TimeCourse, 1.962026663003, 1, 10, 1, EarlyDropped) == LeftScan(TimeCourse, 1.962026663003, 1, 10, 0, EarlyDropped);
  }

  lemma OneScan10LeftEnd()
    ensures LeftScan(TimeCourse, 1.962026663003, 1, 10, 0, EarlyDropped) == Ok(EarlyDropped)
  {
    assert LeftScan(TimeCourse, 1.962026663003, 1, 10, 0, EarlyDropped) == Ok(EarlyDropped);
  }

  lemma OneScan10Right()
    ensures RightScan(TimeCourse, 1.962026663003, 10, 11, EarlyDropped) == Ok(BothDropped)
  {
    assert RightScan(TimeCourse, 1.962026663003, 10, 11, EarlyDropped) == RightScan(TimeCourse, 1.962026663003, 10, 12, EarlyDropped);
    assert EarlyDropped[10 := 0] == BothDropped;
    assert RightScan(TimeCourse, 1.962026663003, 10, 12, EarlyDropped) == Ok(BothDropped);
  }

  lemma OneScan10()
    ensures ScanCandidate(TimeCourse, 1.962026663003, 1, 10, RawCodes) == Ok(BothDropped)
  {
    OneScan10LeftTo6();
    OneScan10LeftTo3();
    OneScan10LeftTo0();
    OneScan10LeftEnd();
    OneScan10Right();
  }

  lemma OneRefineStep0()
    ensures RefineFrom(TimeCourse, 1.962026663003, 1, Ranking, 0, RawCodes)
         == RefineFrom(TimeCourse, 1.962026663003, 1, Ranking, 1, RawCodes)
  {
    var c := RawCodes;
    assert ValidCodes(c) && InteriorBinary(c);
    StepScanned(1.962026663003, 1, 0, 12, c, RawCodes);
  }

  lemma OneRefineStep1()
    ensures RefineFrom(TimeCourse, 1.962026663003, 1, Ranking, 1, RawCodes)
         == RefineFrom(TimeCourse, 1.962026663003, 1, Ranking, 2, BothDropped)
  {
    var c := RawCodes;
    assert ValidCodes(c) && InteriorBinary(c);
    OneScan10();
    StepScanned(1.962026663003, 1, 1, 10, c, BothDropped);
  }

  lemma OneRefineRest()
    ensures RefineFrom(TimeCourse, 1.962026663003, 1, Ranking, 2, BothDropped) == Ok(BothDropped)
  {
    TimeCourseDistinct();
    RefineRestUnmarked(TimeCourse, 1.962026663003, 1, Ranking, 2, BothDropped);
  }

  lemma OneRefine()
    ensures RefineFrom(TimeCourse, 1.962026663003, 1, Rank(TimeCourse), 0, RawCodes) == Ok(BothDropped)
  {
    TimeCourseRank();
    OneRefineStep0();
    OneRefineStep1();
    OneRefineRest();
  }

  /** The valley pass, three indices at a time: the pass state on
      reaching index 3, 6, 9, 12 and the end of the series. */
  lemma OnePassTo3()
    ensures ValleysFrom(TimeCourse, 2.41681636767, 0, BothDropped, false, 2.41681636767, None) == ValleysFrom(TimeCourse, 2.41681636767, 3, BothDropped, false, 1.2672097275, Some(0))
  {
    assert ValleysFrom(TimeCourse, 2.41681636767, 0, BothDropped, false, 2.41681636767, None) == ValleysFrom(TimeCourse, 2.41681636767, 1, BothDropped, false, 1.2672097275, Some(0));
    assert ValleysFrom(TimeCourse, 2.41681636767, 1, BothDropped, false, 1.2672097275, Some(0)) == ValleysFrom(TimeCourse, 2.41681636767, 2, BothDropped, false, 1.2672097275, Some(0));
    assert ValleysFrom(TimeCourse, 2.41681636767, 2, BothDropped, false, 1.2672097275, Some(0)) == ValleysFrom(TimeCourse, 2.41681636767, 3, BothDropped, false, 1.2672097275, Some(0));
  }

  lemma OnePassTo6()
    ensures ValleysFrom(TimeCourse, 2.41681636767, 3, BothDropped, false, 1.2672097275, Some(0)) == ValleysFrom(TimeCourse, 2.41681636767, 6, BothDropped, false, 0.454789704667, Some(4))
  {
    assert ValleysFrom(TimeCourse, 2.41681636767, 3, BothDropped, false, 1.2672097275, Some(0)) == ValleysFrom(TimeCourse, 2.41681636767, 4, BothDropped, false, 0.668113898, Some(3));
    assert ValleysFrom(TimeCourse, 2.41681636767, 4, BothDropped, false, 0.668113898, Some(3)) == ValleysFrom(TimeCourse, 2.41681636767, 5, BothDropped, false, 0.454789704667, Some(4));
    assert ValleysFrom(TimeCourse, 2.41681636767, 5, BothDropped, false, 0.454789704667, Some(4)) == ValleysFrom(TimeCourse, 2.41681636767, 6, BothDropped, false, 0.454789704667, Some(4));
  }

  lemma OnePassTo9()
    ensures ValleysFrom(TimeCourse, 2.41681636767, 6, BothDropped, false, 0.454789704667, Some(4)) == ValleysFrom(TimeCourse, 2.41681636767, 9, BothDropped, false, 0.454789704667, Some(4))
  {
    assert ValleysFrom(TimeCourse, 2.41681636767, 6, BothDropped, false, 0.454789704667, Some(4)) == ValleysFrom(TimeCourse, 2.41681636767, 7, BothDropped, false, 0.454789704667, Some(4));
    assert ValleysFrom(TimeCourse, 2.41681636767, 7, BothDropped, false, 0.454789704667, Some(4)) == ValleysFrom(TimeCourse, 2.41681636767, 8, BothDropped, false, 0.454789704667, Some(4));
    assert ValleysFrom(TimeCourse, 2.41681636767, 8, BothDropped, false, 0.454789704667, Some(4)) == ValleysFrom(TimeCourse, 2.41681636767, 9, BothDropped, false, 0.454789704667, Some(4));
  }

  lemma OnePassTo12()
    ensures ValleysFrom(TimeCourse, 2.41681636767, 9, BothDropped, false, 0.454789704667, Some(4)) == ValleysFrom(TimeCourse, 2.41681636767, 12, BothDropped, false, 0.454789704667, Some(4))
  {
    assert ValleysFrom(TimeCourse, 2.41681636767, 9, BothDropped, false, 0.454789704667, Some(4)) == ValleysFrom(TimeCourse, 2.41681636767, 10, BothDropped, false, 0.454789704667, Some(4));
    assert ValleysFrom(TimeCourse, 2.41681636767, 10, BothDropped, false, 0.454789704667, Some(4)) == ValleysFrom(TimeCourse, 2.41681636767, 11, BothDropped, false, 0.454789704667, Some(4));
    assert ValleysFrom(TimeCourse, 2.41681636767, 11, BothDropped, false, 0.454789704667, Some(4)) == ValleysFrom(TimeCourse, 2.41681636767, 12, BothDropped, false, 0.454789704667, Some(4));
  }

  lemma OnePassToEnd()
    ensures ValleysFrom(TimeCourse, 2.41681636767, 12, BothDropped, false, 0.454789704667, Some(4)) == ValleysFrom(TimeCourse, 2.41681636767, 13, BothDropped, true, 2.41681636767, Some(4))
  {
    assert ValleysFrom(TimeCourse, 2.41681636767, 12, BothDropped, false, 0.454789704667, Some(4)) == ValleysFrom(TimeCourse, 2.41681636767, 13, BothDropped, true, 2.41681636767, Some(4));
  }

  lemma OneValleys()
    ensures SetValleys(TimeCourse, BothDropped) == Ok(BothDropped)
  {
    TimeCourseMax();
    OnePassTo3();
    OnePassTo6();
    OnePassTo9();
    OnePassTo12();
    OnePassToEnd();
  }

  lemma PeakFinderAtOne()
    ensures PeakFinder(TimeCourse, 1.0) == Ok([-1, 0, 0, 0, 0, 0, 0, 0, 0, 0, 0, 0, 1])
  {
    ThresholdOne();
    TimeCourseRaw();
    OneRefine();
    OneValleys();
  }
}
