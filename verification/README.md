# Peak and valley classification of a time course

This project models the peak/valley classifier in `metricmaker.py`, together with the list helpers it uses. The classifier codes every point of a sampled time course as 1 (a significant peak), -1 (a valley) or 0 (neither), in three stages:

- **Raw extrema.** `calculate_peak_valley` codes an interior point 1 where a non-negative slope is followed by a falling one. Its loop covers only indices 1 to N-3, so index N-2 is never coded 1: [0, 1, 2, 1] gives [-1, 0, 0, -1]. The comment on line 151 says every interior point is examined. The first point is -1 when the series rises from it and 1 otherwise; the last point is 1 when the series rises into it and -1 otherwise.
- **Significance pass.** `peak_finder` visits the points from the highest value down, equal values by descending index. A point is scanned when the test at line 244 finds code 1 at the point's rank in a snapshot of (value, code) pairs sorted in descending order. With distinct values this means "the point is still coded 1"; with ties it need not (see below). A scan walks left, then right, one point at a time, and a side ends after the first point the candidate exceeds by more than `min_jump = (max - min) * sensitivity`. On the way:
  - a compared point coded 1 that is lower than the candidate is demoted to 0, and one that is not lower demotes the candidate, which keeps scanning. The left rule never applies to index 1 (line 262); the right rule never applies to the last point (line 307);
  - reaching an end point coded 1 demotes the candidate whatever the heights, reaching one coded -1 ends that side, and reaching one coded 0 raises `UnknownError`.
- **Valley pass.** Between each two consecutive surviving peaks, the first lowest point becomes -1 (provided the series does not open with two equal values).

Series are `seq<real>` and codes are `seq<int>`. The Python code mutates one shared list. The model threads that list through pure recursive functions instead: every scan step, every step of the main loop and every step of the valley pass is one recursive call.

The modules follow the program's structure:

- `Results`: the error kinds and the `Result`/`Option` wrappers.
- `ListOps`: `find`, `sort`, `diff`, `zeros`, and `max`/`min`.
- `RawExtrema`: `calculate_peak_valley`.
- `Scans`: the left and right scan of one candidate.
- `Refiner`: the visiting order, the "is it a peak" test and the main loop.
- `Snapshot`: the sorted (value, code) snapshot that test reads, built literally.
- `Valleys`: the valley pass.
- `PeakValley`: `peak_finder` as a whole.
- `Findings`: concrete series showing the two defects listed under Findings, a series on which a smaller sensitivity keeps fewer peaks, and two series showing where the valley height property stops holding.
- `Scenarios`: the vectors of `metricmakertest.py`.

Each Python exception becomes an error value:

- `max()` of an empty series (line 216) gives `EmptySeries`.
- Reading `diff_y_data[0]` of a one-point series (line 144) gives `InsufficientData`.
- The boundary errors at lines 280 and 329 give `UnknownError`.
- Reading `low_valley_position` before it was ever assigned (line 365, an `UnboundLocalError` in Python) gives `ValleyPositionUnset`.

Two places in the code disagree with their own comments, so `peak_finder` carries two parameters:

- `exempt` is the index the left scan's rule skips. The code skips index 1 (line 262), while its comment names the first point.
- `lastTurn` says whether the raw loop examines index N-2. The code does not (line 152), while the comment on line 151 says it does.

`PeakFinder` is the code as written, with `exempt` = 1 and no `lastTurn`. `PeakFinderIntended` skips index 0 and examines every interior point.

Some documented expectations of `peak_finder` are not in the code. There is no range check on the sensitivity, and no length-mismatch error. The model follows the code.

The test at line 244 reads a snapshot of (value, code) pairs sorted in descending order. That snapshot lines up with the visiting order only when all values are distinct. `Refiner.SnapshotMarksPeak` states the test by counting: fewer points of the candidate's value lie after it than there are points of that value coded 1. `Snapshot.SnapshotMarksPeakIsLiteral` proves this equal to sorting the pairs and reading the code at the candidate's rank. `Refiner.SnapshotDistinct` shows that, for distinct values, the test reduces to "the candidate is currently coded 1".

## Model

| member | source | states |
|---|---|---|
| ListOps.Find | metricmaker.py:27-29 | an index is in the result exactly when the element there equals the searched value, and the indices come in strictly increasing order |
| ListOps.Sort | metricmaker.py:31-38 | the index list names every position, the sorted values are the data read through it, values ascend, and equal values keep ascending original index |
| ListOps.SortIndexIsUnique | metricmaker.py:31-38 | any listing of all positions ordered by (value, index) is the index list `sort` returns |
| ListOps.KeySortedUnique | metricmaker.py:31-38 | two (value, index)-ordered listings of the same positions are equal, so the order `sort` produces is unique |
| ListOps.Diff | metricmaker.py:40-45 | the result is one shorter than a non-empty input, and element i is data[i+1] - data[i] |
| ListOps.DiffOfIntegrate | metricmaker.py:40-45 | `diff` undoes summing a start value with a list of steps |
| ListOps.IntegrateOfDiff | metricmaker.py:40-45 | summing the first value with the differences rebuilds a non-empty series, so `diff` loses only the start value |
| ListOps.Zeros | metricmaker.py:61-69 | the classification starts as n zero codes |
| ListOps.Max | metricmaker.py:216 | `max` is an element of the series that bounds every element from above |
| ListOps.Min | metricmaker.py:216 | `min` is an element of the series that bounds every element from below |
| RawExtrema.Sign | metricmaker.py:144-147 | the running sign is 1 exactly for a non-negative slope, and -1 otherwise |
| RawExtrema.MarkFlips | metricmaker.py:152-162 | across the examined range, a point becomes a peak exactly where a non-negative slope is followed by a negative one, and every other code is left as it was |
| RawExtrema.CalculatePeakValley | metricmaker.py:130-180 | fails with InsufficientData exactly for fewer than two points; otherwise the first point is -1 iff y[1] > y[0] (else 1), the last is 1 iff y[N-1] > y[N-2] (else -1), an interior i <= N-3 is 1 exactly when y[i] >= y[i-1] and y[i+1] < y[i], and every other interior point, N-2 included, is 0 |
| RawExtrema.CalculatePeakValleyTo | metricmaker.py:130-180 | the detector with the last interior point optionally examined: the same errors and end codes, and an interior point is 1 exactly when it is a rise-then-fall inside the examined range, 0 otherwise |
| RawExtrema.CalculatePeakValleyIntended | metricmaker.py:151-162 | with every interior point examined, as the comment on line 151 says, an interior point is 1 exactly when y[i] >= y[i-1] and y[i+1] < y[i] |
| RawExtrema.ClosedFormShape | metricmaker.py:152-178 | codes of that closed form have only nonzero ends, no interior valleys, and every interior peak a local rise-then-fall |
| Scans.StopsAtNonNegative | metricmaker.py:257-267 | with a non-negative threshold, a side ends exactly when the drop exceeds the threshold (the rule can never override it) |
| Scans.ApplyRule | metricmaker.py:262-267 | a non-exempt compared point coded 1 is zeroed when lower than the candidate, otherwise the candidate is zeroed; any other compared point changes nothing |
| Scans.LeftScan | metricmaker.py:249-283 | only points coded 1 or the candidate are zeroed, nothing to the right of the start moves, index 0 is untouched when exempt, and an error is UnknownError from an index 0 coded 0 |
| Scans.LeftScanMeaning | metricmaker.py:249-283 | the left scan fails exactly when it reaches index 0 coded 0; each other point is zeroed exactly when the scan reaches it, the rule applies and it is lower than the candidate; the candidate is zeroed exactly when the scan meets a non-lower peak or reaches a peak at index 0 |
| Scans.LeftDemotesStep | metricmaker.py:262-274 | one left step's demotion of the candidate and the rest of the scan's demotion together are exactly the whole scan's demotion |
| Scans.RightScan | metricmaker.py:291-331 | only points coded 1 or the candidate are zeroed, nothing left of the start moves, the last point is never written, and an error is UnknownError from a last point coded 0 |
| Scans.RightScanMeaning | metricmaker.py:291-331 | the right scan fails exactly when it reaches the last point coded 0; each other point is zeroed exactly when reached, the rule applies and it is lower; the candidate is zeroed exactly when the scan meets a non-lower peak or reaches a last point coded 1 |
| Scans.RightStepFrame | metricmaker.py:307-316 | a right step that does not end the side leaves everything beyond it, and what the rest of the scan sees there, unchanged |
| Scans.RightDemotesStep | metricmaker.py:307-323 | one right step's demotion of the candidate and the rest of the scan's demotion together are exactly the whole scan's demotion |
| Scans.ScanCandidate | metricmaker.py:244-331 | a candidate at either end changes nothing; otherwise only peaks or the candidate are zeroed, the last point is kept, index 0 is kept when exempt, and an error needs an end point coded 0 |
| Refiner.Rank | metricmaker.py:225-234 | the visiting order lists every position once, by descending value and, for equal values, by descending index |
| Refiner.RankIs | metricmaker.py:225-234 | the visiting order is the only listing with those properties |
| Refiner.SnapshotDistinct | metricmaker.py:244 | for distinct values, the snapshot test holds exactly when the candidate is currently coded 1 |
| Snapshot.Insert | metricmaker.py:231 | inserting a pair into a descending list keeps it descending, and the result holds the old pairs plus the new one, counted with multiplicity |
| Snapshot.SortDescending | metricmaker.py:230-232 | the sorted snapshot is a permutation of the pairs (same multiset), in descending (value, code) order |
| Snapshot.SortCount | metricmaker.py:230-232 | sorting keeps the number of pairs above any bound |
| Snapshot.DescendingPrefix | metricmaker.py:230-232 | in a descending list, the pairs above a bound are exactly the first ones, as many as the count above it |
| Snapshot.RankIsKeySort | metricmaker.py:225-234 | the visiting order read with the values is the descending sort of the (value, index) pairs |
| Snapshot.RankPosition | metricmaker.py:225-244 | the rank of a point equals the number of pairs with a higher value plus the equal-valued points after it |
| Snapshot.SnapshotMarksPeakIsLiteral | metricmaker.py:229-244 | for valid codes, the counting test on the point at rank i holds exactly when the i-th pair of the descending sort of (value, code) pairs has code 1 |
| Refiner.RefineFrom | metricmaker.py:239-348 | the main loop only changes 1s to 0s, never writes the last point, keeps index 0 when exempt, fails only with UnknownError, and cannot fail when index 0 is exempt and both ends are nonzero |
| Refiner.RefineStepDistinct | metricmaker.py:239-348 | for distinct values, a loop step passes over a point not coded 1, propagates its scan's error, and otherwise continues from the scan's codes |
| Refiner.RefineRestUnmarked | metricmaker.py:239-348 | for distinct values, once no remaining candidate is coded 1 the loop returns the codes unchanged |
| Valleys.ValleysFrom | metricmaker.py:350-369 | the pass only writes -1, keeps the last point, and fails only with ValleyPositionUnset |
| Valleys.SetValleys | metricmaker.py:350-369 | as above, and an empty series fails with EmptySeries (`max` of an empty list) and nothing else |
| Valleys.ValleysBetween | metricmaker.py:359-369 | between two consecutive peaks, exactly one point is a valley: the first position of the least value |
| Valleys.NoValleysBefore | metricmaker.py:359-362 | nothing before the first peak is a valley |
| Valleys.ValleysFromMeaning | metricmaker.py:358-369 | from any consistent intermediate state, the pass finishes with the reference marking, provided every peak is followed by a strictly lower non-peak |
| Valleys.SetValleysMeaning | metricmaker.py:350-369 | under that condition, the valley pass succeeds with exactly the reference marking |
| PeakValley.MinJump | metricmaker.py:216 | the threshold is non-negative for a non-negative sensitivity |
| PeakValley.Refine | metricmaker.py:213-348 | EmptySeries exactly for an empty series and InsufficientData exactly for one point; a success has one code per point, only turns raw 1s into 0s, and keeps the raw last code; with index 0 exempt it keeps the raw first code and never fails on two or more points |
| PeakValley.PeakFinderWith | metricmaker.py:182-372 | the error cases as above; a success has codes in {-1,0,1}, a 1 only where the raw codes had one, every raw -1 kept, and the raw last code kept; with index 0 exempt the only possible failure is ValleyPositionUnset, and both ends stay nonzero |
| PeakValley.ValleyPassKeeps | metricmaker.py:350-369 | after both passes the codes are valid, no peak is new, no raw valley is lost, and no nonzero refined code becomes 0 |
| PeakValley.PeakFinder | metricmaker.py:182-372 | `peak_finder` as written: errors, valid codes, peaks only from raw peaks, raw valleys kept, last code kept |
| PeakValley.PeakFinderIntended | metricmaker.py:182-372 | with the left rule skipping index 0 and every interior point examined: on two or more points the only possible failure is ValleyPositionUnset, and a success never codes an end point 0 |
| PeakValley.RawPeaksDescend | metricmaker.py:143-178 | unless the series opens with two equal values, every raw peak is followed by a strictly lower non-peak |
| PeakValley.FewerPeaksDescend | metricmaker.py:239-348 | zeroing peaks keeps that property |
| PeakValley.ValleysAreMarked | metricmaker.py:182-372 | unless the series opens with two equal values, whenever the significance pass succeeds `peak_finder` yields exactly the reference valley marking of the refined codes |
| Valleys.ValleyBelowPeaks | metricmaker.py:358-369 | when every peak is approached by a strict rise and left by a strict fall, each valley lies strictly below both enclosing peaks |
| Valleys.MarkedKeepsPeaks | metricmaker.py:358-369 | when every peak is followed by a strictly lower non-peak, the marking keeps exactly the given peaks |
| Valleys.MarkedValleyBelowPeaks | metricmaker.py:358-369 | read off the marked codes: a point marked -1 between two marked peaks lies strictly below the nearest peak on either side |
| PeakValley.RawPeaksRise | metricmaker.py:151-178 | without level steps, every raw peak is reached by a strict rise |
| PeakValley.FewerPeaksRise | metricmaker.py:239-348 | zeroing peaks keeps that property |
| PeakValley.ValleysBelowSurvivingPeaks | metricmaker.py:182-372 | without level steps, every point `peak_finder` codes -1 between two of its peaks is strictly lower than the nearest peak on each side |
| PeakValley.IntendedSucceeds | metricmaker.py:182-372 | with index 0 exempt, any series of two or more points that does not open with two equal values is classified without error |
| Findings.AsWrittenRaisesUnknown | metricmaker.py:262-280 | as written, the distinct-valued series [5.0, 4.8, 5.8, 4.5, 5.5, 4.9, 5.2] at sensitivity 0.8 raises UnknownError |
| Findings.AsWrittenZeroesStart | metricmaker.py:262-264 | as written, [5.0, 1.0, 10.0, 1.0, 3.0] at sensitivity 1.0 gives [0, 0, 0, 0, 1], with the first point coded 0 |
| Findings.IntendedKeepsStart | metricmaker.py:262-264 | skipping index 0, the same input gives [1, -1, 0, 0, 1] |
| Findings.TiedStartUnset | metricmaker.py:359-369 | [2.0, 2.0, 1.0, 2.0, 2.0] at sensitivity 0.5 reads the never-assigned low point, whichever index the left rule skips |
| Findings.LevelValleyMeetsPeak | metricmaker.py:358-369 | as written, [0.0, 3.0, 2.0, 2.0, 1.0, 0.0] at sensitivity 0.1 gives [-1, 1, -1, 1, 0, -1]: the valley at index 2 is level with the peak at index 3 |
| Findings.LastTurnMissed | metricmaker.py:151-152 | as written, [0.0, 5.0, 4.0, 6.0, 7.0, 8.0, 9.0, 8.9] at sensitivity 0.1 gives [-1, 1, 0, 0, 0, 0, 0, -1]: the highest point, a rise-then-fall at index N-2, is no peak, and the last point, a valley, is higher than the only peak |
| Findings.IntendedFindsLastTurn | metricmaker.py:151-152 | with every interior point examined, the same input gives [-1, 1, -1, 0, 0, 0, 1, -1] |
| Findings.EndValleyAbovePeak | metricmaker.py:182-372 | [5.0, 4.0, 10.0, 9.0] at sensitivity 1.0 gives [1, 0, 0, -1] both as written and corrected: with distinct values, the end valley 9.0 lies above the only peak 5.0 |
| Findings.SensitivityNotMonotone | metricmaker.py:249-283 | as written, [1.0, 0.0, 3.0, 2.0, 6.0, 4.0, 5.0] gives [0, 0, 0, 0, 0, 0, 1] at sensitivity 0.65 but [1, -1, 0, 0, 0, 0, 1] at 0.7: the smaller sensitivity keeps fewer peaks, against the docstring at lines 199-202 |
| Findings.IntendedSensitivityAgrees | metricmaker.py:249-283 | with the left rule skipping index 0, the same series gives [1, -1, 0, 0, 0, 0, 1] at both sensitivities |
| Scenarios.DiffExample | metricmakertest.py:55-58 | `diff` of [1.2, 2.5, 0.4, 1, 2] is [1.3, -2.1, 0.6, 1.0] |
| Scenarios.SortExample | metricmakertest.py:59-70 | `sort` of [1, 5, 3, 2, 7, 8, 1, 2] gives [1, 1, 2, 2, 3, 5, 7, 8] and indices [0, 6, 3, 7, 2, 1, 4, 5] |
| Scenarios.SortAllEqual | metricmakertest.py:71-75 | `sort` of six equal values keeps the indices in order |
| Scenarios.FindExample | metricmakertest.py:97-100 | `find` of 1 in [1, 0, 1, 0, -1, 0, -1, 0, 1, -1] is [0, 2, 8] |
| Scenarios.TimeCourseRaw | metricmakertest.py:77-80 | the raw codes of the 13-point time course are [-1, 0, 1, 0, 0, 0, 0, 0, 0, 0, 1, 0, 1] |
| Scenarios.PeakFinderAtTenth | metricmakertest.py:82-87 | at sensitivity 0.1, `peak_finder` gives [-1, 0, 1, 0, -1, 0, 0, 0, 0, 0, 1, -1, 1] |
| Scenarios.PeakFinderAtHalf | metricmakertest.py:88-91 | at sensitivity 0.5, `peak_finder` gives [-1, 0, 1, 0, -1, 0, 0, 0, 0, 0, 0, 0, 1] |
| Scenarios.PeakFinderAtOne | metricmakertest.py:92-95 | at sensitivity 1.0, `peak_finder` gives [-1, 0, 0, 0, 0, 0, 0, 0, 0, 0, 0, 0, 1] |

## Left out

- `trapz` and `mean` (metricmaker.py:47-59): floating-point arithmetic, and their expected values are exact IEEE results that reals cannot reproduce.
- `generate` (metricmaker.py:71-128): an unfinished stub that calls an undefined name, so it cannot run.
- `zeros` as a two-dimensional matrix builder: only the one zero-filled row the classifier starts from is modelled.
- Floating point: values are exact reals, so rounding in `max - min`, in the threshold product and in differences is not modelled. The test vectors' margins against the thresholds are far wider than any rounding.
- Debug prints, commented-out code, module metadata, and the unused `TooManyEmptyValues` and `TimePointsMismatchWithTimeCourse` exceptions.
- The Python 2 details `map(None, …)`, `xrange` and `zip(...).sort()`: each is modelled by what it computes.
- `sort` leaving its input list unmodified (metricmaker.py:31-38): series are immutable values in the model, so this holds by construction and needs no contract.
- Aliasing of `peak_valley`, `combo_sort_by_TP[1]` and the list `peak_finder` returns: modelled as one code sequence passed from step to step. The caller's list is not mutated in the model.
- `left_sig` and `right_sig` are not stored: only "this step ends the side" is modelled, because no later statement reads them.
- PeakValley.MinJump: states only that the threshold is non-negative for a non-negative sensitivity. Its value is left to the scans that use it.
- PeakValley.ValleysAreMarked: proved only for series whose first two values differ. When they are equal, the pass can read a never-assigned, or an outdated, low point (see `Findings.TiedStartUnset`).
- PeakValley.IntendedSucceeds: needs the same condition, for the same reason.
- PeakValley.ValleysBelowSurvivingPeaks: proved only for valleys between two surviving peaks, in series with no two neighbouring values equal. With a level step, a valley can be as high as a surviving peak in the code as written (`Findings.LevelValleyMeetsPeak`). A valley before the first or after the last peak can be higher than a peak even with distinct values, both as written and corrected (`Findings.EndValleyAbovePeak`, `Findings.LastTurnMissed`).
- Monotonic sensitivity, that a higher sensitivity never keeps more peaks (the docstring, lines 199-202, calls the sensitivity the minimum size of a significant peak), is not promised. As written it fails even with distinct values: `Findings.SensitivityNotMonotone` keeps one peak at 0.65 and two at 0.7, because of the line-262 rule. On that series the corrected variant gives the same codes at both sensitivities (`Findings.IntendedSensitivityAgrees`). For the corrected variant in general the property is neither stated nor proved. With tied values the snapshot test of line 244 can break it: [0, 1, 0, 5, 1, 2, 7, 2] keeps one peak at 0.85 and two at 0.9. That example is not proved here.
- Re-running the significance pass on its own output is not expressible: `peak_finder` always recomputes the raw codes from the series, so it has no entry point that takes codes.
- PeakValley.PeakFinder: its contract does not say when the as-written rule raises UnknownError. The inputs that raise are characterised by `Scans.LeftScanMeaning` and `Scans.RightScanMeaning`, and exhibited by `Findings.AsWrittenRaisesUnknown`.

## Findings

| source | as written | input that shows it | evidently intended | confidence | as-written member | corrected member |
|---|---|---|---|---|---|---|
| metricmaker.py:151-152 | the raw loop runs `range(1, N-2)`, so it never examines index N-2, while the comment on line 151 says only the end points are ignored | y = [0.0, 5.0, 4.0, 6.0, 7.0, 8.0, 9.0, 8.9], sensitivity 0.1, returns [-1, 1, 0, 0, 0, 0, 0, -1]: the highest point, a rise-then-fall, is not a peak | examine every interior point, `range(1, N-1)`: the same input gives [-1, 1, -1, 0, 0, 0, 1, -1] | not executed; proved on the model only | Findings.LastTurnMissed | RawExtrema.CalculatePeakValleyIntended |
| metricmaker.py:262 | the left scan's rule skips the point at index 1, so it can zero the first point (line 264); a later left scan that reaches that 0 raises UnknownError (line 280) | y = [5.0, 4.8, 5.8, 4.5, 5.5, 4.9, 5.2], sensitivity 0.8, raises UnknownError although every value is distinct. y = [5.0, 1.0, 10.0, 1.0, 3.0], sensitivity 1.0, returns [0, 0, 0, 0, 1], leaving the first point neither peak nor valley. y = [1.0, 0.0, 3.0, 2.0, 6.0, 4.0, 5.0] keeps one peak at sensitivity 0.65 and two at 0.7 | skip the first point, index 0, as the comment on line 261 says and as the right scan skips the last point (line 307): no UnknownError, and both end points always stay a peak or a valley | not executed; proved on the model only | Findings.AsWrittenRaisesUnknown | PeakValley.IntendedSucceeds |
