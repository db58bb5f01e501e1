# Classroom wrong-answer tally — a Dafny model

The application helps a teacher during a lesson. It keeps a roster of students and calls on students at random. Each of the five roster bands A–E has a weight, and a band's share of the picks follows its weight. The teacher taps a problem number each time a student gets that problem wrong, and the app tallies those wrong answers per problem. The app then presents the tallies as:

- a heat-coloured problem matrix;
- a ranked list;
- an exported statistics image;
- a class report with per-question statistics, per-student scores, a severity scale and a CSV file.

This project models the logic behind those screens and proves what it promises:

| module | file | models |
|---|---|---|
| `ClassroomStore` | `ClassroomStore.dfy` | the persistent store (class `Store`): roster, call log, per-problem counters, related problems, settings |
| `StudentSelector` | `StudentSelector.dfy` | name import, the pick-count stepper, and the weighted random pick (bands, allocation, the two repair loops, the Fisher–Yates draw) |
| `SettingsDialog` | `Settings.dfy` | the settings dialog (class `Draft`): ratio editing, validity, automatic normalisation, reset, save, backup import |
| `ReportPhase` | `Report.dfy` | the report statistics, the two question orders, scores, the severity scale, the CSV file, the preview cards |
| `ReportExportView` | `ReportExport.dfy` | the exported report image's question and student cards |
| `ExportModal` | `ExportModal.dfy` | the exported statistics image: data order, summary figures, hot cards, bar colours and widths, canvas height |
| `WrongList` | `WrongList.dfy` | the wrong-answer ranking panel |
| `ProblemMatrix` | `ProblemMatrix.dfy` | the problem grid: count clamp, cells, colour maximum, text colour, column count |
| `Collections`, `Rounding`, `Text`, `Wrappers` | `Collections.dfy`, `Rounding.dfy`, `Text.dfy` | the JavaScript library behaviour the code relies on (below) |

The JavaScript library behaviour is modelled as follows:

- **`Math.round(x)`** is `floor(x + 1/2)`. It is computed exactly on the rational quotient, as `RoundDiv` and `RoundQuotient`.
- **`Array.prototype.sort`** is stable (ECMA-262, section 23.1.3.30). With a numeric comparator it is the stable insertion sort `SortBy(s, key)`. A descending comparator uses the negated key.
- **`Object.entries` and `Object.values`** list integer-like keys in ascending order (ECMA-262, section 10.1.11.1). The counter map is `map<int, int>`, and `Entries` lists it in that order.
- **`String.prototype.trim`**, **`split('\n')`** and **`join`** are modelled as `Trim`, `Split` and `Join`. `Trim` removes the ECMA-262 white space and line terminators.

State that the source changes in place is modelled in place:

- The store is a class whose methods reassign its fields.
- The settings draft is a class.
- The repair loops work on an `array` of five allocations.
- The Fisher–Yates shuffle swaps in an `array`.
- The related-problem scan and the report's details-and-scores pass are `for`/`while` loops.

Everything else is a function.

## Model

| member | source | states |
|---|---|---|
| ClassroomStore.DefaultRatiosValid | src/stores/useClassroomStore.js:18 | the default pick ratios `[10,15,25,25,25]` are five non-negative weights summing to 100 |
| ClassroomStore.Merge | src/stores/useClassroomStore.js:98-100 | every settings key supplied in the patch is overwritten, every other key keeps its old value |
| ClassroomStore.MergeIdempotent | src/stores/useClassroomStore.js:98-100 | applying the same patch twice is applying it once |
| ClassroomStore.Count | src/stores/useClassroomStore.js:57 | a problem without a counter counts 0 |
| ClassroomStore.NewNames | src/stores/useClassroomStore.js:29 | a name is appended iff it is among the new names, its trim is non-empty and its trim is not in the roster; never more names than given |
| ClassroomStore.BatchNotDeduplicated | src/stores/useClassroomStore.js:29-31 | the same fresh name twice in one batch is appended twice |
| ClassroomStore.TrimmedCheckUntrimmedAppend | src/stores/useClassroomStore.js:29-31 | membership is checked on the trimmed name, but the untrimmed name is what is appended |
| ClassroomStore.NewNamesAppend | src/stores/useClassroomStore.js:29 | filtering two batches together is filtering each against the old roster and concatenating |
| ClassroomStore.Span | src/stores/useClassroomStore.js:66 | the loop range `lo..hi`, ascending, empty when `hi < lo` |
| ClassroomStore.RelatedIn | src/stores/useClassroomStore.js:66-71 | `i` is collected iff `lo <= i <= hi`, `i != p` and its count is positive; strictly ascending |
| ClassroomStore.Related | src/stores/useClassroomStore.js:64-71 | `i` is related iff `max(1,p-2) <= i <= p+2`, `i != p` and its count is positive; strictly ascending |
| ClassroomStore.CollectRelated | src/stores/useClassroomStore.js:64-71 | the `for`/`push` loop builds exactly `Related(problems, p)` |
| ClassroomStore.Store.constructor | src/stores/useClassroomStore.js:8-23 | empty roster, log, counters and related map; problem count 20; the default settings |
| ClassroomStore.Store.AddStudents | src/stores/useClassroomStore.js:28-33 | the old roster is kept as a prefix and the accepted new names are appended in order |
| ClassroomStore.Store.ClearStudents | src/stores/useClassroomStore.js:36 | roster and call log are emptied, nothing else is modified |
| ClassroomStore.Store.AddCalledStudent | src/stores/useClassroomStore.js:39-44 | exactly one record with the given name and time is prepended |
| ClassroomStore.Store.ClearCalledStudents | src/stores/useClassroomStore.js:47 | the call log is emptied, nothing else is modified |
| ClassroomStore.Store.SetProblemCount | src/stores/useClassroomStore.js:52 | only the problem count changes |
| ClassroomStore.Store.IncrementProblem | src/stores/useClassroomStore.js:55-82 | the counter of `p` rises by one (absent counts 0), no other counter changes; `relatedProblems[p]` becomes the related list when it is non-empty, otherwise the map is unchanged |
| ClassroomStore.Store.ResetProblems | src/stores/useClassroomStore.js:85 | counters and related map are emptied, nothing else is modified |
| ClassroomStore.Store.SetRelatedProblems | src/stores/useClassroomStore.js:88-93 | only the entry of `p` is replaced |
| ClassroomStore.Store.UpdateSettings | src/stores/useClassroomStore.js:98-100 | the settings become the old settings merged with the patch |
| ClassroomStore.Store.ResetSettings | src/stores/useClassroomStore.js:103-111 | the settings become the defaults |
| ClassroomStore.IncrementOnlyTouches | src/stores/useClassroomStore.js:55-61 | after the increment, the count of `p` is one more and every other count is unchanged |
| ClassroomStore.RelatedInSize | src/stores/useClassroomStore.js:66-71 | the scan collects at most one number per step, never `p` itself |
| ClassroomStore.RelatedExcludesSelf | src/stores/useClassroomStore.js:64-71 | `p` is never related to itself and at most four problems are related |
| StudentSelector.BandWidth | src/components/StudentSelector/StudentSelector.jsx:109 | `g = ceil(n/5)`: `n <= 5g < n + 5` |
| StudentSelector.WrittenBand | src/components/StudentSelector/StudentSelector.jsx:111-115 | band `i` as the code builds it: it starts at `i·g`, ends at most at `n`, and its size is negative exactly when it starts past the roster |
| StudentSelector.BandOf | src/components/StudentSelector/StudentSelector.jsx:111-115 | band `i` of the clamped partition: `0 <= start <= end <= n` and its size `end - start` is at most `g` |
| StudentSelector.Sizes | src/components/StudentSelector/StudentSelector.jsx:114 | the sizes of the bands, in band order |
| StudentSelector.BandStep | src/components/StudentSelector/StudentSelector.jsx:111-115 | in the clamped partition each band ends where the next starts and holds between 0 and `g` students |
| StudentSelector.BandsPartition | src/components/StudentSelector/StudentSelector.jsx:108-115 | the clamped bands tile `0..n` contiguously and their sizes add up to `n` |
| StudentSelector.SizesOfBands | src/components/StudentSelector/StudentSelector.jsx:108-115 | the recorded sizes of the clamped bands are non-negative, sum to `n`, and are `ClampedSizes(n)` |
| StudentSelector.WrittenBandsAgree | src/components/StudentSelector/StudentSelector.jsx:112-114 | when `4g <= n` the bands as written coincide with the clamped ones |
| StudentSelector.WrittenBandNegative | src/components/StudentSelector/StudentSelector.jsx:112-114 | band E's size as written is negative iff `4g > n`, iff `n` is 1, 2, 3, 6, 7 or 11; otherwise every size is non-negative |
| StudentSelector.InitialAllocations | src/components/StudentSelector/StudentSelector.jsx:121-125 | each allocation is the rounded share `round(ratio·count/Σratio)` or, when that exceeds the band, the band's size; never above the band size |
| StudentSelector.Share | src/components/StudentSelector/StudentSelector.jsx:123 | `Math.round(ratio/ratioSum·count)` for a positive sum: the integer `s` with `s - 1/2 <= ratio·count/ratioSum < s + 1/2` |
| StudentSelector.ShareNonNegative | src/components/StudentSelector/StudentSelector.jsx:123 | a non-negative ratio with a positive sum gets a non-negative share |
| StudentSelector.Repair | src/components/StudentSelector/StudentSelector.jsx:127-146 | the array the two loops leave is exactly `RepairedShares(init, sizes, count)`, the shortfall passes followed by the excess passes; so it adds up to `count`, a shortfall only raises bands (never above their size) and an excess only lowers positive bands |
| StudentSelector.RaisePass | src/components/StudentSelector/StudentSelector.jsx:131-136 | the `for` loop leaves exactly `ShortfallPass(old, sizes, total, count, 0)`: walking bands A to E while the total is below `count`, each band with room gains one pick |
| StudentSelector.LowerPass | src/components/StudentSelector/StudentSelector.jsx:140-145 | the `for` loop leaves exactly `ExcessPass(old, total, count, 5)`: walking bands E to A while the total exceeds `count`, each positive band loses one pick |
| StudentSelector.LowerBand | src/components/StudentSelector/StudentSelector.jsx:141-144 | one band's turn in the excess pass: the rest of the pass from band `i` down gives the same result before and after it |
| StudentSelector.RaiseLoop | src/components/StudentSelector/StudentSelector.jsx:128-137 | the shortfall `while` loop on the array is exactly `RaiseAll` of the old array, and the running total stays its sum |
| StudentSelector.LowerLoop | src/components/StudentSelector/StudentSelector.jsx:138-146 | the excess `while` loop on the array is exactly `LowerAll` of the old array, and the running total stays its sum |
| StudentSelector.ExcessPass | src/components/StudentSelector/StudentSelector.jsx:140-145 | one backward pass as written: it never raises the total, and from a total at or above `count` it never goes below `count` |
| StudentSelector.ExcessBounded | src/components/StudentSelector/StudentSelector.jsx:140-145 | an excess pass keeps the total equal to the sum and lowers each band by at most one, never a band that is not positive |
| StudentSelector.ExcessStalls | src/components/StudentSelector/StudentSelector.jsx:140-145 | an excess pass that removes nothing while above `count` found no positive band |
| StudentSelector.PassGains | src/components/StudentSelector/StudentSelector.jsx:129-136 | while the total is below `count` and the bands have room for `count`, a shortfall pass adds at least one pick, so the loop ends |
| StudentSelector.PassLoses | src/components/StudentSelector/StudentSelector.jsx:138-145 | while the total is above a non-negative `count`, an excess pass removes at least one pick, so the loop ends |
| StudentSelector.RaiseAll | src/components/StudentSelector/StudentSelector.jsx:129-137 | the shortfall loop as repeated passes: from a total below `count` it ends at exactly `count`, each band between its start and its size; a total already at `count` or more is left alone |
| StudentSelector.LowerAll | src/components/StudentSelector/StudentSelector.jsx:138-146 | the excess loop as repeated passes: from a total above `count` it ends at exactly `count`, each band between `min(start, 0)` and its start; a total at `count` or less is left alone |
| StudentSelector.RepairedShares | src/components/StudentSelector/StudentSelector.jsx:127-146 | the two loops in order end at exactly `count` within the bounds of `Repaired`, and shares that already add up to `count` are kept as they are |
| StudentSelector.ShortfallFromBandA | src/components/StudentSelector/StudentSelector.jsx:129-137 | five empty bands of two and one pick: the shortfall goes to band A, giving `[1,0,0,0,0]` |
| StudentSelector.ExcessFromBandE | src/components/StudentSelector/StudentSelector.jsx:138-146 | five shares of one and three picks: bands E and D give theirs up, giving `[1,1,1,0,0]` |
| StudentSelector.RepairedCount | src/components/StudentSelector/StudentSelector.jsx:127-165 | with non-negative initial shares, the repaired allocations make the draw pick exactly `count` students |
| StudentSelector.NonNegativeShares | src/components/StudentSelector/StudentSelector.jsx:121-125 | non-negative ratios and band sizes give non-negative initial allocations |
| StudentSelector.RandomIndices | src/components/StudentSelector/StudentSelector.jsx:149-157 | `min(k, end-start)` pairwise-distinct indices, all in `[start, end)`, for every sequence of random draws |
| StudentSelector.BandPicks | src/components/StudentSelector/StudentSelector.jsx:160-165 | the number band `i` contributes: between 0 and its size and at most its allocation, and exactly its allocation when that lies between 0 and the size |
| StudentSelector.PickedCount | src/components/StudentSelector/StudentSelector.jsx:160-165 | the number of picks drawn over all bands, never negative |
| StudentSelector.PickedCountExact | src/components/StudentSelector/StudentSelector.jsx:160-166 | when every allocation lies between 0 and its band size, the number drawn is the sum of the allocations |
| StudentSelector.InBand | src/components/StudentSelector/StudentSelector.jsx:111-115 | an index inside band `i` belongs to band `i` |
| StudentSelector.BeforeBand | src/components/StudentSelector/StudentSelector.jsx:111-115 | an index before band `i` belongs to an earlier band |
| StudentSelector.AppendBand | src/components/StudentSelector/StudentSelector.jsx:161-165 | appending one band's distinct draws keeps the picks distinct, in range and in band order |
| StudentSelector.AppendBandOrdered | src/components/StudentSelector/StudentSelector.jsx:161-164 | band `i`'s draws come after the earlier bands' picks in band order |
| StudentSelector.SkipBand | src/components/StudentSelector/StudentSelector.jsx:162 | skipping a band keeps the picks valid for the next band |
| StudentSelector.DrawPicks | src/components/StudentSelector/StudentSelector.jsx:160-166 | the picks lie in `[0,n)`, are pairwise distinct and concatenated in band order; band `i` contributes exactly `BandPicks(alloc[i], size_i)` of them, and their number is the sum of those |
| StudentSelector.DrawBand | src/components/StudentSelector/StudentSelector.jsx:161-165 | one band's turn: when its share and size are positive it appends `min(share, size)` distinct indices of band `i` after the earlier picks, otherwise nothing; band `i`'s count grows by that number and every other band's stays |
| StudentSelector.AppendBandCounts | src/components/StudentSelector/StudentSelector.jsx:161-165 | appending draws from band `i` adds their number to band `i`'s count and nothing to any other band's |
| StudentSelector.Allocation | src/components/StudentSelector/StudentSelector.jsx:118-146 | the allocation the handler draws from: the repaired initial shares of the clamped sizes for `min(pickCount, n)` picks |
| StudentSelector.DefaultPickOfFour | src/components/StudentSelector/StudentSelector.jsx:118-146 | the default weights, 20 students, 4 picks: band A's share 0.4 rounds to 0, so the allocation is `[0,1,1,1,1]` |
| StudentSelector.DefaultAllocation | src/components/StudentSelector/StudentSelector.jsx:118-146 | the same allocation, for a roster size and pick count given as 20 and 4 |
| StudentSelector.DefaultSharesOfFour | src/components/StudentSelector/StudentSelector.jsx:121-125 | with the default weights and five bands of four, four picks round to the shares `[0,1,1,1,1]`, which sum to 4 |
| StudentSelector.PickedCountStep | src/components/StudentSelector/StudentSelector.jsx:161-165 | the picks of the first `i + 1` bands are those of the first `i` plus band `i`'s |
| StudentSelector.Partition | src/components/StudentSelector/StudentSelector.jsx:108-115 | the loop builds the five bands of the clamped partition (`start = min(i·g, n)`), the correction of the code as written recorded under "## Findings" |
| StudentSelector.RandomPick | src/components/StudentSelector/StudentSelector.jsx:105-166 | with the clamped partition: the picks are distinct roster indices in band order, band `i` contributes exactly `BandPicks(Allocation(n, ratios, pickCount)[i], size_i)` of them, and with non-negative ratios exactly `min(pickCount, n)` are picked |
| StudentSelector.WrittenSizes | src/components/StudentSelector/StudentSelector.jsx:112-114 | five band sizes as the code records them |
| StudentSelector.ShortfallPass | src/components/StudentSelector/StudentSelector.jsx:131-136 | one forward pass of the shortfall loop as written; it never lowers the total, never lifts it past `count`, and when it adds nothing every band from the start index on is full |
| StudentSelector.Passes | src/components/StudentSelector/StudentSelector.jsx:129-137 | `k` passes of the shortfall loop as written |
| StudentSelector.PassBounded | src/components/StudentSelector/StudentSelector.jsx:131-136 | a pass keeps the running total equal to the sum and only raises bands, never above their sizes |
| StudentSelector.ShortfallNeverEnds | src/components/StudentSelector/StudentSelector.jsx:129-137 | when the sizes add up to less than `count`, no number of passes reaches `count` |
| StudentSelector.WrittenPickStalls | src/components/StudentSelector/StudentSelector.jsx:112-137 | with the bands as written, whenever `min(pickCount,n)` exceeds the sum of the written sizes, the shortfall loop never reaches the count for any ratios |
| StudentSelector.OneStudentStalls | src/components/StudentSelector/StudentSelector.jsx:112-137 | one student: the written sizes are `[1,0,-1,-2,-3]`, whose sum is below the count of 1 |
| StudentSelector.OneStudentTotal | src/components/StudentSelector/StudentSelector.jsx:128 | the written sizes of one student sum to -5 |
| StudentSelector.WrittenSizesOfOne | src/components/StudentSelector/StudentSelector.jsx:112-114 | one student: the written sizes are `[1,0,-1,-2,-3]` |
| StudentSelector.DefaultSharesOfOne | src/components/StudentSelector/StudentSelector.jsx:121-125 | one pick under the default ratios rounds every share to 0, capped by negative sizes |
| StudentSelector.ThreeStudentsPickTwo | src/components/StudentSelector/StudentSelector.jsx:112-166 | three students and pick count 1: the written sizes are `[1,1,1,0,-1]` and, after repair, two students are drawn |
| StudentSelector.ThreeStudentsRepairable | src/components/StudentSelector/StudentSelector.jsx:121-137 | in that case the repair loops do end (their precondition holds) |
| StudentSelector.PickedCount5 | src/components/StudentSelector/StudentSelector.jsx:161-165 | the number drawn is the per-band sum over the five bands |
| StudentSelector.NegativeRatioOverpicks | src/components/StudentSelector/StudentSelector.jsx:121-166 | with the normalised ratios `[13,13,13,63,-2]`, 81 students and 27 picks, the clamped partition still draws 28 students |
| StudentSelector.NegativeRatioShares | src/components/StudentSelector/StudentSelector.jsx:121-125 | those ratios give initial allocations `[4,4,4,17,-1]` |
| StudentSelector.NormalizedRatioSum | src/components/SettingsModal/SettingsModal.jsx:46-50 | the normalised ratios `[13,13,13,63,-2]` are valid: they sum to 100 |
| StudentSelector.ClampedSizes | src/components/StudentSelector/StudentSelector.jsx:108-115 | five band sizes of the clamped partition, each between 0 and `g`, summing to `n` |
| StudentSelector.ClampedSizesOfTwenty | src/components/StudentSelector/StudentSelector.jsx:108-115 | twenty students make five bands of four |
| StudentSelector.CallLog | src/components/StudentSelector/StudentSelector.jsx:169-171 | one record per pick, each prepended in turn, so the log reads the picks newest first |
| StudentSelector.HandleRandomPick | src/components/StudentSelector/StudentSelector.jsx:95-175 | with the clamped partition: an empty roster or a running animation picks and logs nothing; otherwise the picks are distinct roster indices, band `i` contributes exactly its repaired allocation (capped at its size), each pick is logged once in reverse pick order in front of the old log, and with non-negative ratios there are `min(pickCount, n)` of them |
| StudentSelector.LogPicks | src/components/StudentSelector/StudentSelector.jsx:169-171 | every picked roster entry is logged in pick order, so the last pick ends up at the front, above the earlier log |
| StudentSelector.CallLogStep | src/components/StudentSelector/StudentSelector.jsx:169-171 | logging one more pick puts its record at the front |
| StudentSelector.CallLogOrder | src/components/StudentSelector/StudentSelector.jsx:169-171 | the newest record is the last pick, the oldest new record the first pick |
| StudentSelector.TrimAll | src/components/StudentSelector/StudentSelector.jsx:45 | every line is trimmed, in order |
| StudentSelector.TrimAllTrimmed | src/components/StudentSelector/StudentSelector.jsx:45 | trimmed lines are fixed points of trimming |
| StudentSelector.ImportedNames | src/components/StudentSelector/StudentSelector.jsx:45 | every imported name is non-empty and already trimmed |
| StudentSelector.HandleImport | src/components/StudentSelector/StudentSelector.jsx:43-49 | blank text leaves the roster alone; otherwise the split, trimmed, non-empty lines go through `addStudents` |
| StudentSelector.ImportRoundTrip | src/components/StudentSelector/StudentSelector.jsx:45 | names joined by newlines are imported back exactly, when each is non-empty, trimmed and has no newline |
| StudentSelector.ImportEmpty | src/components/StudentSelector/StudentSelector.jsx:45 | empty text imports no names |
| StudentSelector.BlankTextImportsNothing | src/components/StudentSelector/StudentSelector.jsx:44-45 | text of white space only imports no names |
| StudentSelector.SplitChars | src/components/StudentSelector/StudentSelector.jsx:45 | each line holds only characters of the text |
| StudentSelector.StepperBounds | src/components/StudentSelector/StudentSelector.jsx:215-217 | the stepper keeps the pick count within `[1,50]`, and down-then-up (or up-then-down) away from the bounds returns the same count |
| StudentSelector.StepDown | src/components/StudentSelector/StudentSelector.jsx:215 | the minus button: never below 1, and never above 50 from a count of at most 50 |
| StudentSelector.StepUp | src/components/StudentSelector/StudentSelector.jsx:217 | the plus button: never above 50, and never below 1 from a count of at least 1 |
| SettingsDialog.ClampRatio | src/components/SettingsModal/SettingsModal.jsx:36 | the value is clamped into `[0,100]`; values inside are kept |
| SettingsDialog.Rounded | src/components/SettingsModal/SettingsModal.jsx:46 | each ratio becomes `round(r·100/sum)` |
| SettingsDialog.Normalized | src/components/SettingsModal/SettingsModal.jsx:40-51 | sum 0 gives `[20,20,20,20,20]`; otherwise every slot but the last is the rounded share; the result always sums to 100 |
| SettingsDialog.NormalizeKeepsValid | src/components/SettingsModal/SettingsModal.jsx:40-51 | ratios that already sum to 100 are left unchanged |
| SettingsDialog.NormalizeIdempotent | src/components/SettingsModal/SettingsModal.jsx:40-51 | normalising twice is normalising once |
| SettingsDialog.NormalizeCanGoNegative | src/components/SettingsModal/SettingsModal.jsx:46-50 | `[1,1,1,5,0]` normalises to `[13,13,13,63,-2]` |
| SettingsDialog.RoundedOneBound | src/components/SettingsModal/SettingsModal.jsx:46 | a rounded share exceeds the exact one by at most one half |
| SettingsDialog.RoundedSumBound | src/components/SettingsModal/SettingsModal.jsx:46-48 | the rounded shares exceed the exact total by at most half a unit per slot |
| SettingsDialog.RoundedTotalBound | src/components/SettingsModal/SettingsModal.jsx:46-48 | the rounded shares add up to at most `100 + len/2` |
| SettingsDialog.LastRoundedNonNegative | src/components/SettingsModal/SettingsModal.jsx:46 | a non-negative last ratio rounds to a non-negative share |
| SettingsDialog.NormalizedLastBound | src/components/SettingsModal/SettingsModal.jsx:46-50 | for non-negative ratios the last slot is never below `-len/2` (at least -2 for five slots) |
| SettingsDialog.Draft.constructor | src/components/SettingsModal/SettingsModal.jsx:8-21 | the draft starts from the store's ratios, speed, threshold and sound |
| SettingsDialog.Draft.ChangeRatio | src/components/SettingsModal/SettingsModal.jsx:34-38 | only the given slot changes, to the clamped value |
| SettingsDialog.Draft.IsValid | src/components/SettingsModal/SettingsModal.jsx:31-32 | the ratios are valid (sum to 100) exactly when normalising leaves them unchanged |
| SettingsDialog.Draft.AutoNormalize | src/components/SettingsModal/SettingsModal.jsx:40-51 | the ratios become the normalised ones, which are valid |
| SettingsDialog.Draft.Reset | src/components/SettingsModal/SettingsModal.jsx:63-68 | `[10,15,25,25,25]`, medium, 4, sound on; valid |
| SettingsDialog.Draft.Save | src/components/SettingsModal/SettingsModal.jsx:53-61 | saving happens iff the ratios sum to 100, and writes exactly the four drafted keys; otherwise the store is unchanged |
| SettingsDialog.BackupOf | src/components/SettingsModal/SettingsModal.jsx:71-92 | a backup written by the export always passes the import check |
| SettingsDialog.Accepts | src/components/SettingsModal/SettingsModal.jsx:101 | the import test: students, problems and settings are all present (the call log may be absent) |
| SettingsDialog.ImportBackup | src/components/SettingsModal/SettingsModal.jsx:101-108 | accepted iff students, problems and settings are present; the call log defaults to empty; a rejected backup changes nothing |
| SettingsDialog.ExportImportRoundTrip | src/components/SettingsModal/SettingsModal.jsx:71-108 | importing the backup exported from one store into another is accepted and leaves the target with the source's roster, counters, call log and settings |
| ReportPhase.WrongCount | pro/src/components/ReportPhase.jsx:50 | the length of the wrong list, 0 when it is absent |
| ReportPhase.Misses | pro/src/components/ReportPhase.jsx:30 | a record missed a question iff the question is in its wrong list (an absent list misses nothing) |
| ReportPhase.Rate | pro/src/components/ReportPhase.jsx:35 | `Math.round(count/total·100)` lies in `[0,100]` for a count of at most the total, is 0 for no misses and 100 when everyone missed |
| ReportPhase.MissedBy | pro/src/components/ReportPhase.jsx:30 | exactly the records whose wrong list contains the question |
| ReportPhase.Names | pro/src/components/ReportPhase.jsx:34 | the names of the records, in input order |
| ReportPhase.Stat | pro/src/components/ReportPhase.jsx:28-36 | the count is the number of records that missed `q`, the students are exactly their names in order, and the rate `round(100·count/len)` is within `[0,100]` |
| ReportPhase.Stats | pro/src/components/ReportPhase.jsx:28-37 | one statistic per question `1..T`, in number order |
| ReportPhase.Ordered | pro/src/components/ReportPhase.jsx:40-45 | both orders are permutations of the statistics |
| ReportPhase.Score | pro/src/components/ReportPhase.jsx:51 | a score exists iff there are questions, and then lies in `[0,100]` when the wrong count is at most `T` |
| ReportPhase.ScoreBound | pro/src/components/ReportPhase.jsx:51 | `round(100·(T-w)/T)` lies in `[0,100]` for `w <= T` |
| ReportPhase.Detail | pro/src/components/ReportPhase.jsx:49-58 | a student's detail: name, wrong list (empty if absent), its length and the score |
| ReportPhase.UnsortedDetails | pro/src/components/ReportPhase.jsx:49-58 | one detail per record, in input order |
| ReportPhase.Details | pro/src/components/ReportPhase.jsx:49-59 | a permutation of the details, by wrong count descending |
| ReportPhase.ScoresOf | pro/src/components/ReportPhase.jsx:48-52 | the score table has exactly the names of the records as keys |
| ReportPhase.ScoresLastWins | pro/src/components/ReportPhase.jsx:52 | for a repeated name, the last record's score is the one kept |
| ReportPhase.Analyse | pro/src/components/ReportPhase.jsx:22-67 | no results give empty statistics, details and scores and 0 students; otherwise `T` statistics (a permutation of `Stats`) and one detail per record |
| ReportPhase.ComputeDetails | pro/src/components/ReportPhase.jsx:48-59 | the loop that fills the score table and the details yields exactly `Details` and `ScoresOf` |
| ReportPhase.DetailsStep | pro/src/components/ReportPhase.jsx:49-58 | one step of that loop appends one detail and writes one score |
| ReportPhase.StatsStrictlySorted | pro/src/components/ReportPhase.jsx:28-29 | the statistics come strictly ascending by question number |
| ReportPhase.SequenceOrder | pro/src/components/ReportPhase.jsx:44 | `sequence` mode leaves the statistics in number order |
| ReportPhase.ErrorRateOrder | pro/src/components/ReportPhase.jsx:42 | `errorRate` mode orders by count descending, then number ascending, and is a permutation |
| ReportPhase.ErrorRateOrdersRates | pro/src/components/ReportPhase.jsx:35-42 | in `errorRate` mode the rates are non-increasing |
| ReportPhase.ModeIndependent | pro/src/components/ReportPhase.jsx:40-45 | resorting either order by number gives back the statistics in number order |
| ReportPhase.ScoreExample | pro/src/components/ReportPhase.jsx:51 | 20 questions with 3 wrong give 85 |
| ReportPhase.ScoreMonotone | pro/src/components/ReportPhase.jsx:51 | more wrong answers never give a higher score |
| ReportPhase.DetailsStable | pro/src/components/ReportPhase.jsx:59 | students with equal wrong counts keep their input order |
| ReportPhase.StatsIgnoreListOrder | pro/src/components/ReportPhase.jsx:290 | reordering a student's wrong list in place (as the report's card sort does) changes no statistic, count or score |
| ReportPhase.MissedBySameMisses | pro/src/components/ReportPhase.jsx:30-34 | records that miss the same question give the same names and count |
| ReportPhase.SameMisses | pro/src/components/ReportPhase.jsx:30-50 | two records whose missed questions are the same multiset miss the same questions and have the same wrong count |
| ReportPhase.NamesOfMissed | pro/src/components/ReportPhase.jsx:30-34 | the records missing a question, and their names, are the first record's (if it missed it) followed by the rest's |
| ReportPhase.ScoresSameCounts | pro/src/components/ReportPhase.jsx:48-52 | records with the same names and wrong counts give the same score table |
| ReportPhase.SeverityMonotone | pro/src/components/ReportPhase.jsx:70-121 | a higher rate never gets a milder style |
| ReportPhase.SeverityOf | pro/src/components/ReportPhase.jsx:70-121 | the style of a rate: 0% perfect, 1-20% low, 21-50% medium, 51-70% high, above 70% critical (a negative rate falls under low) |
| ReportPhase.RateAtLeast | pro/src/components/ReportPhase.jsx:35 | `rate >= k` iff `200·count >= (2k-1)·total` |
| ReportPhase.SeverityFromCount | pro/src/components/ReportPhase.jsx:70-121 | the five bands are exhaustive and exclusive, each an exact condition on count and total |
| ReportPhase.CsvRows | pro/src/components/ReportPhase.jsx:129-134 | one row per statistic, in order |
| ReportPhase.CsvRow | pro/src/components/ReportPhase.jsx:129-134 | the four CSV fields of a question (label, count, rate with `%`, quoted names joined by `", "`) joined by commas; `RowHasNoNewline` states that it stays on one line |
| ReportPhase.Csv | pro/src/components/ReportPhase.jsx:124-137 | no statistics: nothing is produced; otherwise the file starts with the byte-order mark |
| ReportPhase.RowHasNoNewline | pro/src/components/ReportPhase.jsx:129-134 | a row built from newline-free names holds no newline |
| ReportPhase.CsvLines | pro/src/components/ReportPhase.jsx:127-137 | after the mark, the lines are exactly the header and one row per question in number order, whatever the screen's sort mode |
| ReportPhase.CsvBody | pro/src/components/ReportPhase.jsx:126-136 | after the BOM, the file joins the header and one row per question in number order, whatever the screen's sort mode |
| ReportPhase.SplitLines | pro/src/components/ReportPhase.jsx:136 | lines without a line break, joined by `"\n"`, split back into the same lines |
| ReportPhase.HeaderHasNoNewline | pro/src/components/ReportPhase.jsx:128 | the header line holds no line break |
| ReportPhase.QuestionRowHasNoNewline | pro/src/components/ReportPhase.jsx:129-134 | the row of question `i + 1` holds no line break when no student name does |
| ReportPhase.RowsHaveNoNewline | pro/src/components/ReportPhase.jsx:129-134 | when no student name holds a line break, no question row does |
| ReportPhase.StudentsHaveNoNewline | pro/src/components/ReportPhase.jsx:34 | a statistic's students are newline-free when the names are |
| ReportPhase.QuestionPreview | pro/src/components/ReportPhase.jsx:393 | at most six cards, each a question somebody missed |
| ReportPhase.StudentPreview | pro/src/components/ReportPhase.jsx:415 | at most six cards, each a student with mistakes |
| ReportPhase.Truncated | pro/src/components/ReportPhase.jsx:403-408 | the first `limit` items, and the marker iff some were dropped |
| ReportPhase.WrongPreview | pro/src/components/ReportPhase.jsx:428-433 | at most eight of the student's questions, ascending, and the marker iff there are more than eight |
| ReportExportView.QuestionsWithMistakes | pro/src/components/report/ReportExportView.jsx:14-16 | exactly the statistics with a positive count, ascending by number |
| ReportExportView.StudentsWithMistakes | pro/src/components/report/ReportExportView.jsx:19-21 | exactly the details with a positive wrong count, by wrong count descending |
| ReportExportView.StudentCard | pro/src/components/report/ReportExportView.jsx:111 | the student's questions, all of them, ascending |
| ReportExportView.QuestionsAnyMode | pro/src/components/report/ReportExportView.jsx:14-16 | whatever the screen's order, the exported cards are the missed questions in number order |
| ReportExportView.StudentsKeepDetailOrder | pro/src/components/report/ReportExportView.jsx:19-21 | the exported student cards keep the report's detail order |
| ReportExportView.QuestionPreviewAnyMode | pro/src/components/ReportPhase.jsx:393 | the preview's question cards are the first six exported ones, whatever the screen's order |
| ReportExportView.StudentPreviewIsPrefix | pro/src/components/ReportPhase.jsx:415 | the preview's student cards are the first six exported ones |
| ReportExportView.PreviewTruncatesCard | pro/src/components/report/ReportExportView.jsx:73-80 | the exported card lists every student; the preview shows the first six and the marker iff some are hidden |
| ReportExportView.WrongPreviewIsPrefix | pro/src/components/report/ReportExportView.jsx:111 | the preview's student questions are the start of the exported card |
| ExportModal.Data | src/components/ExportModal/ExportModal.jsx:14-25 | exactly the entries with a positive count, a permutation of them; `number` strictly ascending by problem, `frequency` by count descending with ties ascending by problem |
| ExportModal.HotCount | src/components/ExportModal/ExportModal.jsx:83 | the number of hot entries, at most the number of entries |
| ExportModal.TotalErrors | src/components/ExportModal/ExportModal.jsx:81 | the sum of the counts; `TotalAtLeast` and `SummaryModeIndependent` state its bounds and its independence of the order |
| ExportModal.HotCards | src/components/ExportModal/ExportModal.jsx:122-130 | at most ten cards, each a hot entry of the data |
| ExportModal.SummaryModeIndependent | src/components/ExportModal/ExportModal.jsx:81-83 | total errors, problem count and hot count are the same in both orders |
| ExportModal.TotalAtLeast | src/components/ExportModal/ExportModal.jsx:81-83 | total errors are at least the number of problems plus three per hot one |
| ExportModal.BarColors | src/components/ExportModal/ExportModal.jsx:208-212 | a bar is red iff its problem is hot, and more errors never give a cooler colour |
| ExportModal.BarColorOf | src/components/ExportModal/ExportModal.jsx:208-212 | a bar is red exactly when its problem is hot (four or more errors) |
| ExportModal.BarWidth | src/components/ExportModal/ExportModal.jsx:207 | a count between 1 and the maximum gets a bar longer than zero and at most 700 pixels, and the maximum fills the track |
| ExportModal.MaxCount | src/components/ExportModal/ExportModal.jsx:190 | at least 1, no count above it, and it is a count unless it is 1 |
| ExportModal.BarsFit | src/components/ExportModal/ExportModal.jsx:190-207 | every bar is longer than zero and at most the 700-pixel track, and the longest fills the track |
| ExportModal.CanvasHeight | src/components/ExportModal/ExportModal.jsx:41-46 | the height is at least 490, and its closed form for at most four and for at least four problems |
| WrongList.WrongEntries | src/components/WrongList/WrongList.jsx:12-18 | exactly the counters of problems up to the problem count with a positive count, by count descending with ties ascending by problem |
| WrongList.TotalWrongs | src/components/WrongList/WrongList.jsx:20 | the sum of the listed counts; `PanelTotals` states its bounds and that it matches the export |
| WrongList.HotProblems | src/components/WrongList/WrongList.jsx:21 | the number of rows with four or more wrong answers, at most the number of rows |
| WrongList.BarPercent | src/components/WrongList/WrongList.jsx:84 | never above 100, never negative for non-negative counts, and 100 for the top entry |
| WrongList.ListIsExportWithinCount | src/components/WrongList/WrongList.jsx:12-18 | the panel is the exported frequency order minus the problems beyond the count |
| WrongList.ListMatchesExport | src/components/WrongList/WrongList.jsx:12-18 | when no counter lies beyond the count, the panel and the export list the same problems |
| WrongList.PanelTotals | src/components/WrongList/WrongList.jsx:20-21 | total wrongs are at least the number of rows plus three per hot one, and equal the export's figures when nothing lies beyond the count |
| WrongList.BarsWithinPanel | src/components/WrongList/WrongList.jsx:84 | every bar is in `(0,100]` percent and the first is 100 |
| WrongList.Rows | src/components/WrongList/WrongList.jsx:73-85 | row `i` shows entry `i`, rank `i+1`, the top-three flag iff `i < 3`, and its bar |
| WrongList.TopRows | src/components/WrongList/WrongList.jsx:76 | the flagged rows are exactly the first three |
| ProblemMatrix.ClampProblemCount | src/components/ProblemMatrix/ProblemMatrix.jsx:108-113 | the count lies in `[1,50]`; values inside are kept, above become 50, below become 1 |
| ProblemMatrix.Cells | src/components/ProblemMatrix/ProblemMatrix.jsx:94-123 | cells `1..problemCount`, each with its counter or 0 |
| ProblemMatrix.MatrixMax | src/components/ProblemMatrix/ProblemMatrix.jsx:22-23 | at least 1, no counter above it, a counter unless it is 1, and 1 for no counters |
| ProblemMatrix.ColorMax | src/components/ProblemMatrix/ProblemMatrix.jsx:55 | the colour scale's maximum is at least 10 and at least the largest counter |
| ProblemMatrix.IsWhiteText | src/components/ProblemMatrix/ProblemMatrix.jsx:55-59 | white text iff `10000·min(count, colorMax) > 3025·colorMax` |
| ProblemMatrix.WhiteFromFour | src/components/ProblemMatrix/ProblemMatrix.jsx:55-59 | while no counter exceeds 10, a number is white iff its problem is hot (four or more) |
| ProblemMatrix.WhiteTextMonotone | src/components/ProblemMatrix/ProblemMatrix.jsx:55-59 | more errors never turn a white number dark |
| ProblemMatrix.ZeroCellsPlain | src/components/ProblemMatrix/ProblemMatrix.jsx:121-142 | for non-negative counters, heat colour and badge go together, exactly when the count is positive |
| ProblemMatrix.BadgesMatchRanking | src/components/ProblemMatrix/ProblemMatrix.jsx:142 | a cell has a badge iff its problem is a row of the ranking panel |
| ProblemMatrix.Columns | src/components/ProblemMatrix/ProblemMatrix.jsx:62-64 | `2c² >= 3p`, and `c-1` would not do |
| ProblemMatrix.ColumnsLeast | src/components/ProblemMatrix/ProblemMatrix.jsx:63 | no smaller column count fits: `ceil(sqrt(1.5p))` is the least such `c` |
| ProblemMatrix.ColumnsExamples | src/components/ProblemMatrix/ProblemMatrix.jsx:63 | 20 problems give 6 columns, 50 give 9, 1 gives 2 |
| Rounding.RoundDiv | pro/src/components/ReportPhase.jsx:35 | `Math.round(num/den)`: the integer nearest the quotient, halves rounded up |
| Rounding.RoundDivUnique | pro/src/components/ReportPhase.jsx:35 | that integer is unique |
| Rounding.RoundDivMonotone | pro/src/components/ReportPhase.jsx:51 | rounding keeps the order of the numerators |
| Rounding.RoundDivBetween | pro/src/components/ReportPhase.jsx:35 | a rounded percentage of a part of a whole lies within `[0, scale]` |
| Text.Trim | src/components/StudentSelector/StudentSelector.jsx:45 | the result starts and ends with no white space |
| Text.TrimEmpty | src/components/StudentSelector/StudentSelector.jsx:44 | the trim is empty iff the text is all white space |
| Text.TrimIdempotent | src/components/StudentSelector/StudentSelector.jsx:45 | trimming twice is trimming once |
| Text.Split | src/components/StudentSelector/StudentSelector.jsx:45 | at least one part, none holding the separator |
| Text.JoinSplit | src/components/StudentSelector/StudentSelector.jsx:45 | joining the parts with the separator gives back the text |
| Text.SplitJoin | pro/src/components/ReportPhase.jsx:137 | splitting separator-free parts joined by the separator gives back the parts |
| Collections.SortBySorted | pro/src/components/ReportPhase.jsx:44 | a numeric-comparator sort leaves sorted input unchanged |
| Collections.SortBy | pro/src/components/ReportPhase.jsx:44 | a numeric-comparator sort: a permutation of its input, sorted by the key |
| Collections.SortByStable | pro/src/components/ReportPhase.jsx:59 | the sort keeps the input order among equal keys |
| Collections.SortByLex | src/components/WrongList/WrongList.jsx:18 | sorting input that is ascending by a tag on a key orders by key, then tag |
| Collections.EntriesStrictlySorted | src/components/WrongList/WrongList.jsx:12 | `Object.entries` lists the counters strictly ascending by problem |
| Collections.EntriesMembers | src/components/WrongList/WrongList.jsx:12 | an entry is listed iff it is a counter of the map |
| Collections.Entries | src/components/WrongList/WrongList.jsx:12 | `Object.entries` on the counters: one pair per key, each a key with its value, strictly ascending by key |

## Left out

- Rendering is not modelled: animation (`animateSelection`), canvas drawing, `html2canvas`, the HSL heat colour and the toast, header and modal components. The model keeps only the integer and rational quantities those screens display.
- File I/O, `JSON.parse`, Blob downloads and `localStorage` persistence are not modelled. The import check works on a `Backup` value whose fields may be absent.
- The clock is an input: the ISO time of a call record is the `time`/`now` parameter.
- The random source is not modelled: each `Math.random` draw in the shuffle is a nondeterministic choice of `j` in `0..i`. The random pick's result is proved for every such choice.
- Floating point is not modelled. Quotients are exact rationals or exact rounded integers, so float rounding at exact halves is not captured. The square root in the text colour is replaced by comparing squares, which is equivalent because the root is increasing.
- `Number(value)` on non-numeric or fractional input, `NaN` ratios, and a missing `pickRatios` (the `|| [10,15,25,25,25]` fallback) are not modelled. Ratios, counts and question totals are integers.
- Object keys that are not integer-like (`Object.entries` order for string keys) are not modelled. Counter maps have integer keys.
- The in-place `student.wrong.sort` is modelled on values. `StatsIgnoreListOrder` shows that reordering a wrong list changes no statistic, count or score. Aliasing between the sorted array and the results it came from is not captured.
- CSV quoting is not modelled: a name containing `"` is written unescaped, as in the code.
- Long-press timers and the related-problem highlight are not modelled. `setRelatedProblems` is modelled as a store method.
- `settings.hotThreshold` is unused by the displays, which hard-code 4. The model uses the constant `HotThreshold` and keeps the setting only as stored data.
- StudentSelector.Partition: it builds the clamped bands (`start = min(i·g, n)`), not the bands as written, whose sizes go negative for 1, 2, 3, 6, 7 and 11 students. `WrittenPickStalls` and `ThreeStudentsPickTwo` state what the code as written does then.
- StudentSelector.RandomPick: it models the pick with the clamped partition, so its contract is the corrected behaviour; with the bands as written the pick never ends (`WrittenPickStalls`) or draws too many students (`ThreeStudentsPickTwo`). It requires five ratios with a non-zero sum, because the code divides by the sum. It promises exactly `min(pickCount, n)` picks only for non-negative ratios; `NegativeRatioOverpicks` shows that a negative ratio draws one student too many.
- StudentSelector.HandleRandomPick: it models the handler with the clamped partition, so the behaviour as written for 1, 2, 3, 6, 7 and 11 students is stated only by `WrittenPickStalls` and `ThreeStudentsPickTwo`. When the roster is non-empty and no animation runs, it has the same preconditions on the stored ratios as `RandomPick`.
- StudentSelector.Repair: it requires that the band sizes add up to at least `count`, since the shortfall loop does not end otherwise. `ShortfallNeverEnds` states that non-termination for the code as written.
- ReportPhase.Score: with zero questions the code produces `NaN`; the model gives `None`.
- ReportPhase.Stats: `Number(totalQuestions)` on a non-integer is not modelled; the total is a `nat`.

## Findings

| source | as written | input that shows it | evidently intended | confidence | as-written member | corrected member |
|---|---|---|---|---|---|---|
| src/components/StudentSelector/StudentSelector.jsx:112-137 | band `i` starts at `i·ceil(n/5)` even past the roster, so its size `end - start` is negative; the bands' sizes then sum to less than the count and the shortfall loop never ends | 1 student, default ratios, pick count 1: sizes `[1,0,-1,-2,-3]` sum to -5 < 1 | sizes clamped at 0 (`start = min(i·g, n)`), so the sizes sum to `n` and the loops end with exactly `min(pickCount, n)` picks | high (proved, not executed) | StudentSelector.WrittenPickStalls | StudentSelector.RandomPick |
| src/components/StudentSelector/StudentSelector.jsx:112-162 | band E's negative size caps its allocation at a negative value that still counts toward the total, so the shortfall loop raises one band too many; the draw then skips the negative band, and more students are drawn than requested | 3 students, default ratios, pick count 1: sizes `[1,1,1,0,-1]`, two students are drawn | exactly one student drawn | high (proved, not executed) | StudentSelector.ThreeStudentsPickTwo | StudentSelector.RandomPick |
