/**
 * The wrong-answer ranking panel: the problems within the current problem
 * count that have wrong answers, most wrong answers first; the two summary
 * figures; and, per row, the rank, the top-three flag and the bar length.
 */
module WrongList {
  import opened Collections
  import opened Rounding
  import opened ExportModal

  /** `parseInt(key) <= problemCount && count > 0`. */
  function Listed(problemCount: int): ((int, int)) -> bool {
    (e: (int, int)) => e.0 <= problemCount && e.1 > 0
  }

  /** `wrongEntries`: the listed entries, by count descending. */
  function WrongEntries(problems: map<int, int>, problemCount: int): (r: seq<(int, int)>)
    ensures forall e :: e in r <==> e.0 in problems && problems[e.0] == e.1 && e.0 <= problemCount && e.1 > 0
    ensures forall i, j :: 0 <= i < j < |r| ==> r[i].1 > r[j].1 || (r[i].1 == r[j].1 && r[i].0 < r[j].0)
  {
    var kept := Filter(Entries(problems), Listed(problemCount));
    EntriesMembers(problems);
    EntriesStrictlySorted(problems);
    FilterStrictlySorted(Entries(problems), EntryKey, Listed(problemCount));
    SortByLex(kept, NegEntryCount, EntryKey);
    SortByMembers(kept, NegEntryCount);
    SortBy(kept, NegEntryCount)
  }

  /** `totalWrongs`. */
  function TotalWrongs(entries: seq<(int, int)>): int {
    SumBy(entries, EntryCount)
  }

  /** `hotProblems`: entries with at least four wrong answers. */
  function HotProblems(entries: seq<(int, int)>): (r: nat)
    ensures r <= |entries|
  {
    HotCount(entries)
  }

  /**
   * `Math.min(100, (count / (first || 1)) * 100)`, exactly: never over 100, never
   * negative for counts that are not, and full for the top entry.
   */
  function BarPercent(count: int, first: int): (r: real)
    ensures r <= 100.0
    ensures count >= 0 && first >= 0 ==> r >= 0.0
    ensures first > 0 && count >= first ==> r == 100.0
  {
    var base := if first == 0 then 1 else first;
    var p := (count as real / base as real) * 100.0;
    if p < 100.0 then p else 100.0
  }

  /**
   * The panel shows the export image's frequency order restricted to the
   * problems within the current count: the image keeps problems beyond it.
   */
  lemma ListIsExportWithinCount(problems: map<int, int>, problemCount: int)
    ensures WrongEntries(problems, problemCount)
         == Filter(Data(problems, Frequency), (e: (int, int)) => e.0 <= problemCount)
  {
    var within := (e: (int, int)) => e.0 <= problemCount;
    var kept := Filter(Entries(problems), Positive);
    SortByFilter(kept, NegEntryCount, within);
    FilterFilter(Entries(problems), Positive, within, Listed(problemCount));
  }

  /** Within the current count, nothing is dropped: the panel and the image list the same problems. */
  lemma ListMatchesExport(problems: map<int, int>, problemCount: int)
    requires forall p :: p in problems ==> p <= problemCount
    ensures WrongEntries(problems, problemCount) == Data(problems, Frequency)
  {
    ListIsExportWithinCount(problems, problemCount);
    FilterAll(Data(problems, Frequency), (e: (int, int)) => e.0 <= problemCount);
  }

  /**
   * Every listed problem counts at least once and a hot one at least four
   * times; within the current count the panel's figures are the image's.
   */
  lemma PanelTotals(problems: map<int, int>, problemCount: int)
    ensures TotalWrongs(WrongEntries(problems, problemCount))
         >= |WrongEntries(problems, problemCount)| + 3 * HotProblems(WrongEntries(problems, problemCount))
    ensures (forall p :: p in problems ==> p <= problemCount) ==>
      TotalWrongs(WrongEntries(problems, problemCount)) == TotalErrors(Data(problems, Number))
      && HotProblems(WrongEntries(problems, problemCount)) == HotCount(Data(problems, Number))
  {
    var entries := WrongEntries(problems, problemCount);
    assert forall k :: 0 <= k < |entries| ==> entries[k] in entries;
    TotalAtLeast(entries);
    if forall p :: p in problems ==> p <= problemCount {
      ListMatchesExport(problems, problemCount);
      SummaryModeIndependent(problems);
    }
  }

  /**
   * The first row has the most wrong answers, so every bar is positive and
   * at most full, and the first is full.
   */
  lemma BarsWithinPanel(problems: map<int, int>, problemCount: int, index: nat)
    requires index < |WrongEntries(problems, problemCount)|
    ensures 0.0 < BarPercent(WrongEntries(problems, problemCount)[index].1, WrongEntries(problems, problemCount)[0].1) <= 100.0
    ensures index == 0 ==> BarPercent(WrongEntries(problems, problemCount)[0].1, WrongEntries(problems, problemCount)[0].1) == 100.0
  {
    var entries := WrongEntries(problems, problemCount);
    assert entries[index] in entries && entries[0] in entries;
    FractionAtMostOne(entries[index].1 as real, entries[0].1 as real);
  }

  /** One row of the panel: the problem, its count, the rank, the top-three flag and the bar. */
  datatype Row = Row(num: int, count: int, rank: int, top3: bool, bar: real)

  /** `wrongEntries.map(([num, count], index) => …)`. */
  function Rows(entries: seq<(int, int)>): (r: seq<Row>)
    ensures |r| == |entries|
    ensures forall i :: 0 <= i < |r| ==> r[i].num == entries[i].0 && r[i].count == entries[i].1
    ensures forall i :: 0 <= i < |r| ==> r[i].rank == i + 1 && (r[i].top3 <==> i < 3)
    ensures forall i :: 0 <= i < |r| ==> r[i].bar == BarPercent(entries[i].1, entries[0].1)
  {
    seq(|entries|, i requires 0 <= i < |entries| =>
      Row(entries[i].0, entries[i].1, i + 1, i < 3, BarPercent(entries[i].1, entries[0].1)))
  }

  function IsTopRow(r: Row): bool { r.top3 }

  /** The flagged rows are exactly the first three (or all, when there are fewer). */
  lemma TopRows(entries: seq<(int, int)>)
    ensures Filter(Rows(entries), IsTopRow) == Rows(entries)[..Min(3, |entries|)]
  {
    var rows := Rows(entries);
    var m := Min(3, |entries|);
    assert rows == rows[..m] + rows[m..];
    FilterAppend(rows[..m], rows[m..], IsTopRow);
    FilterAll(rows[..m], IsTopRow);
    FilterNone(rows[m..], IsTopRow);
  }
}
