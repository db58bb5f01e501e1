/**
 * The statistics behind the diagnostic report: for each question, who got it
 * wrong and what share of the class that is; for each student, how many
 * questions they missed and the resulting score; two orders for the question
 * list; a five-band severity scale; the CSV export; and the truncated previews.
 */
module ReportPhase {
  import opened Wrappers
  import opened Collections
  import opened Rounding
  import opened Text

  /** One student's result: a name and, when present, the questions missed. */
  datatype WrongRecord = WrongRecord(name: string, wrong: Option<seq<int>>)

  datatype QuestionStat = QuestionStat(qNum: int, count: int, students: seq<string>, rate: int)

  /** `score` is `None` where the source computes `NaN` or an infinity (no questions). */
  datatype StudentDetail = StudentDetail(name: string, wrong: seq<int>, score: Option<int>, wrongCount: int)

  datatype SortMode = Sequence | ErrorRate

  datatype Report = Report(
    questionStats: seq<QuestionStat>,
    scores: map<string, Option<int>>,
    totalStudents: nat,
    details: seq<StudentDetail>)

  /** `r.wrong && r.wrong.includes(q)`: a record without a list misses nothing. */
  predicate Misses(r: WrongRecord, q: int): (missed: bool)
    ensures missed <==> q in WrongList(r)
  {
    r.wrong.Some? && q in r.wrong.value
  }

  /** `r.wrong || []`. */
  function WrongList(r: WrongRecord): seq<int> {
    r.wrong.GetOr([])
  }

  /** `r.wrong ? r.wrong.length : 0`. */
  function WrongCount(r: WrongRecord): (c: nat)
    ensures c == |WrongList(r)|
    ensures r.wrong.None? ==> c == 0
  {
    if r.wrong.Some? then |r.wrong.value| else 0
  }

  /** The records that missed question `q`, in input order. */
  function MissedBy(results: seq<WrongRecord>, q: int): (r: seq<WrongRecord>)
    ensures |r| <= |results|
    ensures forall x :: x in r <==> x in results && Misses(x, q)
  {
    Filter(results, (x: WrongRecord) => Misses(x, q))
  }

  function Names(rs: seq<WrongRecord>): (r: seq<string>)
    ensures |r| == |rs|
    ensures forall k :: 0 <= k < |rs| ==> r[k] == rs[k].name
    ensures forall n :: n in r <==> exists x :: x in rs && x.name == n
  {
    var r := seq(|rs|, k requires 0 <= k < |rs| => rs[k].name);
    assert forall x :: x in rs ==> x.name in r by {
      forall x | x in rs ensures x.name in r {
        var k :| 0 <= k < |rs| && rs[k] == x;
        assert r[k] == x.name;
      }
    }
    r
  }

  /** `Math.round((count / total) * 100)`, the share of the class as a whole percentage. */
  function Rate(count: int, total: int): (r: int)
    requires total > 0
    ensures 0 <= count <= total ==> 0 <= r <= 100
    ensures count == 0 ==> r == 0
    ensures count == total ==> r == 100
  {
    var r := RoundDiv(100 * count, total);
    if 0 <= count <= total then
      assert 0 <= r by {
        CancelPositive(2 * total, -1, r);
      }
      assert r <= 100 by {
        CancelPositive(2 * total, r, 101);
      }
      RoundDivExact(0, total);
      RoundDivExact(100, total);
      r
    else
      r
  }

  /**
   * The statistic of question `q`: the number of records that missed it, their
   * names in input order, and the rounded percentage of the class.
   */
  function Stat(results: seq<WrongRecord>, q: int): (s: QuestionStat)
    requires |results| > 0
    ensures s.qNum == q
    ensures s.count == |MissedBy(results, q)| && s.students == Names(MissedBy(results, q))
    ensures forall n :: n in s.students <==> exists x :: x in results && x.name == n && Misses(x, q)
    ensures 0 <= s.count <= |results|
    ensures 0 <= s.rate <= 100 && s.rate == Rate(s.count, |results|)
  {
    var missed := MissedBy(results, q);
    RoundDivBetween(|missed|, |results|, 100);
    QuestionStat(q, |missed|, Names(missed), Rate(|missed|, |results|))
  }

  /** `Array.from({ length: T }, …)`: one statistic per question `1..T`. */
  function Stats(results: seq<WrongRecord>, total: nat): (r: seq<QuestionStat>)
    requires |results| > 0
    ensures |r| == total
    ensures forall i :: 0 <= i < total ==> r[i] == Stat(results, i + 1)
  {
    seq(total, i requires 0 <= i < total => Stat(results, i + 1))
  }

  function QNum(s: QuestionStat): int { s.qNum }

  function NegCount(s: QuestionStat): int { -s.count }

  /**
   * The question order. `sequence` sorts by number; `errorRate` sorts by count
   * descending, and among equal counts by number. The statistics arrive in
   * ascending number, so a stable sort on the count alone yields the same
   * order as the two-level comparator (see `ErrorRateOrder`).
   */
  function Ordered(stats: seq<QuestionStat>, mode: SortMode): (r: seq<QuestionStat>)
    ensures multiset(r) == multiset(stats)
  {
    match mode
    case Sequence => SortBy(stats, QNum)
    case ErrorRate => SortBy(stats, NegCount)
  }

  /** `Math.round(((T - wrongCount) / T) * 100)`; without questions the source gets `NaN` or an infinity. */
  function Score(total: nat, wrongCount: nat): (r: Option<int>)
    ensures r.Some? <==> total > 0
    ensures total > 0 && wrongCount <= total ==> 0 <= r.value <= 100
  {
    if total == 0 then None
    else
      ScoreBound(total, wrongCount);
      Some(RoundDiv(100 * (total - wrongCount), total))
  }

  lemma ScoreBound(total: nat, wrongCount: nat)
    requires total > 0
    ensures wrongCount <= total ==> 0 <= RoundDiv(100 * (total - wrongCount), total) <= 100
  {
    if wrongCount <= total {
      RoundDivBetween(total - wrongCount, total, 100);
    }
  }

  function Detail(r: WrongRecord, total: nat): (d: StudentDetail)
    ensures d.name == r.name && d.wrong == WrongList(r) && d.wrongCount == |d.wrong|
    ensures d.score == Score(total, WrongCount(r))
  {
    StudentDetail(r.name, WrongList(r), Score(total, WrongCount(r)), WrongCount(r))
  }

  function NegWrongCount(d: StudentDetail): int { -d.wrongCount }

  /** `results.map(…)`, before the sort. */
  function UnsortedDetails(results: seq<WrongRecord>, total: nat): (r: seq<StudentDetail>)
    ensures |r| == |results|
    ensures forall k :: 0 <= k < |r| ==> r[k] == Detail(results[k], total)
  {
    seq(|results|, k requires 0 <= k < |results| => Detail(results[k], total))
  }

  /** The details, most wrong answers first. */
  function Details(results: seq<WrongRecord>, total: nat): (r: seq<StudentDetail>)
    ensures multiset(r) == multiset(UnsortedDetails(results, total))
    ensures forall i, j :: 0 <= i < j < |r| ==> r[i].wrongCount >= r[j].wrongCount
  {
    var r := SortBy(UnsortedDetails(results, total), NegWrongCount);
    assert forall i, j :: 0 <= i < j < |r| ==> NegWrongCount(r[i]) <= NegWrongCount(r[j]);
    r
  }

  /** `scores[r.name] = score`, record by record: a later record of the same name overwrites. */
  function ScoresOf(results: seq<WrongRecord>, total: nat): (m: map<string, Option<int>>)
    ensures forall k :: 0 <= k < |results| ==> results[k].name in m
    ensures forall n :: n in m ==> exists k :: 0 <= k < |results| && results[k].name == n
  {
    if results == [] then map[]
    else
      var n := |results| - 1;
      var m := ScoresOf(results[..n], total);
      assert forall k :: 0 <= k < n ==> results[..n][k] == results[k];
      m[results[n].name := Score(total, WrongCount(results[n]))]
  }

  /** The score recorded for a name is that of the last record carrying the name. */
  lemma {:induction false} ScoresLastWins(results: seq<WrongRecord>, total: nat, k: int)
    requires 0 <= k < |results|
    requires forall j :: k < j < |results| ==> results[j].name != results[k].name
    ensures ScoresOf(results, total)[results[k].name] == Score(total, WrongCount(results[k]))
  {
    var n := |results| - 1;
    var prefix := results[..n];
    var before := ScoresOf(prefix, total);
    assert ScoresOf(results, total) == before[results[n].name := Score(total, WrongCount(results[n]))];
    if k < n {
      assert prefix[k] == results[k];
      forall j | k < j < n ensures prefix[j].name != prefix[k].name {
        assert prefix[j] == results[j];
      }
      ScoresLastWins(prefix, total, k);
      assert results[n].name != results[k].name;
    }
  }

  /** The whole `useMemo` block. */
  function Analyse(results: seq<WrongRecord>, total: nat, mode: SortMode): (r: Report)
    ensures r.totalStudents == |results|
    ensures results == [] ==> r.questionStats == [] && r.details == [] && r.scores == map[]
    ensures results != [] ==> |r.questionStats| == total && multiset(r.questionStats) == multiset(Stats(results, total))
    ensures |r.details| == |results|
  {
    if results == [] then Report([], map[], 0, [])
    else
      var details := Details(results, total);
      assert |details| == |multiset(details)|;
      Report(Ordered(Stats(results, total), mode), ScoresOf(results, total), |results|, details)
  }

  /**
   * The loop the `results.map` callback amounts to: one detail per record,
   * filling the score table as it goes, then the sort.
   */
  method ComputeDetails(results: seq<WrongRecord>, total: nat) returns (details: seq<StudentDetail>, scores: map<string, Option<int>>)
    ensures details == Details(results, total)
    ensures scores == ScoresOf(results, total)
  {
    var unsorted := [];
    scores := map[];
    for i := 0 to |results|
      invariant unsorted == UnsortedDetails(results[..i], total)
      invariant scores == ScoresOf(results[..i], total)
    {
      var wrongCount := WrongCount(results[i]);
      var score := Score(total, wrongCount);
      DetailsStep(results, total, i);
      scores := scores[results[i].name := score];
      unsorted := unsorted + [StudentDetail(results[i].name, WrongList(results[i]), score, wrongCount)];
    }
    assert results[..|results|] == results;
    details := SortBy(unsorted, NegWrongCount);
  }

  /** One more record: one more detail at the end, one more entry in the score table. */
  lemma DetailsStep(results: seq<WrongRecord>, total: nat, i: int)
    requires 0 <= i < |results|
    ensures UnsortedDetails(results[..i + 1], total) == UnsortedDetails(results[..i], total) + [Detail(results[i], total)]
    ensures ScoresOf(results[..i + 1], total)
         == ScoresOf(results[..i], total)[results[i].name := Score(total, WrongCount(results[i]))]
  {
    assert results[..i + 1][..i] == results[..i];
  }

  // ---------------------------------------------------------------------
  // Properties of the statistics
  // ---------------------------------------------------------------------

  lemma StatsStrictlySorted(results: seq<WrongRecord>, total: nat)
    requires |results| > 0
    ensures StrictlySortedBy(Stats(results, total), QNum)
  {
  }

  /** `sequence` mode leaves the statistics in question order. */
  lemma SequenceOrder(results: seq<WrongRecord>, total: nat)
    requires |results| > 0
    ensures Ordered(Stats(results, total), Sequence) == Stats(results, total)
  {
    StatsStrictlySorted(results, total);
    SortBySorted(Stats(results, total), QNum);
  }

  /**
   * `errorRate` mode: a permutation of the statistics ordered by count
   * descending and, among equal counts, by question number ascending.
   */
  lemma ErrorRateOrder(results: seq<WrongRecord>, total: nat)
    requires |results| > 0
    ensures LexSortedBy(Ordered(Stats(results, total), ErrorRate), NegCount, QNum)
    ensures multiset(Ordered(Stats(results, total), ErrorRate)) == multiset(Stats(results, total))
  {
    StatsStrictlySorted(results, total);
    SortByLex(Stats(results, total), NegCount, QNum);
  }

  /** In `errorRate` mode the rates are non-increasing too. */
  lemma ErrorRateOrdersRates(results: seq<WrongRecord>, total: nat, i: int, j: int)
    requires |results| > 0
    requires 0 <= i < j < total
    ensures Ordered(Stats(results, total), ErrorRate)[i].rate >= Ordered(Stats(results, total), ErrorRate)[j].rate
  {
    var stats := Stats(results, total);
    var o := Ordered(stats, ErrorRate);
    assert |o| == |multiset(o)| == |multiset(stats)| == total;
    assert NegCount(o[i]) <= NegCount(o[j]);
    assert o[i] in multiset(stats) && o[j] in multiset(stats);
    var a :| 0 <= a < total && stats[a] == o[i];
    var b :| 0 <= b < total && stats[b] == o[j];
    RoundDivMonotone(100 * o[j].count, 100 * o[i].count, |results|);
  }

  /** Sorting either order by question number recovers the statistics. */
  lemma ModeIndependent(results: seq<WrongRecord>, total: nat, mode: SortMode)
    requires |results| > 0
    ensures SortBy(Ordered(Stats(results, total), mode), QNum) == Stats(results, total)
  {
    var stats := Stats(results, total);
    StatsStrictlySorted(results, total);
    SortedUnique(SortBy(Ordered(stats, mode), QNum), stats, QNum);
  }

  /** With 20 questions, three wrong answers score 85. */
  lemma ScoreExample()
    ensures Score(20, 3) == Some(85)
  {
    RoundDivUnique(1700, 20, 85);
  }

  /** More wrong answers never give a higher score. */
  lemma ScoreMonotone(total: nat, a: nat, b: nat)
    requires total > 0 && a <= b
    ensures Score(total, b).value <= Score(total, a).value
  {
    RoundDivMonotone(100 * (total - b), 100 * (total - a), total);
  }

  /** The details are a stable sort: students with equal counts keep their input order. */
  lemma DetailsStable(results: seq<WrongRecord>, total: nat, v: int)
    ensures Filter(Details(results, total), (d: StudentDetail) => d.wrongCount == v)
         == Filter(UnsortedDetails(results, total), (d: StudentDetail) => d.wrongCount == v)
  {
    SortByStable(UnsortedDetails(results, total), NegWrongCount, -v, (d: StudentDetail) => d.wrongCount == v);
  }

  /**
   * The views sort each student's `wrong` array in place, and that array is
   * the record's own. Reordering the lists changes neither the statistics nor
   * the counts and scores derived from them.
   */
  lemma StatsIgnoreListOrder(results: seq<WrongRecord>, sorted: seq<WrongRecord>, total: nat)
    requires |results| == |sorted| > 0
    requires forall k :: 0 <= k < |results| ==>
      sorted[k].name == results[k].name && sorted[k].wrong.Some? == results[k].wrong.Some?
    requires forall k :: 0 <= k < |results| ==> multiset(WrongList(sorted[k])) == multiset(WrongList(results[k]))
    ensures Stats(sorted, total) == Stats(results, total)
    ensures ScoresOf(sorted, total) == ScoresOf(results, total)
    ensures forall k :: 0 <= k < |results| ==>
      Detail(sorted[k], total).wrongCount == Detail(results[k], total).wrongCount
      && Detail(sorted[k], total).score == Detail(results[k], total).score
  {
    forall k | 0 <= k < |results|
      ensures WrongCount(sorted[k]) == WrongCount(results[k])
      ensures forall q :: Misses(sorted[k], q) == Misses(results[k], q)
    {
      SameMisses(results[k], sorted[k]);
    }
    forall q | 1 <= q <= total ensures Stat(sorted, q) == Stat(results, q) {
      MissedBySameMisses(results, sorted, q);
    }
    assert Stats(sorted, total) == Stats(results, total);
    ScoresSameCounts(results, sorted, total);
  }

  /** Two records whose lists hold the same questions miss the same questions, equally often. */
  lemma SameMisses(a: WrongRecord, b: WrongRecord)
    requires a.wrong.Some? == b.wrong.Some?
    requires multiset(WrongList(a)) == multiset(WrongList(b))
    ensures WrongCount(a) == WrongCount(b)
    ensures forall q :: Misses(a, q) == Misses(b, q)
  {
    assert |multiset(WrongList(a))| == |multiset(WrongList(b))|;
    forall q ensures Misses(a, q) == Misses(b, q) {
      assert q in WrongList(a) <==> q in multiset(WrongList(a));
      assert q in WrongList(b) <==> q in multiset(WrongList(b));
    }
  }

  lemma {:induction false} MissedBySameMisses(a: seq<WrongRecord>, b: seq<WrongRecord>, q: int)
    requires |a| == |b|
    requires forall k :: 0 <= k < |a| ==> b[k].name == a[k].name && Misses(b[k], q) == Misses(a[k], q)
    ensures Names(MissedBy(b, q)) == Names(MissedBy(a, q))
    ensures |MissedBy(b, q)| == |MissedBy(a, q)|
  {
    if a != [] {
      assert forall k :: 0 <= k < |a| - 1 ==> b[1..][k] == b[k + 1] && a[1..][k] == a[k + 1];
      MissedBySameMisses(a[1..], b[1..], q);
      NamesOfMissed(a, q);
      NamesOfMissed(b, q);
    }
  }

  /** The first record contributes its name, when it missed the question, ahead of the rest. */
  lemma NamesOfMissed(a: seq<WrongRecord>, q: int)
    requires a != []
    ensures |MissedBy(a, q)| == (if Misses(a[0], q) then 1 else 0) + |MissedBy(a[1..], q)|
    ensures Names(MissedBy(a, q)) == (if Misses(a[0], q) then [a[0].name] else []) + Names(MissedBy(a[1..], q))
  {
    var rest := MissedBy(a[1..], q);
    if Misses(a[0], q) {
      assert MissedBy(a, q) == [a[0]] + rest;
      assert Names([a[0]] + rest) == [a[0].name] + Names(rest);
    } else {
      assert MissedBy(a, q) == rest;
    }
  }

  lemma {:induction false} ScoresSameCounts(a: seq<WrongRecord>, b: seq<WrongRecord>, total: nat)
    requires |a| == |b|
    requires forall k :: 0 <= k < |a| ==> b[k].name == a[k].name && WrongCount(b[k]) == WrongCount(a[k])
    ensures ScoresOf(b, total) == ScoresOf(a, total)
  {
    if a != [] {
      var n := |a| - 1;
      ScoresSameCounts(a[..n], b[..n], total);
    }
  }

  // ---------------------------------------------------------------------
  // Severity
  // ---------------------------------------------------------------------

  /** The five styles of `getErrorRateStyle`. */
  datatype Severity = Perfect | Low | Medium | High | Critical

  /**
   * The style a rate gets: 0% is perfect, 1-20% low, 21-50% medium, 51-70%
   * high and above 70% critical; a negative rate, which no statistic has,
   * falls under low.
   */
  function SeverityOf(rate: int): (s: Severity)
    ensures s == Perfect <==> rate == 0
    ensures s == Low <==> rate < 0 || 1 <= rate <= 20
    ensures s == Medium <==> 21 <= rate <= 50
    ensures s == High <==> 51 <= rate <= 70
    ensures s == Critical <==> rate > 70
  {
    if rate == 0 then Perfect
    else if rate <= 20 then Low
    else if rate <= 50 then Medium
    else if rate <= 70 then High
    else Critical
  }

  function Level(s: Severity): int {
    match s
    case Perfect => 0
    case Low => 1
    case Medium => 2
    case High => 3
    case Critical => 4
  }

  /** Over the possible rates, a higher rate never gets a milder style. */
  lemma SeverityMonotone(a: int, b: int)
    requires 0 <= a <= b
    ensures Level(SeverityOf(a)) <= Level(SeverityOf(b))
  {
  }

  /** A rounded share reaches `k` percent exactly when `200 * count >= (2k - 1) * total`. */
  lemma RateAtLeast(count: int, total: int, k: int)
    requires total > 0
    ensures Rate(count, total) >= k <==> 200 * count >= (2 * k - 1) * total
  {
    var r := Rate(count, total);
    if r >= k {
      assert 2 * total * r >= 2 * total * k;
    } else {
      assert 2 * total * (r + 1) <= 2 * total * k;
    }
  }

  /**
   * The style of a question follows from its count and the class size alone:
   * thresholds at one half, 20.5, 50.5 and 70.5 percent. In particular a
   * question missed by fewer than one student in two hundred shows as perfect.
   */
  lemma SeverityFromCount(count: int, total: int)
    requires 0 <= count && total > 0
    ensures SeverityOf(Rate(count, total)) == Perfect <==> 200 * count < total
    ensures SeverityOf(Rate(count, total)) == Low <==> total <= 200 * count < 41 * total
    ensures SeverityOf(Rate(count, total)) == Medium <==> 41 * total <= 200 * count < 101 * total
    ensures SeverityOf(Rate(count, total)) == High <==> 101 * total <= 200 * count < 141 * total
    ensures SeverityOf(Rate(count, total)) == Critical <==> 141 * total <= 200 * count
  {
    RoundDivBetween(0, 1, 0);
    assert Rate(count, total) >= 0 by {
      RoundDivMonotone(0, 100 * count, total);
      RoundDivExact(0, total);
    }
    RateAtLeast(count, total, 1);
    RateAtLeast(count, total, 21);
    RateAtLeast(count, total, 51);
    RateAtLeast(count, total, 71);
  }

  // ---------------------------------------------------------------------
  // CSV export
  // ---------------------------------------------------------------------

  const Bom: char := '\U{FEFF}'

  const CsvHeader: string := "题号,错误人数,错误率,错误学生"

  /** One row: the question label, the count, the rate with `%`, the quoted names. */
  function CsvRow(q: QuestionStat): string {
    Join(["第" + IntStr(q.qNum) + "题", IntStr(q.count), IntStr(q.rate) + "%", "\"" + Join(q.students, ", ") + "\""], ",")
  }

  function CsvRows(stats: seq<QuestionStat>): (r: seq<string>)
    ensures |r| == |stats|
    ensures forall k :: 0 <= k < |stats| ==> r[k] == CsvRow(stats[k])
  {
    seq(|stats|, k requires 0 <= k < |stats| => CsvRow(stats[k]))
  }

  /** `handleExportCSV`: nothing without statistics, else the BOM, the header and a row per question. */
  function Csv(questionStats: seq<QuestionStat>): (r: Option<string>)
    ensures r.Some? <==> questionStats != []
    ensures r.Some? ==> |r.value| >= 1 && r.value[0] == Bom
  {
    if questionStats == [] then None
    else Some([Bom] + Join([CsvHeader] + CsvRows(SortBy(questionStats, QNum)), "\n"))
  }

  predicate NoNewline(s: string) {
    '\n' !in s
  }

  lemma RowHasNoNewline(q: QuestionStat)
    requires forall k :: 0 <= k < |q.students| ==> NoNewline(q.students[k])
    ensures NoNewline(CsvRow(q))
  {
    JoinAvoids(q.students, ", ", '\n');
    var parts := ["第" + IntStr(q.qNum) + "题", IntStr(q.count), IntStr(q.rate) + "%", "\"" + Join(q.students, ", ") + "\""];
    forall k | 0 <= k < |parts| ensures '\n' !in parts[k] {
    }
    JoinAvoids(parts, ",", '\n');
  }

  /**
   * When no name holds a line break, the file after the BOM splits into the
   * header and one row per question `1..T` in ascending order, whatever the
   * on-screen sort mode.
   */
  lemma CsvLines(results: seq<WrongRecord>, total: nat, mode: SortMode)
    requires results != [] && total > 0
    requires forall k :: 0 <= k < |results| ==> NoNewline(results[k].name)
    ensures Csv(Analyse(results, total, mode).questionStats).Some?
    ensures Split(Csv(Analyse(results, total, mode).questionStats).value[1..], '\n')
         == [CsvHeader] + CsvRows(Stats(results, total))
  {
    CsvBody(results, total, mode);
    HeaderHasNoNewline();
    RowsHaveNoNewline(results, total);
    SplitLines(Csv(Analyse(results, total, mode).questionStats).value[1..], CsvHeader, CsvRows(Stats(results, total)));
  }

  /** Lines free of line breaks, joined by `"\n"`, split back into the same lines. */
  lemma SplitLines(body: string, header: string, rows: seq<string>)
    requires body == Join([header] + rows, "\n")
    requires NoNewline(header)
    requires forall k :: 0 <= k < |rows| ==> NoNewline(rows[k])
    ensures Split(body, '\n') == [header] + rows
  {
    SplitJoinCons(body, header, rows, '\n');
  }

  /** After the BOM, the file joins the header and the rows of the statistics in question order. */
  lemma CsvBody(results: seq<WrongRecord>, total: nat, mode: SortMode)
    requires results != [] && total > 0
    ensures Csv(Analyse(results, total, mode).questionStats).Some?
    ensures Csv(Analyse(results, total, mode).questionStats).value[1..]
         == Join([CsvHeader] + CsvRows(Stats(results, total)), "\n")
  {
    var stats := Stats(results, total);
    var shown := Analyse(results, total, mode).questionStats;
    assert shown == Ordered(stats, mode);
    ModeIndependent(results, total, mode);
    var lines := [CsvHeader] + CsvRows(stats);
    assert Csv(shown).value == [Bom] + Join(lines, "\n");
  }

  lemma RowsHaveNoNewline(results: seq<WrongRecord>, total: nat)
    requires results != []
    requires forall k :: 0 <= k < |results| ==> NoNewline(results[k].name)
    ensures forall k :: 0 <= k < |CsvRows(Stats(results, total))| ==> NoNewline(CsvRows(Stats(results, total))[k])
  {
    forall k | 0 <= k < |CsvRows(Stats(results, total))| ensures NoNewline(CsvRows(Stats(results, total))[k]) {
      QuestionRowHasNoNewline(results, total, k);
    }
  }

  lemma HeaderHasNoNewline()
    ensures NoNewline(CsvHeader)
  {
    forall k | 0 <= k < |CsvHeader| ensures CsvHeader[k] != '\n' {
    }
  }

  lemma QuestionRowHasNoNewline(results: seq<WrongRecord>, total: nat, i: nat)
    requires results != [] && i < total
    requires forall k :: 0 <= k < |results| ==> NoNewline(results[k].name)
    ensures NoNewline(CsvRows(Stats(results, total))[i])
  {
    var s := Stats(results, total)[i];
    assert s == Stat(results, i + 1);
    StudentsHaveNoNewline(results, i + 1);
    RowHasNoNewline(s);
  }

  lemma StudentsHaveNoNewline(results: seq<WrongRecord>, q: int)
    requires results != []
    requires forall k :: 0 <= k < |results| ==> NoNewline(results[k].name)
    ensures forall j :: 0 <= j < |Stat(results, q).students| ==> NoNewline(Stat(results, q).students[j])
  {
    var missed := MissedBy(results, q);
    forall j | 0 <= j < |missed| ensures NoNewline(missed[j].name) {
      assert missed[j] in results;
    }
  }

  // ---------------------------------------------------------------------
  // Previews
  // ---------------------------------------------------------------------

  function HasMistakes(q: QuestionStat): bool { q.count > 0 }

  function StudentHasMistakes(d: StudentDetail): bool { d.wrongCount > 0 }

  /** The question cards of the preview: missed questions by number, at most six. */
  function QuestionPreview(stats: seq<QuestionStat>): (r: seq<QuestionStat>)
    ensures |r| <= 6
    ensures forall q :: q in r ==> q in stats && q.count > 0
  {
    var sorted := SortBy(Filter(stats, HasMistakes), QNum);
    var r := Take(sorted, 6);
    forall q | q in r ensures q in Filter(stats, HasMistakes) {
      assert q in multiset(sorted);
      assert q in multiset(Filter(stats, HasMistakes));
    }
    r
  }

  /** The student cards of the preview: students with mistakes in detail order, at most six. */
  function StudentPreview(details: seq<StudentDetail>): (r: seq<StudentDetail>)
    ensures |r| <= 6
    ensures forall d :: d in r ==> d in details && d.wrongCount > 0
  {
    Take(Filter(details, StudentHasMistakes), 6)
  }

  /** The first `limit` items and whether the `...` marker follows them. */
  function Truncated<T>(items: seq<T>, limit: nat): (r: (seq<T>, bool))
    ensures |r.0| == Min(limit, |items|) && items == r.0 + items[|r.0|..]
    ensures r.1 <==> |r.0| < |items|
  {
    (items[..Min(limit, |items|)], |items| > limit)
  }

  /** A preview question card: six names and a marker when more missed it. */
  function NamePreview(q: QuestionStat): (seq<string>, bool) {
    Truncated(q.students, 6)
  }

  function Id(q: int): int { q }

  /** A preview student card: the missed questions ascending, eight of them, and a marker. */
  function WrongPreview(d: StudentDetail): (r: (seq<int>, bool))
    ensures SortedBy(r.0, Id)
    ensures multiset(r.0) <= multiset(d.wrong)
    ensures r.1 <==> |d.wrong| > 8
  {
    var sorted := SortBy(d.wrong, Id);
    var r := Truncated(sorted, 8);
    assert sorted == r.0 + sorted[|r.0|..];
    assert multiset(sorted) == multiset(r.0) + multiset(sorted[|r.0|..]);
    r
  }
}
