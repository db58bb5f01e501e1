/**
 * The image export of the report: the cards of the questions somebody missed,
 * by question number, and the cards of the students with mistakes, most
 * mistakes first, each card complete (the preview in the report screen shows
 * at most six cards and truncates their contents).
 */
module ReportExportView {
  import opened Collections
  import opened ReportPhase

  /** `questionStats.filter(q => q.count > 0).sort(by qNum)`. */
  function QuestionsWithMistakes(stats: seq<QuestionStat>): (r: seq<QuestionStat>)
    ensures forall q :: q in r <==> q in stats && q.count > 0
    ensures multiset(r) == multiset(Filter(stats, HasMistakes))
    ensures forall i, j :: 0 <= i < j < |r| ==> r[i].qNum <= r[j].qNum
  {
    SortByMembers(Filter(stats, HasMistakes), QNum);
    SortBy(Filter(stats, HasMistakes), QNum)
  }

  /** `studentDetails.filter(s => s.wrongCount > 0).sort(by wrongCount descending)`. */
  function StudentsWithMistakes(details: seq<StudentDetail>): (r: seq<StudentDetail>)
    ensures forall d :: d in r <==> d in details && d.wrongCount > 0
    ensures multiset(r) == multiset(Filter(details, StudentHasMistakes))
    ensures forall i, j :: 0 <= i < j < |r| ==> r[i].wrongCount >= r[j].wrongCount
  {
    SortByMembers(Filter(details, StudentHasMistakes), NegWrongCount);
    SortBy(Filter(details, StudentHasMistakes), NegWrongCount)
  }

  /** A student card: every missed question, ascending. */
  function StudentCard(d: StudentDetail): (r: seq<int>)
    ensures multiset(r) == multiset(d.wrong)
    ensures forall i, j :: 0 <= i < j < |r| ==> r[i] <= r[j]
  {
    var r := SortBy(d.wrong, Id);
    assert forall i, j :: 0 <= i < j < |r| ==> Id(r[i]) <= Id(r[j]);
    r
  }

  /**
   * Whatever order the report screen uses, the exported question cards are
   * the missed questions in their natural order `1..T`.
   */
  lemma QuestionsAnyMode(results: seq<WrongRecord>, total: nat, mode: SortMode)
    requires results != []
    ensures QuestionsWithMistakes(Analyse(results, total, mode).questionStats)
         == Filter(Stats(results, total), HasMistakes)
  {
    var stats := Stats(results, total);
    var shown := Analyse(results, total, mode).questionStats;
    assert shown == Ordered(stats, mode);
    FilterPermutation(shown, stats, HasMistakes);
    StatsStrictlySorted(results, total);
    FilterStrictlySorted(stats, QNum, HasMistakes);
    SortedUnique(SortBy(Filter(shown, HasMistakes), QNum), Filter(stats, HasMistakes), QNum);
  }

  /** The report's details are already in order, so the export keeps them as they are. */
  lemma StudentsKeepDetailOrder(results: seq<WrongRecord>, total: nat)
    ensures StudentsWithMistakes(Details(results, total))
         == Filter(Details(results, total), StudentHasMistakes)
  {
    var details := Details(results, total);
    assert SortedBy(details, NegWrongCount);
    FilterSorted(details, NegWrongCount, StudentHasMistakes);
    SortBySorted(Filter(details, StudentHasMistakes), NegWrongCount);
  }

  /**
   * The preview's question cards are the first six exported ones: the six
   * lowest-numbered missed questions, whatever the screen's sort mode.
   */
  lemma QuestionPreviewAnyMode(results: seq<WrongRecord>, total: nat, mode: SortMode)
    requires results != []
    ensures QuestionPreview(Analyse(results, total, mode).questionStats)
         == Take(Filter(Stats(results, total), HasMistakes), 6)
  {
    QuestionsAnyMode(results, total, mode);
  }

  /** The preview's student cards are the first six exported ones. */
  lemma StudentPreviewIsPrefix(results: seq<WrongRecord>, total: nat)
    ensures StudentPreview(Details(results, total))
         == StudentsWithMistakes(Details(results, total))[..|StudentPreview(Details(results, total))|]
    ensures |StudentPreview(Details(results, total))| == Min(6, |StudentsWithMistakes(Details(results, total))|)
  {
    StudentsKeepDetailOrder(results, total);
  }

  /**
   * An exported question card lists every student who missed the question; the
   * preview card shows the first six and a marker exactly when some are hidden.
   */
  lemma PreviewTruncatesCard(q: QuestionStat)
    ensures NamePreview(q).0 == q.students[..Min(6, |q.students|)]
    ensures NamePreview(q).1 <==> NamePreview(q).0 != q.students
  {
  }

  /** The preview's list of missed questions is the start of the exported one. */
  lemma WrongPreviewIsPrefix(d: StudentDetail)
    ensures WrongPreview(d).0 == StudentCard(d)[..|WrongPreview(d).0|]
    ensures |WrongPreview(d).0| == Min(8, |d.wrong|)
  {
  }
}
