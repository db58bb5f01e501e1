/**
 * The data behind the exported statistics image: the problems with at least
 * one wrong answer, in frequency or number order; the three summary figures;
 * the hot problems (four or more wrong answers) shown as cards; the colour and
 * length of each bar; and the height of the canvas.
 */
module ExportModal {
  import opened Collections
  import opened Rounding

  datatype ExportSort = Frequency | Number

  /** The threshold of a hot problem, fixed in the component (the settings' own threshold is not used). */
  const HotThreshold: int := 4

  function Positive(e: (int, int)): bool { e.1 > 0 }

  function IsHot(e: (int, int)): bool { e.1 >= HotThreshold }

  /**
   * `getData`: the entries with a positive count, by count descending in
   * `frequency` mode (ties keep the ascending key order of `Object.entries`),
   * by problem number in `number` mode.
   */
  function Data(problems: map<int, int>, mode: ExportSort): (r: seq<(int, int)>)
    ensures forall e :: e in r <==> e.0 in problems && problems[e.0] == e.1 && e.1 > 0
    ensures multiset(r) == multiset(Filter(Entries(problems), Positive))
    ensures mode == Number ==> forall i, j :: 0 <= i < j < |r| ==> r[i].0 < r[j].0
    ensures mode == Frequency ==> forall i, j :: 0 <= i < j < |r| ==>
      r[i].1 > r[j].1 || (r[i].1 == r[j].1 && r[i].0 < r[j].0)
  {
    var kept := Filter(Entries(problems), Positive);
    EntriesMembers(problems);
    EntriesStrictlySorted(problems);
    FilterStrictlySorted(Entries(problems), EntryKey, Positive);
    match mode
    case Frequency =>
      SortByLex(kept, NegEntryCount, EntryKey);
      SortByMembers(kept, NegEntryCount);
      SortBy(kept, NegEntryCount)
    case Number =>
      SortBySorted(kept, EntryKey);
      SortBy(kept, EntryKey)
  }

  /** `totalErrors`: the sum of the counts. */
  function TotalErrors(data: seq<(int, int)>): int {
    SumBy(data, EntryCount)
  }

  /** `hotCount`: the number of hot entries. */
  function HotCount(data: seq<(int, int)>): (r: nat)
    ensures r <= |data|
  {
    |Filter(data, IsHot)|
  }

  /** The hot cards drawn: the first ten hot entries, in data order. */
  function HotCards(data: seq<(int, int)>): (r: seq<(int, int)>)
    ensures |r| == Min(10, HotCount(data))
    ensures forall e :: e in r ==> e in data && e.1 >= HotThreshold
  {
    var hot := Filter(data, IsHot);
    var r := Take(hot, 10);
    assert forall e :: e in r ==> e in hot;
    r
  }

  /** The three summary figures do not depend on the sort mode. */
  lemma SummaryModeIndependent(problems: map<int, int>)
    ensures TotalErrors(Data(problems, Frequency)) == TotalErrors(Data(problems, Number))
    ensures |Data(problems, Frequency)| == |Data(problems, Number)|
    ensures HotCount(Data(problems, Frequency)) == HotCount(Data(problems, Number))
  {
    var kept := Filter(Entries(problems), Positive);
    SortBySum(kept, NegEntryCount, EntryCount);
    SortBySum(kept, EntryKey, EntryCount);
    var f := Data(problems, Frequency);
    var n := Data(problems, Number);
    assert |f| == |multiset(f)| == |multiset(n)| == |n|;
    FilterPermutation(f, n, IsHot);
    assert |Filter(f, IsHot)| == |multiset(Filter(f, IsHot))|;
    assert |Filter(n, IsHot)| == |multiset(Filter(n, IsHot))|;
  }

  /**
   * Every listed problem has at least one wrong answer and a hot one at least
   * four, so the total is at least the number of problems plus three per hot one.
   */
  lemma {:induction false} TotalAtLeast(data: seq<(int, int)>)
    requires forall k :: 0 <= k < |data| ==> data[k].1 > 0
    ensures TotalErrors(data) >= |data| + 3 * HotCount(data)
  {
    if data != [] {
      TotalAtLeast(data[1..]);
    }
  }

  datatype BarColor = Red | Orange | Amber | Green

  /** The bar colour: red from four wrong answers, orange at three, amber at two, green below. */
  function BarColorOf(count: int): (c: BarColor)
    ensures c == Red <==> IsHot((0, count))
  {
    if count >= 4 then Red
    else if count >= 3 then Orange
    else if count >= 2 then Amber
    else Green
  }

  function Heat(c: BarColor): int {
    match c
    case Green => 0
    case Amber => 1
    case Orange => 2
    case Red => 3
  }

  /** A bar is red exactly for the problems shown among the hot ones, and more wrong answers never cool a bar. */
  lemma BarColors(a: int, b: int)
    ensures BarColorOf(a) == Red <==> IsHot((0, a))
    ensures a <= b ==> Heat(BarColorOf(a)) <= Heat(BarColorOf(b))
  {
  }

  /** `Math.max(...counts, 1)`. */
  function MaxCount(data: seq<(int, int)>): (r: int)
    ensures r >= 1
    ensures forall e :: e in data ==> e.1 <= r
    ensures r == 1 || exists e :: e in data && e.1 == r
  {
    if data == [] then 1 else Max(data[0].1, MaxCount(data[1..]))
  }

  /** The bar track: the canvas width 900 less twice the padding of 40 and 120 for the labels. */
  const BarMaxWidth: real := 700.0

  /**
   * `(count / maxCount) * barMaxWidth`, exactly: a count between 1 and the
   * maximum gets a bar that is not empty and fits its track, and the maximum
   * fills it.
   */
  function BarWidth(count: int, maxCount: int): (w: real)
    requires maxCount >= 1
    ensures 0 < count <= maxCount ==> 0.0 < w <= BarMaxWidth
    ensures count == maxCount ==> w == BarMaxWidth
  {
    if 0 < count <= maxCount then
      FractionAtMostOne(count as real, maxCount as real);
      (count as real / maxCount as real) * BarMaxWidth
    else
      (count as real / maxCount as real) * BarMaxWidth
  }

  /** No bar is empty or runs past its track, and the longest fills it. */
  lemma BarsFit(data: seq<(int, int)>, e: (int, int))
    requires forall k :: 0 <= k < |data| ==> data[k].1 > 0
    requires e in data
    ensures 0.0 < BarWidth(e.1, MaxCount(data)) <= BarMaxWidth
    ensures e.1 == MaxCount(data) ==> BarWidth(e.1, MaxCount(data)) == BarMaxWidth
  {
    FractionAtMostOne(e.1 as real, MaxCount(data) as real);
  }

  /**
   * `header + stats + hot section + chart + footer`: the canvas is at least
   * 490 high; from five problems on, each problem adds 35, and a hot problem
   * adds 60.
   */
  function CanvasHeight(data: seq<(int, int)>): (h: int)
    ensures h >= 490
    ensures |data| >= 4 ==> h == 350 + 35 * |data| + (if HotCount(data) > 0 then 60 else 0)
    ensures |data| <= 4 ==> h == 490 + (if HotCount(data) > 0 then 60 else 0)
  {
    100 + 80 + (if HotCount(data) > 0 then 120 else 60) + Max(200, |data| * 35 + 60) + 50
  }
}
