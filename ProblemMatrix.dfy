/**
 * The integer side of the problem matrix: the problem-count input clamp, the
 * list of cells with their counts, the colour scale's maximum, when a cell's
 * number turns white, and how many columns the grid has.
 */
module ProblemMatrix {
  import opened Collections
  import opened ClassroomStore
  import opened ExportModal
  import opened WrongList

  /** The problem-count input: values above 50 become 50, values below 1 become 1. */
  function ClampProblemCount(value: int): (r: int)
    ensures 1 <= r <= 50
    ensures 1 <= value <= 50 ==> r == value
    ensures value > 50 ==> r == 50
    ensures value < 1 ==> r == 1
  {
    var v := if value > 50 then 50 else value;
    if v < 1 then 1 else v
  }

  /** One button of the grid: its number and `problems[num] || 0`. */
  datatype Cell = Cell(num: int, count: int)

  /** `Array.from({ length: problemCount }, (_, i) => i + 1)` with the counts. */
  function Cells(problems: map<int, int>, problemCount: nat): (r: seq<Cell>)
    ensures |r| == problemCount
    ensures forall i :: 0 <= i < |r| ==> r[i].num == i + 1
    ensures forall i :: 0 <= i < |r| ==> r[i].count == Count(problems, i + 1)
  {
    seq(problemCount, i requires 0 <= i < problemCount => Cell(i + 1, Count(problems, i + 1)))
  }

  /** The badge shows the count when it is positive. */
  predicate HasBadge(c: Cell) { c.count > 0 }

  /** `getHeatColor` returns a colour unless the count is falsy. */
  predicate HasHeatColor(c: Cell) { c.count != 0 }

  /**
   * `maxCount`: the largest counter, and at least 1; 1 when there are none.
   * `Object.values` lists the counters in the key order of `Entries`.
   */
  function MatrixMax(problems: map<int, int>): (r: int)
    ensures r >= 1
    ensures forall p :: p in problems ==> problems[p] <= r
    ensures r == 1 || exists p :: p in problems && problems[p] == r
    ensures problems == map[] ==> r == 1
  {
    EntriesMembers(problems);
    if |problems| == 0 then 1
    else
      var m := MaxCount(Entries(problems));
      assert forall p :: p in problems ==> (p, problems[p]) in Entries(problems);
      m
  }

  /** `Math.max(maxCount, 10)`: the colour scale saturates at ten at the earliest. */
  function ColorMax(maxCount: int): (m: int)
    ensures m >= 10 && m >= maxCount
  {
    Max(maxCount, 10)
  }

  /**
   * `getTextColor`: white when `sqrt(min(count, colorMax) / colorMax) > 0.55`.
   * The square root is increasing, so this is the comparison of the squares,
   * `min(count, colorMax) / colorMax > 0.3025`, taken exactly; over integers
   * it is `10000 * min(count, colorMax) > 3025 * colorMax`.
   */
  function IsWhiteText(count: int, maxCount: int): (white: bool)
    ensures white <==> 10000 * Min(count, ColorMax(maxCount)) > 3025 * ColorMax(maxCount)
  {
    var colorMax := ColorMax(maxCount);
    WhiteRatio(Min(count, colorMax) as real, colorMax as real);
    (Min(count, colorMax) as real) / (colorMax as real) > 0.3025
  }

  lemma WhiteRatio(n: real, cm: real)
    requires cm >= 10.0
    ensures n / cm > 0.3025 <==> 10000.0 * n > 3025.0 * cm
  {
    var q := n / cm;
    assert q * cm == n;
    if q > 0.3025 {
      assert q * cm > 0.3025 * cm;
    } else {
      assert q * cm <= 0.3025 * cm;
    }
  }

  /**
   * While no problem has more than ten wrong answers, a number turns white
   * from the fourth wrong answer on, the same point at which a problem is hot.
   */
  lemma WhiteFromFour(count: int, maxCount: int)
    requires maxCount <= 10
    ensures IsWhiteText(count, maxCount) <==> count >= HotThreshold
  {
  }

  /** More wrong answers never turn a white number dark again. */
  lemma WhiteTextMonotone(a: int, b: int, maxCount: int)
    requires a <= b
    ensures IsWhiteText(a, maxCount) ==> IsWhiteText(b, maxCount)
  {
  }

  /**
   * For counters that are never negative, a cell has a heat colour, a text
   * colour and a badge together, exactly when its count is positive.
   */
  lemma ZeroCellsPlain(problems: map<int, int>, problemCount: nat, i: int)
    requires forall p :: p in problems ==> problems[p] >= 0
    requires 0 <= i < problemCount
    ensures HasHeatColor(Cells(problems, problemCount)[i]) <==> HasBadge(Cells(problems, problemCount)[i])
    ensures HasBadge(Cells(problems, problemCount)[i]) <==> Count(problems, i + 1) > 0
  {
  }

  /**
   * The badges of the grid mark the same problems as the rows of the
   * wrong-answer list, when every counter belongs to a problem numbered from 1.
   */
  lemma BadgesMatchRanking(problems: map<int, int>, problemCount: nat, num: int)
    requires forall p :: p in problems ==> p >= 1
    ensures (1 <= num <= problemCount && HasBadge(Cells(problems, problemCount)[num - 1]))
        <==> (num, Count(problems, num)) in WrongEntries(problems, problemCount)
  {
  }

  /** The number of grid columns: the least `c` with `c * c >= 1.5 * problemCount`. */
  function Columns(problemCount: nat): (r: nat)
    ensures 2 * r * r >= 3 * problemCount
    ensures r == 0 || 2 * (r - 1) * (r - 1) < 3 * problemCount
  {
    ColumnsFrom(problemCount, 0)
  }

  /** `Math.ceil(Math.sqrt(problemCount * 1.5))`, searched upwards from `c`. */
  function ColumnsFrom(problemCount: nat, c: nat): (r: nat)
    requires c == 0 || 2 * (c - 1) * (c - 1) < 3 * problemCount
    ensures c <= r
    ensures 2 * r * r >= 3 * problemCount
    ensures r == 0 || 2 * (r - 1) * (r - 1) < 3 * problemCount
    decreases 3 * problemCount - c
  {
    if 2 * c * c >= 3 * problemCount then c
    else
      AtMostTwiceSquare(c);
      ColumnsFrom(problemCount, c + 1)
  }

  lemma AtMostTwiceSquare(c: nat)
    ensures c <= 2 * c * c
  {
    if c > 0 {
      assert 2 * c * c == c * (2 * c);
    }
  }

  /** No smaller grid fits: any `c` with `2c² >= 3p` is at least `Columns(p)`. */
  lemma ColumnsLeast(problemCount: nat, c: nat)
    requires 2 * c * c >= 3 * problemCount
    ensures c >= Columns(problemCount)
  {
    var r := Columns(problemCount);
    if c < r {
      SquareMonotone(c, r - 1);
    }
  }

  lemma SquareMonotone(a: nat, b: nat)
    requires a <= b
    ensures a * a <= b * b
  {
    assert a * a <= a * b;
    assert a * b <= b * b;
  }

  /** Twenty problems take six columns, fifty take nine, one takes two. */
  lemma ColumnsExamples()
    ensures Columns(20) == 6 && Columns(50) == 9 && Columns(1) == 2
  {
    ColumnsLeast(20, 6);
    ColumnsLeast(50, 9);
    ColumnsLeast(1, 2);
  }
}
