/**
 * The random call-up panel: importing names, the pick-count stepper, and the
 * weighted random pick. The roster is cut into five contiguous bands A to E;
 * each band receives a share of the picks proportional to its weight, the
 * shares are repaired until they add up to the number of picks, and each band
 * draws its share with a Fisher-Yates shuffle.
 */
module StudentSelector {
  import opened Wrappers
  import opened Collections
  import opened Rounding
  import opened Text
  import opened ClassroomStore

  /** Largest value of the pick-count stepper. */
  const MaxPickCount: int := 50

  /** A roster band: the indices `start..end-1` and the size recorded for it. */
  datatype Band = Band(start: int, end: int, size: int)

  /** `Math.ceil(n / 5)`: the width of every band but the last. */
  function BandWidth(n: nat): (g: nat)
    ensures n <= 5 * g < n + 5
  {
    (n + 4) / 5
  }

  // ---------------------------------------------------------------------
  // Bands
  // ---------------------------------------------------------------------

  /**
   * Band `i` exactly as the component records it: it starts at `i * g` even
   * past the end of the roster, and its size `end - start` is then negative.
   */
  function WrittenBand(n: nat, i: nat): (b: Band)
    ensures b.start == i * BandWidth(n) && b.end <= n && b.size == b.end - b.start
    ensures b.size < 0 <==> b.start > n
  {
    var g := BandWidth(n);
    var start := i * g;
    var end := Min(start + g, n);
    Band(start, end, end - start)
  }

  /** Band `i` with its start clamped into the roster, so that its size is never negative. */
  function BandOf(n: nat, i: nat): (b: Band)
    ensures 0 <= b.start <= b.end <= n && b.size == b.end - b.start <= BandWidth(n)
  {
    var g := BandWidth(n);
    var start := Min(i * g, n);
    var end := Min(i * g + g, n);
    Band(start, end, end - start)
  }

  function Sizes(groups: seq<Band>): (s: seq<int>)
    ensures |s| == |groups|
    ensures forall i :: 0 <= i < |s| ==> s[i] == groups[i].size
  {
    if groups == [] then [] else [groups[0].size] + Sizes(groups[1..])
  }

  /** Band `i` ends where band `i + 1` starts, and holds between 0 and `g` students. */
  lemma BandStep(n: nat, i: nat)
    ensures BandOf(n, i).end == BandOf(n, i + 1).start
    ensures 0 <= BandOf(n, i).size <= BandWidth(n)
  {
    var g := BandWidth(n);
    assert (i + 1) * g == i * g + g;
    assert i * g >= 0;
  }

  /**
   * The clamped bands tile the roster: band A starts at 0, each band ends where
   * the next starts, band E ends at `n`, and the sizes are at most `g`, never
   * negative, and add up to `n`.
   */
  lemma BandsPartition(n: nat)
    ensures BandOf(n, 0).start == 0 && BandOf(n, 4).end == n && BandOf(n, 5).start == n
    ensures forall i :: 0 <= i < 5 ==> BandOf(n, i).end == BandOf(n, i + 1).start
    ensures forall i :: 0 <= i < 5 ==> 0 <= BandOf(n, i).size <= BandWidth(n)
    ensures BandOf(n, 0).size + BandOf(n, 1).size + BandOf(n, 2).size + BandOf(n, 3).size
          + BandOf(n, 4).size == n
  {
    forall i | 0 <= i < 5
      ensures BandOf(n, i).end == BandOf(n, i + 1).start
      ensures 0 <= BandOf(n, i).size <= BandWidth(n)
    {
      BandStep(n, i);
    }
    BandStep(n, 0);
    BandStep(n, 1);
    BandStep(n, 2);
    BandStep(n, 3);
    BandStep(n, 4);
  }

  /** The sizes of the clamped bands: between 0 and `g` each, and `n` in all. */
  function ClampedSizes(n: nat): (s: seq<int>)
    ensures |s| == 5 && Sum(s) == n
    ensures forall i :: 0 <= i < 5 ==> s[i] == BandOf(n, i).size && 0 <= s[i] <= BandWidth(n)
  {
    BandsPartition(n);
    var s := [BandOf(n, 0).size, BandOf(n, 1).size, BandOf(n, 2).size, BandOf(n, 3).size, BandOf(n, 4).size];
    Sum5(s);
    s
  }

  /** The sizes recorded for the clamped bands are the clamped sizes: non-negative, and `n` in all. */
  lemma SizesOfBands(n: nat, groups: seq<Band>)
    requires |groups| == 5 && forall i :: 0 <= i < 5 ==> groups[i] == BandOf(n, i)
    ensures Sizes(groups) == ClampedSizes(n)
    ensures Sum(Sizes(groups)) == n
    ensures forall i :: 0 <= i < 5 ==> Sizes(groups)[i] >= 0
  {
    var sizes := Sizes(groups);
    assert forall i :: 0 <= i < 5 ==> sizes[i] == ClampedSizes(n)[i];
  }

  /** When `4 * g <= n` the recorded bands are the clamped ones. */
  lemma WrittenBandsAgree(n: nat, i: nat)
    requires 4 * BandWidth(n) <= n && i < 5
    ensures WrittenBand(n, i) == BandOf(n, i)
  {
    var g := BandWidth(n);
    assert i * g <= 4 * g;
  }

  /**
   * The recorded size of band E is negative exactly when `4 * ceil(n / 5) > n`,
   * which for a non-empty roster happens for n in {1, 2, 3, 6, 7, 11}; in all
   * other cases no recorded size is negative.
   */
  lemma WrittenBandNegative(n: nat)
    requires n >= 1
    ensures WrittenBand(n, 4).size < 0 <==> 4 * BandWidth(n) > n
    ensures 4 * BandWidth(n) > n <==> n in {1, 2, 3, 6, 7, 11}
    ensures 4 * BandWidth(n) <= n ==> forall i :: 0 <= i < 5 ==> WrittenBand(n, i).size >= 0
  {
    var g := BandWidth(n);
    if n >= 16 {
      assert 4 * g <= n;
    }
    forall i | 0 <= i < 5 && 4 * g <= n ensures WrittenBand(n, i).size >= 0 {
      WrittenBandsAgree(n, i);
      BandsPartition(n);
    }
  }

  // ---------------------------------------------------------------------
  // Allocation
  // ---------------------------------------------------------------------

  /**
   * `Math.round((ratio / ratioSum) * count)`: the integer nearest to
   * `ratio * count / ratioSum`, halves rounded up.
   */
  function Share(ratio: int, ratioSum: int, count: int): (s: int)
    requires ratioSum != 0
    ensures ratioSum > 0 ==> 2 * ratioSum * s <= 2 * ratio * count + ratioSum < 2 * ratioSum * (s + 1)
  {
    RoundQuotient(ratio * count, ratioSum)
  }

  /** Each band's share of the picks, capped at the band's size. */
  function InitialAllocations(ratios: seq<int>, sizes: seq<int>, count: int): (a: seq<int>)
    requires |ratios| == |sizes| && Sum(ratios) != 0
    ensures |a| == |ratios|
    ensures forall i :: 0 <= i < |a| ==> a[i] <= sizes[i]
    ensures forall i :: 0 <= i < |a| ==>
      a[i] == Share(ratios[i], Sum(ratios), count) || (a[i] == sizes[i] < Share(ratios[i], Sum(ratios), count))
  {
    seq(|ratios|, i requires 0 <= i < |ratios| => Min(Share(ratios[i], Sum(ratios), count), sizes[i]))
  }

  /** A non-negative weight gets a non-negative share of a non-negative count. */
  lemma ShareNonNegative(ratio: int, ratioSum: int, count: int)
    requires ratio >= 0 && ratioSum > 0 && count >= 0
    ensures Share(ratio, ratioSum, count) >= 0
  {
    assert ratio * count >= 0;
    RoundDivMonotone(0, ratio * count, ratioSum);
    RoundDivExact(0, ratioSum);
  }

  /**
   * The outcome of the two repair loops: the allocations add up to `count`.
   * When the shares fell short, each band was only raised, and never above its
   * size; when they overshot, each band was only lowered, and only while it
   * was positive.
   */
  ghost predicate Repaired(init: seq<int>, sizes: seq<int>, count: int, alloc: seq<int>)
    requires |init| == |sizes|
  {
    |alloc| == |init| && Sum(alloc) == count
    && (Sum(init) < count ==> forall i :: 0 <= i < |init| ==> init[i] <= alloc[i] <= sizes[i])
    && (Sum(init) >= count ==> forall i :: 0 <= i < |init| ==> Min(init[i], 0) <= alloc[i] <= init[i])
  }

  lemma SumPointwise(a: seq<int>, b: seq<int>)
    ensures (|a| == |b| && forall k :: 0 <= k < |a| ==> a[k] == b[k]) ==> Sum(a) == Sum(b)
  {
    if |a| == |b| && forall k :: 0 <= k < |a| ==> a[k] == b[k] {
      assert a == b;
    }
  }

  lemma SumNonPositive(s: seq<int>)
    ensures (forall k :: 0 <= k < |s| ==> s[k] <= 0) ==> Sum(s) <= 0
  {
    if s != [] {
      SumNonPositive(s[1..]);
      assert forall k :: 0 <= k < |s| - 1 ==> s[1..][k] == s[k + 1];
    }
  }

  lemma SumNonNegative(s: seq<int>)
    ensures (forall k :: 0 <= k < |s| ==> s[k] >= 0) ==> Sum(s) >= 0
  {
    if s != [] {
      SumNonNegative(s[1..]);
      assert forall k :: 0 <= k < |s| - 1 ==> s[1..][k] == s[k + 1];
    }
  }

  /**
   * The two `while` loops that bring the allocations to exactly `count`: the
   * first raises bands that still have room, scanning from band A; the second
   * lowers positive bands, scanning from band E. The shortfall loop only ends
   * if the bands have room for `count` picks in all, which is the precondition.
   */
  method Repair(init: seq<int>, sizes: seq<int>, count: int) returns (alloc: seq<int>)
    requires |init| == 5 && |sizes| == 5
    requires forall i :: 0 <= i < 5 ==> init[i] <= sizes[i]
    requires 0 <= count <= Sum(sizes)
    ensures alloc == RepairedShares(init, sizes, count)
    ensures Repaired(init, sizes, count, alloc)
  {
    var a := new int[5](i requires 0 <= i < 5 => init[i]);
    assert a[..] == init;
    var total := RaiseLoop(a, sizes, count, Sum(init));
    total := LowerLoop(a, count, total);
    alloc := a[..];
  }

  /** The shortfall `while` loop, one pass at a time. */
  method RaiseLoop(a: array<int>, sizes: seq<int>, count: int, total0: int) returns (total: int)
    requires a.Length == 5 && |sizes| == 5
    requires Sum(a[..]) == total0 && count <= Sum(sizes)
    requires forall k :: 0 <= k < 5 ==> a[k] <= sizes[k]
    modifies a
    ensures a[..] == RaiseAll(old(a[..]), sizes, count)
    ensures total == Sum(a[..])
  {
    total := total0;
    while total < count
      invariant Sum(a[..]) == total
      invariant forall k :: 0 <= k < 5 ==> a[k] <= sizes[k]
      invariant RaiseAll(a[..], sizes, count) == RaiseAll(old(a[..]), sizes, count)
      decreases count - total
    {
      PassBounded(a[..], sizes, total, count, 0);
      PassGains(a[..], sizes, count);
      total := RaisePass(a, sizes, count, total);
    }
  }

  /** The excess `while` loop, one pass at a time. */
  method LowerLoop(a: array<int>, count: int, total0: int) returns (total: int)
    requires a.Length == 5 && Sum(a[..]) == total0 && count >= 0
    modifies a
    ensures a[..] == LowerAll(old(a[..]), count)
    ensures total == Sum(a[..])
  {
    total := total0;
    while total > count
      invariant Sum(a[..]) == total
      invariant LowerAll(a[..], count) == LowerAll(old(a[..]), count)
      decreases total - count
    {
      ExcessBounded(a[..], total, count, 5);
      PassLoses(a[..], count);
      total := LowerPass(a, count, total);
    }
  }

  /**
   * One pass of the shortfall loop: from band A to band E, each band with room
   * gains one pick while the allocations are short of `count`.
   */
  method RaisePass(a: array<int>, sizes: seq<int>, count: int, total0: int) returns (total: int)
    requires a.Length == 5 && |sizes| == 5
    modifies a
    ensures (a[..], total) == ShortfallPass(old(a[..]), sizes, total0, count, 0)
  {
    total := total0;
    var i := 0;
    while i < 5 && total < count
      invariant 0 <= i <= 5
      invariant ShortfallPass(a[..], sizes, total, count, i) == ShortfallPass(old(a[..]), sizes, total0, count, 0)
    {
      ghost var before, t := a[..], total;
      if a[i] < sizes[i] {
        a[i] := a[i] + 1;
        assert a[..] == before[i := before[i] + 1];
        total := total + 1;
      }
      assert ShortfallPass(a[..], sizes, total, count, i + 1) == ShortfallPass(before, sizes, t, count, i);
      i := i + 1;
    }
    assert ShortfallPass(a[..], sizes, total, count, i) == (a[..], total);
  }

  /**
   * One pass of the excess loop: from band E to band A, each positive band
   * loses one pick while the allocations exceed `count`.
   */
  method LowerPass(a: array<int>, count: int, total0: int) returns (total: int)
    requires a.Length == 5
    modifies a
    ensures (a[..], total) == ExcessPass(old(a[..]), total0, count, a.Length)
  {
    total := total0;
    var i := a.Length - 1;
    while i >= 0 && total > count
      invariant -1 <= i < a.Length
      invariant ExcessPass(a[..], total, count, i + 1) == ExcessPass(old(a[..]), total0, count, a.Length)
      decreases i + 1
    {
      total := LowerBand(a, i, count, total);
      i := i - 1;
    }
  }

  /** One band of the excess pass: band `i` gives up a pick if it has one. */
  method LowerBand(a: array<int>, i: int, count: int, total0: int) returns (total: int)
    requires 0 <= i < a.Length && total0 > count
    modifies a
    ensures ExcessPass(a[..], total, count, i) == ExcessPass(old(a[..]), total0, count, i + 1)
  {
    total := total0;
    if a[i] > 0 {
      a[i] := a[i] - 1;
      total := total - 1;
    }
  }

  /**
   * The rest of one pass of the excess `for` loop over the bands below `m`,
   * from band `m - 1` down to band A: each positive band is lowered by one,
   * until the total comes down to `count`.
   */
  function ExcessPass(a: seq<int>, total: int, count: int, m: nat): (r: (seq<int>, int))
    requires m <= |a|
    ensures |r.0| == |a| && r.1 <= total
    ensures total >= count ==> count <= r.1
    decreases m
  {
    if m == 0 || total <= count then (a, total)
    else if a[m - 1] > 0 then ExcessPass(a[m - 1 := a[m - 1] - 1], total - 1, count, m - 1)
    else ExcessPass(a, total, count, m - 1)
  }

  /** An excess pass only lowers positive bands, never below 0, and keeps the total equal to the sum. */
  lemma {:induction false} ExcessBounded(a: seq<int>, total: int, count: int, m: nat)
    requires m <= |a| && total == Sum(a)
    ensures ExcessPass(a, total, count, m).1 == Sum(ExcessPass(a, total, count, m).0)
    ensures forall k :: 0 <= k < |a| ==> Min(a[k], 0) <= ExcessPass(a, total, count, m).0[k] <= a[k]
    decreases m
  {
    if m > 0 && total > count {
      var i := m - 1;
      if a[i] > 0 {
        var lowered := a[i := a[i] - 1];
        SumUpdate(a, i, a[i] - 1);
        ExcessBounded(lowered, total - 1, count, i);
        assert forall k :: 0 <= k < |a| ==> Min(a[k], 0) <= Min(lowered[k], 0) && lowered[k] <= a[k];
      } else {
        ExcessBounded(a, total, count, i);
      }
    }
  }

  /** While the bands have room for `count`, a shortfall pass gains at least one pick. */
  lemma PassGains(a: seq<int>, sizes: seq<int>, count: int)
    requires |a| == |sizes| && forall k :: 0 <= k < |a| ==> a[k] <= sizes[k]
    requires Sum(a) < count <= Sum(sizes)
    ensures ShortfallPass(a, sizes, Sum(a), count, 0).1 > Sum(a)
  {
    if ShortfallPass(a, sizes, Sum(a), count, 0).1 == Sum(a) {
      SumPointwise(a, sizes);
    }
  }

  /** An excess pass that loses nothing while above `count` found no positive band. */
  lemma {:induction false} ExcessStalls(a: seq<int>, total: int, count: int, m: nat)
    requires m <= |a| && total > count
    ensures ExcessPass(a, total, count, m).1 == total ==> forall k :: 0 <= k < m ==> a[k] <= 0
    decreases m
  {
    if m > 0 && a[m - 1] <= 0 {
      ExcessStalls(a, total, count, m - 1);
    }
  }

  /** While the total exceeds a non-negative `count`, an excess pass loses at least one pick. */
  lemma PassLoses(a: seq<int>, count: int)
    requires 0 <= count < Sum(a)
    ensures ExcessPass(a, Sum(a), count, |a|).1 < Sum(a)
  {
    ExcessStalls(a, Sum(a), count, |a|);
    if ExcessPass(a, Sum(a), count, |a|).1 == Sum(a) {
      SumNonPositive(a);
    }
  }

  /**
   * The shortfall `while` loop: shortfall passes until the total reaches
   * `count`. It only raises bands, never above their sizes, and ends at
   * exactly `count`.
   */
  function RaiseAll(a: seq<int>, sizes: seq<int>, count: int): (r: seq<int>)
    requires |a| == |sizes| && forall k :: 0 <= k < |a| ==> a[k] <= sizes[k]
    requires count <= Sum(sizes)
    ensures |r| == |a|
    ensures Sum(a) >= count ==> r == a
    ensures Sum(a) <= count ==> Sum(r) == count && forall k :: 0 <= k < |a| ==> a[k] <= r[k] <= sizes[k]
    decreases count - Sum(a)
  {
    if Sum(a) >= count then a
    else
      PassBounded(a, sizes, Sum(a), count, 0);
      PassGains(a, sizes, count);
      RaiseAll(ShortfallPass(a, sizes, Sum(a), count, 0).0, sizes, count)
  }

  /**
   * The excess `while` loop: excess passes until the total comes down to
   * `count`. It only lowers positive bands, never below 0, and ends at exactly
   * `count`.
   */
  function LowerAll(a: seq<int>, count: int): (r: seq<int>)
    requires count >= 0
    ensures |r| == |a|
    ensures Sum(a) <= count ==> r == a
    ensures Sum(a) >= count ==> Sum(r) == count && forall k :: 0 <= k < |a| ==> Min(a[k], 0) <= r[k] <= a[k]
    decreases Sum(a) - count
  {
    if Sum(a) <= count then a
    else
      ExcessBounded(a, Sum(a), count, |a|);
      PassLoses(a, count);
      LowerAll(ExcessPass(a, Sum(a), count, |a|).0, count)
  }

  /**
   * The allocations the two repair loops leave, from the capped shares
   * `init`: they always end at `count`, and shares that already add up to
   * `count` are drawn as they are, so the weights alone decide.
   */
  function RepairedShares(init: seq<int>, sizes: seq<int>, count: int): (alloc: seq<int>)
    requires |init| == |sizes| && forall k :: 0 <= k < |init| ==> init[k] <= sizes[k]
    requires 0 <= count <= Sum(sizes)
    ensures Repaired(init, sizes, count, alloc)
    ensures Sum(init) == count ==> alloc == init
  {
    LowerAll(RaiseAll(init, sizes, count), count)
  }

  /** A shortfall is made up from band A onwards: one pick among five empty bands of two goes to band A. */
  lemma ShortfallFromBandA(init: seq<int>, sizes: seq<int>)
    requires init == [0, 0, 0, 0, 0] && sizes == [2, 2, 2, 2, 2]
    ensures Sum(sizes) == 10
    ensures RepairedShares(init, sizes, 1) == [1, 0, 0, 0, 0]
  {
    Sum5(init);
    Sum5(sizes);
    var raised := [1, 0, 0, 0, 0];
    assert init[0 := 1] == raised;
    assert ShortfallPass(init, sizes, 0, 1, 0) == ShortfallPass(raised, sizes, 1, 1, 1) == (raised, 1);
    Sum5(raised);
  }

  /** An excess is taken back from band E downwards: from one pick in each band to three picks leaves bands A to C. */
  lemma ExcessFromBandE(init: seq<int>, sizes: seq<int>)
    requires init == [1, 1, 1, 1, 1] && sizes == [2, 2, 2, 2, 2]
    ensures Sum(sizes) == 10
    ensures RepairedShares(init, sizes, 3) == [1, 1, 1, 0, 0]
  {
    Sum5(init);
    Sum5(sizes);
    var once := [1, 1, 1, 1, 0];
    var lowered := [1, 1, 1, 0, 0];
    assert init[4 := 0] == once && once[3 := 0] == lowered;
    assert ExcessPass(init, 5, 3, 5) == ExcessPass(once, 4, 3, 4) == ExcessPass(lowered, 3, 3, 3) == (lowered, 3);
    Sum5(lowered);
  }

  // ---------------------------------------------------------------------
  // Drawing
  // ---------------------------------------------------------------------

  /**
   * `getRandomIndices(start, end, k)`: shuffles the indices `start..end-1` in
   * place and keeps the first `k`. The random draw `j` of each step is a
   * nondeterministic choice in `0..i`.
   */
  method RandomIndices(start: int, end: int, k: int) returns (picked: seq<int>)
    requires start <= end && k >= 0
    ensures |picked| == Min(k, end - start)
    ensures forall p :: 0 <= p < |picked| ==> start <= picked[p] < end
    ensures forall p, q :: 0 <= p < q < |picked| ==> picked[p] != picked[q]
  {
    var len := end - start;
    var indices := new int[len](i => i + start);
    var i := len - 1;
    while i > 0
      invariant i < len
      invariant forall p :: 0 <= p < len ==> start <= indices[p] < end
      invariant forall p, q :: 0 <= p < q < len ==> indices[p] != indices[q]
    {
      var j :| 0 <= j <= i;
      indices[i], indices[j] := indices[j], indices[i];
      i := i - 1;
    }
    picked := indices[..Min(k, len)];
  }

  /** How many students band `i` contributes: nothing unless its allocation and size are positive. */
  function BandPicks(alloc: int, size: int): (k: int)
    ensures 0 <= k <= Max(0, size) && k <= Max(0, alloc)
    ensures 0 <= alloc <= size ==> k == alloc
  {
    if alloc > 0 && size > 0 then Min(alloc, size) else 0
  }

  /** The number of students the bands contribute in all. */
  function PickedCount(alloc: seq<int>, sizes: seq<int>): (k: int)
    requires |alloc| == |sizes|
    ensures k >= 0
  {
    if alloc == [] then 0
    else PickedCount(alloc[..|alloc| - 1], sizes[..|sizes| - 1]) + BandPicks(alloc[|alloc| - 1], sizes[|sizes| - 1])
  }

  /** When every allocation lies between 0 and its band's size, the bands contribute their allocations' sum. */
  lemma {:induction false} PickedCountExact(alloc: seq<int>, sizes: seq<int>)
    requires |alloc| == |sizes|
    requires forall i :: 0 <= i < |alloc| ==> 0 <= alloc[i] <= sizes[i]
    ensures PickedCount(alloc, sizes) == Sum(alloc)
  {
    if alloc != [] {
      var m := |alloc| - 1;
      PickedCountExact(alloc[..m], sizes[..m]);
      assert alloc == alloc[..m] + [alloc[m]];
      SumAppend(alloc[..m], [alloc[m]]);
    }
  }

  /** Band `i` adds its contribution to the count of the bands before it. */
  lemma PickedCountStep(alloc: seq<int>, sizes: seq<int>, i: int)
    requires |alloc| == |sizes| && 0 <= i < |alloc|
    ensures PickedCount(alloc[..i + 1], sizes[..i + 1]) == PickedCount(alloc[..i], sizes[..i]) + BandPicks(alloc[i], sizes[i])
  {
    assert alloc[..i + 1][..i] == alloc[..i];
    assert sizes[..i + 1][..i] == sizes[..i];
  }

  /** The band of a roster index: band `i` holds the indices with `x / g == i`. */
  function BandIndex(n: nat, x: int): int
    requires n > 0
  {
    x / BandWidth(n)
  }

  lemma InBand(n: nat, i: nat, x: int)
    requires i < 5 && BandOf(n, i).start <= x < BandOf(n, i).end
    ensures n > 0 && BandIndex(n, x) == i
  {
    var g := BandWidth(n);
    assert g * i <= x < g * i + g;
    QuotientIs(x, g, i);
  }

  /** `x / g == i` exactly when `x` lies in `[g * i, g * i + g)`. */
  lemma QuotientIs(x: int, g: int, i: int)
    requires g > 0 && g * i <= x < g * i + g
    ensures x / g == i
  {
    var q := x / g;
    assert g * q <= x < g * q + g;
    assert g * (i + 1) == g * i + g;
    assert g * (q + 1) == g * q + g;
    CancelPositive(g, q, i + 1);
    CancelPositive(g, i, q + 1);
  }

  lemma BeforeBand(n: nat, i: nat, x: int)
    requires n > 0 && 0 <= x < BandOf(n, i).start
    ensures BandIndex(n, x) < i
  {
    var g := BandWidth(n);
    assert x < g * i;
    QuotientBelow(x, g, i);
  }

  /** An index below `g * i` lies in an earlier band. */
  lemma QuotientBelow(x: int, g: int, i: int)
    requires g > 0 && 0 <= x < g * i
    ensures x / g < i
  {
    var q := x / g;
    assert g * q <= x;
    CancelPositive(g, q, i);
  }

  /**
   * What the picks drawn from bands `0..i-1` satisfy: distinct roster indices
   * below the start of band `i`, grouped by band.
   */
  ghost predicate DrawnBefore(n: nat, i: nat, picked: seq<int>) {
    (forall p :: 0 <= p < |picked| ==> 0 <= picked[p] < BandOf(n, i).start)
    && (forall p, q :: 0 <= p < q < |picked| ==> picked[p] != picked[q])
    && (n > 0 ==> forall p, q :: 0 <= p < q < |picked| ==> BandIndex(n, picked[p]) <= BandIndex(n, picked[q]))
  }

  /** Band `i`'s draws may follow the earlier picks. */
  lemma AppendBand(n: nat, i: nat, picked: seq<int>, drawn: seq<int>)
    requires i < 5 && DrawnBefore(n, i, picked)
    requires forall p :: 0 <= p < |drawn| ==> BandOf(n, i).start <= drawn[p] < BandOf(n, i).end
    requires forall p, q :: 0 <= p < q < |drawn| ==> drawn[p] != drawn[q]
    ensures DrawnBefore(n, i + 1, picked + drawn)
  {
    BandStep(n, i);
    AppendBelow(picked, drawn, BandOf(n, i).start, BandOf(n, i).end);
    if n > 0 {
      AppendBandOrdered(n, i, picked, drawn);
    }
  }

  /**
   * Distinct indices below `mid` followed by distinct indices in
   * `[mid, end)` are distinct indices below `end`.
   */
  lemma AppendBelow(picked: seq<int>, drawn: seq<int>, mid: int, end: int)
    requires forall p :: 0 <= p < |picked| ==> 0 <= picked[p] < mid
    requires forall p, q :: 0 <= p < q < |picked| ==> picked[p] != picked[q]
    requires 0 <= mid <= end
    requires forall p :: 0 <= p < |drawn| ==> mid <= drawn[p] < end
    requires forall p, q :: 0 <= p < q < |drawn| ==> drawn[p] != drawn[q]
    ensures forall p :: 0 <= p < |picked + drawn| ==> 0 <= (picked + drawn)[p] < end
    ensures forall p, q :: 0 <= p < q < |picked + drawn| ==> (picked + drawn)[p] != (picked + drawn)[q]
  {
    var r := picked + drawn;
    forall p | 0 <= p < |r| ensures 0 <= r[p] < end {
      if p >= |picked| {
        assert r[p] == drawn[p - |picked|];
      }
    }
    forall p, q | 0 <= p < q < |r| ensures r[p] != r[q] {
      if q < |picked| {
        assert r[p] == picked[p] && r[q] == picked[q];
      } else if p < |picked| {
        assert r[q] == drawn[q - |picked|];
      } else {
        assert r[p] == drawn[p - |picked|] && r[q] == drawn[q - |picked|];
      }
    }
  }

  lemma AppendBandOrdered(n: nat, i: nat, picked: seq<int>, drawn: seq<int>)
    requires i < 5 && n > 0 && DrawnBefore(n, i, picked)
    requires forall p :: 0 <= p < |drawn| ==> BandOf(n, i).start <= drawn[p] < BandOf(n, i).end
    ensures forall p, q :: 0 <= p < q < |picked + drawn| ==>
      BandIndex(n, (picked + drawn)[p]) <= BandIndex(n, (picked + drawn)[q])
  {
    var r := picked + drawn;
    forall p | 0 <= p < |drawn| ensures BandIndex(n, drawn[p]) == i {
      InBand(n, i, drawn[p]);
    }
    forall p | 0 <= p < |picked| ensures BandIndex(n, picked[p]) < i {
      BeforeBand(n, i, picked[p]);
    }
    forall p, q | 0 <= p < q < |r| ensures BandIndex(n, r[p]) <= BandIndex(n, r[q]) {
      if q < |picked| {
        assert r[p] == picked[p] && r[q] == picked[q];
      } else if p < |picked| {
        assert r[q] == drawn[q - |picked|];
      } else {
        assert r[p] == drawn[p - |picked|] && r[q] == drawn[q - |picked|];
      }
    }
  }

  /** Skipping band `i` keeps what was drawn so far. */
  lemma SkipBand(n: nat, i: nat, picked: seq<int>)
    requires i < 5 && DrawnBefore(n, i, picked)
    ensures DrawnBefore(n, i + 1, picked)
  {
    BandStep(n, i);
  }

  /** The roster indices of a band, as a filter. */
  function Within(b: Band): int -> bool {
    x => b.start <= x < b.end
  }

  /**
   * Appending band `i`'s draws adds their number to band `i`'s count and
   * nothing to any other band's, since the clamped bands do not overlap.
   */
  lemma AppendBandCounts(n: nat, i: nat, picked: seq<int>, drawn: seq<int>)
    requires i < 5
    requires forall p :: 0 <= p < |drawn| ==> BandOf(n, i).start <= drawn[p] < BandOf(n, i).end
    ensures forall j :: 0 <= j < 5 ==>
      |Filter(picked + drawn, Within(BandOf(n, j)))| == |Filter(picked, Within(BandOf(n, j)))| + (if j == i then |drawn| else 0)
  {
    forall j | 0 <= j < 5
      ensures |Filter(picked + drawn, Within(BandOf(n, j)))|
        == |Filter(picked, Within(BandOf(n, j)))| + (if j == i then |drawn| else 0)
    {
      var inJ := Within(BandOf(n, j));
      FilterAppend(picked, drawn, inJ);
      if j == i {
        FilterAll(drawn, inJ);
      } else {
        forall p | 0 <= p < |drawn| ensures !inJ(drawn[p]) {
          InBand(n, i, drawn[p]);
          if inJ(drawn[p]) {
            InBand(n, j, drawn[p]);
          }
        }
        FilterNone(drawn, inJ);
      }
    }
  }

  /**
   * Draws each band's share in band order and concatenates the results. The
   * picks are distinct roster indices, grouped by band from A to E.
   */
  method DrawPicks(n: nat, groups: seq<Band>, alloc: seq<int>) returns (picked: seq<int>)
    requires |groups| == 5 && |alloc| == 5
    requires forall i :: 0 <= i < 5 ==> groups[i] == BandOf(n, i)
    ensures |picked| == PickedCount(alloc, Sizes(groups))
    ensures forall p :: 0 <= p < |picked| ==> 0 <= picked[p] < n
    ensures forall p, q :: 0 <= p < q < |picked| ==> picked[p] != picked[q]
    ensures n > 0 ==> forall p, q :: 0 <= p < q < |picked| ==> BandIndex(n, picked[p]) <= BandIndex(n, picked[q])
    ensures forall i :: 0 <= i < 5 ==> |Filter(picked, Within(groups[i]))| == BandPicks(alloc[i], groups[i].size)
  {
    var sizes := Sizes(groups);
    picked := [];
    for i := 0 to 5
      invariant |picked| == PickedCount(alloc[..i], sizes[..i])
      invariant DrawnBefore(n, i, picked)
      invariant CountsBefore(n, i, alloc, picked)
    {
      PickedCountStep(alloc, sizes, i);
      ghost var before := picked;
      picked := DrawBand(n, i, alloc[i], picked);
      CountsAdvance(n, i, alloc, before, picked);
    }
    assert alloc[..5] == alloc && sizes[..5] == sizes;
    assert BandOf(n, 5).start == n by { BandsPartition(n); }
  }

  /** The picks so far hold each earlier band's share and nothing from the later bands. */
  ghost predicate CountsBefore(n: nat, i: nat, alloc: seq<int>, picked: seq<int>)
    requires |alloc| == 5
  {
    forall j :: 0 <= j < 5 ==>
      |Filter(picked, Within(BandOf(n, j)))| == if j < i then BandPicks(alloc[j], BandOf(n, j).size) else 0
  }

  /** Drawing band `i`'s share extends the counts from the bands before `i` to band `i`. */
  lemma CountsAdvance(n: nat, i: nat, alloc: seq<int>, picked: seq<int>, next: seq<int>)
    requires i < 5 && |alloc| == 5 && CountsBefore(n, i, alloc, picked)
    requires CountsGrow(n, i, alloc[i], picked, next)
    ensures CountsBefore(n, i + 1, alloc, next)
  {
  }

  /** From `picked` to `next`, band `i` gains its share (capped at its size) and no other band gains anything. */
  ghost predicate CountsGrow(n: nat, i: nat, share: int, picked: seq<int>, next: seq<int>) {
    forall j :: 0 <= j < 5 ==>
      |Filter(next, Within(BandOf(n, j)))| == |Filter(picked, Within(BandOf(n, j)))| + (if j == i then BandPicks(share, BandOf(n, i).size) else 0)
  }

  /** One band's turn: draw its share when both the share and the band are positive. */
  method DrawBand(n: nat, i: nat, share: int, picked: seq<int>) returns (next: seq<int>)
    requires i < 5 && DrawnBefore(n, i, picked)
    ensures DrawnBefore(n, i + 1, next)
    ensures |next| == |picked| + BandPicks(share, BandOf(n, i).size)
    ensures next[..|picked|] == picked
    ensures CountsGrow(n, i, share, picked, next)
  {
    var group := BandOf(n, i);
    if share > 0 && group.size > 0 {
      var drawn := RandomIndices(group.start, group.end, share);
      AppendBand(n, i, picked, drawn);
      AppendBandCounts(n, i, picked, drawn);
      next := picked + drawn;
    } else {
      SkipBand(n, i, picked);
      next := picked;
    }
  }

  // ---------------------------------------------------------------------
  // The whole pick
  // ---------------------------------------------------------------------

  /**
   * The allocations of a pick of `pickCount` students from a roster of `n`:
   * the weighted shares over the clamped bands, repaired to
   * `min(pickCount, n)`.
   */
  function Allocation(n: nat, ratios: seq<int>, pickCount: int): (alloc: seq<int>)
    requires |ratios| == 5 && Sum(ratios) != 0 && pickCount >= 0
    ensures |alloc| == 5
    ensures Repaired(InitialAllocations(ratios, ClampedSizes(n), Min(pickCount, n)), ClampedSizes(n), Min(pickCount, n), alloc)
  {
    RepairedShares(InitialAllocations(ratios, ClampedSizes(n), Min(pickCount, n)), ClampedSizes(n), Min(pickCount, n))
  }

  /**
   * The weights decide the draw: with the default weights, 20 students and 4
   * picks, band A's share 0.4 rounds to 0 and each other band's share rounds
   * to 1, so band A contributes nobody and bands B to E one student each.
   */
  lemma DefaultPickOfFour()
    ensures Sum(DefaultRatios) == 100
    ensures Allocation(20, DefaultRatios, 4) == [0, 1, 1, 1, 1]
  {
    DefaultRatiosValid();
    DefaultAllocation(20, 4);
  }

  /** The same draw, stated on a roster size `n` and a pick count `k`. */
  lemma DefaultAllocation(n: nat, k: int)
    requires n == 20 && k == 4
    ensures Sum(DefaultRatios) == 100
    ensures Allocation(n, DefaultRatios, k) == [0, 1, 1, 1, 1]
  {
    DefaultRatiosValid();
    var init := InitialAllocations(DefaultRatios, ClampedSizes(n), Min(k, n));
    assert init == [0, 1, 1, 1, 1] && Sum(init) == Min(k, n) by {
      ClampedSizesOfTwenty();
      DefaultSharesOfFour(ClampedSizes(n));
    }
    ExactSharesKept(n, DefaultRatios, k);
  }

  /** Shares that already add up to the pick count are the allocation. */
  lemma ExactSharesKept(n: nat, ratios: seq<int>, k: int)
    requires |ratios| == 5 && Sum(ratios) != 0 && k >= 0
    requires Sum(InitialAllocations(ratios, ClampedSizes(n), Min(k, n))) == Min(k, n)
    ensures Allocation(n, ratios, k) == InitialAllocations(ratios, ClampedSizes(n), Min(k, n))
  {
  }

  lemma ClampedSizesOfTwenty()
    ensures ClampedSizes(20) == [4, 4, 4, 4, 4]
  {
    assert BandWidth(20) == 4;
    assert BandOf(20, 0).size == 4 && BandOf(20, 1).size == 4 && BandOf(20, 2).size == 4;
    assert BandOf(20, 3).size == 4 && BandOf(20, 4).size == 4;
  }

  /** With the default weights, four picks round to the shares 0, 1, 1, 1, 1. */
  lemma DefaultSharesOfFour(sizes: seq<int>)
    requires sizes == [4, 4, 4, 4, 4]
    ensures Sum(DefaultRatios) == 100
    ensures InitialAllocations(DefaultRatios, sizes, 4) == [0, 1, 1, 1, 1]
    ensures Sum(InitialAllocations(DefaultRatios, sizes, 4)) == 4
  {
    DefaultRatiosValid();
    RoundDivUnique(10 * 4, 100, 0);
    RoundDivUnique(15 * 4, 100, 1);
    RoundDivUnique(25 * 4, 100, 1);
    var init := InitialAllocations(DefaultRatios, sizes, 4);
    assert forall k :: 0 <= k < 5 ==> init[k] == [0, 1, 1, 1, 1][k];
    Sum5(init);
  }

  /**
   * Lines 104-166 of the pick handler, with the bands clamped into the roster:
   * distinct roster indices in band order, band `i` contributing exactly its
   * repaired allocation (capped at its size), and exactly `min(pickCount, n)`
   * of them when no weight is negative.
   */
  method RandomPick(n: nat, ratios: seq<int>, pickCount: int) returns (picked: seq<int>)
    requires |ratios| == 5 && Sum(ratios) != 0 && pickCount >= 0
    ensures forall p :: 0 <= p < |picked| ==> 0 <= picked[p] < n
    ensures forall p, q :: 0 <= p < q < |picked| ==> picked[p] != picked[q]
    ensures n > 0 ==> forall p, q :: 0 <= p < q < |picked| ==> BandIndex(n, picked[p]) <= BandIndex(n, picked[q])
    ensures forall i :: 0 <= i < 5 ==>
      |Filter(picked, Within(BandOf(n, i)))| == BandPicks(Allocation(n, ratios, pickCount)[i], BandOf(n, i).size)
    ensures (forall k :: 0 <= k < 5 ==> ratios[k] >= 0) ==> |picked| == Min(pickCount, n)
  {
    var groups := Partition(n);
    var count := Min(pickCount, n);
    var sizes := Sizes(groups);
    SizesOfBands(n, groups);
    var init := InitialAllocations(ratios, sizes, count);
    assert 0 <= count <= Sum(sizes);
    assert forall i :: 0 <= i < 5 ==> init[i] <= sizes[i];
    var alloc := Repair(init, sizes, count);
    assert alloc == Allocation(n, ratios, pickCount);
    picked := DrawPicks(n, groups, alloc);
    assert |picked| == PickedCount(alloc, sizes);
    NonNegativeShares(ratios, sizes, count);
    RepairedCount(init, sizes, count, alloc);
  }

  /** Non-negative weights give non-negative initial allocations. */
  lemma NonNegativeShares(ratios: seq<int>, sizes: seq<int>, count: int)
    requires |ratios| == |sizes| && Sum(ratios) != 0 && count >= 0
    ensures (forall k :: 0 <= k < |ratios| ==> ratios[k] >= 0) && (forall k :: 0 <= k < |sizes| ==> sizes[k] >= 0)
      ==> forall k :: 0 <= k < |ratios| ==> InitialAllocations(ratios, sizes, count)[k] >= 0
  {
    if (forall k :: 0 <= k < |ratios| ==> ratios[k] >= 0) && (forall k :: 0 <= k < |sizes| ==> sizes[k] >= 0) {
      SumNonNegative(ratios);
      forall k | 0 <= k < |ratios| ensures InitialAllocations(ratios, sizes, count)[k] >= 0 {
        ShareNonNegative(ratios[k], Sum(ratios), count);
      }
    }
  }

  /**
   * Repaired allocations drawn from bands of non-negative size, starting from
   * non-negative shares, yield exactly `count` students.
   */
  lemma RepairedCount(init: seq<int>, sizes: seq<int>, count: int, alloc: seq<int>)
    requires |init| == |sizes| && Repaired(init, sizes, count, alloc)
    requires forall k :: 0 <= k < |init| ==> init[k] <= sizes[k]
    ensures (forall k :: 0 <= k < |init| ==> init[k] >= 0) ==> PickedCount(alloc, sizes) == count
  {
    if forall k :: 0 <= k < |init| ==> init[k] >= 0 {
      PickedCountExact(alloc, sizes);
    }
  }

  /** The `for` loop that records the five bands. */
  method Partition(n: nat) returns (groups: seq<Band>)
    ensures |groups| == 5
    ensures forall i :: 0 <= i < 5 ==> groups[i] == BandOf(n, i)
  {
    var g := (n + 4) / 5;
    groups := [];
    for i := 0 to 5
      invariant |groups| == i
      invariant forall k :: 0 <= k < i ==> groups[k] == BandOf(n, k)
    {
      var start := Min(i * g, n);
      var end := Min(i * g + g, n);
      groups := groups + [Band(start, end, end - start)];
    }
  }

  // ---------------------------------------------------------------------
  // The bands as written
  // ---------------------------------------------------------------------

  /** The sizes the component records for its five bands. */
  function WrittenSizes(n: nat): (s: seq<int>)
    ensures |s| == 5
  {
    [WrittenBand(n, 0).size, WrittenBand(n, 1).size, WrittenBand(n, 2).size,
     WrittenBand(n, 3).size, WrittenBand(n, 4).size]
  }

  /**
   * One pass of the shortfall `for` loop from band `i` on: each band below
   * its recorded size is raised by one, until the total reaches `count`.
   */
  function ShortfallPass(a: seq<int>, sizes: seq<int>, total: int, count: int, i: nat): (r: (seq<int>, int))
    requires |a| == |sizes|
    ensures |r.0| == |a| && total <= r.1
    ensures total <= count ==> r.1 <= count
    ensures (forall k :: i <= k < |a| ==> a[k] >= sizes[k]) ==> r == (a, total)
    ensures total < count && r.1 == total ==> forall k :: i <= k < |a| ==> a[k] >= sizes[k]
    decreases |a| - i
  {
    if i >= |a| || total >= count then (a, total)
    else if a[i] < sizes[i] then ShortfallPass(a[i := a[i] + 1], sizes, total + 1, count, i + 1)
    else ShortfallPass(a, sizes, total, count, i + 1)
  }

  /** `k` passes of the shortfall `while` loop, starting from the shares `a`. */
  function Passes(a: seq<int>, sizes: seq<int>, count: int, k: nat): (r: (seq<int>, int))
    requires |a| == |sizes|
    ensures |r.0| == |a|
  {
    if k == 0 then (a, Sum(a))
    else
      var p := Passes(a, sizes, count, k - 1);
      ShortfallPass(p.0, sizes, p.1, count, 0)
  }

  /** A pass only raises bands, never above their recorded sizes, and keeps the total equal to the sum. */
  lemma {:induction false} PassBounded(a: seq<int>, sizes: seq<int>, total: int, count: int, i: nat)
    requires |a| == |sizes| && total == Sum(a)
    requires forall k :: 0 <= k < |a| ==> a[k] <= sizes[k]
    ensures ShortfallPass(a, sizes, total, count, i).1 == Sum(ShortfallPass(a, sizes, total, count, i).0)
    ensures forall k :: 0 <= k < |a| ==> a[k] <= ShortfallPass(a, sizes, total, count, i).0[k] <= sizes[k]
    decreases |a| - i
  {
    if i < |a| && total < count {
      if a[i] < sizes[i] {
        SumUpdate(a, i, a[i] + 1);
        PassBounded(a[i := a[i] + 1], sizes, total + 1, count, i + 1);
      } else {
        PassBounded(a, sizes, total, count, i + 1);
      }
    }
  }

  lemma {:induction false} SumMonotone(a: seq<int>, b: seq<int>)
    requires |a| == |b| && forall k :: 0 <= k < |a| ==> a[k] <= b[k]
    ensures Sum(a) <= Sum(b)
  {
    if a != [] {
      SumMonotone(a[1..], b[1..]);
    }
  }

  /**
   * When the recorded sizes add up to less than `count`, no number of passes
   * of the shortfall loop brings the total to `count`: its `while` condition
   * holds forever.
   */
  lemma {:induction false} ShortfallNeverEnds(a: seq<int>, sizes: seq<int>, count: int, k: nat)
    requires |a| == |sizes| && forall i :: 0 <= i < |a| ==> a[i] <= sizes[i]
    requires Sum(sizes) < count
    ensures Passes(a, sizes, count, k).1 < count
    ensures Passes(a, sizes, count, k).1 == Sum(Passes(a, sizes, count, k).0)
    ensures forall i :: 0 <= i < |a| ==> Passes(a, sizes, count, k).0[i] <= sizes[i]
  {
    if k == 0 {
      SumMonotone(a, sizes);
    } else {
      ShortfallNeverEnds(a, sizes, count, k - 1);
      var p := Passes(a, sizes, count, k - 1);
      PassBounded(p.0, sizes, p.1, count, 0);
      SumMonotone(Passes(a, sizes, count, k).0, sizes);
    }
  }

  /**
   * The pick as written, for a roster whose recorded sizes add up to less than
   * the number of picks: whatever the weights, the shares fit under the sizes,
   * so the shortfall loop runs forever. With one student the sizes are
   * [1, 0, -1, -2, -3], which add up to -5, and every pick count is too many.
   */
  lemma WrittenPickStalls(n: nat, ratios: seq<int>, pickCount: int, k: nat)
    requires |ratios| == 5 && Sum(ratios) != 0
    requires Min(pickCount, n) > Sum(WrittenSizes(n))
    ensures Passes(InitialAllocations(ratios, WrittenSizes(n), Min(pickCount, n)), WrittenSizes(n), Min(pickCount, n), k).1
          < Min(pickCount, n)
  {
    var sizes := WrittenSizes(n);
    var count := Min(pickCount, n);
    ShortfallNeverEnds(InitialAllocations(ratios, sizes, count), sizes, count, k);
  }

  /** One student and any pick count of at least one: the recorded sizes add up to -5 < 1. */
  lemma OneStudentStalls(n: nat, pickCount: int)
    requires n == 1 && pickCount >= 1
    ensures WrittenSizes(n) == [1, 0, -1, -2, -3]
    ensures Min(pickCount, n) > Sum(WrittenSizes(n))
  {
    assert Min(pickCount, n) == 1;
    WrittenSizesOfOne(n);
    OneStudentTotal(WrittenSizes(n));
  }

  lemma OneStudentTotal(sizes: seq<int>)
    requires sizes == [1, 0, -1, -2, -3]
    ensures Sum(sizes) == -5
  {
    Sum5(sizes);
  }

  lemma WrittenSizesOfOne(n: nat)
    requires n == 1
    ensures WrittenSizes(n) == [1, 0, -1, -2, -3]
  {
    assert BandWidth(n) == 1;
  }

  /** With weights adding up to 100, every default share of a single pick rounds to 0. */
  lemma DefaultSharesOfOne(sizes: seq<int>, count: int)
    requires |sizes| == 5 && count == 1
    ensures forall k :: 0 <= k < 5 ==> InitialAllocations(DefaultRatios, sizes, count)[k] == Min(0, sizes[k])
  {
    DefaultRatiosValid();
    var init := InitialAllocations(DefaultRatios, sizes, count);
    forall k | 0 <= k < 5 ensures init[k] == Min(0, sizes[k]) {
      RoundDivUnique(DefaultRatios[k], 100, 0);
    }
  }

  /**
   * With three students the recorded sizes are [1, 1, 1, 0, -1]; a pick of one
   * student starts from the shares [0, 0, 0, 0, -1]. The repair loops may only
   * raise the bands within their recorded sizes until the sum is 1, which
   * forces two of the first three bands to 1 and band E to -1: two students
   * are drawn.
   */
  lemma ThreeStudentsPickTwo(n: nat, alloc: seq<int>)
    requires n == 3
    requires Repaired(InitialAllocations(DefaultRatios, WrittenSizes(n), 1), WrittenSizes(n), 1, alloc)
    ensures WrittenSizes(n) == [1, 1, 1, 0, -1]
    ensures PickedCount(alloc, WrittenSizes(n)) == 2
  {
    var sizes := WrittenSizes(n);
    assert BandWidth(n) == 1;
    assert sizes == [1, 1, 1, 0, -1];
    DefaultSharesOfOne(sizes, 1);
    var init := InitialAllocations(DefaultRatios, sizes, 1);
    assert init == [0, 0, 0, 0, -1];
    Sum5(init);
    Sum5(alloc);
    PickedCount5(alloc, sizes);
  }

  /** The three-student case satisfies the precondition of the repair loops. */
  lemma ThreeStudentsRepairable(n: nat)
    requires n == 3
    ensures forall i :: 0 <= i < 5 ==>
      InitialAllocations(DefaultRatios, WrittenSizes(n), 1)[i] <= WrittenSizes(n)[i]
    ensures 0 <= 1 <= Sum(WrittenSizes(n))
  {
    assert BandWidth(n) == 1;
    assert WrittenSizes(n) == [1, 1, 1, 0, -1];
    Sum5(WrittenSizes(n));
  }

  lemma PickedCount5(alloc: seq<int>, sizes: seq<int>)
    requires |alloc| == 5 && |sizes| == 5
    ensures PickedCount(alloc, sizes) == BandPicks(alloc[0], sizes[0]) + BandPicks(alloc[1], sizes[1])
      + BandPicks(alloc[2], sizes[2]) + BandPicks(alloc[3], sizes[3]) + BandPicks(alloc[4], sizes[4])
  {
    assert PickedCount(alloc[..1], sizes[..1]) == BandPicks(alloc[0], sizes[0]) by {
      assert alloc[..1][..0] == [] && sizes[..1][..0] == [];
    }
    assert PickedCount(alloc[..2], sizes[..2]) == PickedCount(alloc[..1], sizes[..1]) + BandPicks(alloc[1], sizes[1]) by {
      assert alloc[..2][..1] == alloc[..1] && sizes[..2][..1] == sizes[..1];
    }
    assert PickedCount(alloc[..3], sizes[..3]) == PickedCount(alloc[..2], sizes[..2]) + BandPicks(alloc[2], sizes[2]) by {
      assert alloc[..3][..2] == alloc[..2] && sizes[..3][..2] == sizes[..2];
    }
    assert PickedCount(alloc[..4], sizes[..4]) == PickedCount(alloc[..3], sizes[..3]) + BandPicks(alloc[3], sizes[3]) by {
      assert alloc[..4][..3] == alloc[..3] && sizes[..4][..3] == sizes[..3];
    }
  }

  /**
   * A negative weight, which the ratio normalisation can produce, makes the
   * pick overshoot even with clamped bands: with 81 students, 27 picks and the
   * weights [13, 13, 13, 63, -2], band E's share rounds to -1, the excess loop
   * cannot raise it, and 28 students are drawn.
   */
  lemma NegativeRatioOverpicks(n: nat, ratios: seq<int>, alloc: seq<int>)
    requires n == 81 && ratios == [13, 13, 13, 63, -2]
    requires Sum(ratios) == 100
    requires Repaired(InitialAllocations(ratios, ClampedSizes(n), 27), ClampedSizes(n), 27, alloc)
    ensures ClampedSizes(n) == [17, 17, 17, 17, 13]
    ensures InitialAllocations(ratios, ClampedSizes(n), 27) == [4, 4, 4, 17, -1]
    ensures PickedCount(alloc, ClampedSizes(n)) == 28
  {
    var sizes := ClampedSizes(n);
    assert BandWidth(n) == 17;
    assert sizes == [17, 17, 17, 17, 13];
    NegativeRatioShares(ratios, sizes, 27);
    var init := InitialAllocations(ratios, sizes, 27);
    Sum5(init);
    Sum5(alloc);
    PickedCount5(alloc, sizes);
  }

  lemma NegativeRatioShares(ratios: seq<int>, sizes: seq<int>, count: int)
    requires ratios == [13, 13, 13, 63, -2] && sizes == [17, 17, 17, 17, 13] && count == 27
    requires Sum(ratios) == 100
    ensures InitialAllocations(ratios, sizes, count) == [4, 4, 4, 17, -1]
  {
    var init := InitialAllocations(ratios, sizes, count);
    RoundDivUnique(13 * 27, 100, 4);
    RoundDivUnique(63 * 27, 100, 17);
    RoundDivUnique(-2 * 27, 100, -1);
    assert forall k :: 0 <= k < 5 ==> init[k] == [4, 4, 4, 17, -1][k];
  }

  /** The weights [13, 13, 13, 63, -2] add up to 100. */
  lemma NormalizedRatioSum(ratios: seq<int>)
    requires ratios == [13, 13, 13, 63, -2]
    ensures Sum(ratios) == 100
  {
    Sum5(ratios);
  }

  // ---------------------------------------------------------------------
  // The pick handler and the call log
  // ---------------------------------------------------------------------

  /**
   * The call log entries a sequence of picks adds: each pick is prepended in
   * turn, so the last pick comes first.
   */
  function CallLog(students: seq<string>, picks: seq<int>, time: string): (r: seq<CallRecord>)
    requires forall p :: 0 <= p < |picks| ==> 0 <= picks[p] < |students|
    ensures |r| == |picks|
    ensures forall p :: 0 <= p < |picks| ==> r[|picks| - 1 - p] == CallRecord(students[picks[p]], time)
  {
    if picks == [] then []
    else [CallRecord(students[picks[|picks| - 1]], time)] + CallLog(students, picks[..|picks| - 1], time)
  }

  /**
   * `handleRandomPick`: nothing happens on an empty roster or while the roll
   * animation runs; otherwise each band contributes its repaired allocation
   * and the picked students are logged one by one. The clock reading `now`
   * stands for the time stamp of every log entry.
   */
  method HandleRandomPick(store: Store, pickCount: int, animating: bool, now: string) returns (picked: seq<int>)
    requires store.students != [] && !animating ==>
      |store.settings.pickRatios| == 5 && Sum(store.settings.pickRatios) != 0 && pickCount >= 0
    modifies store`calledStudents
    ensures store.students == [] || animating ==> picked == [] && store.calledStudents == old(store.calledStudents)
    ensures forall p :: 0 <= p < |picked| ==> 0 <= picked[p] < |store.students|
    ensures forall p, q :: 0 <= p < q < |picked| ==> picked[p] != picked[q]
    ensures store.calledStudents == CallLog(store.students, picked, now) + old(store.calledStudents)
    ensures store.students != [] && !animating ==> forall i :: 0 <= i < 5 ==>
      |Filter(picked, Within(BandOf(|store.students|, i)))|
        == BandPicks(Allocation(|store.students|, store.settings.pickRatios, pickCount)[i], BandOf(|store.students|, i).size)
    ensures store.students != [] && !animating && (forall k :: 0 <= k < 5 ==> store.settings.pickRatios[k] >= 0)
      ==> |picked| == Min(pickCount, |store.students|)
  {
    if store.students == [] || animating {
      picked := [];
      assert CallLog(store.students, picked, now) == [];
      return;
    }
    var roster := store.students;
    var ratios := store.settings.pickRatios;
    picked := RandomPick(|roster|, ratios, pickCount);
    LogPicks(store, picked, now);
    assert store.students == roster && store.settings.pickRatios == ratios;
  }

  /** `picked.forEach(idx => addCalledStudent(students[idx]))`. */
  method LogPicks(store: Store, picked: seq<int>, now: string)
    requires forall p :: 0 <= p < |picked| ==> 0 <= picked[p] < |store.students|
    modifies store`calledStudents
    ensures store.calledStudents == CallLog(store.students, picked, now) + old(store.calledStudents)
  {
    for p := 0 to |picked|
      invariant store.calledStudents == CallLog(store.students, picked[..p], now) + old(store.calledStudents)
    {
      CallLogStep(store.students, picked, now, p);
      store.AddCalledStudent(store.students[picked[p]], now);
    }
    assert picked[..|picked|] == picked;
  }

  /** Logging one more pick puts its record in front. */
  lemma CallLogStep(students: seq<string>, picks: seq<int>, time: string, p: int)
    requires forall q :: 0 <= q < |picks| ==> 0 <= picks[q] < |students|
    requires 0 <= p < |picks|
    ensures CallLog(students, picks[..p + 1], time)
         == [CallRecord(students[picks[p]], time)] + CallLog(students, picks[..p], time)
  {
    assert picks[..p + 1][..p] == picks[..p];
  }

  /** The students a pick logs are the picked roster entries, newest first. */
  lemma CallLogOrder(students: seq<string>, picks: seq<int>, time: string, p: int)
    requires forall q :: 0 <= q < |picks| ==> 0 <= picks[q] < |students|
    requires 0 <= p < |picks|
    ensures CallLog(students, picks, time)[0] == CallRecord(students[picks[|picks| - 1]], time)
    ensures CallLog(students, picks, time)[|picks| - 1] == CallRecord(students[picks[0]], time)
  {
  }

  // ---------------------------------------------------------------------
  // Import and the stepper
  // ---------------------------------------------------------------------

  function TrimAll(lines: seq<string>): (r: seq<string>)
    ensures |r| == |lines| && forall k :: 0 <= k < |r| ==> r[k] == Trim(lines[k])
  {
    seq(|lines|, k requires 0 <= k < |lines| => Trim(lines[k]))
  }

  lemma TrimAllTrimmed(lines: seq<string>)
    ensures forall n :: n in TrimAll(lines) ==> Trim(n) == n
  {
    forall n | n in TrimAll(lines) ensures Trim(n) == n {
      var k :| 0 <= k < |lines| && TrimAll(lines)[k] == n;
      TrimIdempotent(lines[k]);
    }
  }

  predicate NonEmpty(s: string) { s != [] }

  /** `text.split('\n').map(n => n.trim()).filter(Boolean)`. */
  function ImportedNames(text: string): (r: seq<string>)
    ensures forall n :: n in r ==> n != [] && Trim(n) == n
  {
    TrimAllTrimmed(Split(text, '\n'));
    Filter(TrimAll(Split(text, '\n')), NonEmpty)
  }

  /**
   * `handleImport`: blank text is ignored; otherwise the non-empty trimmed
   * lines go to `addStudents`.
   */
  method HandleImport(store: Store, text: string)
    modifies store`students
    ensures Trim(text) == [] ==> store.students == old(store.students)
    ensures Trim(text) != [] ==> store.students == old(store.students) + NewNames(old(store.students), ImportedNames(text))
  {
    if Trim(text) == [] {
      return;
    }
    store.AddStudents(ImportedNames(text));
  }

  /**
   * Names that are trimmed, non-empty and free of line breaks come back
   * unchanged from a text holding one of them per line.
   */
  lemma ImportRoundTrip(names: seq<string>)
    requires forall k :: 0 <= k < |names| ==> names[k] != [] && Trim(names[k]) == names[k] && '\n' !in names[k]
    ensures ImportedNames(Join(names, "\n")) == names
  {
    if names == [] {
      ImportEmpty();
    } else {
      SplitJoin(names, '\n');
      assert TrimAll(names) == names;
      FilterAll(names, NonEmpty);
    }
  }

  lemma ImportEmpty()
    ensures ImportedNames([]) == []
  {
    assert Split([], '\n') == [[]];
    assert TrimAll([[]]) == [[]];
    assert Filter([[]], NonEmpty) == Filter([], NonEmpty);
  }

  /** Text that is only white space and line breaks imports nobody. */
  lemma BlankTextImportsNothing(text: string)
    requires AllSpace(text)
    ensures ImportedNames(text) == []
  {
    var lines := Split(text, '\n');
    var trimmed := TrimAll(lines);
    forall k | 0 <= k < |trimmed| ensures !NonEmpty(trimmed[k]) {
      SplitChars(text, '\n', k);
      var line := lines[k];
      forall i | 0 <= i < |line| ensures IsSpace(line[i]) {
        assert line[i] in line;
        var j :| 0 <= j < |text| && text[j] == line[i];
      }
      TrimEmpty(line);
    }
    FilterNone(trimmed, NonEmpty);
  }

  /** Every piece of a split is made of characters of the text. */
  lemma {:induction false} SplitChars(s: string, sep: char, k: int)
    requires 0 <= k < |Split(s, sep)|
    ensures forall c :: c in Split(s, sep)[k] ==> c in s
  {
    if s != [] {
      var t := Split(s[1..], sep);
      if s[0] == sep {
        if k > 0 {
          SplitChars(s[1..], sep, k - 1);
        }
      } else if k == 0 {
        SplitChars(s[1..], sep, 0);
      } else {
        SplitChars(s[1..], sep, k);
      }
    }
  }

  /** `Math.max(1, pickCount - 1)`. */
  function StepDown(c: int): (d: int)
    ensures 1 <= d && (c <= MaxPickCount ==> d <= MaxPickCount)
  {
    Max(1, c - 1)
  }

  /** `Math.min(50, pickCount + 1)`. */
  function StepUp(c: int): (u: int)
    ensures u <= MaxPickCount && (c >= 1 ==> u >= 1)
  {
    Min(MaxPickCount, c + 1)
  }

  /**
   * The stepper starts at 1 and its buttons keep the pick count within
   * `[1, 50]`; inside that range each button undoes the other.
   */
  lemma StepperBounds(c: int)
    requires 1 <= c <= MaxPickCount
    ensures 1 <= StepDown(c) <= MaxPickCount && 1 <= StepUp(c) <= MaxPickCount
    ensures c > 1 ==> StepUp(StepDown(c)) == c
    ensures c < MaxPickCount ==> StepDown(StepUp(c)) == c
  {
  }
}
