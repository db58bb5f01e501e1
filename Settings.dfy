/**
 * The settings dialog: a draft copy of the pick weights, the animation speed,
 * the hot threshold and the sound switch, edited field by field and written
 * back to the store on save; plus the check that a backup file carries the
 * fields an import needs.
 */
module SettingsDialog {
  import opened Wrappers
  import opened Collections
  import opened Rounding
  import opened ClassroomStore

  /** `Math.max(0, Math.min(100, value))`. */
  function ClampRatio(value: int): (r: int)
    ensures 0 <= r <= 100
    ensures 0 <= value <= 100 ==> r == value
    ensures value < 0 ==> r == 0
    ensures value > 100 ==> r == 100
  {
    Max(0, Min(100, value))
  }

  /** The weights as `autoNormalize` rounds them: `Math.round((r / sum) * 100)`. */
  function Rounded(ratios: seq<int>, sum: int): (r: seq<int>)
    requires sum != 0
    ensures |r| == |ratios|
    ensures forall k :: 0 <= k < |r| ==> r[k] == RoundQuotient(100 * ratios[k], sum)
  {
    if ratios == [] then [] else [RoundQuotient(100 * ratios[0], sum)] + Rounded(ratios[1..], sum)
  }

  /**
   * `autoNormalize`: five equal weights of 20 when the weights add up to 0;
   * otherwise each weight is rescaled to a percentage and rounded, and the last
   * weight absorbs the rounding error, so that the weights add up to 100.
   */
  function Normalized(ratios: seq<int>): (r: seq<int>)
    ensures Sum(ratios) == 0 ==> r == [20, 20, 20, 20, 20]
    ensures Sum(ratios) != 0 ==> |r| == |ratios| >= 1
    ensures Sum(ratios) != 0 ==> forall k :: 0 <= k < |r| - 1 ==> r[k] == RoundQuotient(100 * ratios[k], Sum(ratios))
    ensures Sum(r) == 100
  {
    var sum := Sum(ratios);
    if sum == 0 then
      assert [20, 20, 20, 20, 20][1..][1..][1..][1..][1..] == [];
      [20, 20, 20, 20, 20]
    else
      var rounded := Rounded(ratios, sum);
      var last := |rounded| - 1;
      var diff := 100 - Sum(rounded);
      SumUpdate(rounded, last, rounded[last] + diff);
      rounded[last := rounded[last] + diff]
  }

  /** Weights that already add up to 100 are left as they are. */
  lemma NormalizeKeepsValid(ratios: seq<int>)
    requires Sum(ratios) == 100
    ensures Normalized(ratios) == ratios
  {
    var rounded := Rounded(ratios, 100);
    forall k | 0 <= k < |ratios| ensures rounded[k] == ratios[k] {
      assert 100 * ratios[k] == ratios[k] * 100;
      RoundDivExact(ratios[k], 100);
    }
    assert rounded == ratios;
  }

  /** Normalising twice is normalising once. */
  lemma NormalizeIdempotent(ratios: seq<int>)
    ensures Normalized(Normalized(ratios)) == Normalized(ratios)
  {
    NormalizeKeepsValid(Normalized(ratios));
  }

  /**
   * Normalising does not keep the weights non-negative: [1, 1, 1, 5, 0] adds up
   * to 8; 12.5 and 62.5 round up to 13 and 63, the rounded weights add up to
   * 102, and the last weight becomes 0 - 2.
   */
  lemma NormalizeCanGoNegative(ratios: seq<int>)
    requires ratios == [1, 1, 1, 5, 0]
    ensures Normalized(ratios) == [13, 13, 13, 63, -2]
  {
    Sum5(ratios);
    var rounded := Rounded(ratios, 8);
    RoundDivUnique(100, 8, 13);
    RoundDivUnique(500, 8, 63);
    RoundDivUnique(0, 8, 0);
    assert rounded == [13, 13, 13, 63, 0];
    Sum5(rounded);
  }

  lemma Distribute(d: int, a: int, b: int)
    ensures d * (a + b) == d * a + d * b
  {
  }

  /** One weight's rounding bound: `2 * sum * r <= 200 * x + sum`. */
  lemma RoundedOneBound(x: int, sum: int)
    requires sum > 0
    ensures 2 * sum * RoundQuotient(100 * x, sum) <= 200 * x + sum
  {
  }

  /** Adding up the rounding bound over all weights. */
  lemma {:induction false} RoundedSumBound(ratios: seq<int>, sum: int)
    requires sum > 0
    ensures (2 * sum) * Sum(Rounded(ratios, sum)) <= 200 * Sum(ratios) + |ratios| * sum
  {
    if ratios != [] {
      var r := Rounded(ratios, sum);
      var tail := Rounded(ratios[1..], sum);
      RoundedSumBound(ratios[1..], sum);
      assert tail == r[1..];
      assert Sum(r) == r[0] + Sum(tail);
      RoundedOneBound(ratios[0], sum);
      BoundStep(2 * sum, r[0], Sum(tail), ratios[0], Sum(ratios[1..]), |ratios| - 1, sum);
    }
  }

  /** The induction step of `RoundedSumBound`, as linear arithmetic over named products. */
  lemma BoundStep(p: int, r0: int, rest: int, x0: int, xs: int, m: int, sum: int)
    requires p * r0 <= 200 * x0 + sum
    requires p * rest <= 200 * xs + m * sum
    ensures p * (r0 + rest) <= 200 * (x0 + xs) + (m + 1) * sum
  {
    Distribute(p, r0, rest);
    Distribute(sum, m, 1);
    assert (m + 1) * sum == sum * (m + 1);
  }

  /**
   * For non-negative weights with a positive sum, the last normalised weight
   * is at least `-len / 2`: each rounding adds at most one half, so the
   * rounded weights exceed 100 by at most half the number of weights.
   */
  lemma NormalizedLastBound(ratios: seq<int>)
    requires forall k :: 0 <= k < |ratios| ==> ratios[k] >= 0
    requires Sum(ratios) > 0
    ensures 2 * Normalized(ratios)[|ratios| - 1] >= -|ratios|
  {
    var sum := Sum(ratios);
    RoundedTotalBound(ratios, sum);
    LastRoundedNonNegative(ratios, sum);
  }

  /** For a positive sum, the rounded weights add up to at most `(200 + len) / 2`. */
  lemma RoundedTotalBound(ratios: seq<int>, sum: int)
    requires sum > 0 && Sum(ratios) == sum
    ensures 2 * Sum(Rounded(ratios, sum)) <= 200 + |ratios|
  {
    var total := Sum(Rounded(ratios, sum));
    var len := |ratios|;
    RoundedSumBound(ratios, sum);
    assert (2 * sum) * total <= 200 * sum + len * sum;
    assert (2 * sum) * total == sum * (2 * total);
    assert 200 * sum + len * sum < sum * (200 + len + 1) by {
      Distribute(sum, 200 + len, 1);
      Distribute(sum, 200, len);
    }
    CancelPositive(sum, 2 * total, 200 + len + 1);
  }

  lemma LastRoundedNonNegative(ratios: seq<int>, sum: int)
    requires sum > 0 && |ratios| >= 1 && ratios[|ratios| - 1] >= 0
    ensures Rounded(ratios, sum)[|ratios| - 1] >= 0
  {
    var x := ratios[|ratios| - 1];
    assert 100 * x >= 0;
    RoundDivMonotone(0, 100 * x, sum);
    RoundDivExact(0, sum);
  }

  /** The draft the dialog edits, copied from the settings when it opens. */
  class Draft {
    var ratios: seq<int>
    var speed: Speed
    var threshold: int
    var sound: bool

    constructor (s: Settings)
      ensures ratios == s.pickRatios && speed == s.animationSpeed
      ensures threshold == s.hotThreshold && sound == s.soundEnabled
    {
      ratios := s.pickRatios;
      speed := s.animationSpeed;
      threshold := s.hotThreshold;
      sound := s.soundEnabled;
    }

    /**
     * `isValid`: the weights add up to exactly 100, which is to say that
     * auto-normalising would leave them as they are.
     */
    predicate IsValid(): (ok: bool)
      reads this
      ensures ok <==> Normalized(ratios) == ratios
    {
      if Sum(ratios) == 100 then NormalizeKeepsValid(ratios); true else false
    }

    /** `handleRatioChange`: only slot `index` changes, to the value clamped into [0, 100]. */
    method ChangeRatio(index: int, value: int)
      requires 0 <= index < |ratios|
      modifies this`ratios
      ensures ratios == old(ratios)[index := ClampRatio(value)]
    {
      ratios := ratios[index := ClampRatio(value)];
    }

    method AutoNormalize()
      modifies this`ratios
      ensures ratios == Normalized(old(ratios))
      ensures IsValid()
    {
      ratios := Normalized(ratios);
    }

    /** `handleReset`: the default weights, medium speed, threshold 4 and sound on. */
    method Reset()
      modifies this
      ensures ratios == DefaultRatios && speed == Medium && threshold == 4 && sound
      ensures IsValid()
    {
      ratios := DefaultRatios;
      speed := Medium;
      threshold := 4;
      sound := true;
      DefaultRatiosValid();
    }

    /**
     * `handleSave`, reachable only while the save button is enabled: the four
     * edited fields are written to the store, the zoom level is kept.
     */
    method Save(store: Store) returns (saved: bool)
      modifies store`settings
      ensures saved == IsValid()
      ensures saved ==> store.settings == old(store.settings).(pickRatios := ratios, animationSpeed := speed,
        hotThreshold := threshold, soundEnabled := sound)
      ensures !saved ==> store.settings == old(store.settings)
    {
      saved := IsValid();
      if saved {
        store.UpdateSettings(SettingsPatch(Some(ratios), Some(speed), Some(threshold), Some(sound), None));
      }
    }
  }

  /** The fields of a parsed backup file; a missing or falsy field is `None`. */
  datatype Backup = Backup(
    students: Option<seq<string>>,
    problems: Option<map<int, int>>,
    calledStudents: Option<seq<CallRecord>>,
    settings: Option<Settings>)

  /** The import accepts a backup carrying students, problems and settings. */
  predicate Accepts(b: Backup) {
    b.students.Some? && b.problems.Some? && b.settings.Some?
  }

  /** The backup `handleExportData` writes for a store state. */
  function BackupOf(students: seq<string>, problems: map<int, int>, called: seq<CallRecord>, settings: Settings): (b: Backup)
    ensures Accepts(b)
  {
    Backup(Some(students), Some(problems), Some(called), Some(settings))
  }

  /**
   * The import: a backup with students, problems and settings replaces those
   * fields and the call log (an absent log becomes empty); any other backup
   * changes nothing. The related-problem lists and the problem count are
   * never touched.
   */
  method ImportBackup(store: Store, b: Backup) returns (accepted: bool)
    modifies store`students, store`problems, store`calledStudents, store`settings
    ensures accepted == Accepts(b)
    ensures accepted ==> (store.students == b.students.value && store.problems == b.problems.value
      && store.calledStudents == b.calledStudents.GetOr([]) && store.settings == b.settings.value)
    ensures !accepted ==> (store.students == old(store.students) && store.problems == old(store.problems)
      && store.calledStudents == old(store.calledStudents) && store.settings == old(store.settings))
  {
    accepted := Accepts(b);
    if accepted {
      store.students := b.students.value;
      store.problems := b.problems.value;
      store.calledStudents := b.calledStudents.GetOr([]);
      store.settings := b.settings.value;
    }
  }

  /**
   * Exporting a store and importing the file into a store (the same one or
   * another): the import is accepted, and the target then holds exactly the
   * exported students, problems, call log and settings.
   */
  method ExportImportRoundTrip(source: Store, target: Store) returns (accepted: bool)
    modifies target`students, target`problems, target`calledStudents, target`settings
    ensures accepted
    ensures target.students == old(source.students) && target.problems == old(source.problems)
    ensures target.calledStudents == old(source.calledStudents) && target.settings == old(source.settings)
  {
    var backup := BackupOf(source.students, source.problems, source.calledStudents, source.settings);
    accepted := ImportBackup(target, backup);
  }
}
