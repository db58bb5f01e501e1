/**
 * The persisted classroom store: the roster, the log of called students, the
 * per-question wrong-answer counters, the "related problems" lists and the
 * settings. Each action of the store replaces some of these fields; the class
 * below has one field per piece of state and one method per action, whose
 * `modifies` clause names exactly the fields the action replaces.
 */
module ClassroomStore {
  import opened Wrappers
  import opened Collections
  import opened Text

  datatype Speed = Fast | Medium | Slow

  datatype Settings = Settings(
    pickRatios: seq<int>,
    animationSpeed: Speed,
    hotThreshold: int,
    soundEnabled: bool,
    zoomLevel: real)

  /** A partial settings object: the keys present are the `Some` fields. */
  datatype SettingsPatch = SettingsPatch(
    pickRatios: Option<seq<int>>,
    animationSpeed: Option<Speed>,
    hotThreshold: Option<int>,
    soundEnabled: Option<bool>,
    zoomLevel: Option<real>)

  /** One entry of the call log: who was called, and the ISO time stamp. */
  datatype CallRecord = CallRecord(name: string, time: string)

  /** Pick weights of the five roster bands A to E. */
  const DefaultRatios: seq<int> := [10, 15, 25, 25, 25]

  const DefaultSettings: Settings := Settings(DefaultRatios, Medium, 4, true, 1.0)

  const DefaultProblemCount: int := 20

  /** The default weights are five percentages that add up to 100. */
  lemma DefaultRatiosValid()
    ensures |DefaultRatios| == 5 && Sum(DefaultRatios) == 100
    ensures forall k :: 0 <= k < 5 ==> DefaultRatios[k] >= 0
  {
    assert DefaultRatios[1..][1..][1..][1..][1..] == [];
  }

  /** `{ ...s, ...patch }`: each key present in the patch wins, the others stay. */
  function Merge(s: Settings, patch: SettingsPatch): (r: Settings)
    ensures patch.pickRatios.Some? ==> r.pickRatios == patch.pickRatios.value
    ensures patch.pickRatios.None? ==> r.pickRatios == s.pickRatios
    ensures patch.animationSpeed.Some? ==> r.animationSpeed == patch.animationSpeed.value
    ensures patch.animationSpeed.None? ==> r.animationSpeed == s.animationSpeed
    ensures patch.hotThreshold.Some? ==> r.hotThreshold == patch.hotThreshold.value
    ensures patch.hotThreshold.None? ==> r.hotThreshold == s.hotThreshold
    ensures patch.soundEnabled.Some? ==> r.soundEnabled == patch.soundEnabled.value
    ensures patch.soundEnabled.None? ==> r.soundEnabled == s.soundEnabled
    ensures patch.zoomLevel.Some? ==> r.zoomLevel == patch.zoomLevel.value
    ensures patch.zoomLevel.None? ==> r.zoomLevel == s.zoomLevel
  {
    Settings(
      patch.pickRatios.GetOr(s.pickRatios),
      patch.animationSpeed.GetOr(s.animationSpeed),
      patch.hotThreshold.GetOr(s.hotThreshold),
      patch.soundEnabled.GetOr(s.soundEnabled),
      patch.zoomLevel.GetOr(s.zoomLevel))
  }

  /** Applying the same patch twice is applying it once. */
  lemma MergeIdempotent(s: Settings, patch: SettingsPatch)
    ensures Merge(Merge(s, patch), patch) == Merge(s, patch)
  {
  }

  /** `problems[p] || 0`: a missing counter reads as zero. */
  function Count(problems: map<int, int>, p: int): (c: int)
    ensures p !in problems ==> c == 0
  {
    if p in problems then problems[p] else 0
  }

  /**
   * The names `addStudents` appends: those whose trimmed form is non-empty and
   * not yet on the roster, checked against the roster as it was before the
   * batch and appended untrimmed.
   */
  function NewNames(roster: seq<string>, names: seq<string>): (r: seq<string>)
    ensures |r| <= |names|
    ensures forall n :: n in r <==> n in names && Trim(n) != [] && Trim(n) !in roster
  {
    Filter(names, Fresh(roster))
  }

  /** `n => n.trim() && !roster.includes(n.trim())`. */
  function Fresh(roster: seq<string>): string -> bool {
    (n: string) => Trim(n) != [] && Trim(n) !in roster
  }

  /** A name repeated within one batch is added twice. */
  lemma BatchNotDeduplicated(roster: seq<string>, n: string)
    requires Trim(n) != [] && Trim(n) !in roster
    ensures NewNames(roster, [n, n]) == [n, n]
  {
    assert Fresh(roster)(n);
    FilterAll([n, n], Fresh(roster));
  }

  /**
   * The roster check uses the trimmed name, but the roster receives the name
   * as it was given.
   */
  lemma TrimmedCheckUntrimmedAppend(roster: seq<string>, n: string)
    requires Trim(n) != []
    ensures NewNames(roster, [n]) == if Trim(n) in roster then [] else [n]
  {
    if Trim(n) in roster {
      FilterNone([n], Fresh(roster));
    } else {
      FilterAll([n], Fresh(roster));
    }
  }

  /** A batch is screened element by element against the roster it started from. */
  lemma NewNamesAppend(roster: seq<string>, a: seq<string>, b: seq<string>)
    ensures NewNames(roster, a + b) == NewNames(roster, a) + NewNames(roster, b)
  {
    FilterAppend(a, b, Fresh(roster));
  }

  /** The inclusive integer range `lo..hi`, ascending. */
  function Span(lo: int, hi: int): (r: seq<int>)
    ensures |r| == if hi < lo then 0 else hi - lo + 1
    ensures forall k :: 0 <= k < |r| ==> r[k] == lo + k
    decreases hi - lo
  {
    if hi < lo then [] else Span(lo, hi - 1) + [hi]
  }

  /** `i !== p && newProblems[i] > 0`. */
  predicate IsRelated(problems: map<int, int>, p: int, i: int) {
    i != p && Count(problems, i) > 0
  }

  /** The problems in `lo..hi`, ascending, that count as related to `p`. */
  function RelatedIn(problems: map<int, int>, p: int, lo: int, hi: int): (r: seq<int>)
    ensures forall i :: i in r <==> lo <= i <= hi && IsRelated(problems, p, i)
    ensures forall a, b :: 0 <= a < b < |r| ==> r[a] < r[b]
    decreases hi - lo
  {
    if hi < lo then []
    else
      var r := RelatedIn(problems, p, lo, hi - 1);
      assert forall a :: 0 <= a < |r| ==> r[a] in r;
      r + if IsRelated(problems, p, hi) then [hi] else []
  }

  /** The related list `incrementProblem(p)` computes: the window `max(1, p-2)..p+2`. */
  function Related(problems: map<int, int>, p: int): (r: seq<int>)
    ensures forall i :: i in r <==> Max(1, p - 2) <= i <= p + 2 && i != p && Count(problems, i) > 0
    ensures forall a, b :: 0 <= a < b < |r| ==> r[a] < r[b]
  {
    RelatedIn(problems, p, Max(1, p - 2), p + 2)
  }

  /** The loop of `incrementProblem` that builds the related list with `push`. */
  method CollectRelated(problems: map<int, int>, p: int) returns (related: seq<int>)
    ensures related == Related(problems, p)
  {
    var lo := Max(1, p - 2);
    related := [];
    var i := lo;
    while i <= p + 2
      invariant lo <= i <= Max(lo, p + 3)
      invariant related == RelatedIn(problems, p, lo, i - 1)
    {
      if i != p && Count(problems, i) > 0 {
        related := related + [i];
      }
      i := i + 1;
    }
  }

  class Store {
    var students: seq<string>
    var calledStudents: seq<CallRecord>
    var problems: map<int, int>
    var relatedProblems: map<int, seq<int>>
    var problemCount: int
    var settings: Settings

    /** The initial state before anything has been persisted. */
    constructor ()
      ensures students == [] && calledStudents == []
      ensures problems == map[] && relatedProblems == map[]
      ensures problemCount == DefaultProblemCount && settings == DefaultSettings
    {
      students := [];
      calledStudents := [];
      problems := map[];
      relatedProblems := map[];
      problemCount := DefaultProblemCount;
      settings := DefaultSettings;
    }

    method AddStudents(names: seq<string>)
      modifies this`students
      ensures students == old(students) + NewNames(old(students), names)
    {
      students := students + NewNames(students, names);
    }

    method ClearStudents()
      modifies this`students, this`calledStudents
      ensures students == [] && calledStudents == []
    {
      students := [];
      calledStudents := [];
    }

    /** Prepends one record, so the newest call comes first. */
    method AddCalledStudent(name: string, time: string)
      modifies this`calledStudents
      ensures calledStudents == [CallRecord(name, time)] + old(calledStudents)
    {
      calledStudents := [CallRecord(name, time)] + calledStudents;
    }

    method ClearCalledStudents()
      modifies this`calledStudents
      ensures calledStudents == []
    {
      calledStudents := [];
    }

    method SetProblemCount(count: int)
      modifies this`problemCount
      ensures problemCount == count
    {
      problemCount := count;
    }

    /**
     * One more wrong answer on problem `p`; the neighbourhood of `p` becomes
     * its related list unless no neighbour has a wrong answer.
     */
    method IncrementProblem(p: int)
      modifies this`problems, this`relatedProblems
      ensures problems == old(problems)[p := Count(old(problems), p) + 1]
      ensures Related(problems, p) != [] ==>
        relatedProblems == old(relatedProblems)[p := Related(problems, p)]
      ensures Related(problems, p) == [] ==> relatedProblems == old(relatedProblems)
    {
      var newProblems := problems[p := Count(problems, p) + 1];
      var related := CollectRelated(newProblems, p);
      var newRelated := relatedProblems;
      if |related| > 0 {
        newRelated := newRelated[p := related];
      }
      problems := newProblems;
      relatedProblems := newRelated;
    }

    method ResetProblems()
      modifies this`problems, this`relatedProblems
      ensures problems == map[] && relatedProblems == map[]
    {
      problems := map[];
      relatedProblems := map[];
    }

    method SetRelatedProblems(p: int, list: seq<int>)
      modifies this`relatedProblems
      ensures relatedProblems == old(relatedProblems)[p := list]
    {
      relatedProblems := relatedProblems[p := list];
    }

    method UpdateSettings(patch: SettingsPatch)
      modifies this`settings
      ensures settings == Merge(old(settings), patch)
    {
      settings := Merge(settings, patch);
    }

    method ResetSettings()
      modifies this`settings
      ensures settings == DefaultSettings
    {
      settings := DefaultSettings;
    }
  }

  /**
   * `incrementProblem` raises the counter of `p` by exactly one and leaves
   * every other counter as it was.
   */
  lemma IncrementOnlyTouches(problems: map<int, int>, p: int, q: int)
    ensures Count(problems[p := Count(problems, p) + 1], q)
         == if q == p then Count(problems, p) + 1 else Count(problems, q)
  {
  }

  /** A window of `hi - lo + 1` problems holding `p` yields at most `hi - lo` related ones. */
  lemma {:induction false} RelatedInSize(problems: map<int, int>, p: int, lo: int, hi: int)
    requires lo <= hi + 1
    ensures |RelatedIn(problems, p, lo, hi)| <= hi - lo + 1 - (if lo <= p <= hi then 1 else 0)
    decreases hi - lo
  {
    if lo <= hi {
      RelatedInSize(problems, p, lo, hi - 1);
    }
  }

  /** Problem `p` is never related to itself, and has at most four related problems. */
  lemma RelatedExcludesSelf(problems: map<int, int>, p: int)
    ensures p !in Related(problems, p)
    ensures |Related(problems, p)| <= 4
  {
    if p >= -2 {
      RelatedInSize(problems, p, Max(1, p - 2), p + 2);
    }
  }
}
