/**
 * The pure data shaping inside src/garmin/client.ts, with the network call
 * around each block taken away: the four lookup tables for workout
 * payloads, the statistics of a day's stress samples, the per-day body
 * battery summary, the in-progress badge filter and merge, and the file name
 * and extension `uploadActivity` reports.
 */
module GarminClient {
  import opened Wrappers
  import opened Strings

  // ---------------------------------------------------------------------
  // Lookup tables (client.ts:863-913)
  // ---------------------------------------------------------------------

  datatype SportType = SportType(sportTypeId: int, sportTypeKey: string)
  datatype StepType = StepType(stepTypeId: int, stepTypeKey: string)
  datatype EndCondition = EndCondition(conditionTypeId: int, conditionTypeKey: string)
  datatype TargetType = TargetType(workoutTargetTypeId: int, workoutTargetTypeKey: string)

  const SportTable: map<string, SportType> := map[
    "running" := SportType(1, "running"),
    "cycling" := SportType(2, "cycling"),
    "swimming" := SportType(5, "swimming"),
    "strength" := SportType(4, "strength_training"),
    "cardio" := SportType(3, "fitness_equipment"),
    "walking" := SportType(9, "walking"),
    "hiking" := SportType(17, "hiking"),
    "yoga" := SportType(43, "yoga")
  ]

  const StepTable: map<string, StepType> := map[
    "warmup" := StepType(1, "warmup"),
    "cooldown" := StepType(2, "cooldown"),
    "interval" := StepType(3, "interval"),
    "recovery" := StepType(4, "recovery"),
    "rest" := StepType(5, "rest"),
    "repeat" := StepType(6, "repeat"),
    "other" := StepType(7, "other")
  ]

  const ConditionTable: map<string, EndCondition> := map[
    "time" := EndCondition(2, "time"),
    "distance" := EndCondition(3, "distance"),
    "lap_button" := EndCondition(1, "lap.button"),
    "iterations" := EndCondition(7, "iterations")
  ]

  const TargetTable: map<string, TargetType> := map[
    "pace" := TargetType(6, "pace.zone"),
    "heart_rate" := TargetType(4, "heart.rate.zone"),
    "power" := TargetType(2, "power.zone"),
    "cadence" := TargetType(3, "cadence"),
    "speed" := TargetType(5, "speed.zone"),
    "no_target" := TargetType(1, "no.target")
  ]

  /**
   * `table[key.toLowerCase()] || table[fallback]` where only the table's own
   * entries are considered: the behaviour the helpers are evidently meant to have.
   */
  function LookupOr<T(==)>(table: map<string, T>, key: string, fallback: string): (r: T)
    requires fallback in table
    ensures r in table.Values
    ensures ToLower(key) in table ==> r == table[ToLower(key)]
    ensures ToLower(key) !in table ==> r == table[fallback]
  {
    var k := ToLower(key);
    if k in table then table[k] else table[fallback]
  }

  /** The lookup ignores the case of ASCII letters in the key. */
  lemma LookupOrCaseInsensitive<T>(table: map<string, T>, key: string, fallback: string)
    requires fallback in table
    ensures LookupOr(table, key, fallback) == LookupOr(table, ToLower(key), fallback)
  {
    ToLowerIdempotent(key);
  }

  /** `mapSportType`: known sports by lower-cased name, `{1, 'running'}` otherwise. */
  function MapSportType(sport: string): (r: SportType)
    ensures r in SportTable.Values
    ensures ToLower(sport) in SportTable ==> r == SportTable[ToLower(sport)]
    ensures ToLower(sport) !in SportTable ==> r == SportType(1, "running")
  {
    LookupOr(SportTable, sport, "running")
  }

  /** `mapStepType`: known step types by lower-cased name, `{3, 'interval'}` otherwise. */
  function MapStepType(stepType: string): (r: StepType)
    ensures r in StepTable.Values
    ensures ToLower(stepType) in StepTable ==> r == StepTable[ToLower(stepType)]
    ensures ToLower(stepType) !in StepTable ==> r == StepType(3, "interval")
  {
    LookupOr(StepTable, stepType, "interval")
  }

  /** `mapEndCondition`: known conditions by lower-cased name, `{2, 'time'}` otherwise. */
  function MapEndCondition(condition: string): (r: EndCondition)
    ensures r in ConditionTable.Values
    ensures ToLower(condition) in ConditionTable ==> r == ConditionTable[ToLower(condition)]
    ensures ToLower(condition) !in ConditionTable ==> r == EndCondition(2, "time")
  {
    LookupOr(ConditionTable, condition, "time")
  }

  /** `mapTargetType`: known targets by lower-cased name, `{1, 'no.target'}` otherwise. */
  function MapTargetType(target: string): (r: TargetType)
    ensures r in TargetTable.Values
    ensures ToLower(target) in TargetTable ==> r == TargetTable[ToLower(target)]
    ensures ToLower(target) !in TargetTable ==> r == TargetType(1, "no.target")
  {
    LookupOr(TargetTable, target, "no_target")
  }

  /** All four mappers are case-insensitive. */
  lemma MappersCaseInsensitive(s: string)
    ensures MapSportType(s) == MapSportType(ToLower(s))
    ensures MapStepType(s) == MapStepType(ToLower(s))
    ensures MapEndCondition(s) == MapEndCondition(ToLower(s))
    ensures MapTargetType(s) == MapTargetType(ToLower(s))
  {
    LookupOrCaseInsensitive(SportTable, s, "running");
    LookupOrCaseInsensitive(StepTable, s, "interval");
    LookupOrCaseInsensitive(ConditionTable, s, "time");
    LookupOrCaseInsensitive(TargetTable, s, "no_target");
  }

  /**
   * The property names every object literal inherits from `Object.prototype`
   * that consist of lower-case characters only, so that a lower-cased key
   * can reach them.
   */
  const InheritedLowerCaseMembers: set<string> := {"constructor", "__proto__"}

  /** What indexing an object literal yields: an own entry or an inherited member. */
  datatype Lookup<T> = Own(value: T) | Inherited(member: string)

  /**
   * `table[key.toLowerCase()] || table[fallback]` AS WRITTEN: the literal
   * `table` inherits from `Object.prototype`, so a key naming an inherited
   * member yields that (truthy) member instead of the fallback entry.
   */
  function LookupAsWritten<T(==)>(table: map<string, T>, key: string, fallback: string): (r: Lookup<T>)
    requires fallback in table
    requires table.Keys !! InheritedLowerCaseMembers
    ensures r.Own? ==> r.value == LookupOr(table, key, fallback)
    ensures r.Inherited? <==> ToLower(key) in InheritedLowerCaseMembers
  {
    var k := ToLower(key);
    if k in table then Own(table[k])
    else if k in InheritedLowerCaseMembers then Inherited(k)
    else Own(table[fallback])
  }

  /** `mapSportType` as written, with the inherited members reachable. */
  function MapSportTypeAsWritten(sport: string): Lookup<SportType> {
    LookupAsWritten(SportTable, sport, "running")
  }

  /** The evident intent and the code agree on every key but the inherited member names. */
  lemma MapSportTypeAsWrittenAgrees(sport: string)
    requires ToLower(sport) !in InheritedLowerCaseMembers
    ensures MapSportTypeAsWritten(sport) == Own(MapSportType(sport))
  {
  }

  /**
   * The counterexample: asked for the sport "constructor", the code as
   * written returns the `Object` constructor, which has no `sportTypeId`,
   * instead of the running default.
   */
  lemma MapSportTypeAsWrittenConstructor()
    ensures MapSportTypeAsWritten("constructor") == Inherited("constructor")
    ensures MapSportType("constructor") == SportType(1, "running")
  {
    ToLowerOfLower("constructor");
    ConstructorIsInherited();
  }

  lemma ConstructorIsInherited()
    ensures "constructor" !in SportTable && "constructor" in InheritedLowerCaseMembers
    ensures "running" in SportTable && SportTable["running"] == SportType(1, "running")
  {
  }

  // ---------------------------------------------------------------------
  // Sample filtering and statistics (client.ts:388-406, 466-474)
  // ---------------------------------------------------------------------

  /** One `[timestamp, level]` pair of a stress or body-battery array. */
  datatype Sample = Sample(timestamp: int, level: int)

  /** `.filter(v => v[1] >= 0).map(v => ({timestamp: v[0], level: v[1]}))`. */
  function KeptSamples(raw: seq<(int, int)>): (r: seq<Sample>)
    ensures |r| <= |raw|
    ensures forall k :: 0 <= k < |r| ==> r[k].level >= 0
  {
    if |raw| == 0 then []
    else (if raw[0].1 >= 0 then [Sample(raw[0].0, raw[0].1)] else []) + KeptSamples(raw[1..])
  }

  /** Filtering distributes over concatenation: the kept samples keep their order. */
  lemma {:induction false} KeptSamplesAppend(a: seq<(int, int)>, b: seq<(int, int)>)
    ensures KeptSamples(a + b) == KeptSamples(a) + KeptSamples(b)
  {
    if |a| > 0 {
      assert (a + b)[1..] == a[1..] + b;
      KeptSamplesAppend(a[1..], b);
    } else {
      assert a + b == b;
    }
  }

  /** A sample is kept exactly when its pair is in the input with a non-negative level. */
  lemma {:induction false} KeptSamplesMembers(raw: seq<(int, int)>, t: int, l: int)
    ensures Sample(t, l) in KeptSamples(raw) <==> (t, l) in raw && l >= 0
  {
    if |raw| > 0 {
      KeptSamplesMembers(raw[1..], t, l);
      assert raw == [raw[0]] + raw[1..];
    }
  }

  function Levels(s: seq<Sample>): (r: seq<int>)
    ensures |r| == |s|
    ensures forall k :: 0 <= k < |s| ==> r[k] == s[k].level
  {
    if |s| == 0 then [] else [s[0].level] + Levels(s[1..])
  }

  function Sum(xs: seq<int>): int {
    if |xs| == 0 then 0 else xs[0] + Sum(xs[1..])
  }

  /** `Math.min(...xs)`. */
  function Min(xs: seq<int>): (m: int)
    requires |xs| > 0
    ensures m in xs
    ensures forall k :: 0 <= k < |xs| ==> m <= xs[k]
  {
    if |xs| == 1 then xs[0]
    else var m := Min(xs[1..]); if xs[0] <= m then xs[0] else m
  }

  /** `Math.max(...xs)`. */
  function Max(xs: seq<int>): (m: int)
    requires |xs| > 0
    ensures m in xs
    ensures forall k :: 0 <= k < |xs| ==> xs[k] <= m
  {
    if |xs| == 1 then xs[0]
    else var m := Max(xs[1..]); if xs[0] >= m then xs[0] else m
  }

  /** `Math.round(sum / n)`: the nearest integer, halves rounded up. */
  function RoundedMean(sum: int, n: nat): int
    requires n > 0
  {
    (2 * sum + n) / (2 * n)
  }

  /** The sum of `n` numbers lies between `n` times their minimum and `n` times their maximum. */
  lemma {:induction false} SumBounds(xs: seq<int>, lo: int, hi: int)
    requires forall k :: 0 <= k < |xs| ==> lo <= xs[k] <= hi
    ensures |xs| * lo <= Sum(xs) <= |xs| * hi
  {
    if |xs| > 0 {
      SumBounds(xs[1..], lo, hi);
    }
  }

  lemma MulMonotone(d: int, x: int, y: int)
    requires d > 0 && x <= y
    ensures d * x <= d * y
  {
  }

  /** A rounded mean of numbers between `lo` and `hi` is itself between them. */
  lemma RoundedMeanBounds(sum: int, n: nat, lo: int, hi: int)
    requires n > 0
    requires n * lo <= sum <= n * hi
    ensures lo <= RoundedMean(sum, n) <= hi
  {
    var q := RoundedMean(sum, n);
    var d := 2 * n;
    var a := 2 * sum + n;
    assert a == d * q + a % d;
    assert 0 <= a % d < d;
    assert d * lo <= a - n by { assert 2 * (n * lo) == d * lo; }
    assert a < d * (hi + 1) by { assert 2 * (n * hi) == d * hi; }
    if q < lo {
      MulMonotone(d, q, lo - 1);
      assert false;
    }
    if q > hi {
      MulMonotone(d, hi + 1, q);
      assert false;
    }
  }

  /** The stress fields `getStressData` computes from the raw day. */
  datatype StressStats = StressStats(avgStress: Option<int>, maxStress: Option<int>,
                                     minStress: Option<int>, stressValueCount: nat,
                                     stressValues: seq<Sample>)

  /**
   * The statistics block of `getStressData`: `raw` is `stressValuesArray`
   * (`None` when the day has none).
   */
  function StressStatistics(raw: Option<seq<(int, int)>>): (r: StressStats)
    ensures r.stressValueCount == |r.stressValues|
    ensures r.stressValues == (if raw.Some? then KeptSamples(raw.value) else [])
    ensures r.stressValues == [] <==> r.avgStress.None? && r.maxStress.None? && r.minStress.None?
    ensures r.stressValues != [] ==>
      && r.avgStress.Some? && r.maxStress.Some? && r.minStress.Some?
      && r.minStress.value <= r.avgStress.value <= r.maxStress.value
      && r.avgStress.value == RoundedMean(Sum(Levels(r.stressValues)), |r.stressValues|)
      && (forall k :: 0 <= k < |r.stressValues| ==>
            r.minStress.value <= r.stressValues[k].level <= r.maxStress.value)
      && r.minStress.value in Levels(r.stressValues) && r.maxStress.value in Levels(r.stressValues)
  {
    var values := if raw.Some? then KeptSamples(raw.value) else [];
    if |values| > 0 then
      var levels := Levels(values);
      var lo, hi := Min(levels), Max(levels);
      SumBounds(levels, lo, hi);
      RoundedMeanBounds(Sum(levels), |levels|, lo, hi);
      StressStats(Some(RoundedMean(Sum(levels), |levels|)), Some(hi), Some(lo), |values|, values)
    else
      StressStats(None, None, None, 0, values)
  }

  // ---------------------------------------------------------------------
  // Body battery per day (client.ts:462-492)
  // ---------------------------------------------------------------------

  /** One entry of `bodyBatteryFeedbackList`. */
  datatype Feedback = Feedback(feedbackType: string, feedbackValue: Option<int>)

  /** One day of the body-battery report as the server sends it. */
  datatype BatteryDay = BatteryDay(
    calendarDate: Option<string>, date: Option<string>, startTimestampLocal: Option<string>,
    bodyBatteryValuesArray: Option<seq<(int, int)>>, bodyBatteryFeedbackList: Option<seq<Feedback>>,
    charged: Option<int>, drained: Option<int>)

  /**
   * `max` and `min` are the largest and the smallest level of `values`, or
   * both missing when there are no values.
   */
  predicate IsLevelRange(values: seq<Sample>, max: Option<int>, min: Option<int>) {
    if values == [] then max.None? && min.None?
    else
      && max.Some? && min.Some?
      && max.value in Levels(values) && min.value in Levels(values)
      && forall k :: 0 <= k < |values| ==> min.value <= values[k].level <= max.value
  }

  /** `Math.max(...levels)` and `Math.min(...levels)`, computed only when there are values. */
  function LevelRange(values: seq<Sample>): (r: (Option<int>, Option<int>))
    ensures IsLevelRange(values, r.0, r.1)
  {
    if |values| > 0 then
      var levels := Levels(values);
      (Some(Max(levels)), Some(Min(levels)))
    else
      (None, None)
  }

  /** The summary `getBodyBattery` returns for a day. */
  datatype DaySummary = DaySummary(
    date: Option<string>, startLevel: Option<int>, endLevel: Option<int>,
    maxLevel: Option<int>, minLevel: Option<int>, charged: int, drained: int,
    valueCount: nat, bodyBatteryValues: seq<Sample>)

  /** `x || 0` for a number that may be missing. */
  function OrZero(x: Option<int>): int {
    if x.Some? then x.value else 0
  }

  predicate TruthyString(s: Option<string>) {
    s.Some? && s.value != ""
  }

  predicate TruthyNumber(x: Option<int>) {
    x.Some? && x.value != 0
  }

  /** What one feedback entry adds to the total of `kind`. */
  function Contribution(f: Feedback, kind: string): int {
    if f.feedbackType == kind then OrZero(f.feedbackValue) else 0
  }

  /** The sum of `feedbackValue || 0` over the entries of type `kind`, in list order. */
  function FeedbackTotal(list: seq<Feedback>, kind: string): int {
    if |list| == 0 then 0
    else FeedbackTotal(list[..|list| - 1], kind) + Contribution(list[|list| - 1], kind)
  }

  /** The total over a concatenation is the sum of the totals. */
  lemma {:induction false} FeedbackTotalAppend(a: seq<Feedback>, b: seq<Feedback>, kind: string)
    ensures FeedbackTotal(a + b, kind) == FeedbackTotal(a, kind) + FeedbackTotal(b, kind)
    decreases |b|
  {
    if |b| > 0 {
      assert (a + b)[..|a + b| - 1] == a + b[..|b| - 1];
      FeedbackTotalAppend(a, b[..|b| - 1], kind);
    } else {
      assert a + b == a;
    }
  }

  /** Entries of other types do not count towards a total. */
  lemma {:induction false} FeedbackTotalOtherKinds(list: seq<Feedback>, kind: string)
    requires forall k :: 0 <= k < |list| ==> list[k].feedbackType != kind
    ensures FeedbackTotal(list, kind) == 0
  {
    if |list| > 0 {
      FeedbackTotalOtherKinds(list[..|list| - 1], kind);
    }
  }

  /** Non-negative feedback values give a non-negative total. */
  lemma {:induction false} FeedbackTotalNonNegative(list: seq<Feedback>, kind: string)
    requires forall k :: 0 <= k < |list| ==> OrZero(list[k].feedbackValue) >= 0
    ensures FeedbackTotal(list, kind) >= 0
  {
    if |list| > 0 {
      FeedbackTotalNonNegative(list[..|list| - 1], kind);
    }
  }

  /** The `for (const feedback of ...)` loop: accumulates `charged` and `drained`. */
  method AccumulateFeedback(list: seq<Feedback>) returns (charged: int, drained: int)
    ensures charged == FeedbackTotal(list, "CHARGED")
    ensures drained == FeedbackTotal(list, "DRAINED")
  {
    charged, drained := 0, 0;
    var i := 0;
    while i < |list|
      invariant 0 <= i <= |list|
      invariant charged == FeedbackTotal(list[..i], "CHARGED")
      invariant drained == FeedbackTotal(list[..i], "DRAINED")
    {
      var feedback := list[i];
      assert list[..i + 1][..i] == list[..i];
      if feedback.feedbackType == "CHARGED" {
        charged := charged + OrZero(feedback.feedbackValue);
      } else if feedback.feedbackType == "DRAINED" {
        drained := drained + OrZero(feedback.feedbackValue);
      }
      i := i + 1;
    }
    assert list[..i] == list;
  }

  /** The callback `getBodyBattery` maps over the days of the report. */
  method SummarizeDay(day: BatteryDay) returns (s: DaySummary)
    ensures s.bodyBatteryValues ==
      (if day.bodyBatteryValuesArray.Some? then KeptSamples(day.bodyBatteryValuesArray.value) else [])
    ensures s.valueCount == |s.bodyBatteryValues|
    ensures s.date == (if TruthyString(day.calendarDate) then day.calendarDate else day.date)
    ensures s.endLevel ==
      (if s.bodyBatteryValues == [] then None else Some(s.bodyBatteryValues[|s.bodyBatteryValues| - 1].level))
    ensures s.startLevel ==
      (if TruthyString(day.startTimestampLocal) && s.bodyBatteryValues != []
       then Some(s.bodyBatteryValues[0].level) else None)
    ensures IsLevelRange(s.bodyBatteryValues, s.maxLevel, s.minLevel)
    ensures s.charged == if TruthyNumber(day.charged) then day.charged.value
                         else FeedbackTotal(day.bodyBatteryFeedbackList.GetOr([]), "CHARGED")
    ensures s.drained == if TruthyNumber(day.drained) then day.drained.value
                         else FeedbackTotal(day.bodyBatteryFeedbackList.GetOr([]), "DRAINED")
  {
    var values: seq<Sample> := [];
    var charged, drained := 0, 0;
    if day.bodyBatteryValuesArray.Some? {
      values := KeptSamples(day.bodyBatteryValuesArray.value);
    }
    var (maxLevel, minLevel) := LevelRange(values);
    if day.bodyBatteryFeedbackList.Some? {
      charged, drained := AccumulateFeedback(day.bodyBatteryFeedbackList.value);
    }
    var startLevel := if TruthyString(day.startTimestampLocal) && |values| > 0 then Some(values[0].level) else None;
    var endLevel := if |values| > 0 then Some(values[|values| - 1].level) else None;
    s := DaySummary(
      if TruthyString(day.calendarDate) then day.calendarDate else day.date,
      startLevel, endLevel, maxLevel, minLevel,
      if TruthyNumber(day.charged) then day.charged.value else charged,
      if TruthyNumber(day.drained) then day.drained.value else drained,
      |values|, values);
  }

  // ---------------------------------------------------------------------
  // In-progress badges (client.ts:2090-2112)
  // ---------------------------------------------------------------------

  datatype Badge = Badge(badgeId: int, badgeProgressValue: Option<real>, badgeTargetValue: Option<real>,
                         badgeLimitCount: Option<int>, badgeEarnedNumber: Option<int>)

  /** The `isInProgress` arrow of `getInProgressBadges`, test by test. */
  predicate IsInProgress(b: Badge) {
    var progress := b.badgeProgressValue;
    if progress.None? || progress.value == 0.0 then false
    else if b.badgeTargetValue == progress then
      if b.badgeLimitCount.None? then false
      else OrZero(b.badgeEarnedNumber) < b.badgeLimitCount.value
    else true
  }

  /**
   * A badge is in progress when it has some progress that is short of (or
   * beyond) its target; a badge whose progress reached its target only when
   * it is repeatable and has been earned fewer times than its limit.
   */
  lemma IsInProgressCases(b: Badge)
    ensures (b.badgeProgressValue.None? || b.badgeProgressValue == Some(0.0)) ==> !IsInProgress(b)
    ensures (b.badgeProgressValue.Some? && b.badgeProgressValue != Some(0.0) &&
             b.badgeTargetValue == b.badgeProgressValue) ==>
              (IsInProgress(b) <==> b.badgeLimitCount.Some? && OrZero(b.badgeEarnedNumber) < b.badgeLimitCount.value)
    ensures (b.badgeProgressValue.Some? && b.badgeProgressValue != Some(0.0) &&
             b.badgeTargetValue != b.badgeProgressValue) ==> IsInProgress(b)
  {
  }

  function InProgress(badges: seq<Badge>): (r: seq<Badge>)
    ensures forall k :: 0 <= k < |r| ==> IsInProgress(r[k]) && r[k] in badges
    ensures forall b :: b in badges && IsInProgress(b) ==> b in r
  {
    if |badges| == 0 then []
    else (if IsInProgress(badges[0]) then [badges[0]] else []) + InProgress(badges[1..])
  }

  /** The in-progress filter keeps a single badge exactly when it is in progress. */
  lemma InProgressSingleton(b: Badge)
    ensures InProgress([b]) == if IsInProgress(b) then [b] else []
  {
    assert [b][1..] == [];
  }

  /** The filter distributes over concatenation, so it keeps the input's order and repetitions. */
  lemma {:induction false} InProgressAppend(a: seq<Badge>, b: seq<Badge>)
    ensures InProgress(a + b) == InProgress(a) + InProgress(b)
  {
    if |a| > 0 {
      var head := if IsInProgress(a[0]) then [a[0]] else [];
      assert (a + b)[0] == a[0] && (a + b)[1..] == a[1..] + b;
      assert InProgress(a + b) == head + InProgress(a[1..] + b);
      InProgressAppend(a[1..], b);
      assert InProgress(a) == head + InProgress(a[1..]);
    } else {
      assert a + b == b;
    }
  }

  /** The last badge of `list` with the given id, if any. */
  function LastWithId(list: seq<Badge>, id: int): (r: Option<Badge>)
    ensures r.Some? ==> r.value in list && r.value.badgeId == id
    ensures r.None? <==> forall k :: 0 <= k < |list| ==> list[k].badgeId != id
  {
    if |list| == 0 then None
    else if list[|list| - 1].badgeId == id then Some(list[|list| - 1])
    else LastWithId(list[..|list| - 1], id)
  }

  /** The entry the merge keeps for `id`: the last available badge with it, else the last earned one. */
  function Winner(earned: seq<Badge>, available: seq<Badge>, id: int): Option<Badge> {
    if LastWithId(available, id).Some? then LastWithId(available, id) else LastWithId(earned, id)
  }

  /** Writes `combined[b.badgeId] = b` for every badge of `list`, in order. */
  method FillById(combined0: map<int, Badge>, list: seq<Badge>) returns (combined: map<int, Badge>)
    ensures forall id :: id in combined <==> id in combined0 || LastWithId(list, id).Some?
    ensures forall id :: id in combined ==>
      combined[id] == if LastWithId(list, id).Some? then LastWithId(list, id).value else combined0[id]
  {
    combined := combined0;
    var i := 0;
    while i < |list|
      invariant 0 <= i <= |list|
      invariant forall id :: id in combined <==> id in combined0 || LastWithId(list[..i], id).Some?
      invariant forall id :: id in combined ==>
        combined[id] == if LastWithId(list[..i], id).Some? then LastWithId(list[..i], id).value else combined0[id]
    {
      var b := list[i];
      assert list[..i + 1][..i] == list[..i];
      combined := combined[b.badgeId := b];
      i := i + 1;
    }
    assert list[..i] == list;
  }

  /**
   * The merge of `getInProgressBadges`: the in-progress earned badges, then
   * the in-progress available ones, keyed by id. Each id keeps one badge, an
   * available badge replacing an earned one with the same id.
   */
  method MergeInProgress(earned: seq<Badge>, available: seq<Badge>) returns (combined: map<int, Badge>)
    ensures forall id :: id in combined <==>
      LastWithId(InProgress(earned), id).Some? || LastWithId(InProgress(available), id).Some?
    ensures forall id :: id in combined ==>
      Some(combined[id]) == Winner(InProgress(earned), InProgress(available), id)
    ensures forall id :: id in combined ==>
      combined[id].badgeId == id && IsInProgress(combined[id]) &&
      (combined[id] in earned || combined[id] in available)
  {
    var earnedInProgress := InProgress(earned);
    var availableInProgress := InProgress(available);
    combined := FillById(map[], earnedInProgress);
    combined := FillById(combined, availableInProgress);
  }

  // ---------------------------------------------------------------------
  // uploadActivity: the reported file name and type (client.ts:925-926)
  // ---------------------------------------------------------------------

  predicate IsPathSeparator(c: char) {
    c == '/' || c == '\\'
  }

  /** `filePath.split(/[\\/]/).pop()`: the text after the last separator. */
  function AfterLastSeparator(s: string): (r: string)
    ensures |r| <= |s| && r == s[|s| - |r|..]
    ensures forall k :: 0 <= k < |r| ==> !IsPathSeparator(r[k])
    ensures |r| == |s| || IsPathSeparator(s[|s| - |r| - 1])
    ensures r == "" <==> s == "" || IsPathSeparator(s[|s| - 1])
  {
    if |s| == 0 || IsPathSeparator(s[|s| - 1]) then ""
    else AfterLastSeparator(s[..|s| - 1]) + [s[|s| - 1]]
  }

  /** `split('.').pop()`: the text after the last `.`, or all of `s` when there is none. */
  function AfterLastDot(s: string): (r: string)
    ensures |r| <= |s| && '.' !in r
  {
    if |s| == 0 || s[|s| - 1] == '.' then ""
    else AfterLastDot(s[..|s| - 1]) + [s[|s| - 1]]
  }

  /** The text after the last `.` is a dot-free suffix of `s` that is all of `s` or follows a `.`. */
  lemma {:induction false} AfterLastDotIsSuffix(s: string)
    ensures var r := AfterLastDot(s);
      && r == s[|s| - |r|..]
      && (|r| == |s| || s[|s| - |r| - 1] == '.')
    decreases |s|
  {
    if |s| > 0 && s[|s| - 1] != '.' {
      var p := s[..|s| - 1];
      AfterLastDotIsSuffix(p);
      var q := AfterLastDot(p);
      var lo := |p| - |q|;
      assert AfterLastDot(s) == q + [s[|s| - 1]];
      assert q == s[lo..|s| - 1];
      assert s[lo..] == s[lo..|s| - 1] + [s[|s| - 1]];
      if lo > 0 {
        assert s[lo - 1] == p[lo - 1];
      }
    }
  }

  /** `filePath.split(/[\\/]/).pop() || 'activity.fit'`. */
  function UploadFileName(filePath: string): (name: string)
    ensures name != ""
    ensures forall k :: 0 <= k < |name| ==> !IsPathSeparator(name[k])
    ensures filePath == "" || IsPathSeparator(filePath[|filePath| - 1]) ==> name == "activity.fit"
    ensures filePath != "" && !IsPathSeparator(filePath[|filePath| - 1]) ==>
      && |name| <= |filePath| && filePath[|filePath| - |name|..] == name
      && (|name| == |filePath| || IsPathSeparator(filePath[|filePath| - |name| - 1]))
  {
    var last := AfterLastSeparator(filePath);
    if last == "" then "activity.fit" else last
  }

  /** `fileName.split('.').pop()?.toLowerCase()`. */
  function UploadFileType(fileName: string): string {
    ToLower(AfterLastDot(fileName))
  }

  /** The text after the last `.` is the last piece of the `split('.')`. */
  lemma {:induction false} AfterLastDotIsLastPiece(s: string)
    ensures AfterLastDot(s) == Split(s, '.')[|Split(s, '.')| - 1]
    decreases |s|
  {
    var r := IndexOf(s, '.');
    if r.None? {
      AfterLastDotWithoutDot(s);
      SplitNoSeparator(s, '.');
    } else {
      var i := r.value;
      var t := s[i + 1..];
      SplitLast(s, '.', i);
      AfterLastDotIsLastPiece(t);
      AfterLastDotSuffix(s, i);
    }
  }

  lemma {:induction false} AfterLastDotWithoutDot(s: string)
    requires '.' !in s
    ensures AfterLastDot(s) == s
  {
    if |s| > 0 {
      assert '.' !in s[..|s| - 1];
      AfterLastDotWithoutDot(s[..|s| - 1]);
      assert s[..|s| - 1] + [s[|s| - 1]] == s;
    }
  }

  /** Everything after any `.` ends with the same final dot-free piece as the whole. */
  lemma {:induction false} AfterLastDotSuffix(s: string, i: nat)
    requires i < |s| && s[i] == '.'
    ensures AfterLastDot(s) == AfterLastDot(s[i + 1..])
    decreases |s|
  {
    if i + 1 == |s| {
    } else if s[|s| - 1] == '.' {
    } else {
      AfterLastDotSuffix(s[..|s| - 1], i);
      assert s[..|s| - 1][i + 1..] == s[i + 1..][..|s[i + 1..]| - 1];
    }
  }

  /**
   * The file type is the lower-cased extension of the file name; a name with
   * no `.` is reported as its own (lower-cased) type.
   */
  lemma UploadFileTypeCases(fileName: string)
    ensures '.' !in fileName ==> UploadFileType(fileName) == ToLower(fileName)
    ensures UploadFileType(fileName) == ToLower(Split(fileName, '.')[|Split(fileName, '.')| - 1])
  {
    if '.' !in fileName {
      AfterLastDotWithoutDot(fileName);
    }
    AfterLastDotIsLastPiece(fileName);
  }
}
