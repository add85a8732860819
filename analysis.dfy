/** `analyze_workout`: add up what the records the table knows contribute, then apply
    the rules of `Advice` to the totals. */
module Analysis {
  import opened Text
  import opened Catalog
  import opened Pattern
  import opened Parser
  import opened Advice

  /** What the records add up to: calories and difficulty in tenths, and the type and
      the category of each record the table knows, in record order. */
  datatype Totals = Totals(calories: nat, types: seq<ExType>, groups: seq<Category>, difficulty: nat)

  const NoTotals := Totals(0, [], [], 0)

  /** The calories of one record, in tenths: the entry's per-minute rate (5 kcal when
      it has none) when the unit is minutes, its per-repetition rate (0.5 kcal when it
      has none) otherwise, times the value. */
  function Calories(e: Entry, r: Record): nat {
    if r.unit == Some(Minute) then
      (match e.perMinuteTenths case Some(c) => c case None => 50) * r.value
    else
      (match e.perRepTenths case Some(c) => c case None => 5) * r.value
  }

  /** One step of the accumulation loop under a catalog lookup: a record whose name
      the lookup does not find adds nothing. */
  function Add(t: Totals, r: Record, lookup: string -> Option<Entry>): Totals {
    match lookup(r.name)
    case None => t
    case Some(e) =>
      Totals(t.calories + Calories(e, r), t.types + [e.exType], t.groups + [e.category],
             t.difficulty + e.difficulty * r.value)
  }

  /** The totals after the loop has seen every record, under a catalog lookup. */
  function TallyWith(rs: seq<Record>, lookup: string -> Option<Entry>): Totals {
    if rs == [] then NoTotals else Add(TallyWith(rs[..|rs| - 1], lookup), rs[|rs| - 1], lookup)
  }

  /** The totals under the analyzer's table, where `ex_name in self.exercise_database`
      decides whether a record counts. */
  function Tally(rs: seq<Record>): Totals {
    TallyWith(rs, Get)
  }

  function Combine(a: Totals, b: Totals): Totals {
    Totals(a.calories + b.calories, a.types + b.types, a.groups + b.groups, a.difficulty + b.difficulty)
  }

  /** The records a lookup finds, in order. */
  function KnownWith(rs: seq<Record>, lookup: string -> Option<Entry>): (ks: seq<Record>)
    ensures |ks| <= |rs|
    ensures forall k :: 0 <= k < |ks| ==> lookup(ks[k].name).Some? && ks[k] in rs
    ensures forall k :: 0 <= k < |rs| && lookup(rs[k].name).Some? ==> rs[k] in ks
  {
    if rs == [] then []
    else
      var init := rs[..|rs| - 1];
      assert forall k :: 0 <= k < |init| ==> init[k] == rs[k];
      KnownWith(init, lookup) + (if lookup(rs[|rs| - 1].name).Some? then [rs[|rs| - 1]] else [])
  }

  /** The records whose name is a table key, in order. */
  function Known(rs: seq<Record>): seq<Record> {
    KnownWith(rs, Get)
  }

  /** One more record adds its contribution to the totals of those before it. */
  lemma TallyStep(rs: seq<Record>, i: nat, lookup: string -> Option<Entry>)
    requires i < |rs|
    ensures TallyWith(rs[..i + 1], lookup) == Add(TallyWith(rs[..i], lookup), rs[i], lookup)
  {
    assert rs[..i + 1][..i] == rs[..i];
  }

  /** The totals of two runs of records combine. */
  lemma {:induction false} TallyAppend(a: seq<Record>, b: seq<Record>, lookup: string -> Option<Entry>)
    ensures TallyWith(a + b, lookup) == Combine(TallyWith(a, lookup), TallyWith(b, lookup))
    decreases |b|
  {
    if b == [] {
      assert a + b == a;
      CombineNoTotals(TallyWith(a, lookup));
    } else {
      var b' := b[..|b| - 1];
      assert (a + b)[..|a + b| - 1] == a + b';
      var last := b[|b| - 1];
      assert (a + b)[|a + b| - 1] == last;
      TallyAppend(a, b', lookup);
      AddCombine(TallyWith(a, lookup), TallyWith(b', lookup), last, lookup);
    }
  }

  lemma CombineNoTotals(x: Totals)
    ensures Combine(x, NoTotals) == x
  {
    assert x.types + [] == x.types && x.groups + [] == x.groups;
  }

  /** One step of the loop on combined totals adds to the second part. */
  lemma {:induction false} AddCombine(x: Totals, y: Totals, r: Record, lookup: string -> Option<Entry>)
    ensures Add(Combine(x, y), r, lookup) == Combine(x, Add(y, r, lookup))
  {
    match lookup(r.name)
    case None =>
    case Some(e) =>
      assert x.types + y.types + [e.exType] == x.types + (y.types + [e.exType]);
      assert x.groups + y.groups + [e.category] == x.groups + (y.groups + [e.category]);
  }

  /** A record whose name is not a table key contributes nothing, wherever it stands. */
  lemma {:induction false} UnknownRecordAddsNothing(a: seq<Record>, r: Record, b: seq<Record>)
    requires !IsKey(r.name)
    ensures Tally(a + [r] + b) == Tally(a + b)
  {
    TallyAppend(a + [r], b, Get);
    TallyAppend(a, [r], Get);
    TallyAppend(a, b, Get);
    assert TallyWith([r], Get) == NoTotals by {
      assert [r][..0] == [];
    }
  }

  /** The types and categories are those of the found records, one each, in order; so
      the totals are those of the found records alone. */
  lemma TallyMeaning(rs: seq<Record>, lookup: string -> Option<Entry>)
    ensures var t, ks := TallyWith(rs, lookup), KnownWith(rs, lookup);
      |t.types| == |ks| && |t.groups| == |ks|
      && (forall k :: 0 <= k < |ks| ==>
            t.types[k] == lookup(ks[k].name).value.exType
            && t.groups[k] == lookup(ks[k].name).value.category)
      && TallyWith(ks, lookup) == t
  {
    TallyFollowsKnown(rs, lookup);
    TallyOfKnown(rs, lookup);
  }

  lemma {:induction false} TallyFollowsKnown(rs: seq<Record>, lookup: string -> Option<Entry>)
    ensures var t, ks := TallyWith(rs, lookup), KnownWith(rs, lookup);
      |t.types| == |ks| && |t.groups| == |ks|
      && forall k :: 0 <= k < |ks| ==>
           t.types[k] == lookup(ks[k].name).value.exType
           && t.groups[k] == lookup(ks[k].name).value.category
  {
    if rs != [] {
      var init, last := rs[..|rs| - 1], rs[|rs| - 1];
      TallyFollowsKnown(init, lookup);
      if lookup(last.name).Some? {
        var ks := KnownWith(init, lookup);
        assert KnownWith(rs, lookup) == ks + [last];
      }
    }
  }

  lemma {:induction false} TallyOfKnown(rs: seq<Record>, lookup: string -> Option<Entry>)
    ensures TallyWith(KnownWith(rs, lookup), lookup) == TallyWith(rs, lookup)
  {
    if rs != [] {
      var init, last := rs[..|rs| - 1], rs[|rs| - 1];
      TallyOfKnown(init, lookup);
      var ks := KnownWith(init, lookup);
      assert TallyWith(rs, lookup) == Add(TallyWith(init, lookup), last, lookup);
      if lookup(last.name).Some? {
        var ks' := ks + [last];
        assert KnownWith(rs, lookup) == ks';
        assert ks'[..|ks'| - 1] == ks && ks'[|ks'| - 1] == last;
        assert TallyWith(ks', lookup) == Add(TallyWith(ks, lookup), last, lookup);
      } else {
        assert KnownWith(rs, lookup) == ks;
      }
    }
  }

  /** With no record the table knows, nothing is added up. */
  lemma {:induction false} NoKnownRecords(rs: seq<Record>)
    requires forall k :: 0 <= k < |rs| ==> !IsKey(rs[k].name)
    ensures Tally(rs) == NoTotals
  {
    TallyMeaning(rs, Get);
  }

  /** The collected categories are those of the found records, and no type is
      collected exactly when no record is found. */
  lemma {:induction false} CollectedFromFound(rs: seq<Record>, lookup: string -> Option<Entry>)
    ensures forall c :: c in TallyWith(rs, lookup).groups <==>
      exists k :: 0 <= k < |rs| && lookup(rs[k].name).Some? && lookup(rs[k].name).value.category == c
    ensures TallyWith(rs, lookup).types == [] <==> forall k :: 0 <= k < |rs| ==> lookup(rs[k].name).None?
  {
    TallyMeaning(rs, lookup);
    forall c | c in TallyWith(rs, lookup).groups
      ensures exists k :: 0 <= k < |rs| && lookup(rs[k].name).Some? && lookup(rs[k].name).value.category == c
    {
      GroupFound(rs, lookup, c);
    }
    forall k | 0 <= k < |rs| && lookup(rs[k].name).Some?
      ensures lookup(rs[k].name).value.category in TallyWith(rs, lookup).groups
    {
      FoundInGroups(rs, lookup, k);
    }
    var ks := KnownWith(rs, lookup);
    if ks != [] {
      assert lookup(ks[0].name).Some? && ks[0] in rs;
    }
  }

  lemma {:induction false} GroupFound(rs: seq<Record>, lookup: string -> Option<Entry>, c: Category)
    requires c in TallyWith(rs, lookup).groups
    ensures exists k :: 0 <= k < |rs| && lookup(rs[k].name).Some? && lookup(rs[k].name).value.category == c
  {
    var t, ks := TallyWith(rs, lookup), KnownWith(rs, lookup);
    TallyMeaning(rs, lookup);
    var j :| 0 <= j < |t.groups| && t.groups[j] == c;
    var k :| 0 <= k < |rs| && rs[k] == ks[j];
    assert lookup(rs[k].name).value.category == c;
  }

  lemma {:induction false} FoundInGroups(rs: seq<Record>, lookup: string -> Option<Entry>, k: nat)
    requires k < |rs| && lookup(rs[k].name).Some?
    ensures lookup(rs[k].name).value.category in TallyWith(rs, lookup).groups
  {
    var t, ks := TallyWith(rs, lookup), KnownWith(rs, lookup);
    TallyMeaning(rs, lookup);
    var j :| 0 <= j < |ks| && ks[j] == rs[k];
    assert t.groups[j] == lookup(rs[k].name).value.category;
  }

  // ---------------------------------------------------------------------------
  // Main type

  /** `workout_type`: the strength or aerobic type, or mixed (`ترکیبی`). */
  datatype WorkoutType = Typed(exType: ExType) | Mixed

  /** `max(set(workout_types), key=workout_types.count)`. On a tie the choice follows the
      iteration order of a Python set of strings, which depends on the process's hash
      seed; `tieBreak` stands for that choice. */
  function MainType(types: seq<ExType>, tieBreak: ExType): WorkoutType {
    if types == [] then Mixed
    else if Count(types, Strength) > Count(types, Aerobic) then Typed(Strength)
    else if Count(types, Aerobic) > Count(types, Strength) then Typed(Aerobic)
    else Typed(tieBreak)
  }

  /** The main type is mixed exactly when no type was collected; otherwise it is a type
      that occurs, and no type occurs more often. */
  lemma {:induction false} MainTypeIsMostFrequent(types: seq<ExType>, tieBreak: ExType)
    ensures MainType(types, tieBreak) == Mixed <==> types == []
    ensures types != [] ==>
      var t := MainType(types, tieBreak).exType;
      t in types && forall u :: Count(types, u) <= Count(types, t)
  {
    if types != [] {
      CountsCover(types);
      CountPositive(types, Strength);
      CountPositive(types, Aerobic);
      var t := MainType(types, tieBreak).exType;
      forall u ensures Count(types, u) <= Count(types, t) {
        assert u == Strength || u == Aerobic;
      }
    }
  }

  // ---------------------------------------------------------------------------
  // The analysis

  /** The dictionary `analyze_workout` returns; `totalCalories` is in tenths. */
  datatype Analysis = Analysis(
    exercises: seq<Record>,
    workoutType: WorkoutType,
    intensity: Intensity,
    level: Level,
    totalCalories: nat,
    muscleGroups: set<Category>,
    restTime: nat,
    waterBreak: nat,
    goal: Goal,
    imbalance: Option<Imbalance>,
    overtrainingRisk: Option<Risk>,
    improvement: seq<Suggestion>,
    recovery: Option<seq<RecoveryItem>>)

  /** Either the analysis or the error `تمرینی یافت نشد` for an empty list. */
  datatype Report = Report(analysis: Analysis) | NoExercises

  /** The analysis of a non-empty list of records from its totals. */
  function Summarize(exercises: seq<Record>, t: Totals, tieBreak: ExType): Analysis
    requires exercises != []
  {
    var mainType := MainType(t.types, tieBreak);
    var intensity := Tier(t.difficulty, |exercises|);
    Analysis(
      exercises,
      mainType,
      intensity,
      LevelOf(intensity),
      t.calories,
      (set c | c in t.groups),
      RestTime(intensity, t.types),
      WaterBreak(|exercises|),
      DetermineGoal(t.types, intensity, t.calories),
      CheckImbalance(t.groups),
      Overtraining(t.difficulty, |exercises|),
      Improvement(exercises, mainType == Typed(Strength)),
      if intensity == High then Some(RecoveryPlan(exercises)) else None)
  }

  /** What `analyze_workout(exercises)` returns. */
  function Analyze(exercises: seq<Record>, tieBreak: ExType): Report {
    if exercises == [] then NoExercises else Report(Summarize(exercises, Tally(exercises), tieBreak))
  }

  /** The loop of `analyze_workout`: add up, in one pass, what each record the table
      knows contributes. */
  method TallyRecords(exercises: seq<Record>)
    returns (totalCalories: nat, workoutTypes: seq<ExType>, muscleGroups: seq<Category>, totalDifficulty: nat)
    ensures Totals(totalCalories, workoutTypes, muscleGroups, totalDifficulty) == Tally(exercises)
  {
    totalCalories, totalDifficulty := 0, 0;
    workoutTypes, muscleGroups := [], [];
    for i := 0 to |exercises|
      invariant Totals(totalCalories, workoutTypes, muscleGroups, totalDifficulty) == TallyWith(exercises[..i], Get)
    {
      TallyStep(exercises, i, Get);
      var ex := exercises[i];
      var data := Get(ex.name);
      if data.Some? {
        workoutTypes := workoutTypes + [data.value.exType];
        muscleGroups := muscleGroups + [data.value.category];
        totalCalories := totalCalories + Calories(data.value, ex);
        totalDifficulty := totalDifficulty + data.value.difficulty * ex.value;
      }
    }
    assert exercises[..|exercises|] == exercises;
  }

  /** `analyze_workout`: reject an empty list, add up the known records in one pass,
      then classify. */
  method AnalyzeWorkout(exercises: seq<Record>, tieBreak: ExType) returns (report: Report)
    ensures report == Analyze(exercises, tieBreak)
  {
    if exercises == [] {
      return NoExercises;
    }
    var totalCalories, workoutTypes, muscleGroups, totalDifficulty := TallyRecords(exercises);
    var mainType := MainType(workoutTypes, tieBreak);
    var intensity := Tier(totalDifficulty, |exercises|);
    var improvement := GenerateImprovement(exercises, mainType == Typed(Strength));
    var recovery := None;
    if intensity == High {
      var plan := GenerateRecovery(exercises);
      recovery := Some(plan);
    }
    report := Report(Analysis(
      exercises,
      mainType,
      intensity,
      LevelOf(intensity),
      totalCalories,
      (set c | c in muscleGroups),
      RestTime(intensity, workoutTypes),
      WaterBreak(|exercises|),
      DetermineGoal(workoutTypes, intensity, totalCalories),
      CheckImbalance(muscleGroups),
      Overtraining(totalDifficulty, |exercises|),
      improvement,
      recovery));
  }

  // ---------------------------------------------------------------------------
  // What an analysis says

  /** Only the empty list is an error. */
  lemma {:induction false} AnalyzeEmpty(exercises: seq<Record>, tieBreak: ExType)
    ensures Analyze(exercises, tieBreak).NoExercises? <==> exercises == []
  {
  }

  /** The parts of an analysis agree: the level goes with the intensity; a recovery
      plan of `min(3, n)` entries is given exactly when the intensity is high; at least
      one improvement is suggested; and water breaks are at least 15 minutes apart. */
  lemma {:induction false} AnalysisConsistent(exercises: seq<Record>, tieBreak: ExType)
    requires exercises != []
    ensures var a := Analyze(exercises, tieBreak).analysis;
      a.exercises == exercises
      && a.level == LevelOf(a.intensity)
      && (a.recovery.Some? <==> a.intensity == High)
      && (a.recovery.Some? ==> |a.recovery.value| == if |exercises| < 3 then |exercises| else 3)
      && 1 <= |a.improvement| <= 2
      && a.waterBreak >= 15
  {
    var t := Tally(exercises);
    ImprovementMeaning(exercises, MainType(t.types, tieBreak) == Typed(Strength));
    RecoveryPlanMeaning(exercises);
    WaterBreakProperties(|exercises|, |exercises|);
  }

  /** The muscle groups of an analysis are the categories of the known records, and
      the main type is mixed exactly when no record is known. */
  lemma {:induction false} AnalysisFromKnownRecords(exercises: seq<Record>, tieBreak: ExType)
    requires exercises != []
    ensures var a := Analyze(exercises, tieBreak).analysis;
      (forall c :: c in a.muscleGroups <==>
         exists k :: 0 <= k < |exercises| && Get(exercises[k].name).Some?
                     && Get(exercises[k].name).value.category == c)
      && (a.workoutType == Mixed <==> forall k :: 0 <= k < |exercises| ==> !IsKey(exercises[k].name))
  {
    var t := Tally(exercises);
    CollectedFromFound(exercises, Get);
    MainTypeIsMostFrequent(t.types, tieBreak);
  }

  /** When the table knows none of the records: no calories, a mixed workout of low
      intensity at beginner level, no muscle groups, no imbalance warning, the goal of
      staying active, 30 seconds of rest, and no recovery plan. */
  lemma {:induction false} AnalyzeNoKnownRecords(exercises: seq<Record>, tieBreak: ExType)
    requires exercises != []
    requires forall k :: 0 <= k < |exercises| ==> !IsKey(exercises[k].name)
    ensures var a := Analyze(exercises, tieBreak).analysis;
      a.totalCalories == 0 && a.workoutType == Mixed && a.intensity == Low && a.level == Beginner
      && a.muscleGroups == {} && a.imbalance == None && a.goal == StayActive
      && a.restTime == 30 && a.recovery == None
  {
    NoKnownRecords(exercises);
  }

  /** Adding a record the table does not know changes neither the calories, the types,
      the muscle groups nor the imbalance warning, and can only lower the intensity: it
      counts in the average's denominator but adds no difficulty. */
  lemma {:induction false} UnknownRecordOnlyDilutes(a: seq<Record>, r: Record, b: seq<Record>, tieBreak: ExType)
    requires !IsKey(r.name) && a + b != []
    ensures var x, y := Analyze(a + [r] + b, tieBreak).analysis, Analyze(a + b, tieBreak).analysis;
      x.totalCalories == y.totalCalories && x.workoutType == y.workoutType
      && x.muscleGroups == y.muscleGroups && x.imbalance == y.imbalance
      && Rank(x.intensity) <= Rank(y.intensity)
  {
    UnknownRecordAddsNothing(a, r, b);
    var t := Tally(a + b);
    TierMonotone(t.difficulty, t.difficulty, |a + [r] + b|, |a + b|);
  }
}
