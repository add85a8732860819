/** The rules `analyze_workout` applies to its totals: the intensity tier, rest time,
    water-break interval, muscle-group imbalance, goal, overtraining risk, and the
    improvement and recovery suggestions.

    Calories and difficulty are carried in tenths, as natural numbers: a calorie total
    of `c` tenths is `c / 10` kilocalories, and a difficulty total of `d` tenths is the
    source's `total_difficulty = d / 10`. The thresholds are scaled to match, so every
    comparison is exact. */
module Advice {
  import opened Text
  import opened Catalog
  import opened Parser

  /** `list.count(x)`. */
  function Count<T(==)>(s: seq<T>, x: T): nat {
    if s == [] then 0 else Count(s[..|s| - 1], x) + (if s[|s| - 1] == x then 1 else 0)
  }

  /** The count of `x` is its multiplicity, so it does not depend on the order of `s`. */
  lemma {:induction false} CountIsMultiplicity<T>(s: seq<T>, x: T)
    ensures Count(s, x) == multiset(s)[x]
  {
    if s != [] {
      CountIsMultiplicity(s[..|s| - 1], x);
      assert s == s[..|s| - 1] + [s[|s| - 1]];
    }
  }

  /** Counting distributes over concatenation. */
  lemma {:induction false} CountAppend<T>(a: seq<T>, b: seq<T>, x: T)
    ensures Count(a + b, x) == Count(a, x) + Count(b, x)
  {
    CountIsMultiplicity(a + b, x);
    CountIsMultiplicity(a, x);
    CountIsMultiplicity(b, x);
  }

  /** `x` occurs exactly when its count is positive. */
  lemma {:induction false} CountPositive<T>(s: seq<T>, x: T)
    ensures Count(s, x) > 0 <==> x in s
  {
    CountIsMultiplicity(s, x);
  }

  // ---------------------------------------------------------------------------
  // Intensity and fitness level

  /** `intensity`: low (`کم`), medium (`متوسط`) or high (`زیاد`). */
  datatype Intensity = Low | Medium | High

  /** `fitness_level`: beginner (`مبتدی`), intermediate (`متوسط`), professional (`حرفه‌ای`). */
  datatype Level = Beginner | Intermediate | Professional

  function Rank(i: Intensity): nat {
    match i
    case Low => 0
    case Medium => 1
    case High => 2
  }

  /** The tier of an average difficulty `d / (10 * n)` for `d` tenths over `n` exercises:
      below 3 low, below 6 medium, else high. */
  function Tier(d: nat, n: nat): Intensity
    requires n > 0
  {
    if d < 30 * n then Low else if d < 60 * n then Medium else High
  }

  /** The level goes with the tier. */
  function LevelOf(i: Intensity): Level {
    match i
    case Low => Beginner
    case Medium => Intermediate
    case High => Professional
  }

  /** The tier is the one of the average `total_difficulty / len(exercises)`, compared
      with 3 and 6 in exact arithmetic. */
  lemma TierIsAverageThreshold(d: nat, n: nat)
    requires n > 0
    ensures var avg := (d as real / 10.0) / (n as real);
      (Tier(d, n) == Low <==> avg < 3.0)
      && (Tier(d, n) == Medium <==> 3.0 <= avg < 6.0)
      && (Tier(d, n) == High <==> 6.0 <= avg)
  {
    var total := d as real / 10.0;
    var avg := total / (n as real);
    DivideCompare(total, n as real, 3.0);
    DivideCompare(total, n as real, 6.0);
    DivideCompare(d as real, 10.0, 3.0 * n as real);
    DivideCompare(d as real, 10.0, 6.0 * n as real);
  }

  /** `x / c < y` exactly when `x < y * c`, for a positive `c`. */
  lemma DivideCompare(x: real, c: real, y: real)
    requires c > 0.0
    ensures x / c < y <==> x < y * c
  {
    var q := x / c;
    assert q * c == x;
    if q < y {
      assert (y - q) * c > 0.0;
    } else {
      assert (q - y) * c >= 0.0;
    }
  }

  /** More difficulty never lowers the tier, and more exercises for the same difficulty
      (records the table does not know still count in the denominator) never raise it. */
  lemma TierMonotone(d: nat, d': nat, n: nat, n': nat)
    requires 0 < n' <= n && d <= d'
    ensures Rank(Tier(d, n)) <= Rank(Tier(d', n'))
  {
  }

  // ---------------------------------------------------------------------------
  // Rest time and water breaks

  /** `_calculate_rest_time`: 60 seconds when a strength exercise is present, else 30,
      then times 1, 1.5 or 2 by tier. */
  function RestTime(i: Intensity, types: seq<ExType>): nat {
    var base := if Strength in types then 60 else 30;
    match i
    case Low => base
    case Medium => base * 3 / 2
    case High => base * 2
  }

  /** The rest time is one of 30, 45, 60, 90 and 120 seconds; it grows with the tier,
      the high tier doubles the low one, and a strength exercise doubles it, so it is at
      least a minute with a strength exercise and at most a minute without. */
  lemma {:induction false} RestTimeValues(i: Intensity, types: seq<ExType>)
    ensures RestTime(i, types) in {30, 45, 60, 90, 120}
    ensures RestTime(High, types) == 2 * RestTime(Low, types)
    ensures 2 * RestTime(Medium, types) == 3 * RestTime(Low, types)
    ensures Strength in types ==> RestTime(i, types) == 2 * RestTime(i, [])
    ensures Strength in types ==> RestTime(i, types) >= 60
    ensures Strength !in types ==> RestTime(i, types) <= 60
  {
  }

  lemma {:induction false} RestTimeMonotone(i: Intensity, i': Intensity, types: seq<ExType>)
    requires Rank(i) <= Rank(i')
    ensures RestTime(i, types) <= RestTime(i', types)
  {
  }

  /** `math.ceil(n / 3)`. */
  function CeilThird(n: nat): nat {
    (n + 2) / 3
  }

  /** `_calculate_water_break`: a 15-minute slot per started group of three exercises,
      at least one. */
  function WaterBreak(n: nat): nat {
    var w := CeilThird(n) * 15;
    if w < 15 then 15 else w
  }

  /** `CeilThird` is the ceiling of `n / 3`. */
  lemma CeilThirdMeaning(n: nat)
    ensures 3 * CeilThird(n) >= n
    ensures n > 0 ==> 3 * (CeilThird(n) - 1) < n
  {
  }

  /** The water-break interval is a positive multiple of 15, 15 for at most three
      exercises, grows with the number of exercises, and gives each slot of 15
      minutes at most three exercises. */
  lemma WaterBreakProperties(n: nat, n': nat)
    ensures WaterBreak(n) >= 15 && WaterBreak(n) % 15 == 0
    ensures n <= 3 ==> WaterBreak(n) == 15
    ensures n <= n' ==> WaterBreak(n) <= WaterBreak(n')
    ensures n <= 3 * (WaterBreak(n) / 15)
    ensures n > 3 ==> 3 * (WaterBreak(n) / 15 - 1) < n
  {
    CeilThirdMeaning(n);
  }

  // ---------------------------------------------------------------------------
  // Muscle-group imbalance

  /** The three warnings of `_check_imbalance`. */
  datatype Imbalance = UpperHeavy | LowerHeavy | NoCore

  /** `_check_imbalance`: the first rule that applies, in order; whole-body exercises
      are not counted by any rule. */
  function CheckImbalance(groups: seq<Category>): Option<Imbalance> {
    if groups == [] then None
    else
      var upper, lower, core := Count(groups, UpperBody), Count(groups, LowerBody), Count(groups, Core);
      if upper > lower * 2 && lower > 0 then Some(UpperHeavy)
      else if lower > upper * 2 && upper > 0 then Some(LowerHeavy)
      else if core == 0 && (upper > 0 || lower > 0) then Some(NoCore)
      else None
  }

  /** The warning depends only on how often each group occurs, not on their order. */
  lemma {:induction false} ImbalanceOrderFree(g: seq<Category>, g': seq<Category>)
    requires multiset(g) == multiset(g')
    ensures CheckImbalance(g) == CheckImbalance(g')
  {
    forall c ensures Count(g, c) == Count(g', c) {
      CountIsMultiplicity(g, c);
      CountIsMultiplicity(g', c);
    }
    assert g == [] <==> g' == [] by {
      assert |multiset(g)| == |g| && |multiset(g')| == |g'|;
    }
  }

  /** A whole-body exercise, wherever it stands, changes nothing. */
  lemma {:induction false} ImbalanceIgnoresFullBody(a: seq<Category>, b: seq<Category>)
    ensures CheckImbalance(a + [FullBody] + b) == CheckImbalance(a + b)
  {
    forall c | c != FullBody ensures Count(a + [FullBody] + b, c) == Count(a + b, c) {
      CountAppend(a + [FullBody], b, c);
      CountAppend(a, [FullBody], c);
      CountAppend(a, b, c);
      assert Count([FullBody], c) == 0 by {
        assert [FullBody][..0] == [];
      }
    }
    forall c | c != FullBody ensures Count(a + b, c) == 0 <== a + b == [] {
    }
  }

  /** What each warning means: an upper-heavy warning is given exactly when some
      lower-body exercise is present and upper-body ones outnumber them more than two to
      one, and a lower-heavy one for the mirror case (so both need both halves of the
      body); a missing-core warning, exactly when there is no core exercise, some upper-
      or lower-body exercise and neither earlier warning applies; and no warning at all
      is given when neither half is trained. */
  lemma {:induction false} ImbalanceMeaning(g: seq<Category>)
    ensures CheckImbalance(g) == Some(UpperHeavy) <==>
      LowerBody in g && Count(g, UpperBody) > 2 * Count(g, LowerBody)
    ensures CheckImbalance(g) == Some(LowerHeavy) <==>
      UpperBody in g && Count(g, LowerBody) > 2 * Count(g, UpperBody)
    ensures CheckImbalance(g) in {Some(UpperHeavy), Some(LowerHeavy)} ==> UpperBody in g && LowerBody in g
    ensures CheckImbalance(g) == Some(NoCore) <==>
      Core !in g && (UpperBody in g || LowerBody in g)
      && !(Count(g, UpperBody) > 2 * Count(g, LowerBody) && LowerBody in g)
      && !(Count(g, LowerBody) > 2 * Count(g, UpperBody) && UpperBody in g)
    ensures UpperBody !in g && LowerBody !in g ==> CheckImbalance(g) == None
  {
    CountPositive(g, UpperBody);
    CountPositive(g, LowerBody);
    CountPositive(g, Core);
  }

  // ---------------------------------------------------------------------------
  // Goal

  /** `_determine_goal`: fat loss (`چربی‌سوزی`), strength gain (`افزایش قدرت`),
      endurance (`استقامتی`), staying active (`حفظ سلامتی و فعال ماندن`) or the mixed
      goal (`ترکیبی`). */
  datatype Goal = FatLoss | StrengthGain | Endurance | StayActive | MixedGoal

  /** The first rule that applies, in order; `calories` is in tenths. */
  function DetermineGoal(types: seq<ExType>, i: Intensity, calories: nat): Goal {
    if calories > 3000 then FatLoss
    else if Strength in types && i == High then StrengthGain
    else if Aerobic in types && Count(types, Aerobic) * 2 > |types| then Endurance
    else if i == Low then StayActive
    else MixedGoal
  }

  /** More than 300 kilocalories means fat loss, whatever else holds; each later goal is
      given exactly when every earlier rule failed and its own condition holds: strength
      gain for a high-intensity workout with a strength exercise, endurance when aerobic
      exercises outnumber strength ones, staying active at low intensity, and the mixed
      goal otherwise. */
  lemma {:induction false} GoalPrecedence(types: seq<ExType>, i: Intensity, calories: nat)
    ensures DetermineGoal(types, i, calories) == FatLoss <==> calories > 3000
    ensures DetermineGoal(types, i, calories) == StrengthGain <==>
      calories <= 3000 && Strength in types && i == High
    ensures DetermineGoal(types, i, calories) == Endurance <==>
      calories <= 3000 && !(Strength in types && i == High)
      && Count(types, Aerobic) > Count(types, Strength)
    ensures DetermineGoal(types, i, calories) == StayActive <==>
      calories <= 3000 && !(Strength in types && i == High)
      && Count(types, Aerobic) <= Count(types, Strength) && i == Low
    ensures DetermineGoal(types, i, calories) == MixedGoal <==>
      calories <= 3000 && !(Strength in types && i == High)
      && Count(types, Aerobic) <= Count(types, Strength) && i != Low
  {
    CountsCover(types);
    CountPositive(types, Aerobic);
  }

  /** Every type is strength or aerobic, so their counts add up to the length. */
  lemma {:induction false} CountsCover(types: seq<ExType>)
    ensures Count(types, Strength) + Count(types, Aerobic) == |types|
  {
    if types != [] {
      CountsCover(types[..|types| - 1]);
      assert types[|types| - 1] == Strength || types[|types| - 1] == Aerobic;
    }
  }

  /** The goal does not depend on the order of the types. */
  lemma {:induction false} GoalOrderFree(types: seq<ExType>, types': seq<ExType>, i: Intensity, calories: nat)
    requires multiset(types) == multiset(types')
    ensures DetermineGoal(types, i, calories) == DetermineGoal(types', i, calories)
  {
    CountIsMultiplicity(types, Aerobic);
    CountIsMultiplicity(types', Aerobic);
    assert |multiset(types)| == |types| && |multiset(types')| == |types'|;
    assert Strength in types <==> Strength in multiset(types);
    assert Strength in types' <==> Strength in multiset(types');
    assert Aerobic in types <==> Aerobic in multiset(types);
    assert Aerobic in types' <==> Aerobic in multiset(types');
  }

  /** The calorie rule compares `calories / 10` with 300 exactly. */
  lemma CalorieThreshold(calories: nat)
    ensures calories > 3000 <==> calories as real / 10.0 > 300.0
  {
  }

  // ---------------------------------------------------------------------------
  // Overtraining

  /** The two warnings of `_check_overtraining`. */
  datatype Risk = Moderate | Severe

  function RiskRank(r: Option<Risk>): nat {
    match r
    case None => 0
    case Some(Moderate) => 1
    case Some(Severe) => 2
  }

  /** `_check_overtraining` for a difficulty of `d` tenths over `n` exercises. */
  function Overtraining(d: nat, n: nat): Option<Risk> {
    if d > 500 || n > 10 then Some(Severe)
    else if d > 300 || n > 6 then Some(Moderate)
    else None
  }

  /** The warning never weakens when the difficulty or the number of exercises grows. */
  lemma OvertrainingMonotone(d: nat, d': nat, n: nat, n': nat)
    requires d <= d' && n <= n'
    ensures RiskRank(Overtraining(d, n)) <= RiskRank(Overtraining(d', n'))
  {
  }

  /** The thresholds compare `total_difficulty = d / 10` with 50 and 30 exactly; more than
      ten exercises is always severe, and at most six exercises with a total difficulty
      of at most 30 is never a risk. */
  lemma OvertrainingThresholds(d: nat, n: nat)
    ensures Overtraining(d, n) == Some(Severe) <==> d as real / 10.0 > 50.0 || n > 10
    ensures Overtraining(d, n) == Some(Moderate) <==>
      !(d as real / 10.0 > 50.0 || n > 10) && (d as real / 10.0 > 30.0 || n > 6)
    ensures Overtraining(d, n) == None <==> d as real / 10.0 <= 30.0 && n <= 6
  {
  }

  // ---------------------------------------------------------------------------
  // Improvement suggestion

  /** The three suggestions: add a compound move, progressive overload, vary the angles. */
  datatype Suggestion = AddCompound | ProgressiveOverload | VaryAngles

  /** `ex['name'] in ['اسکات', 'شنا', 'برپی']`. */
  predicate IsCompound(name: string) {
    name == "اسکات" || name == "شنا" || name == "برپی"
  }

  predicate HasCompound(exercises: seq<Record>) {
    exists k :: 0 <= k < |exercises| && IsCompound(exercises[k].name)
  }

  /** The list `_generate_improvement` builds before it keeps the first two. */
  function AllSuggestions(exercises: seq<Record>, strength: bool): seq<Suggestion> {
    (if HasCompound(exercises) then [] else [AddCompound])
    + [ProgressiveOverload]
    + (if strength then [VaryAngles] else [])
  }

  /** The suggestions kept: `suggestions[:2]`; `strength` says whether the main type
      is strength. */
  function Improvement(exercises: seq<Record>, strength: bool): seq<Suggestion> {
    var all := AllSuggestions(exercises, strength);
    if |all| <= 2 then all else all[..2]
  }

  /** One or two suggestions, never the same twice; progressive overload is always
      among them; the compound-move one is given, and first, exactly when no exercise
      is a squat, a push-up or a burpee; varying the angles is given exactly when the
      main type is strength and there is a compound move. */
  lemma {:induction false} ImprovementMeaning(exercises: seq<Record>, strength: bool)
    ensures var r := Improvement(exercises, strength);
      1 <= |r| <= 2
      && (forall j, j' :: 0 <= j < j' < |r| ==> r[j] != r[j'])
      && ProgressiveOverload in r
      && (r[0] == AddCompound <==> !HasCompound(exercises))
      && (AddCompound in r <==> !HasCompound(exercises))
      && (VaryAngles in r <==> strength && HasCompound(exercises))
  {
  }

  /** `_generate_improvement`: look for a compound move, then append the suggestions in
      order and keep the first two. */
  method GenerateImprovement(exercises: seq<Record>, strength: bool) returns (suggestions: seq<Suggestion>)
    ensures suggestions == Improvement(exercises, strength)
  {
    var hasCompound := false;
    var k := 0;
    while k < |exercises| && !hasCompound
      invariant k <= |exercises|
      invariant hasCompound <==> exists t :: 0 <= t < k && IsCompound(exercises[t].name)
    {
      hasCompound := IsCompound(exercises[k].name);
      k := k + 1;
    }
    suggestions := [];
    if !hasCompound {
      suggestions := suggestions + [AddCompound];
    }
    suggestions := suggestions + [ProgressiveOverload];
    if strength {
      suggestions := suggestions + [VaryAngles];
    }
    if |suggestions| > 2 {
      suggestions := suggestions[..2];
    }
  }

  // ---------------------------------------------------------------------------
  // Recovery plan

  /** One line of the recovery plan: the exercise name and the lighter repetition count. */
  datatype RecoveryItem = RecoveryItem(name: string, reps: nat)

  /** `max(5, value // 2)`. */
  function RecoveryReps(value: nat): nat {
    if value / 2 < 5 then 5 else value / 2
  }

  /** `_generate_recovery`: the first three exercises (all of them when fewer), in
      order, at half the value but at least five. */
  function RecoveryPlan(exercises: seq<Record>): seq<RecoveryItem> {
    if exercises == [] then []
    else
      var rest := if |exercises| > 3 then exercises[..3] else exercises;
      RecoveryPlan(rest[..|rest| - 1]) + [RecoveryItem(rest[|rest| - 1].name, RecoveryReps(rest[|rest| - 1].value))]
  }

  /** The plan lists `min(3, n)` entries, entry `k` for exercise `k` under its (table)
      name; each asks for the larger of five and half the original value (rounded
      down), so at least five, and no more than half the value unless that is below
      five. */
  lemma {:induction false} RecoveryPlanMeaning(exercises: seq<Record>)
    ensures var p := RecoveryPlan(exercises);
      |p| == (if |exercises| < 3 then |exercises| else 3)
      && forall k :: 0 <= k < |p| ==>
        p[k].name == exercises[k].name
        && p[k].reps >= 5
        && p[k].reps >= exercises[k].value / 2
        && (p[k].reps == 5 || p[k].reps == exercises[k].value / 2)
        && (p[k].reps == 5 || 2 * p[k].reps <= exercises[k].value)
        && (exercises[k].value >= 10 ==> 2 * p[k].reps <= exercises[k].value)
    decreases |exercises|
  {
    if exercises != [] {
      var rest := if |exercises| > 3 then exercises[..3] else exercises;
      RecoveryPlanMeaning(rest[..|rest| - 1]);
    }
  }

  /** `_generate_recovery`'s loop over `exercises[:3]`. */
  method GenerateRecovery(exercises: seq<Record>) returns (plan: seq<RecoveryItem>)
    ensures plan == RecoveryPlan(exercises)
  {
    var first := if |exercises| > 3 then exercises[..3] else exercises;
    plan := [];
    for k := 0 to |first|
      invariant plan == RecoveryPlan(first[..k])
    {
      assert first[..k + 1][..k] == first[..k];
      plan := plan + [RecoveryItem(first[k].name, RecoveryReps(first[k].value))];
    }
    assert first[..|first|] == first;
    assert RecoveryPlan(first) == RecoveryPlan(exercises);
  }
}
