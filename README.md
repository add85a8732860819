# Workout analyzer: a Dafny model

This is a Persian-language fitness chat bot. A user types a free-text workout, one exercise per line. Examples are `دراز نشست=۲۰` (sit-ups, twenty), `شنا: 10` (push-ups) and `طناب 3 دقیقه` (three minutes of rope jumping). The bot turns the text into exercise records and then produces a rule-based analysis of them. That engine is the `WorkoutAnalyzer` class in `workout_analyzer.py`, and it is what this project models. The engine has three parts:

- **The exercise table and name lookup** (`catalog.dfy`). The table has ten exercises in insertion order. Each has a type, a muscle group, a difficulty and one calorie rate. `_find_exercise` returns the first key that is a substring of the name, or of which the name is a substring.
- **The line parser** (`text.dfy`, `pattern.dfy`, `parser.dfy`):
  - The text is stripped and split on `'\n'`.
  - For each line, three regular expressions are tried in a fixed order: `name=digits`, `name: digits` and `name digits`, each with an optional unit word.
  - The first one that `re.search` matches anywhere in the line yields one record: the looked-up name, the value, the unit and the stripped raw name.
  - The model states `re.search`'s match as a specification function: leftmost start, then the longest name group. It proves a scanner (`FindMatch`) equal to it.
- **The analysis** (`analysis.dfy`, `advice.dfy`):
  - One loop adds up calories, difficulty, types and muscle groups over the records whose name is a table key.
  - The result is then classified:
    - the main type and the intensity tier, from the average difficulty;
    - the rest time and the water-break interval;
    - an imbalance warning, the likely goal and an overtraining warning;
    - up to two improvement suggestions, and a recovery plan for intense workouts.
  - `scenario.dfy` parses the bot's own sample message and works it through the whole analysis.

Arithmetic is exact. Calories and difficulty are integers counted in tenths: a rate of 0.3 kcal per repetition is 3, and `difficulty * (value / 10)` is `difficulty * value`. The thresholds are scaled to match: an average difficulty below 3 is `total < 30 * n`, and more than 300 kcal is more than 3000 tenths. Lemmas such as `TierIsAverageThreshold` and `OvertrainingThresholds` relate the scaled comparisons to the same comparisons over reals.

Python's `re` classes are spelled out:

- `\s` is the set of code points for which `str.isspace` holds.
- The name class `[؀-ۿ\s]` is the Arabic block or whitespace. It therefore also holds the Arabic-Indic and Persian digits, so in the third pattern a name can absorb earlier numbers.
- `\d` and `int()` accept ASCII, Arabic-Indic and Persian digits.

The engine only computes: it has no I/O, no clock and no randomness. Each loop in the source is a method with loop invariants, proved equal to a specification function:

- `FindExercise`, `ParseOneLine`, `ParseLines`;
- `TallyRecords`;
- `GenerateImprovement`, `GenerateRecovery`.

`ParseWorkout` and `AnalyzeWorkout` have no loop of their own. They call `ParseLines` and `TallyRecords` and are proved equal to `ParseText` and `Analyze`.

The properties are proved about those functions. The catalog never changes after construction, so it is a constant sequence.

## Model

| member | source | states |
|---|---|---|
| Text.Strip | workout_analyzer.py:23 | `str.strip`: the result has no whitespace at either end. It is empty exactly when the input is all whitespace. It holds only characters of the input. |
| Text.StripIsSlice | workout_analyzer.py:23 | The strip is a contiguous slice of the input, with only whitespace before and after it. |
| Text.StripUnchanged | workout_analyzer.py:36 | A string that already has no whitespace at either end is unchanged by stripping. |
| Text.SplitLines | workout_analyzer.py:23 | `split('\n')` gives at least one piece. No piece holds a newline, and every character of a piece comes from the text. |
| Text.JoinSplitLines | workout_analyzer.py:23 | Joining the pieces with `'\n'` gives back the text, so splitting loses nothing. |
| Text.SplitJoinLines | workout_analyzer.py:23 | Splitting newline-free lines joined by `'\n'` gives back exactly those lines. |
| Text.IsSubstringMeaning | workout_analyzer.py:56 | The `in` test on strings holds exactly when the first string occurs at some position of the second. |
| Text.SubstringBasics | workout_analyzer.py:56 | The empty string is in every string, and every string is in itself. |
| Text.DecimalValueAsciiDigits | workout_analyzer.py:37 | `int()` of the decimal digits of `n` is `n`. |
| Catalog.Get | workout_analyzer.py:72-73 | Indexing the table finds an entry exactly when the name is a key, and that entry has the name as its key. |
| Catalog.KeysDistinct | workout_analyzer.py:7-18 | The ten keys are pairwise distinct. |
| Catalog.GetKey | workout_analyzer.py:7-18 | Every row is the entry found for its own key. |
| Catalog.OneRatePerEntry | workout_analyzer.py:7-18 | Every row has exactly one of a per-repetition and a per-minute calorie rate. |
| Catalog.Lookup | workout_analyzer.py:53-58 | The specification of `_find_exercise`: the first key, in table order, that is related to the name. Its meaning is stated by `LookupIsFirstRelated`. |
| Catalog.FindExercise | workout_analyzer.py:53-58 | The search loop, with its early return, returns the first key in table order related to the name (`Lookup`), or None. |
| Catalog.LookupIsFirstRelated | workout_analyzer.py:53-58 | When a key is found, it is related to the name (one is a substring of the other) and no earlier key is. Nothing is found exactly when no key is related. |
| Catalog.LookupNoneNotKey | workout_analyzer.py:53-58 | What is found is always a key. A name for which nothing is found is not a key. |
| Catalog.LookupEmptyName | workout_analyzer.py:53-58 | The empty name is in every key, so it resolves to the first key `دراز نشست`. |
| Catalog.LookupSelf | workout_analyzer.py:53-58 | A key resolves to itself when no earlier key is related to it. |
| Catalog.LookupFirstKeys | workout_analyzer.py:7-11 | Each of the first four keys resolves to itself. |
| Pattern.UnitAt | workout_analyzer.py:28-30 | The optional unit group: the unit found is one of the pattern's alternatives and is spelled at that position. No unit is found only when no alternative is spelled there. |
| Pattern.LastSeparator | workout_analyzer.py:28-30 | The greedy name group backtracks to the last position, within the name run, where the separator and a digit can be read. When there is none, no position qualifies. |
| Pattern.SplitsFrom | workout_analyzer.py:28-30 | A match starting at `i` can end its name group exactly at the separator positions inside the maximal name run from `i`. |
| Pattern.Search | workout_analyzer.py:34 | A reported match is a valid split of the line into name group, separator and digits. |
| Pattern.SearchIsLeftmostGreedy | workout_analyzer.py:34 | `re.search` semantics: the reported match has the leftmost start and, from there, the longest name group. There is no match exactly when no split exists anywhere in the line. |
| Pattern.LeftmostGreedyUnique | workout_analyzer.py:34 | At most one match is leftmost and greedy, so the specification determines the match. |
| Pattern.ScanNameRun | workout_analyzer.py:28-30 | The scanning loop stops at the end of the maximal run of name characters. |
| Pattern.Backtrack | workout_analyzer.py:28-30 | The backtracking loop finds the last usable separator position (`LastSeparator`). |
| Pattern.FindMatch | workout_analyzer.py:34 | The scanner returns exactly the leftmost-greedy match, or None. |
| Pattern.GroupsOf | workout_analyzer.py:36-38 | Group 1 is the matched name span. Group 2 is a non-empty string of digits. Group 3 is None or one of this pattern's unit words. |
| Pattern.DigitsAreWholeRun | workout_analyzer.py:37 | Group 2 is a maximal run of digits: no digit just before it or just after it. |
| Parser.FirstMatchFrom | workout_analyzer.py:33-35 | The pattern reported is one whose search gives the reported match. |
| Parser.FirstMatchMeaning | workout_analyzer.py:33-49 | The patterns are tried in the order `=`, `:`, whitespace. The first that matches wins, with its leftmost-greedy match. A line yields no record exactly when none of the three matches. |
| Parser.MakeRecordMeaning | workout_analyzer.py:36-48 | The original name is the stripped group 1. The unit is one of the pattern's alternatives, and `تکرار` comes only from the whitespace pattern. The value is the decimal value of a maximal digit run of the line, so it is never negative. |
| Parser.NormalizedMeaning | workout_analyzer.py:41-44 | The record's name is the key the lookup finds, otherwise the raw name. It is a table key exactly when the lookup found one. |
| Parser.ParseLine | workout_analyzer.py:33-48 | The record one line yields: the first pattern's match turned into a record, or none. Its meaning is stated by `FirstMatchMeaning` and `MakeRecordMeaning`. |
| Parser.ParseText | workout_analyzer.py:20-51 | What `parse_workout` returns: the records of the lines of the stripped text, in order. Its meaning is stated by `RecordsFollowLines` and `ParseTextLength`. |
| Parser.ParseOneLine | workout_analyzer.py:33-49 | The loop over the patterns, breaking at the first match, yields the record `ParseLine` specifies. |
| Parser.ParseLines | workout_analyzer.py:25-49 | The loop over the lines appends, in order, the record of each matching line. |
| Parser.ParseWorkout | workout_analyzer.py:20-51 | `parse_workout` returns the records of the lines of the stripped text (`ParseText`). |
| Parser.RecordsLength | workout_analyzer.py:25-49 | There is at most one record per line. |
| Parser.ParseTextLength | workout_analyzer.py:22-51 | There are no more records than `'\n'`-separated lines of the stripped text. |
| Parser.RecordsAppend | workout_analyzer.py:25-49 | Lines are parsed independently: the records of two blocks of lines are the first block's records followed by the second's. |
| Parser.RecordsAllMatched | workout_analyzer.py:25-49 | When every line yields a record, there is exactly one record per line, in line order. |
| Parser.UnmatchedLineAddsNothing | workout_analyzer.py:25-49 | Removing a line that no pattern matches leaves the records unchanged. |
| Parser.Matched | workout_analyzer.py:25-49 | The matching lines' indices are in increasing order, and none is missing. |
| Parser.RecordsFollowOutcomes | workout_analyzer.py:43-49 | The `j`-th record is the record of the `j`-th matching line. |
| Parser.RecordsFollowLines | workout_analyzer.py:25-49 | Records come out in line order: the `j`-th record is what the `j`-th matching line parses to. |
| Parser.NoDigitNoRecord | workout_analyzer.py:28-30 | A line without a digit yields no record. This covers blank lines. |
| Parser.DigitFreeTextHasNoRecords | workout_analyzer.py:20-51 | A text without any digit yields no records. |
| Parser.EqualsLineMatch | workout_analyzer.py:28 | On `name=digits [unit]`, the `=` pattern matches at the start with the whole name as group 1, and it is the pattern chosen. |
| Parser.ParseEqualsLine | workout_analyzer.py:28-48 | Round trip: a line `name=digits`, optionally followed by ` دقیقه` or ` ثانیه`, parses to the stripped name looked up in the table, the digits' value, that unit and the stripped name. |
| Advice.CountIsMultiplicity | workout_analyzer.py:155-157 | `list.count` is the multiplicity, so it does not depend on order. |
| Advice.CountAppend | workout_analyzer.py:174 | Counts add up over concatenation. |
| Advice.CountPositive | workout_analyzer.py:134 | The count is positive exactly when the element is in the list. |
| Advice.Tier | workout_analyzer.py:93-102 | The intensity tier for a difficulty of `d` tenths over `n` exercises, tested against the thresholds `30 * n` and `60 * n`. `TierIsAverageThreshold` states that this is the average compared with 3 and 6. |
| Advice.TierIsAverageThreshold | workout_analyzer.py:93-102 | The tier is low, medium or high exactly when the average difficulty, over all records including unmatched ones, is below 3, from 3 to below 6, or 6 and more. |
| Advice.TierMonotone | workout_analyzer.py:93-102 | More difficulty or fewer exercises never lowers the tier. |
| Advice.RestTime | workout_analyzer.py:132-144 | The rest time: a base of 60 seconds with a strength exercise, else 30, times 1, 1.5 or 2 by tier. Its values and ordering are stated by `RestTimeValues` and `RestTimeMonotone`. |
| Advice.RestTimeValues | workout_analyzer.py:132-144 | The rest time is one of 30, 45, 60, 90 and 120 seconds. High doubles low and medium is 1.5 times low. A strength exercise doubles the base, so the rest is at least 60 seconds with one and at most 60 without. |
| Advice.RestTimeMonotone | workout_analyzer.py:139-144 | A higher tier never gets less rest. |
| Advice.WaterBreak | workout_analyzer.py:146-148 | The water-break interval `max(15, ceil(n / 3) * 15)`. Its properties are stated by `WaterBreakProperties`. |
| Advice.CeilThirdMeaning | workout_analyzer.py:148 | The helper is `ceil(n / 3)`. |
| Advice.WaterBreakProperties | workout_analyzer.py:146-148 | The water break is a positive multiple of 15 minutes, and 15 for up to three exercises. It never decreases as `n` grows, and it is the least multiple of 15 with one slot per started group of three. |
| Advice.CheckImbalance | workout_analyzer.py:150-166 | The imbalance ladder over the collected muscle groups. `ImbalanceMeaning` characterises each warning both ways. |
| Advice.ImbalanceOrderFree | workout_analyzer.py:150-166 | The imbalance warning depends only on how often each muscle group occurs. |
| Advice.ImbalanceIgnoresFullBody | workout_analyzer.py:150-166 | A whole-body exercise never changes the warning. |
| Advice.ImbalanceMeaning | workout_analyzer.py:150-166 | "Upper heavy" is given exactly when some lower-body exercise is present and upper-body ones outnumber them more than two to one. "Lower heavy" is the mirror case. Both need both halves of the body. "No core" is given exactly when there is no core work, some upper or lower work, and neither earlier rule fired. Without upper or lower work there is no warning. |
| Advice.DetermineGoal | workout_analyzer.py:168-179 | The goal ladder. `GoalPrecedence` characterises each goal both ways. |
| Advice.GoalPrecedence | workout_analyzer.py:168-179 | Each goal is characterised both ways. Fat loss exactly when above 300 kcal. Strength gain exactly when not, with a strength exercise at high intensity. Endurance exactly when neither earlier rule fired and aerobic exercises outnumber strength ones. "Stay active" exactly when none of those fired and the intensity is low. The mixed goal otherwise. |
| Advice.CountsCover | workout_analyzer.py:174 | Every collected type is strength or aerobic, so their counts sum to the length. |
| Advice.GoalOrderFree | workout_analyzer.py:168-179 | The goal depends only on how often each type occurs. |
| Advice.CalorieThreshold | workout_analyzer.py:170 | The tenths comparison is the same as "calories > 300". |
| Advice.Overtraining | workout_analyzer.py:181-187 | The overtraining ladder over the difficulty in tenths and the number of exercises. `OvertrainingThresholds` characterises each outcome both ways against the source's thresholds. |
| Advice.OvertrainingThresholds | workout_analyzer.py:181-187 | The risk is severe exactly when the difficulty exceeds 50 or there are more than 10 exercises. It is moderate exactly when it is not severe and the difficulty exceeds 30 or there are more than 6. Otherwise there is none. |
| Advice.OvertrainingMonotone | workout_analyzer.py:181-187 | More difficulty or more exercises never weakens the warning. |
| Advice.Improvement | workout_analyzer.py:189-205 | The suggestions kept, the first two of those built. Their meaning is stated by `ImprovementMeaning`. |
| Advice.ImprovementMeaning | workout_analyzer.py:189-205 | There are one or two distinct suggestions, and progressive overload is always among them. The compound-move suggestion is given, and given first, exactly when no exercise is `اسکات`, `شنا` or `برپی`. Varying the angles is given exactly when the main type is strength and a compound move is present. |
| Advice.GenerateImprovement | workout_analyzer.py:189-205 | The appending code and the cut to two give `Improvement`. |
| Advice.RecoveryPlan | workout_analyzer.py:207-216 | The recovery entries for the first three exercises. Their meaning is stated by `RecoveryPlanMeaning`. |
| Advice.RecoveryPlanMeaning | workout_analyzer.py:207-216 | The plan has `min(3, n)` entries, and entry `k` names exercise `k`. Each asks for `max(5, value // 2)` repetitions: at least 5 and at least half the value, and equal to one of them. |
| Advice.GenerateRecovery | workout_analyzer.py:207-216 | The loop over the first three exercises gives `RecoveryPlan`. |
| Analysis.Calories | workout_analyzer.py:77-81 | The calories of one known record, in tenths: the per-minute rate (default 5 kcal) when the unit is `دقیقه`, otherwise the per-repetition rate (default 0.5 kcal), times the value. `Scenario.SampleTotals` evaluates it on the sample. |
| Analysis.Tally | workout_analyzer.py:70-84 | The totals after the loop, under the analyzer's table. Their meaning is stated by `TallyMeaning`, `CollectedFromFound` and `UnknownRecordAddsNothing`. |
| Analysis.KnownWith | workout_analyzer.py:72 | The records the table knows: no more than the input, each one known and from the input, and every known input record included. |
| Analysis.TallyStep | workout_analyzer.py:70-84 | Each loop iteration adds the current record's contribution to the totals of those before it. |
| Analysis.TallyAppend | workout_analyzer.py:70-84 | The totals of two blocks of records are the sum of their totals: calories and difficulty add, and the lists concatenate. |
| Analysis.UnknownRecordAddsNothing | workout_analyzer.py:72 | A record whose name is not a key contributes nothing. |
| Analysis.TallyMeaning | workout_analyzer.py:70-84 | There is exactly one type and one muscle group per known record, in record order, taken from that record's table row. The totals equal those of the known records alone. |
| Analysis.NoKnownRecords | workout_analyzer.py:70-84 | When no record is known, the totals are zero and the lists are empty. |
| Analysis.CollectedFromFound | workout_analyzer.py:74-75 | A muscle group is collected exactly when some known record's row has it. No type is collected exactly when no record is known. |
| Analysis.MainType | workout_analyzer.py:87-90 | The main type: the more frequent collected type, or `ترکیبی` when none was collected. `MainTypeIsMostFrequent` states this. |
| Analysis.MainTypeIsMostFrequent | workout_analyzer.py:87-90 | The main type is `ترکیبی` exactly when no type was collected. Otherwise it is a collected type that no other type outnumbers. |
| Analysis.Summarize | workout_analyzer.py:86-130 | The result dictionary of a non-empty list, built from its totals. Its fields are stated by `AnalysisConsistent` and `AnalysisFromKnownRecords`. |
| Analysis.Analyze | workout_analyzer.py:60-130 | What `analyze_workout` returns: the error for an empty list, otherwise the summary of the totals. `AnalyzeEmpty` and `AnalyzeNoKnownRecords` state its cases. |
| Analysis.TallyRecords | workout_analyzer.py:65-84 | The accumulation loop computes `Tally`. |
| Analysis.AnalyzeWorkout | workout_analyzer.py:60-130 | `analyze_workout` returns `Analyze`: the error for no exercises, otherwise the classified totals. |
| Analysis.AnalyzeEmpty | workout_analyzer.py:62-63 | The error result is returned exactly for the empty list. |
| Analysis.AnalysisConsistent | workout_analyzer.py:116-130 | The result holds the input exercises, and the level follows the intensity. A recovery plan exists exactly when the intensity is high, and it has `min(3, n)` entries. There are one or two suggestions, and the water break is at least 15. |
| Analysis.AnalysisFromKnownRecords | workout_analyzer.py:70-122 | The reported muscle groups are exactly the groups of known records. The type is `ترکیبی` exactly when no record is known. |
| Analysis.AnalyzeNoKnownRecords | workout_analyzer.py:60-130 | When no record is known, the result has zero calories, the `ترکیبی` type, low intensity and the beginner level. It has no muscle groups, no imbalance, the "stay active" goal, 30 s of rest and no recovery plan. |
| Analysis.UnknownRecordOnlyDilutes | workout_analyzer.py:70-114 | An extra unknown record leaves calories, type, muscle groups and imbalance unchanged, and can only lower the intensity. |
| Scenario.SampleMessageLines | workout_analyzer.py:23 | Stripping and splitting the sample message gives its four lines. |
| Scenario.SampleLineParses | workout_analyzer.py:33-48 | Each line of the sample message parses, through the `=` pattern, to the matching record under its own table key. |
| Scenario.SampleParse | workout_analyzer.py:20-51 | Parsing the sample message gives the sample's four records, in order. |
| Scenario.SampleTotals | workout_analyzer.py:70-84 | The sample message adds up to 45 kcal and difficulty 14.3, from three strength exercises and one aerobic one. |
| Scenario.SampleImprovement | workout_analyzer.py:189-205 | The sample holds a push-up, so it gets progressive overload and varying the angles. |
| Scenario.SampleSummary | workout_analyzer.py:86-130 | The sample is classified as mostly strength and medium, with 90 s of rest and a 30-minute water break. It has no imbalance, the mixed goal and no overtraining or recovery plan. |
| Scenario.SampleAnalysis | workout_analyzer.py:60-130 | The whole analysis of the sample's records. |
| Scenario.SampleMessageAnalysis | workout_analyzer.py:20-130 | Analysing what the sample message parses to gives the medium, strength-led analysis above. |

## Left out

- `bot.py` is not part of this model: chat handlers, keyboards, per-user sessions, message assembly, the "harder"/"easier" float rewrites and merging in the LLM's answer.
- `database.py`, `ai_analyzer.py`, `keep_alive.py` and `config.py` are not part of this model: persistence, the HTTP call to the language model, the keep-alive web server, and environment variables.
- Floating point: calories and difficulty are exact tenths. Float rounding in sums such as `0.3 * 20` is not modelled, and neither is the display rounding `round(total_calories, 1)`.
- Advice.RestTime: the source returns an `int` for the low and high tiers and a `float` (45.0 or 90.0) for the medium tier. The model returns the same numbers as naturals.
- Analysis.MainType: on a tie, Python's `max(set(...))` picks whichever type the hash-seeded set order yields first. The model takes that choice as the `tieBreak` parameter and proves only that the chosen type has maximal count.
- Analysis.Summarize: `list(set(muscle_groups))` has an unspecified order, so the model reports a set.
- Text.IsDigit: `\d` and `int()` also accept the decimal digits of other scripts. Only ASCII, Arabic-Indic and Persian digits are modelled.
- Messages are tags, not strings. The warning, goal and suggestion texts become enumerations. The improvement text is a list of at most two suggestions, not their `" - "` join. The recovery plan is a list of (name, repetitions) entries, not the formatted text with its trailing note.
- The guard `len(match.groups()) > 2` is always true for the three patterns, so the unit is always group 3.
