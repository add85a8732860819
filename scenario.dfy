/** The sample message the bot shows its users (`دراز نشست=۲۰`, `شنا=۱۰`, `اسکات=۵`,
    `طناب=۳ دقیقه`, one per line, in Persian digits), parsed and analysed. */
module Scenario {
  import opened Text
  import opened Catalog
  import opened Pattern
  import opened Parser
  import opened Advice
  import opened Analysis

  const SampleRecords: seq<Record> := [
    Record("دراز نشست", 20, None, "دراز نشست"),
    Record("شنا", 10, None, "شنا"),
    Record("اسکات", 5, None, "اسکات"),
    Record("طناب", 3, Some(Minute), "طناب")
  ]

  const SampleLines: seq<string> := ["دراز نشست=۲۰", "شنا=۱۰", "اسکات=۵", "طناب=۳ دقیقه"]

  /** The sample message, one exercise per line:
      `"دراز نشست=۲۰\nشنا=۱۰\nاسکات=۵\nطناب=۳ دقیقه"`. */
  const SampleMessage: string :=
    SampleLines[0] + "\n" + SampleLines[1] + "\n" + SampleLines[2] + "\n" + SampleLines[3]

  /** The digits written on each line. */
  const SampleDigits: seq<string> := ["۲۰", "۱۰", "۵", "۳"]

  /** Stripping and splitting the message gives its four lines. */
  lemma SampleMessageLines()
    ensures SplitLines(Strip(SampleMessage)) == SampleLines
  {
    assert SampleMessage[0] == SampleLines[0][0];
    assert SampleMessage[|SampleMessage| - 1] == SampleLines[3][|SampleLines[3]| - 1];
    StripUnchanged(SampleMessage);
    SampleJoin();
    SampleLinesHaveNoNewline();
    SplitJoinLines(SampleLines);
  }

  /** The message is its lines joined by newlines. */
  lemma SampleJoin()
    ensures JoinLines(SampleLines) == SampleMessage
  {
    var ls := SampleLines;
    assert JoinLines(ls[3..]) == ls[3];
    assert JoinLines(ls[2..]) == ls[2] + "\n" + ls[3] by {
      assert ls[2..][1..] == ls[3..];
    }
    assert JoinLines(ls[1..]) == ls[1] + "\n" + ls[2] + "\n" + ls[3] by {
      assert ls[1..][1..] == ls[2..];
    }
  }

  lemma SampleLinesHaveNoNewline()
    ensures forall k :: 0 <= k < |SampleLines| ==> NoNewline(SampleLines[k])
  {
  }

  /** Each line of the message is `name=digits [unit]` for the name, value and unit of
      the matching record. */
  lemma SampleLineShape(k: nat)
    requires k < 4
    ensures SampleLines[k] == EqualsLine(SampleRecords[k].originalName, SampleDigits[k], SampleRecords[k].unit)
    ensures AllDigits(SampleDigits[k]) && SampleDigits[k] != []
    ensures DecimalValue(SampleDigits[k]) == SampleRecords[k].value
    ensures SampleRecords[k].unit != Some(Rep)
  {
  }

  /** Each name in the message is a table key written in Persian letters and spaces,
      with no space at either end. */
  lemma SampleNames(k: nat)
    requires k < 4
    ensures var name := SampleRecords[k].originalName;
      name != [] && !IsSpace(name[0]) && !IsSpace(name[|name| - 1])
      && (forall t :: 0 <= t < |name| ==> IsNameChar(name[t]))
      && name == Table[k].key && SampleRecords[k].name == name
  {
  }

  /** Each line of the message parses to the matching record: its name is a table key,
      so the lookup keeps it. */
  lemma SampleLineParses(k: nat)
    requires k < 4
    ensures ParseLine(SampleLines[k]) == Some(SampleRecords[k])
  {
    var r := SampleRecords[k];
    SampleLineShape(k);
    SampleNames(k);
    LookupFirstKeys();
    StripUnchanged(r.originalName);
    ParseEqualsLine(r.originalName, SampleDigits[k], r.unit);
  }

  /** Parsing the sample message gives the sample's four records, in order. */
  lemma SampleParse()
    ensures ParseText(SampleMessage) == SampleRecords
  {
    SampleMessageLines();
    var rs := LineResults(SampleLines);
    forall k | 0 <= k < 4 ensures rs[k] == Some(SampleRecords[k]) {
      OutcomeAt(SampleLines, ParseLine, k);
      SampleLineParses(k);
    }
    RecordsAllMatched(rs, SampleRecords);
  }

  /** The table rows of the sample's exercises are the first four. */
  lemma SampleEntries()
    ensures forall k :: 0 <= k < 4 ==> Get(SampleRecords[k].name) == Some(Table[k])
  {
    forall k | 0 <= k < 4 ensures Get(SampleRecords[k].name) == Some(Table[k]) {
      assert SampleRecords[k].name == Table[k].key;
      GetKey(k);
    }
  }

  const SampleTotalsValue: Totals :=
    Totals(450, [Strength, Strength, Strength, Aerobic], [Core, UpperBody, LowerBody, FullBody], 143)

  /** Under any lookup that finds the first four table rows for the sample's names,
      the sample adds up to 45 kcal and a difficulty of 14.3, from three strength
      exercises and one aerobic one, one per muscle group. */
  lemma {:induction false} SampleTotalsWith(lookup: string -> Option<Entry>)
    requires forall k :: 0 <= k < 4 ==> lookup(SampleRecords[k].name) == Some(Table[k])
    ensures TallyWith(SampleRecords, lookup) == SampleTotalsValue
  {
    var rs := SampleRecords;
    assert lookup(rs[0].name) == Some(Table[0]);
    assert lookup(rs[1].name) == Some(Table[1]);
    assert lookup(rs[2].name) == Some(Table[2]);
    assert lookup(rs[3].name) == Some(Table[3]);
    assert TallyWith(rs[..1], lookup) == Totals(60, [Strength], [Core], 60) by {
      assert rs[..1][..0] == [];
    }
    assert TallyWith(rs[..2], lookup) == Totals(110, [Strength, Strength], [Core, UpperBody], 100) by {
      assert rs[..2][..1] == rs[..1];
    }
    assert TallyWith(rs[..3], lookup) == Totals(150, [Strength, Strength, Strength], [Core, UpperBody, LowerBody], 125) by {
      assert rs[..3][..2] == rs[..2];
    }
    assert rs[..4][..3] == rs[..3] && rs[..4] == rs;
  }

  /** The analyzer's table gives the sample those totals. */
  lemma SampleTotals()
    ensures Tally(SampleRecords) == SampleTotalsValue
  {
    SampleEntries();
    SampleTotalsWith(Get);
  }

  /** Classifying those totals: a total difficulty of 14.3 over four exercises
      (average 3.575, medium), mostly strength, 90 seconds of rest, a water break
      every 30 minutes, no imbalance (core, upper and lower body each once), the
      mixed goal, no overtraining, and no recovery plan. */
  lemma SampleSummary(tieBreak: ExType)
    ensures Summarize(SampleRecords, SampleTotalsValue, tieBreak) == Analysis(
      SampleRecords, Typed(Strength), Medium, Intermediate, 450,
      {Core, UpperBody, LowerBody, FullBody}, 90, 30, MixedGoal, None, None,
      [ProgressiveOverload, VaryAngles], None)
  {
    var types := SampleTotalsValue.types;
    var groups := SampleTotalsValue.groups;
    CountIsMultiplicity(types, Strength);
    CountIsMultiplicity(types, Aerobic);
    CountIsMultiplicity(groups, Core);
    CountIsMultiplicity(groups, UpperBody);
    CountIsMultiplicity(groups, LowerBody);
    SampleImprovement();
    assert (set c | c in groups) == {Core, UpperBody, LowerBody, FullBody};
  }

  /** The sample holds a push-up, so for a strength workout the suggestions are
      progressive overload and varying the angles. */
  lemma SampleImprovement()
    ensures Improvement(SampleRecords, true) == [ProgressiveOverload, VaryAngles]
  {
    assert HasCompound(SampleRecords) by {
      assert IsCompound(SampleRecords[1].name);
    }
  }

  /** The whole analysis of the sample's records. */
  lemma SampleAnalysis(tieBreak: ExType)
    ensures Analyze(SampleRecords, tieBreak) == Report(Analysis(
      SampleRecords, Typed(Strength), Medium, Intermediate, 450,
      {Core, UpperBody, LowerBody, FullBody}, 90, 30, MixedGoal, None, None,
      [ProgressiveOverload, VaryAngles], None))
  {
    SampleTotals();
    SampleSummary(tieBreak);
  }

  /** `analyze_workout(parse_workout(message))` for the sample message. */
  lemma SampleMessageAnalysis(tieBreak: ExType)
    ensures Analyze(ParseText(SampleMessage), tieBreak) == Report(Analysis(
      SampleRecords, Typed(Strength), Medium, Intermediate, 450,
      {Core, UpperBody, LowerBody, FullBody}, 90, 30, MixedGoal, None, None,
      [ProgressiveOverload, VaryAngles], None))
  {
    SampleParse();
    SampleAnalysis(tieBreak);
  }
}
