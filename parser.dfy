/** `parse_workout`: from the text of a message to a list of exercise records, one
    record at most per line, in line order. */
module Parser {
  import opened Text
  import opened Catalog
  import opened Pattern

  /** One parsed line: `{name, value, unit, original_name}`. `unit` is None when group 3
      did not take part in the match. */
  datatype Record = Record(name: string, value: nat, unit: Option<Unit>, originalName: string)

  /** The first pattern, from position `j` of `Patterns` on, that matches the line,
      with the span `re.search` reports for it. */
  function FirstMatchFrom(line: string, j: nat): (r: Option<(Pattern, Span)>)
    requires j <= |Patterns|
    ensures r.Some? ==> Search(line, r.value.0) == Some(r.value.1)
    decreases |Patterns| - j
  {
    if j == |Patterns| then None
    else match Search(line, Patterns[j])
      case Some(m) => Some((Patterns[j], m))
      case None => FirstMatchFrom(line, j + 1)
  }

  function FirstMatch(line: string): Option<(Pattern, Span)> {
    FirstMatchFrom(line, 0)
  }

  /** `exercise_key or exercise_name`: the table key the lookup finds, else the name itself. */
  function Normalized(original: string): string {
    match Lookup(original)
    case Some(key) => key
    case None => original
  }

  /** The record a match yields. */
  function MakeRecord(line: string, p: Pattern, m: Span): Record
    requires CanSplit(line, p, m.start, m.nameEnd)
  {
    var g := GroupsOf(line, p, m);
    var original := Strip(g.name);
    Record(Normalized(original), DecimalValue(g.digits), g.unit, original)
  }

  /** The record one line contributes, if any. */
  function ParseLine(line: string): Option<Record> {
    match FirstMatch(line)
    case Some((p, m)) => Some(MakeRecord(line, p, m))
    case None => None
  }

  /** The outcome of each line under a line parser, in order. */
  function Outcomes(ls: seq<string>, parse: string -> Option<Record>): (rs: seq<Option<Record>>)
    ensures |rs| == |ls|
  {
    seq(|ls|, k requires 0 <= k < |ls| => parse(ls[k]))
  }

  /** The outcome of every line of a message. */
  function LineResults(ls: seq<string>): (rs: seq<Option<Record>>)
    ensures |rs| == |ls|
  {
    Outcomes(ls, ParseLine)
  }

  /** The records among the outcomes, in order. */
  function Records(rs: seq<Option<Record>>): seq<Record> {
    if rs == [] then []
    else Records(rs[..|rs| - 1]) + (if rs[|rs| - 1].Some? then [rs[|rs| - 1].value] else [])
  }

  /** What `parse_workout(text)` returns. */
  function ParseText(text: string): seq<Record> {
    Records(LineResults(SplitLines(Strip(text))))
  }

  /** The body of `parse_workout`'s loop for one line: try the patterns in order; the
      first that matches yields the record and ends the search. */
  method ParseOneLine(line: string) returns (r: Option<Record>)
    ensures r == ParseLine(line)
  {
    var j := 0;
    while j < |Patterns|
      invariant j <= |Patterns|
      invariant FirstMatchFrom(line, j) == FirstMatch(line)
    {
      var m := FindMatch(line, Patterns[j]);
      if m.Some? {
        assert FirstMatch(line) == Some((Patterns[j], m.value));
        var groups := GroupsOf(line, Patterns[j], m.value);
        var exerciseName := Strip(groups.name);
        var value := DecimalValue(groups.digits);
        var key := FindExercise(exerciseName);
        return Some(Record(if key.Some? then key.value else exerciseName, value, groups.unit, exerciseName));
      }
      j := j + 1;
    }
    return None;
  }

  /** `parse_workout`: split the stripped text at newlines and append the record of each
      line that has one. */
  method ParseWorkout(text: string) returns (exercises: seq<Record>)
    ensures exercises == ParseText(text)
  {
    var lines := SplitLines(Strip(text));
    exercises := ParseLines(lines);
  }

  /** The loop of `parse_workout` over the lines of the message. */
  method ParseLines(lines: seq<string>) returns (exercises: seq<Record>)
    ensures exercises == Records(LineResults(lines))
  {
    exercises := [];
    for i := 0 to |lines|
      invariant exercises == Records(LineResults(lines)[..i])
    {
      var r := ParseOneLine(lines[i]);
      ParseStep(lines, i, r);
      if r.Some? {
        exercises := exercises + [r.value];
      }
    }
    assert LineResults(lines)[..|lines|] == LineResults(lines);
  }

  // ---------------------------------------------------------------------------
  // Lines and records

  /** The outcome at a position is that of the line there. */
  lemma {:induction false} OutcomeAt(ls: seq<string>, parse: string -> Option<Record>, i: nat)
    requires i < |ls|
    ensures Outcomes(ls, parse)[i] == parse(ls[i])
  {
  }

  /** One more line adds its record, if it has one, at the end. */
  lemma {:induction false} ParseStep(ls: seq<string>, i: nat, r: Option<Record>)
    requires i < |ls| && r == ParseLine(ls[i])
    ensures Records(LineResults(ls)[..i + 1]) == Records(LineResults(ls)[..i]) + (if r.Some? then [r.value] else [])
  {
    OutcomeAt(ls, ParseLine, i);
    RecordsStep(LineResults(ls), i);
  }

  /** One more outcome adds its record, if it has one, at the end. */
  lemma {:induction false} RecordsStep(rs: seq<Option<Record>>, i: nat)
    requires i < |rs|
    ensures Records(rs[..i + 1]) == Records(rs[..i]) + (if rs[i].Some? then [rs[i].value] else [])
  {
    assert rs[..i + 1][..i] == rs[..i];
  }

  /** Each outcome contributes at most one record. */
  lemma {:induction false} RecordsLength(rs: seq<Option<Record>>)
    ensures |Records(rs)| <= |rs|
  {
    if rs != [] {
      RecordsLength(rs[..|rs| - 1]);
    }
  }

  /** So a message yields at most as many records as its stripped text has lines. */
  lemma {:induction false} ParseTextLength(text: string)
    ensures |ParseText(text)| <= |SplitLines(Strip(text))|
  {
    RecordsLength(LineResults(SplitLines(Strip(text))));
  }

  /** Collecting records distributes over a split of the outcomes. */
  lemma {:induction false} RecordsAppend(a: seq<Option<Record>>, b: seq<Option<Record>>)
    ensures Records(a + b) == Records(a) + Records(b)
    decreases |b|
  {
    if b == [] {
      assert a + b == a;
    } else {
      var b' := b[..|b| - 1];
      assert (a + b)[..|a + b| - 1] == a + b';
      assert (a + b)[|a + b| - 1] == b[|b| - 1];
      RecordsAppend(a, b');
    }
  }

  /** The outcomes of two blocks of lines are the outcomes of each block. */
  lemma {:induction false} OutcomesAppend(a: seq<string>, b: seq<string>, parse: string -> Option<Record>)
    ensures Outcomes(a + b, parse) == Outcomes(a, parse) + Outcomes(b, parse)
  {
    forall k | 0 <= k < |a + b|
      ensures Outcomes(a + b, parse)[k] == (Outcomes(a, parse) + Outcomes(b, parse))[k]
    {
      if k < |a| {
        assert (a + b)[k] == a[k];
      } else {
        assert (a + b)[k] == b[k - |a|];
      }
    }
  }

  /** When every line yields a record, there is one record per line, in line order. */
  lemma {:induction false} RecordsAllMatched(rs: seq<Option<Record>>, xs: seq<Record>)
    requires |rs| == |xs| && forall k :: 0 <= k < |rs| ==> rs[k] == Some(xs[k])
    ensures Records(rs) == xs
  {
    if rs != [] {
      RecordsAllMatched(rs[..|rs| - 1], xs[..|xs| - 1]);
      assert xs == xs[..|xs| - 1] + [xs[|xs| - 1]];
    }
  }

  /** An outcome without a record can be removed without changing the records. */
  lemma {:induction false} RecordsSkipNone(ra: seq<Option<Record>>, rb: seq<Option<Record>>)
    ensures Records(ra + [None] + rb) == Records(ra + rb)
  {
    var none: seq<Option<Record>> := [None];
    RecordsAppend(ra + none, rb);
    RecordsAppend(ra, none);
    RecordsAppend(ra, rb);
    assert Records(none) == [] by {
      assert none[..0] == [];
    }
  }

  /** A line that no pattern matches can be removed without changing the records. */
  lemma {:induction false} UnmatchedLineAddsNothing(a: seq<string>, line: string, b: seq<string>)
    requires ParseLine(line).None?
    ensures Records(LineResults(a + [line] + b)) == Records(LineResults(a + b))
  {
    OutcomesAppend(a + [line], b, ParseLine);
    OutcomesAppend(a, [line], ParseLine);
    OutcomesAppend(a, b, ParseLine);
    assert Outcomes([line], ParseLine) == [None];
    RecordsSkipNone(LineResults(a), LineResults(b));
  }

  /** The positions of the outcomes that are records, in increasing order. */
  function Matched(rs: seq<Option<Record>>): (idx: seq<nat>)
    ensures forall j :: 0 <= j < |idx| ==> idx[j] < |rs| && rs[idx[j]].Some?
    ensures forall j, j' :: 0 <= j < j' < |idx| ==> idx[j] < idx[j']
    ensures forall t :: 0 <= t < |rs| && rs[t].Some? ==> t in idx
  {
    if rs == [] then []
    else
      var init := rs[..|rs| - 1];
      assert forall t :: 0 <= t < |init| ==> init[t] == rs[t];
      Matched(init) + (if rs[|rs| - 1].Some? then [|rs| - 1] else [])
  }

  /** Record `j` is the outcome of the `j`-th matching line: records keep line order,
      and lines without a match leave no trace. */
  lemma {:induction false} RecordsFollowOutcomes(rs: seq<Option<Record>>)
    ensures |Records(rs)| == |Matched(rs)|
    ensures forall j :: 0 <= j < |Records(rs)| ==> Records(rs)[j] == rs[Matched(rs)[j]].value
  {
    if rs != [] {
      var init := rs[..|rs| - 1];
      RecordsFollowOutcomes(init);
      assert forall t :: 0 <= t < |init| ==> init[t] == rs[t];
    }
  }

  /** The same for lines: record `j` of a list of lines is what the `j`-th line with a
      match yields. */
  lemma {:induction false} RecordsFollowLines(ls: seq<string>)
    ensures var idx := Matched(LineResults(ls));
      |Records(LineResults(ls))| == |idx|
      && forall j :: 0 <= j < |idx| ==> idx[j] < |ls| && Records(LineResults(ls))[j] == ParseLine(ls[idx[j]]).value
  {
    RecordsFollowOutcomes(LineResults(ls));
  }

  // ---------------------------------------------------------------------------
  // Which lines match, and what a record holds

  /** A line without any digit yields no record: every pattern needs `\d+`. */
  lemma {:induction false} NoDigitNoRecord(line: string)
    requires forall t :: 0 <= t < |line| ==> !IsDigit(line[t])
    ensures ParseLine(line).None?
  {
    match FirstMatch(line)
    case None =>
    case Some((p, m)) =>
      assert false;
  }

  /** In particular, blank lines (empty or only whitespace) yield nothing, and a message
      with no digit at all yields no record. */
  lemma {:induction false} DigitFreeTextHasNoRecords(text: string)
    requires forall c :: c in text ==> !IsDigit(c)
    ensures ParseText(text) == []
  {
    var ls := SplitLines(Strip(text));
    forall k, t | 0 <= k < |ls| && 0 <= t < |ls[k]| ensures !IsDigit(ls[k][t]) {
      assert ls[k][t] in ls[k];
    }
    DigitFreeLinesHaveNoRecords(ls);
  }

  lemma {:induction false} DigitFreeLinesHaveNoRecords(ls: seq<string>)
    requires forall k, t :: 0 <= k < |ls| && 0 <= t < |ls[k]| ==> !IsDigit(ls[k][t])
    ensures Records(LineResults(ls)) == []
  {
    var rs := LineResults(ls);
    forall k | 0 <= k < |ls| ensures rs[k].None? {
      NoDigitNoRecord(ls[k]);
    }
    NoOutcomeNoRecords(rs);
  }

  /** Outcomes that are all empty yield no record. */
  lemma {:induction false} NoOutcomeNoRecords(rs: seq<Option<Record>>)
    requires forall k :: 0 <= k < |rs| ==> rs[k].None?
    ensures Records(rs) == []
  {
    if rs != [] {
      NoOutcomeNoRecords(rs[..|rs| - 1]);
    }
  }

  /** The pattern that decides a line is the first, in the order `=`, `:`, whitespace,
      that has a match, and its match is the leftmost-greedy one; a line yields nothing
      exactly when none of the three patterns matches. */
  lemma {:induction false} FirstMatchMeaning(line: string)
    ensures FirstMatch(line).Some? ==>
      var (p, m) := FirstMatch(line).value;
      IsLeftmostGreedy(line, p, m)
      && exists j :: 0 <= j < |Patterns| && Patterns[j] == p
           && forall j' :: 0 <= j' < j ==> Search(line, Patterns[j']).None?
    ensures ParseLine(line).None? <==> forall j :: 0 <= j < |Patterns| ==> Search(line, Patterns[j]).None?
  {
    if FirstMatch(line).Some? {
      var j := FirstPatternIndexFrom(line, 0);
      SearchIsLeftmostGreedy(line, FirstMatch(line).value.0);
    } else {
      FirstMatchNone(line, 0);
    }
  }

  lemma {:induction false} FirstMatchNone(line: string, i: nat)
    requires i <= |Patterns| && FirstMatchFrom(line, i).None?
    ensures forall j :: i <= j < |Patterns| ==> Search(line, Patterns[j]).None?
    decreases |Patterns| - i
  {
    if i < |Patterns| {
      FirstMatchNone(line, i + 1);
    }
  }

  /** What a match yields: `original_name` is group 1 stripped, so it neither starts nor
      ends with whitespace; the unit is one the pattern allows, so `تکرار` only ever comes
      from the whitespace pattern; and `value` is the decimal value of a whole digit run
      of the line. */
  lemma {:induction false} MakeRecordMeaning(line: string, p: Pattern, m: Span)
    requires CanSplit(line, p, m.start, m.nameEnd)
    ensures var r := MakeRecord(line, p, m);
      r.originalName == Strip(line[m.start..m.nameEnd])
      && (r.originalName == [] || (!IsSpace(r.originalName[0]) && !IsSpace(r.originalName[|r.originalName| - 1])))
      && (r.unit.Some? ==> r.unit.value in Units(p))
      && (r.unit == Some(Rep) ==> p == Spaces)
      && exists d, f :: 0 < d < f <= |line| && AllDigits(line[d..f]) && r.value == DecimalValue(line[d..f])
           && !IsDigit(line[d - 1]) && (f == |line| || !IsDigit(line[f]))
  {
    MakeRecordValue(line, p, m);
  }

  lemma {:induction false} MakeRecordValue(line: string, p: Pattern, m: Span)
    requires CanSplit(line, p, m.start, m.nameEnd)
    ensures exists d, f ::
              0 < d < f <= |line| && AllDigits(line[d..f])
              && MakeRecord(line, p, m).value == DecimalValue(line[d..f])
              && !IsDigit(line[d - 1]) && (f == |line| || !IsDigit(line[f]))
  {
    DigitsAreWholeRun(line, p, m);
    var g := GroupsOf(line, p, m);
    var d := DigitsStart(line, p, m.nameEnd);
    var f := d + |g.digits|;
    assert g.digits == line[d..f];
    assert MakeRecord(line, p, m).value == DecimalValue(line[d..f]);
  }

  /** `name` is the table key the lookup finds for `original_name`, or `original_name`
      itself when the lookup fails; so `name` is a table key exactly when the lookup
      succeeded. */
  lemma {:induction false} NormalizedMeaning(original: string)
    ensures Lookup(original).Some? ==> Normalized(original) == Lookup(original).value
    ensures Lookup(original).None? ==> Normalized(original) == original
    ensures IsKey(Normalized(original)) <==> Lookup(original).Some?
  {
    LookupNoneNotKey(original);
  }

  /** The position in `Patterns` of the pattern `FirstMatchFrom` settles on. */
  lemma {:induction false} FirstPatternIndexFrom(line: string, i: nat) returns (j: nat)
    requires i <= |Patterns| && FirstMatchFrom(line, i).Some?
    ensures i <= j < |Patterns| && Patterns[j] == FirstMatchFrom(line, i).value.0
    ensures forall j' :: i <= j' < j ==> Search(line, Patterns[j']).None?
    decreases |Patterns| - i
  {
    if Search(line, Patterns[i]).Some? {
      j := i;
    } else {
      j := FirstPatternIndexFrom(line, i + 1);
    }
  }

  // ---------------------------------------------------------------------------
  // Lines written as `name=value [unit]`

  /** The text of a line `name=digits`, optionally followed by a space and a unit word. */
  function EqualsLine(name: string, digits: string, unit: Option<Unit>): string {
    name + "=" + digits + (match unit case Some(u) => " " + UnitWord(u) case None => "")
  }

  /** A line `name=digits` or `name=digits unit`, with a name of Persian letters and
      spaces, parses back to its parts: the stripped name, looked up in the table, the
      value of the digits and the unit. */
  lemma {:induction false} ParseEqualsLine(name: string, digits: string, unit: Option<Unit>)
    requires name != [] && forall t :: 0 <= t < |name| ==> IsNameChar(name[t])
    requires digits != [] && AllDigits(digits)
    requires unit != Some(Rep)
    ensures ParseLine(EqualsLine(name, digits, unit))
      == Some(Record(Normalized(Strip(name)), DecimalValue(digits), unit, Strip(name)))
  {
    EqualsLineMatch(name, digits, unit);
    EqualsLineGroups(name, digits, unit);
  }

  /** The `=` pattern matches such a line, with group 1 the whole name. */
  lemma {:induction false} EqualsLineMatch(name: string, digits: string, unit: Option<Unit>)
    requires name != [] && forall t :: 0 <= t < |name| ==> IsNameChar(name[t])
    requires digits != [] && AllDigits(digits)
    ensures CanSplit(EqualsLine(name, digits, unit), EqualsSign, 0, |name|)
    ensures FirstMatch(EqualsLine(name, digits, unit)) == Some((EqualsSign, Span(0, |name|)))
  {
    var s := EqualsLine(name, digits, unit);
    var n := |name|;
    assert s == name + ("=" + digits + (match unit case Some(u) => " " + UnitWord(u) case None => ""));
    assert forall t :: 0 <= t < n ==> s[t] == name[t];
    assert s[n] == '=' && s[n + 1] == digits[0];
    RunEndAt(s, 0, n, Name);
    assert SeparatorAt(s, EqualsSign, n);
    assert LastSeparator(s, EqualsSign, 0, n) == Some(n);
    assert Search(s, EqualsSign) == Some(Span(0, n));
  }

  /** The groups of that match are the name, the digits and the unit. */
  lemma {:induction false} EqualsLineGroups(name: string, digits: string, unit: Option<Unit>)
    requires name != [] && forall t :: 0 <= t < |name| ==> IsNameChar(name[t])
    requires digits != [] && AllDigits(digits)
    requires unit != Some(Rep)
    requires CanSplit(EqualsLine(name, digits, unit), EqualsSign, 0, |name|)
    ensures GroupsOf(EqualsLine(name, digits, unit), EqualsSign, Span(0, |name|)) == Groups(name, digits, unit)
  {
    var s := EqualsLine(name, digits, unit);
    var n, f := |name|, |name| + 1 + |digits|;
    EqualsLineShape(name, digits, unit);
    RunEndAt(s, n + 1, f, Digit);
    match unit
    case None =>
      RunEndAt(s, f, f, Space);
    case Some(u) =>
      UnitAfterDigits(s, f, u);
  }

  /** Where the parts of a line `name=digits [unit]` stand. */
  lemma {:induction false} EqualsLineShape(name: string, digits: string, unit: Option<Unit>)
    ensures var s, n, f := EqualsLine(name, digits, unit), |name|, |name| + 1 + |digits|;
      f <= |s| && s[0..n] == name && s[n + 1..f] == digits
      && (forall t :: n + 1 <= t < f ==> s[t] == digits[t - n - 1])
      && (unit.None? ==> f == |s|)
      && (unit.Some? ==> f < |s| && s[f] == ' ' && s[f + 1..] == UnitWord(unit.value))
  {
    var s, head := EqualsLine(name, digits, unit), name + "=" + digits;
    var n, f := |name|, |head|;
    assert s[..f] == head;
    assert head[0..n] == name && head[n + 1..f] == digits;
    if unit.Some? {
      assert s == head + [' '] + UnitWord(unit.value);
    }
  }

  /** A space and then a unit word the `=` pattern allows: group 3 is that unit. */
  lemma {:induction false} UnitAfterDigits(s: string, f: nat, u: Unit)
    requires u != Rep && f < |s| && s[f] == ' ' && s[f + 1..] == UnitWord(u)
    ensures RunEnd(s, f, Space) == f + 1
    ensures UnitAt(s, f + 1, Units(EqualsSign)) == Some(u)
  {
    var w := UnitWord(u);
    assert s[f + 1] == w[0];
    RunEndAt(s, f, f + 1, Space);
    assert OccursAt(w, s, f + 1) by {
      assert s[f + 1..f + 1 + |w|] == w;
    }
    if u == Second {
      assert !OccursAt(UnitWord(Minute), s, f + 1) by {
        assert s[f + 1] != UnitWord(Minute)[0];
      }
    }
  }
}
