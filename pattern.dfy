/** The three line patterns of `parse_workout` and what `re.search` returns for them.

    Every pattern has the shape  `(NAME+) SEP (\d+) \s* (UNIT)?`  where NAME is the class
    `[؀-ۿ\s]` and SEP is `=`, `:\s*` or `\s+`. Because nothing after the digits can fail,
    a search succeeds at start `i` with group 1 = `s[i..k]` exactly when `s[i..k]` is a
    non-empty run of name characters and SEP followed by a digit can be read at `k`.
    `re.search` reports the leftmost such `i`, and for it the largest such `k` (the
    greedy `+` gives characters back one at a time until the rest matches). The digit
    group and the optional unit are then fixed: the longest digit run, the longest
    whitespace run, and the unit word found there, if any. */
module Pattern {
  import opened Text

  datatype Pattern = EqualsSign | Colon | Spaces

  /** The patterns in the order `parse_workout` tries them. */
  const Patterns: seq<Pattern> := [EqualsSign, Colon, Spaces]

  /** The unit words: `دقیقه` (minute), `ثانیه` (second), `تکرار` (repetition). */
  datatype Unit = Minute | Second | Rep

  function UnitWord(u: Unit): string {
    match u
    case Minute => "دقیقه"
    case Second => "ثانیه"
    case Rep => "تکرار"
  }

  /** The alternatives of group 3, in order: only the whitespace pattern knows `تکرار`. */
  function Units(p: Pattern): seq<Unit> {
    match p
    case Spaces => [Rep, Minute, Second]
    case _ => [Minute, Second]
  }

  /** Group 1 and the separator: which positions can end the name. */

  /** Where the digit group starts when the separator starts at `k`. */
  function DigitsStart(s: string, p: Pattern, k: nat): nat
    requires k < |s|
  {
    match p
    case EqualsSign => k + 1
    case Colon => RunEnd(s, k + 1, Space)
    case Spaces => RunEnd(s, k, Space)
  }

  /** The separator of `p` can be read at `k` and is followed by a digit. */
  predicate SeparatorAt(s: string, p: Pattern, k: nat) {
    k < |s|
    && (match p
        case EqualsSign => s[k] == '='
        case Colon => s[k] == ':'
        case Spaces => IsSpace(s[k]))
    && DigitsStart(s, p, k) < |s|
    && IsDigit(s[DigitsStart(s, p, k)])
  }

  /** `p` matches at start `i` with group 1 equal to `s[i..k]`. */
  predicate CanSplit(s: string, p: Pattern, i: nat, k: nat) {
    i < k <= |s| && AllIn(s, i, k, Name) && SeparatorAt(s, p, k)
  }

  /** Where group 1 starts and ends. */
  datatype Span = Span(start: nat, nameEnd: nat)

  /** The match `re.search` reports: leftmost start, then the longest group 1. */
  ghost predicate IsLeftmostGreedy(s: string, p: Pattern, m: Span) {
    CanSplit(s, p, m.start, m.nameEnd)
    && forall i: nat, k: nat :: CanSplit(s, p, i, k) ==> m.start < i || (m.start == i && k <= m.nameEnd)
  }

  /** The largest `k` in `(i, e]` at which the separator can be read. */
  function LastSeparator(s: string, p: Pattern, i: nat, e: nat): (r: Option<nat>)
    requires i <= e <= |s|
    ensures r.Some? ==> i < r.value <= e && SeparatorAt(s, p, r.value)
    ensures r.Some? ==> forall k :: r.value < k <= e ==> !SeparatorAt(s, p, k)
    ensures r.None? ==> forall k :: i < k <= e ==> !SeparatorAt(s, p, k)
    decreases e
  {
    if e <= i then None
    else if SeparatorAt(s, p, e) then Some(e)
    else LastSeparator(s, p, i, e - 1)
  }

  /** The match found by trying the starts `i`, `i + 1`, ... in turn. */
  function SearchFrom(s: string, p: Pattern, i: nat): (r: Option<Span>)
    ensures r.Some? ==> i <= r.value.start && CanSplit(s, p, r.value.start, r.value.nameEnd)
    decreases |s| - i
  {
    if i >= |s| then None
    else match LastSeparator(s, p, i, RunEnd(s, i, Name))
      case Some(k) => Some(Span(i, k))
      case None => SearchFrom(s, p, i + 1)
  }

  /** `re.search(p, s)`, as far as groups 1 and 2 are concerned. */
  function Search(s: string, p: Pattern): (r: Option<Span>)
    ensures r.Some? ==> CanSplit(s, p, r.value.start, r.value.nameEnd)
  {
    SearchFrom(s, p, 0)
  }

  /** Group 1 can end at `k` exactly when `k` lies inside the name run from `i`. */
  lemma {:induction false} NameRunBound(s: string, i: nat, k: nat)
    requires i < k <= |s|
    ensures AllIn(s, i, k, Name) <==> k <= RunEnd(s, i, Name)
  {
  }

  /** The ends group 1 can have for start `i`: inside the name run, before a separator. */
  lemma {:induction false} SplitsFrom(s: string, p: Pattern, i: nat)
    requires i < |s|
    ensures forall k: nat :: CanSplit(s, p, i, k) <==> i < k <= RunEnd(s, i, Name) && SeparatorAt(s, p, k)
  {
    forall k: nat | i < k <= |s| {
      NameRunBound(s, i, k);
    }
  }

  lemma {:induction false} SearchFromNone(s: string, p: Pattern, i: nat)
    ensures SearchFrom(s, p, i).None? ==> forall i': nat, k: nat :: i <= i' ==> !CanSplit(s, p, i', k)
    decreases |s| - i
  {
    if i < |s| {
      SplitsFrom(s, p, i);
      SearchFromNone(s, p, i + 1);
    }
  }

  lemma {:induction false} SearchFromSome(s: string, p: Pattern, i: nat)
    ensures SearchFrom(s, p, i).Some? ==>
      var m := SearchFrom(s, p, i).value;
      forall i': nat, k: nat :: i <= i' && CanSplit(s, p, i', k) ==> m.start < i' || (m.start == i' && k <= m.nameEnd)
    decreases |s| - i
  {
    if i < |s| {
      SplitsFrom(s, p, i);
      if LastSeparator(s, p, i, RunEnd(s, i, Name)).None? {
        SearchFromSome(s, p, i + 1);
      }
    }
  }

  /** `Search` is the leftmost-greedy match, and it finds nothing only when no start and
      no end of group 1 fit the pattern. */
  lemma {:induction false} SearchIsLeftmostGreedy(s: string, p: Pattern)
    ensures Search(s, p).Some? ==> IsLeftmostGreedy(s, p, Search(s, p).value)
    ensures Search(s, p).None? <==> forall i: nat, k: nat :: !CanSplit(s, p, i, k)
  {
    SearchFromNone(s, p, 0);
    SearchFromSome(s, p, 0);
  }

  /** At most one match is leftmost-greedy. */
  lemma {:induction false} LeftmostGreedyUnique(s: string, p: Pattern, m: Span, m': Span)
    requires IsLeftmostGreedy(s, p, m) && IsLeftmostGreedy(s, p, m')
    ensures m == m'
  {
  }

  /** Let the greedy name group grow from `i` as far as it goes. */
  method ScanNameRun(s: string, i: nat) returns (e: nat)
    requires i <= |s|
    ensures e == RunEnd(s, i, Name)
  {
    e := i;
    while e < |s| && IsNameChar(s[e])
      invariant i <= e <= |s|
      invariant RunEnd(s, e, Name) == RunEnd(s, i, Name)
    {
      e := e + 1;
    }
  }

  /** Give back name characters one at a time until the separator and a digit follow. */
  method Backtrack(s: string, p: Pattern, i: nat, e: nat) returns (r: Option<nat>)
    requires i <= e <= |s|
    ensures r == LastSeparator(s, p, i, e)
  {
    var k := e;
    while k > i && !SeparatorAt(s, p, k)
      invariant i <= k <= e
      invariant LastSeparator(s, p, i, k) == LastSeparator(s, p, i, e)
    {
      k := k - 1;
    }
    r := if k > i then Some(k) else None;
  }

  /** A scan of the line in the manner of `re.search`: try each start in turn, let the
      name group grow as far as it goes, then give characters back until the separator
      and a digit follow. */
  method FindMatch(s: string, p: Pattern) returns (m: Option<Span>)
    ensures m == Search(s, p)
  {
    var i := 0;
    while i < |s|
      invariant i <= |s|
      invariant SearchFrom(s, p, i) == Search(s, p)
    {
      var e := ScanNameRun(s, i);
      var k := Backtrack(s, p, i, e);
      if k.Some? {
        return Some(Span(i, k.value));
      }
      i := i + 1;
    }
    return None;
  }

  /** Groups 2 and 3. */

  /** The first unit of `us` whose word is written at position `g`. */
  function UnitAt(s: string, g: nat, us: seq<Unit>): (u: Option<Unit>)
    requires g <= |s|
    ensures u.Some? ==> u.value in us && OccursAt(UnitWord(u.value), s, g)
    ensures u.None? ==> forall v :: v in us ==> !OccursAt(UnitWord(v), s, g)
  {
    if us == [] then None
    else if OccursAt(UnitWord(us[0]), s, g) then Some(us[0])
    else UnitAt(s, g, us[1..])
  }

  /** What a match yields: group 1 (not yet stripped), the digits of group 2, and group 3. */
  datatype Groups = Groups(name: string, digits: string, unit: Option<Unit>)

  function GroupsOf(s: string, p: Pattern, m: Span): (g: Groups)
    requires CanSplit(s, p, m.start, m.nameEnd)
    ensures g.name == s[m.start..m.nameEnd]
    ensures |g.digits| >= 1 && AllDigits(g.digits)
    ensures g.unit.Some? ==> g.unit.value in Units(p)
  {
    var d := DigitsStart(s, p, m.nameEnd);
    var f := RunEnd(s, d, Digit);
    var ds := s[d..f];
    assert AllDigits(ds) by {
      forall t | 0 <= t < |ds| ensures IsDigit(ds[t]) {
        assert ds[t] == s[d + t];
      }
    }
    Groups(s[m.start..m.nameEnd], ds, UnitAt(s, RunEnd(s, f, Space), Units(p)))
  }

  /** Group 2 is a whole run of digits of the line: it is preceded by the separator and
      followed by a non-digit or the end of the line. */
  lemma {:induction false} DigitsAreWholeRun(s: string, p: Pattern, m: Span)
    requires CanSplit(s, p, m.start, m.nameEnd)
    ensures var d := DigitsStart(s, p, m.nameEnd);
      var f := d + |GroupsOf(s, p, m).digits|;
      0 < d < f <= |s| && GroupsOf(s, p, m).digits == s[d..f]
      && !IsDigit(s[d - 1]) && (f == |s| || !IsDigit(s[f]))
  {
    var k := m.nameEnd;
    var d := DigitsStart(s, p, k);
    if p == Colon && d > k + 1 {
      assert IsSpace(s[d - 1]);
    } else if p == Spaces {
      assert IsSpace(s[d - 1]);
    }
  }
}
