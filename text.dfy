/** The Python string built-ins the analyzer relies on, over `string` = `seq<char>`:
    the character classes `\s` and `\d` of a `str` regular expression, `str.strip()`,
    `str.split('\n')`, the substring test `a in b`, and `int()` of a digit string. */
module Text {

  datatype Option<T> = None | Some(value: T)

  /** `str.isspace()`; in a `str` pattern `\s` matches exactly these characters. */
  predicate IsSpace(c: char) {
    ('\t' <= c <= '\r') || ('\U{001C}' <= c <= '\U{001F}') || c == ' '
    || c == '\U{0085}' || c == '\U{00A0}' || c == '\U{1680}'
    || ('\U{2000}' <= c <= '\U{200A}') || c == '\U{2028}' || c == '\U{2029}'
    || c == '\U{202F}' || c == '\U{205F}' || c == '\U{3000}'
  }

  /** The class `[؀-ۿ\s]` of the exercise-name group: the Arabic block
      (which also holds the Arabic-Indic and Persian digits) or whitespace. */
  predicate IsNameChar(c: char) {
    ('\U{0600}' <= c <= '\U{06FF}') || IsSpace(c)
  }

  /** `\d`, restricted to ASCII, Arabic-Indic and Persian (extended Arabic-Indic) digits. */
  predicate IsDigit(c: char) {
    ('0' <= c <= '9') || ('\U{0660}' <= c <= '\U{0669}') || ('\U{06F0}' <= c <= '\U{06F9}')
  }

  /** The value `int()` gives a single digit character. */
  function DigitValue(c: char): (v: nat)
    requires IsDigit(c)
    ensures v <= 9
  {
    if c <= '9' then c as int - '0' as int
    else if c <= '\U{0669}' then c as int - 0x0660
    else c as int - 0x06F0
  }

  /** The character classes a regular-expression run is made of. */
  datatype CharClass = Space | Name | Digit

  predicate In(c: char, cls: CharClass) {
    match cls
    case Space => IsSpace(c)
    case Name => IsNameChar(c)
    case Digit => IsDigit(c)
  }

  predicate AllIn(s: string, i: nat, k: nat, cls: CharClass)
    requires i <= k <= |s|
  {
    forall t :: i <= t < k ==> In(s[t], cls)
  }

  /** The end of the longest run of `cls` characters that starts at `j`: what a greedy
      `[...]*` consumes from there. */
  function RunEnd(s: string, j: nat, cls: CharClass): (e: nat)
    requires j <= |s|
    ensures j <= e <= |s|
    ensures AllIn(s, j, e, cls)
    ensures e == |s| || !In(s[e], cls)
    decreases |s| - j
  {
    if j < |s| && In(s[j], cls) then RunEnd(s, j + 1, cls) else j
  }

  /** A run of `cls` from `j` that stops at `e` is the longest one. */
  lemma {:induction false} RunEndAt(s: string, j: nat, e: nat, cls: CharClass)
    requires j <= e <= |s| && AllIn(s, j, e, cls) && (e == |s| || !In(s[e], cls))
    ensures RunEnd(s, j, cls) == e
  {
  }

  // ---------------------------------------------------------------------------
  // str.strip()

  function TrimStart(s: string): (r: string)
    ensures |r| <= |s| && r == s[|s| - |r|..]
    ensures forall t :: 0 <= t < |s| - |r| ==> IsSpace(s[t])
    ensures r == [] || !IsSpace(r[0])
  {
    if |s| > 0 && IsSpace(s[0]) then TrimStart(s[1..]) else s
  }

  function TrimEnd(s: string): (r: string)
    ensures |r| <= |s| && r == s[..|r|]
    ensures forall t :: |r| <= t < |s| ==> IsSpace(s[t])
    ensures r == [] || !IsSpace(r[|r| - 1])
  {
    if |s| > 0 && IsSpace(s[|s| - 1]) then TrimEnd(s[..|s| - 1]) else s
  }

  /** `str.strip()`: the text between the leading and the trailing whitespace. */
  function Strip(s: string): (r: string)
    ensures r == [] || (!IsSpace(r[0]) && !IsSpace(r[|r| - 1]))
    ensures r == [] <==> forall t :: 0 <= t < |s| ==> IsSpace(s[t])
    ensures forall c :: c in r ==> c in s
  {
    var r := TrimEnd(TrimStart(s));
    assert r == [] ==> TrimStart(s) == [];
    r
  }

  /** Only whitespace comes before index `a` and from index `b` on. */
  predicate SpaceOutside(s: string, a: nat, b: nat)
    requires a <= b <= |s|
  {
    (forall t :: 0 <= t < a ==> IsSpace(s[t])) && (forall t :: b <= t < |s| ==> IsSpace(s[t]))
  }

  /** The strip is a slice of the text with nothing but whitespace around it. */
  lemma {:induction false} StripIsSlice(s: string)
    ensures exists a, b :: 0 <= a <= b <= |s| && Strip(s) == s[a..b] && SpaceOutside(s, a, b)
  {
    var u := TrimStart(s);
    var r := TrimEnd(u);
    var a, b := |s| - |u|, |s| - |u| + |r|;
    assert Strip(s) == s[a..b] by {
      assert Strip(s) == r;
      assert u == s[a..] && r == u[..|r|];
    }
    assert SpaceOutside(s, a, b) by {
      forall t | b <= t < |s| ensures IsSpace(s[t]) {
        assert |r| <= t - a < |u| && s[t] == u[t - a];
      }
    }
  }

  /** A string that starts and ends with a non-space character is its own strip. */
  lemma {:induction false} StripUnchanged(s: string)
    requires s != [] && !IsSpace(s[0]) && !IsSpace(s[|s| - 1])
    ensures Strip(s) == s
  {
  }

  // ---------------------------------------------------------------------------
  // str.split('\n') and its inverse '\n'.join(...)

  predicate NoNewline(s: string) {
    forall t :: 0 <= t < |s| ==> s[t] != '\n'
  }

  /** The index of the first newline at or after `j`, or `|s|` when there is none. */
  function NewlineFrom(s: string, j: nat): (e: nat)
    requires j <= |s|
    ensures j <= e <= |s|
    ensures forall t :: j <= t < e ==> s[t] != '\n'
    ensures e == |s| || s[e] == '\n'
    decreases |s| - j
  {
    if j < |s| && s[j] != '\n' then NewlineFrom(s, j + 1) else j
  }

  /** `s.split('\n')`: always at least one piece, none of which holds a newline. */
  function SplitLines(s: string): (ls: seq<string>)
    ensures |ls| >= 1
    ensures forall k :: 0 <= k < |ls| ==> NoNewline(ls[k])
    ensures forall k, c :: 0 <= k < |ls| && c in ls[k] ==> c in s
    decreases |s|
  {
    var e := NewlineFrom(s, 0);
    if e == |s| then [s]
    else
      assert forall c :: c in s[..e] ==> c in s;
      assert forall c :: c in s[e + 1..] ==> c in s;
      [s[..e]] + SplitLines(s[e + 1..])
  }

  function JoinLines(ls: seq<string>): string
    requires |ls| >= 1
  {
    if |ls| == 1 then ls[0] else ls[0] + "\n" + JoinLines(ls[1..])
  }

  /** Joining the pieces with newlines gives back the text. */
  lemma {:induction false} JoinSplitLines(s: string)
    ensures JoinLines(SplitLines(s)) == s
    decreases |s|
  {
    var e := NewlineFrom(s, 0);
    if e < |s| {
      JoinSplitLines(s[e + 1..]);
      assert s == s[..e] + "\n" + s[e + 1..];
    }
  }

  /** Splitting newline-free lines joined with newlines gives back the lines. */
  lemma {:induction false} SplitJoinLines(ls: seq<string>)
    requires |ls| >= 1
    requires forall k :: 0 <= k < |ls| ==> NoNewline(ls[k])
    ensures SplitLines(JoinLines(ls)) == ls
    decreases |ls|
  {
    var s := JoinLines(ls);
    if |ls| == 1 {
      assert NewlineFrom(s, 0) == |s|;
    } else {
      var rest := JoinLines(ls[1..]);
      assert s == ls[0] + "\n" + rest;
      assert s[|ls[0]|] == '\n';
      assert forall t :: 0 <= t < |ls[0]| ==> s[t] == ls[0][t];
      assert NewlineFrom(s, 0) == |ls[0]|;
      assert s[..|ls[0]|] == ls[0];
      assert s[|ls[0]| + 1..] == rest;
      SplitJoinLines(ls[1..]);
    }
  }

  // ---------------------------------------------------------------------------
  // Python's substring test `a in b`

  /** `a` occurs in `b` at position `i`. */
  predicate OccursAt(a: string, b: string, i: nat) {
    i + |a| <= |b| && b[i..i + |a|] == a
  }

  function MatchesFrom(a: string, b: string, i: nat, j: nat): bool
    requires i + |a| <= |b| && j <= |a|
    decreases |a| - j
  {
    j == |a| || (b[i + j] == a[j] && MatchesFrom(a, b, i, j + 1))
  }

  function OccursFrom(a: string, b: string, i: nat): bool
    decreases |b| - i
  {
    i + |a| <= |b| && (MatchesFrom(a, b, i, 0) || OccursFrom(a, b, i + 1))
  }

  /** `a in b` for two strings. */
  function IsSubstring(a: string, b: string): bool {
    OccursFrom(a, b, 0)
  }

  lemma {:induction false} MatchesFromMeaning(a: string, b: string, i: nat, j: nat)
    requires i + |a| <= |b| && j <= |a|
    ensures MatchesFrom(a, b, i, j) <==> forall t :: j <= t < |a| ==> b[i + t] == a[t]
    decreases |a| - j
  {
    if j < |a| {
      MatchesFromMeaning(a, b, i, j + 1);
    }
  }

  lemma {:induction false} OccursFromMeaning(a: string, b: string, i: nat)
    ensures OccursFrom(a, b, i) <==> exists p: nat :: i <= p && OccursAt(a, b, p)
    decreases |b| - i
  {
    if i + |a| <= |b| {
      MatchesFromMeaning(a, b, i, 0);
      assert MatchesFrom(a, b, i, 0) <==> OccursAt(a, b, i) by {
        if OccursAt(a, b, i) {
          forall t | 0 <= t < |a| ensures b[i + t] == a[t] {
            assert b[i..i + |a|][t] == b[i + t];
          }
        }
        if MatchesFrom(a, b, i, 0) {
          assert b[i..i + |a|] == a;
        }
      }
      OccursFromMeaning(a, b, i + 1);
      if exists p: nat :: i <= p && OccursAt(a, b, p) {
        var p: nat :| i <= p && OccursAt(a, b, p);
        assert p == i || (i + 1 <= p && OccursAt(a, b, p));
      }
    }
  }

  /** `a in b` holds exactly when `a` occurs somewhere in `b`. */
  lemma {:induction false} IsSubstringMeaning(a: string, b: string)
    ensures IsSubstring(a, b) <==> exists p: nat :: OccursAt(a, b, p)
  {
    OccursFromMeaning(a, b, 0);
  }

  /** The empty string is in every string, and every string is in itself. */
  lemma {:induction false} SubstringBasics(a: string)
    ensures forall b :: IsSubstring([], b)
    ensures IsSubstring(a, a)
  {
    forall b: string ensures IsSubstring([], b) {
      IsSubstringMeaning([], b);
      assert OccursAt([], b, 0);
    }
    IsSubstringMeaning(a, a);
    assert OccursAt(a, a, 0);
  }

  // ---------------------------------------------------------------------------
  // int() of a digit string, and str() of a natural number

  predicate AllDigits(ds: string) {
    forall t :: 0 <= t < |ds| ==> IsDigit(ds[t])
  }

  /** `int(ds)` for a string of decimal digits (leading zeros allowed). */
  function DecimalValue(ds: string): nat
    requires AllDigits(ds)
  {
    if ds == [] then 0 else DecimalValue(ds[..|ds| - 1]) * 10 + DigitValue(ds[|ds| - 1])
  }

  /** `str(n)`: the ASCII decimal numeral of `n`. */
  function AsciiDigits(n: nat): (ds: string)
    ensures |ds| >= 1 && AllDigits(ds)
    ensures forall t :: 0 <= t < |ds| ==> '0' <= ds[t] <= '9'
  {
    if n < 10 then [(n + '0' as int) as char]
    else AsciiDigits(n / 10) + [((n % 10) + '0' as int) as char]
  }

  /** `int(str(n)) == n`. */
  lemma {:induction false} DecimalValueAsciiDigits(n: nat)
    ensures DecimalValue(AsciiDigits(n)) == n
  {
    if n >= 10 {
      var ds := AsciiDigits(n);
      assert ds[..|ds| - 1] == AsciiDigits(n / 10);
      DecimalValueAsciiDigits(n / 10);
    }
  }
}
