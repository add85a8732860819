/** The analyzer's exercise table and the name lookup `_find_exercise`. */
module Catalog {
  import opened Text

  /** The `type` field: strength (`قدرتی`) or aerobic (`هوازی`). */
  datatype ExType = Strength | Aerobic

  /** The `category` field: core (`مرکزی`), upper body (`بالاتنه`),
      lower body (`پایین تنه`) or whole body (`تمام بدن`). */
  datatype Category = Core | UpperBody | LowerBody | FullBody

  /** One row of the table. Calorie rates are in tenths of a kilocalorie; each row has
      exactly one of `calories_per_rep` and `calories_per_minute`. */
  datatype Entry = Entry(
    key: string,
    exType: ExType,
    category: Category,
    difficulty: nat,
    perRepTenths: Option<nat>,
    perMinuteTenths: Option<nat>)

  /** The table, in the insertion order that `_find_exercise` iterates. */
  const Table: seq<Entry> := [
    Entry("دراز نشست", Strength, Core, 3, Some(3), None),
    Entry("شنا", Strength, UpperBody, 4, Some(5), None),
    Entry("اسکات", Strength, LowerBody, 5, Some(8), None),
    Entry("طناب", Aerobic, FullBody, 6, None, Some(100)),
    Entry("برپی", Aerobic, FullBody, 8, Some(15), None),
    Entry("لانگز", Strength, LowerBody, 4, Some(7), None),
    Entry("پلانک", Strength, Core, 5, None, Some(50)),
    Entry("دوچرخه", Aerobic, LowerBody, 5, None, Some(80)),
    Entry("کرانچ", Strength, Core, 2, Some(2), None),
    Entry("پشت بازو", Strength, UpperBody, 3, Some(4), None)
  ]

  /** `name in self.exercise_database`. */
  predicate IsKey(name: string) {
    exists j :: 0 <= j < |Table| && Table[j].key == name
  }

  /** `self.exercise_database[name]`, or None for a name that is not a key. */
  function Get(name: string): (e: Option<Entry>)
    ensures e.Some? <==> IsKey(name)
    ensures e.Some? ==> e.value.key == name && e.value in Table
  {
    GetFrom(name, 0)
  }

  function GetFrom(name: string, j: nat): (e: Option<Entry>)
    requires j <= |Table|
    ensures e.Some? <==> exists j' :: j <= j' < |Table| && Table[j'].key == name
    ensures e.Some? ==> e.value.key == name && e.value in Table
    decreases |Table| - j
  {
    if j == |Table| then None
    else if Table[j].key == name then Some(Table[j])
    else GetFrom(name, j + 1)
  }

  /** The condition `_find_exercise` tests for each key: `exercise in name or name in exercise`. */
  predicate Related(key: string, name: string) {
    IsSubstring(key, name) || IsSubstring(name, key)
  }

  /** The first key, from index `j` on, related to `name`. */
  function FirstRelatedFrom(name: string, j: nat): Option<string>
    requires j <= |Table|
    decreases |Table| - j
  {
    if j == |Table| then None
    else if Related(Table[j].key, name) then Some(Table[j].key)
    else FirstRelatedFrom(name, j + 1)
  }

  /** What `_find_exercise(name)` returns. */
  function Lookup(name: string): Option<string> {
    FirstRelatedFrom(name, 0)
  }

  /** `_find_exercise`: walk the table in order and return the first key related to `name`. */
  method FindExercise(name: string) returns (found: Option<string>)
    ensures found == Lookup(name)
  {
    var j := 0;
    while j < |Table|
      invariant 0 <= j <= |Table|
      invariant FirstRelatedFrom(name, j) == Lookup(name)
    {
      if Related(Table[j].key, name) {
        return Some(Table[j].key);
      }
      j := j + 1;
    }
    return None;
  }

  lemma {:induction false} FirstRelatedFromSome(name: string, j: nat)
    requires j <= |Table| && FirstRelatedFrom(name, j).Some?
    ensures exists i :: FirstFrom(name, j, i)
    decreases |Table| - j
  {
    if Related(Table[j].key, name) {
      assert FirstRelatedFrom(name, j) == Some(Table[j].key);
      assert FirstFrom(name, j, j);
    } else {
      FirstRelatedSkip(name, j);
      FirstRelatedFromSome(name, j + 1);
      var i :| FirstFrom(name, j + 1, i);
      assert FirstFrom(name, j, i);
    }
  }

  /** Row `i` holds the key `FirstRelatedFrom(name, j)` finds. */
  predicate FirstFrom(name: string, j: nat, i: nat)
    requires j <= |Table|
  {
    j <= i < |Table| && FirstRelatedFrom(name, j) == Some(Table[i].key)
    && Related(Table[i].key, name)
    && forall i' :: j <= i' < i ==> !Related(Table[i'].key, name)
  }

  lemma {:induction false} FirstRelatedFromNone(name: string, j: nat)
    requires j <= |Table| && FirstRelatedFrom(name, j).None?
    ensures forall i :: j <= i < |Table| ==> !Related(Table[i].key, name)
    decreases |Table| - j
  {
    if j < |Table| {
      FirstRelatedSkip(name, j);
      FirstRelatedFromNone(name, j + 1);
    }
  }

  lemma FirstRelatedSkip(name: string, j: nat)
    requires j < |Table| && !Related(Table[j].key, name)
    ensures FirstRelatedFrom(name, j) == FirstRelatedFrom(name, j + 1)
  {
  }

  /** The lookup picks the first key, in table order, that contains the name or that
      the name contains, and finds nothing only when no key is related to the name. */
  lemma {:induction false} LookupIsFirstRelated(name: string)
    ensures Lookup(name).Some? ==>
      exists i :: 0 <= i < |Table| && Table[i].key == Lookup(name).value
        && Related(Table[i].key, name)
        && forall i' :: 0 <= i' < i ==> !Related(Table[i'].key, name)
    ensures Lookup(name).None? <==> forall i :: 0 <= i < |Table| ==> !Related(Table[i].key, name)
  {
    if Lookup(name).Some? {
      FirstRelatedFromSome(name, 0);
    } else {
      FirstRelatedFromNone(name, 0);
    }
  }

  /** A lookup finds a key whenever the name is a key itself, so a name the lookup
      cannot resolve is never a key of the table. */
  lemma {:induction false} LookupNoneNotKey(name: string)
    ensures Lookup(name).None? ==> !IsKey(name)
    ensures Lookup(name).Some? ==> IsKey(Lookup(name).value)
  {
    LookupIsFirstRelated(name);
    if Lookup(name).None? && IsKey(name) {
      var j :| 0 <= j < |Table| && Table[j].key == name;
      SubstringBasics(name);
      assert false;
    }
  }

  /** The empty name is contained in every key, so it resolves to the first key. */
  lemma LookupEmptyName()
    ensures Lookup([]) == Some("دراز نشست")
  {
    SubstringBasics([]);
  }

  /** A key resolves to itself when no key listed before it is related to it. */
  lemma LookupSelf(j: nat)
    requires j < |Table|
    requires forall i :: 0 <= i < j ==> !Related(Table[i].key, Table[j].key)
    ensures Lookup(Table[j].key) == Some(Table[j].key)
  {
    var name := Table[j].key;
    SubstringBasics(name);
    assert Related(Table[j].key, name);
    LookupIsFirstRelated(name);
    var i :| 0 <= i < |Table| && Table[i].key == Lookup(name).value
      && Related(Table[i].key, name)
      && forall i' :: 0 <= i' < i ==> !Related(Table[i'].key, name);
    KeysDistinct();
  }

  /** The first four keys each resolve to themselves: none of them contains, or is
      contained in, a key listed before it. */
  lemma LookupFirstKeys()
    ensures forall j :: 0 <= j < 4 ==> Lookup(Table[j].key) == Some(Table[j].key)
  {
    LookupSelf(0);
    assert !Related(Table[0].key, Table[1].key);
    LookupSelf(1);
    LookupThirdKey();
    LookupFourthKey();
  }

  lemma LookupThirdKey()
    ensures Lookup(Table[2].key) == Some(Table[2].key)
  {
    assert !Related(Table[0].key, Table[2].key) && !Related(Table[1].key, Table[2].key);
    LookupSelf(2);
  }

  lemma LookupFourthKey()
    ensures Lookup(Table[3].key) == Some(Table[3].key)
  {
    assert !Related(Table[0].key, Table[3].key);
    assert !Related(Table[1].key, Table[3].key);
    assert !Related(Table[2].key, Table[3].key);
    LookupSelf(3);
  }

  /** The keys are pairwise distinct. */
  lemma KeysDistinct()
    ensures forall i, j :: 0 <= i < j < |Table| ==> Table[i].key != Table[j].key
  {
  }

  /** Looking a key up in the table gives its own row. */
  lemma GetKey(j: nat)
    requires j < |Table|
    ensures Get(Table[j].key) == Some(Table[j])
  {
    KeysDistinct();
    var e := Get(Table[j].key).value;
    var i :| 0 <= i < |Table| && Table[i] == e;
  }

  /** Every row carries exactly one calorie rate. */
  lemma OneRatePerEntry()
    ensures forall j :: 0 <= j < |Table| ==> Table[j].perRepTenths.Some? != Table[j].perMinuteTenths.Some?
  {
  }
}
