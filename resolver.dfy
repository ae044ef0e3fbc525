/**
 * The free-text exercise resolver of src/utils.py: `sanitize_text` cleans a
 * CSV cell, and `get_exercise_data` returns the entry of the first keyword of
 * `EXERCISE_DB`, in declaration order, that occurs in the cleaned, lower-cased
 * name, or CARRY/CARRY when none does.
 */
module Resolver {
  import opened Wrappers
  import opened Text
  import opened ExerciseDb

  /** A CSV cell as the script sees it: a `str`, or any other value together with its `str()`. */
  datatype Cell = Str(s: string) | NonStr(shown: string)

  /** `sanitize_text`: a non-`str` is returned as its `str()`; a `str` is transliterated, stripped and upper-cased. */
  function SanitizeText(t: Cell): string {
    match t
    case NonStr(shown) => shown
    case Str(s) => Upper(Strip(Fold(Nfkd, s)))
  }

  /** The fallback of `get_exercise_data`. */
  function Carry(): ExerciseData {
    ExerciseData("CARRY", "CARRY")
  }

  /** The position of the first row whose key occurs in `s` (the loop over `EXERCISE_DB.items()` with its early return). */
  function FirstMatch(rows: seq<Row>, s: string): (r: Option<nat>)
    ensures r.Some? ==> r.value < |rows| && Contains(s, rows[r.value].key)
    ensures r.Some? ==> forall j :: 0 <= j < r.value ==> !Contains(s, rows[j].key)
    ensures r.None? <==> forall j :: 0 <= j < |rows| ==> !Contains(s, rows[j].key)
  {
    if rows == [] then None
    else if Contains(s, rows[0].key) then Some(0)
    else
      match FirstMatch(rows[1..], s)
      case None => None
      case Some(k) => Some(k + 1)
  }

  /** The entry of the first row whose key occurs in `s`, or CARRY/CARRY. */
  function Lookup(rows: seq<Row>, s: string): ExerciseData {
    match FirstMatch(rows, s)
    case Some(i) => rows[i].data
    case None => Carry()
  }

  /** `get_exercise_data(name)`. */
  function GetExerciseData(name: Cell): ExerciseData {
    Lookup(Table(), Lower(SanitizeText(name)))
  }

  // ---------------------------------------------------------------------------
  // sanitize_text

  /**
   * A cleaned `str` is ASCII, has no whitespace at either end and no lower-case
   * letter; any other value comes back as its `str()`.
   */
  lemma SanitizeTextSpec(t: Cell)
    ensures t.NonStr? ==> SanitizeText(t) == t.shown
    ensures t.Str? ==> var r := SanitizeText(t);
      && AllAscii(r)
      && (r == [] || (!IsSpace(r[0]) && !IsSpace(r[|r| - 1])))
      && forall i :: 0 <= i < |r| ==> !IsLowerLetter(r[i])
  {
    if t.Str? {
      var f := Fold(Nfkd, t.s);
      var m := Strip(f);
      StripSpec(f);
      var a: nat :| TrimmedAt(f, m, a);
      assert forall i :: 0 <= i < |m| ==> m[i] == f[a + i];
      UpperClean(m);
    }
  }

  /** Upper-casing keeps ASCII text ASCII, leaves no small letter and moves no whitespace. */
  lemma UpperClean(m: string)
    requires AllAscii(m)
    ensures AllAscii(Upper(m))
    ensures forall i :: 0 <= i < |m| ==> !IsLowerLetter(Upper(m)[i]) && (IsSpace(Upper(m)[i]) <==> IsSpace(m[i]))
  {
    forall i | 0 <= i < |m|
      ensures IsAscii(Upper(m)[i]) && !IsLowerLetter(Upper(m)[i]) && (IsSpace(Upper(m)[i]) <==> IsSpace(m[i]))
    {
      var c := m[i];
      assert Upper(m)[i] == UpperChar(c);
      if IsLowerLetter(c) {
        assert 'A' <= UpperChar(c) <= 'Z';
      }
    }
  }

  /** Cleaning a cleaned string changes nothing. */
  lemma SanitizeTextIdempotent(s: string)
    ensures SanitizeText(Str(SanitizeText(Str(s)))) == SanitizeText(Str(s))
  {
    var r := SanitizeText(Str(s));
    SanitizeTextSpec(Str(s));
    FoldAscii(Nfkd, r);
    StripNoSpace(r);
    assert Upper(r) == r;
  }

  // ---------------------------------------------------------------------------
  // First-match lookup

  /** The first match is the only row with a match and no match before it. */
  lemma FirstMatchUnique(rows: seq<Row>, s: string, t: nat)
    requires t < |rows| && Contains(s, rows[t].key)
    requires forall j :: 0 <= j < t ==> !Contains(s, rows[j].key)
    ensures FirstMatch(rows, s) == Some(t)
  {
  }

  /**
   * A row whose key contains the key of an earlier row is never returned: any
   * name holding the later key holds the earlier one too.
   */
  lemma Shadowed(rows: seq<Row>, s: string, j: nat, i: nat)
    requires j < i < |rows| && Contains(rows[i].key, rows[j].key)
    ensures FirstMatch(rows, s) != Some(i)
  {
    if FirstMatch(rows, s) == Some(i) {
      ContainsTransitive(s, rows[i].key, rows[j].key);
    }
  }

  /** The lookup returns the entry of the first row whose key occurs in the name. */
  lemma LookupFirst(rows: seq<Row>, s: string, t: nat)
    requires t < |rows| && Contains(s, rows[t].key)
    requires forall j :: 0 <= j < t ==> !Contains(s, rows[j].key)
    ensures Lookup(rows, s) == rows[t].data
  {
    FirstMatchUnique(rows, s, t);
  }

  /** The fallback CARRY/CARRY comes back exactly when no key occurs in the cleaned name. */
  lemma GetExerciseDataCarry(name: Cell)
    ensures GetExerciseData(name) == Carry() <==>
      forall j :: 0 <= j < TableSize ==> !Contains(Lower(SanitizeText(name)), Table()[j].key)
  {
    NoCarryRow();
  }
}
