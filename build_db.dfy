/**
 * The exercise catalogue builder (src/build_db.py), first half: the fixed
 * configuration, the search-term normaliser, the category classifier, the
 * `KEY=Label` line reader and the loop that turns translation files into raw
 * records keyed by Garmin exercise key.
 *
 * Python's dict keeps insertion order, and the later de-duplication depends on it,
 * so the raw map is a `RawMap`: the keys in order of first sighting plus the map.
 */
module BuildDb {
  import opened Wrappers
  import opened Text

  // ---------------------------------------------------------------------------
  // Configuration

  const Uncategorized: string := "UNCATEGORIZED"

  /** Terms that must not index an exercise of the given category (`TERM_BLACKLIST`). */
  const TermBlacklist: map<string, seq<string>> :=
    map["FLYE" := ["supino", "supino com halteres"], "HIP_RAISE" := ["ponte", "ponte com faixa"]]

  /** The `i`-th entry of `KNOWN_CATEGORIES` as declared. */
  function DeclaredCategoryAt(i: nat): string {
    match i
    case 0 => "BANDED_EXERCISES"
    case 1 => "BATTLE_ROPE"
    case 2 => "BENCH_PRESS"
    case 3 => "BIKE_OUTDOOR"
    case 4 => "CALF_RAISE"
    case 5 => "CARDIO"
    case 6 => "CARRY"
    case 7 => "CHOP"
    case 8 => "CORE"
    case 9 => "CRUNCH"
    case 10 => "CURL"
    case 11 => "DEADLIFT"
    case 12 => "ELLIPTICAL"
    case 13 => "FLOOR_CLIMB"
    case 14 => "FLYE"
    case 15 => "HIP_RAISE"
    case 16 => "HIP_STABILITY"
    case 17 => "HIP_SWING"
    case 18 => "HYPEREXTENSION"
    case 19 => "INDOOR_BIKE"
    case 20 => "LADDER"
    case 21 => "LATERAL_RAISE"
    case 22 => "LEG_CURL"
    case 23 => "LEG_RAISE"
    case 24 => "LUNGE"
    case 25 => "OLYMPIC_LIFT"
    case 26 => "PLANK"
    case 27 => "PLYO"
    case 28 => "POSE"
    case 29 => "PULL_UP"
    case 30 => "PUSH_UP"
    case 31 => "ROW"
    case 32 => "RUN_INDOOR"
    case 33 => "RUN"
    case 34 => "SANDBAG"
    case 35 => "SHOULDER_PRESS"
    case 36 => "SHOULDER_STABILITY"
    case 37 => "SHRUG"
    case 38 => "SIT_UP"
    case 39 => "SLED"
    case 40 => "SLEDGE_HAMMER"
    case 41 => "SQUAT"
    case 42 => "STAIR_STEPPER"
    case 43 => "SUSPENSION"
    case 44 => "TIRE"
    case 45 => "TOTAL_BODY"
    case 46 => "TRICEPS_EXTENSION"
    case 47 => "WARM_UP"
    case 48 => "BIKE"
    case 49 => "SWIM"
    case _ => ""
  }

  /** `KNOWN_CATEGORIES` in declaration order. */
  function DeclaredCategories(): (cs: seq<string>)
    ensures |cs| == 50
  {
    seq(50, i requires 0 <= i < 50 => DeclaredCategoryAt(i))
  }

  /** `USE_ONLY_BR`: only translation files whose name holds `pt_BR` are read. */
  const UseOnlyBr: bool := true

  // ---------------------------------------------------------------------------
  // Search-term normalisation (`sanitize_text`)

  /** A character a normalised search term may hold besides the space. */
  predicate IsTermChar(c: char) { IsLowerLetter(c) || IsDigit(c) }

  /** `re.sub(r'[^a-z0-9\s]', ' ', ...)` on one character. */
  function ScrubChar(c: char): char {
    if IsTermChar(c) || IsSpace(c) then c else ' '
  }

  function Scrub(s: string): (r: string)
    ensures |r| == |s|
    ensures forall i :: 0 <= i < |s| ==> r[i] == ScrubChar(s[i])
  {
    seq(|s|, i requires 0 <= i < |s| => ScrubChar(s[i]))
  }

  /** A search term as the normaliser leaves it: words of `a-z0-9` joined by single spaces. */
  predicate NormalTerm(t: string) {
    SingleSpaced(t) && forall i :: 0 <= i < |t| ==> t[i] == ' ' || IsTermChar(t[i])
  }

  /**
   * `sanitize_text`: transliterate, lower-case, blank out everything but
   * `a-z0-9` and whitespace, and collapse whitespace runs to single spaces.
   * An empty (or missing) text gives "".
   */
  function SanitizeTerm(text: string): string {
    if text == [] then "" else JoinSpace(Words(Scrub(Lower(Fold(Unidecode, text)))))
  }

  /** The normaliser's output holds only `a-z`, `0-9` and single inner spaces. */
  lemma SanitizeTermNormal(text: string)
    ensures NormalTerm(SanitizeTerm(text))
  {
    if text != [] {
      var scrubbed := Scrub(Lower(Fold(Unidecode, text)));
      WordsAreWords(scrubbed, IsTermChar);
      JoinSingleSpaced(Words(scrubbed), IsTermChar);
    }
  }

  /** Normalising a normalised term changes nothing. */
  lemma SanitizeTermIdempotent(text: string)
    ensures SanitizeTerm(SanitizeTerm(text)) == SanitizeTerm(text)
  {
    var t := SanitizeTerm(text);
    if t != [] {
      var ws := Words(Scrub(Lower(Fold(Unidecode, text))));
      assert t == JoinSpace(ws);
      WordsAreWords(Scrub(Lower(Fold(Unidecode, text))), IsTermChar);
      SanitizeTermNormal(text);
      NormalTermFixed(t);
      WordsOfJoin(ws);
    }
  }

  /** Transliterating, lower-casing and scrubbing leave a normal term as it is. */
  lemma NormalTermFixed(t: string)
    requires NormalTerm(t)
    ensures Scrub(Lower(Fold(Unidecode, t))) == t
  {
    assert AllAscii(t);
    FoldAscii(Unidecode, t);
    assert Lower(t) == t;
    assert Scrub(t) == t;
  }

  /**
   * Replacing `_` by a space before normalising (as done for the key-derived
   * term) makes no difference: the normaliser blanks out `_` anyway.
   */
  lemma {:induction false} SanitizeIgnoresUnderscore(text: string)
    ensures SanitizeTerm(ReplaceChar(text, '_', ' ')) == SanitizeTerm(text)
  {
    var r := ReplaceChar(text, '_', ' ');
    if text != [] {
      FoldReplaceUnderscore(text);
      var f := Fold(Unidecode, text);
      assert Scrub(Lower(Fold(Unidecode, r))) == Scrub(Lower(f)) by {
        assert Fold(Unidecode, r) == ReplaceChar(f, '_', ' ');
        forall i | 0 <= i < |f| ensures Scrub(Lower(Fold(Unidecode, r)))[i] == Scrub(Lower(f))[i] {
        }
      }
    }
  }

  lemma {:induction false} FoldReplaceUnderscore(s: string)
    ensures Fold(Unidecode, ReplaceChar(s, '_', ' ')) == ReplaceChar(Fold(Unidecode, s), '_', ' ')
  {
    if s != [] {
      var r := ReplaceChar(s, '_', ' ');
      FoldReplaceUnderscore(s[1..]);
      assert r[1..] == ReplaceChar(s[1..], '_', ' ');
      assert Fold(Unidecode, r) == FoldChar(Unidecode, r[0]) + Fold(Unidecode, r[1..]);
      FoldCharUnderscore(s[0]);
      ReplaceCharAppend(FoldChar(Unidecode, s[0]), Fold(Unidecode, s[1..]), '_', ' ');
    }
  }

  /** Transliterating one character commutes with turning `_` into a space. */
  lemma FoldCharUnderscore(c: char)
    ensures FoldChar(Unidecode, if c == '_' then ' ' else c) == ReplaceChar(FoldChar(Unidecode, c), '_', ' ')
  {
    if c != '_' {
      var f := FoldChar(Unidecode, c);
      assert forall i :: 0 <= i < |f| ==> f[i] != '_';
      assert ReplaceChar(f, '_', ' ') == f;
    }
  }

  lemma ReplaceCharAppend(a: string, b: string, x: char, y: char)
    ensures ReplaceChar(a + b, x, y) == ReplaceChar(a, x, y) + ReplaceChar(b, x, y)
  {
  }

  // ---------------------------------------------------------------------------
  // Category list, longest first (`KNOWN_CATEGORIES.sort(key=len, reverse=True)`)

  predicate LengthDescending(cs: seq<string>) {
    forall i, j :: 0 <= i < j < |cs| ==> |cs[i]| >= |cs[j]|
  }

  /**
   * `KNOWN_CATEGORIES` after the module-level `sort(key=len, reverse=True)`:
   * longest first, Python's stable sort keeping the declaration order among
   * names of one length.
   */
  function KnownCategoryAt(i: nat): string {
    match i
    case 0 => "SHOULDER_STABILITY"
    case 1 => "TRICEPS_EXTENSION"
    case 2 => "BANDED_EXERCISES"
    case 3 => "HYPEREXTENSION"
    case 4 => "SHOULDER_PRESS"
    case 5 => "HIP_STABILITY"
    case 6 => "LATERAL_RAISE"
    case 7 => "SLEDGE_HAMMER"
    case 8 => "STAIR_STEPPER"
    case 9 => "BIKE_OUTDOOR"
    case 10 => "OLYMPIC_LIFT"
    case 11 => "BATTLE_ROPE"
    case 12 => "BENCH_PRESS"
    case 13 => "FLOOR_CLIMB"
    case 14 => "INDOOR_BIKE"
    case 15 => "CALF_RAISE"
    case 16 => "ELLIPTICAL"
    case 17 => "RUN_INDOOR"
    case 18 => "SUSPENSION"
    case 19 => "TOTAL_BODY"
    case 20 => "HIP_RAISE"
    case 21 => "HIP_SWING"
    case 22 => "LEG_RAISE"
    case 23 => "DEADLIFT"
    case 24 => "LEG_CURL"
    case 25 => "PULL_UP"
    case 26 => "PUSH_UP"
    case 27 => "SANDBAG"
    case 28 => "WARM_UP"
    case 29 => "CARDIO"
    case 30 => "CRUNCH"
    case 31 => "LADDER"
    case 32 => "SIT_UP"
    case 33 => "CARRY"
    case 34 => "LUNGE"
    case 35 => "PLANK"
    case 36 => "SHRUG"
    case 37 => "SQUAT"
    case 38 => "CHOP"
    case 39 => "CORE"
    case 40 => "CURL"
    case 41 => "FLYE"
    case 42 => "PLYO"
    case 43 => "POSE"
    case 44 => "SLED"
    case 45 => "TIRE"
    case 46 => "BIKE"
    case 47 => "SWIM"
    case 48 => "ROW"
    case 49 => "RUN"
    case _ => ""
  }

  function KnownCategories(): (cs: seq<string>)
    ensures |cs| == 50
  {
    seq(50, i requires 0 <= i < 50 => KnownCategoryAt(i))
  }

  lemma {:induction false} AdjacentDescending(cs: seq<string>, i: nat)
    requires forall k :: i <= k < |cs| - 1 ==> |cs[k]| >= |cs[k + 1]|
    ensures forall j, k :: i <= j < k < |cs| ==> |cs[j]| >= |cs[k]|
    decreases |cs| - i
  {
    if i + 1 < |cs| {
      AdjacentDescending(cs, i + 1);
      assert forall k :: i + 1 < k < |cs| ==> |cs[i + 1]| >= |cs[k]|;
    }
  }

  /** The sorted list is longest first. */
  lemma KnownCategoriesDescending()
    ensures LengthDescending(KnownCategories())
  {
    var known := KnownCategories();
    KnownLengths();
    forall k | 0 <= k < 49 ensures |known[k]| >= |known[k + 1]| {
      assert known[k] == KnownCategoryAt(k) && known[k + 1] == KnownCategoryAt(k + 1);
    }
    AdjacentDescending(known, 0);
  }

  lemma KnownLengths()
    ensures forall i :: 0 <= i < 49 ==> |KnownCategoryAt(i)| >= |KnownCategoryAt(i + 1)|
  {
    KnownLengthsA();
    KnownLengthsB();
    KnownLengthsC();
    KnownLengthsD();
    KnownLengthsE();
    KnownLengthsF();
    KnownLengthsG();
  }

  lemma KnownLengthsA()
    ensures forall i :: 0 <= i < 7 ==> |KnownCategoryAt(i)| >= |KnownCategoryAt(i + 1)|
  {
    forall i | 0 <= i < 7
      ensures |KnownCategoryAt(i)| >= |KnownCategoryAt(i + 1)|
    {
      match i
      case 0 =>
      case 1 =>
      case 2 =>
      case 3 =>
      case 4 =>
      case 5 =>
      case _ =>
    }
  }

  lemma KnownLengthsB()
    ensures forall i :: 7 <= i < 14 ==> |KnownCategoryAt(i)| >= |KnownCategoryAt(i + 1)|
  {
    forall i | 7 <= i < 14
      ensures |KnownCategoryAt(i)| >= |KnownCategoryAt(i + 1)|
    {
      match i
      case 7 =>
      case 8 =>
      case 9 =>
      case 10 =>
      case 11 =>
      case 12 =>
      case _ =>
    }
  }

  lemma KnownLengthsC()
    ensures forall i :: 14 <= i < 21 ==> |KnownCategoryAt(i)| >= |KnownCategoryAt(i + 1)|
  {
    forall i | 14 <= i < 21
      ensures |KnownCategoryAt(i)| >= |KnownCategoryAt(i + 1)|
    {
      match i
      case 14 =>
      case 15 =>
      case 16 =>
      case 17 =>
      case 18 =>
      case 19 =>
      case _ =>
    }
  }

  lemma KnownLengthsD()
    ensures forall i :: 21 <= i < 28 ==> |KnownCategoryAt(i)| >= |KnownCategoryAt(i + 1)|
  {
    forall i | 21 <= i < 28
      ensures |KnownCategoryAt(i)| >= |KnownCategoryAt(i + 1)|
    {
      match i
      case 21 =>
      case 22 =>
      case 23 =>
      case 24 =>
      case 25 =>
      case 26 =>
      case _ =>
    }
  }

  lemma KnownLengthsE()
    ensures forall i :: 28 <= i < 35 ==> |KnownCategoryAt(i)| >= |KnownCategoryAt(i + 1)|
  {
    forall i | 28 <= i < 35
      ensures |KnownCategoryAt(i)| >= |KnownCategoryAt(i + 1)|
    {
      match i
      case 28 =>
      case 29 =>
      case 30 =>
      case 31 =>
      case 32 =>
      case 33 =>
      case _ =>
    }
  }

  lemma KnownLengthsF()
    ensures forall i :: 35 <= i < 42 ==> |KnownCategoryAt(i)| >= |KnownCategoryAt(i + 1)|
  {
    forall i | 35 <= i < 42
      ensures |KnownCategoryAt(i)| >= |KnownCategoryAt(i + 1)|
    {
      match i
      case 35 =>
      case 36 =>
      case 37 =>
      case 38 =>
      case 39 =>
      case 40 =>
      case _ =>
    }
  }

  lemma KnownLengthsG()
    ensures forall i :: 42 <= i < 49 ==> |KnownCategoryAt(i)| >= |KnownCategoryAt(i + 1)|
  {
    forall i | 42 <= i < 49
      ensures |KnownCategoryAt(i)| >= |KnownCategoryAt(i + 1)|
    {
      match i
      case 42 =>
      case 43 =>
      case 44 =>
      case 45 =>
      case 46 =>
      case 47 =>
      case _ =>
    }
  }

  /** Where each sorted name stands in the declared list. */
  function KnownPosition(i: nat): nat {
    match i
    case 0 => 36
    case 1 => 46
    case 2 => 0
    case 3 => 18
    case 4 => 35
    case 5 => 16
    case 6 => 21
    case 7 => 40
    case 8 => 42
    case 9 => 3
    case 10 => 25
    case 11 => 1
    case 12 => 2
    case 13 => 13
    case 14 => 19
    case 15 => 4
    case 16 => 12
    case 17 => 32
    case 18 => 43
    case 19 => 45
    case 20 => 15
    case 21 => 17
    case 22 => 23
    case 23 => 11
    case 24 => 22
    case 25 => 29
    case 26 => 30
    case 27 => 34
    case 28 => 47
    case 29 => 5
    case 30 => 9
    case 31 => 20
    case 32 => 38
    case 33 => 6
    case 34 => 24
    case 35 => 26
    case 36 => 37
    case 37 => 41
    case 38 => 7
    case 39 => 8
    case 40 => 10
    case 41 => 14
    case 42 => 27
    case 43 => 28
    case 44 => 39
    case 45 => 44
    case 46 => 48
    case 47 => 49
    case 48 => 31
    case 49 => 33
    case _ => 0
  }

  /** Where each declared name stands in the sorted list. */
  function DeclaredPosition(i: nat): nat {
    match i
    case 0 => 2
    case 1 => 11
    case 2 => 12
    case 3 => 9
    case 4 => 15
    case 5 => 29
    case 6 => 33
    case 7 => 38
    case 8 => 39
    case 9 => 30
    case 10 => 40
    case 11 => 23
    case 12 => 16
    case 13 => 13
    case 14 => 41
    case 15 => 20
    case 16 => 5
    case 17 => 21
    case 18 => 3
    case 19 => 14
    case 20 => 31
    case 21 => 6
    case 22 => 24
    case 23 => 22
    case 24 => 34
    case 25 => 10
    case 26 => 35
    case 27 => 42
    case 28 => 43
    case 29 => 25
    case 30 => 26
    case 31 => 48
    case 32 => 17
    case 33 => 49
    case 34 => 27
    case 35 => 4
    case 36 => 0
    case 37 => 36
    case 38 => 32
    case 39 => 44
    case 40 => 7
    case 41 => 37
    case 42 => 8
    case 43 => 18
    case 44 => 45
    case 45 => 19
    case 46 => 1
    case 47 => 28
    case 48 => 46
    case 49 => 47
    case _ => 0
  }

  lemma KnownPositionsMatch()
    ensures forall i :: 0 <= i < 50 ==> KnownPosition(i) < 50 && KnownCategoryAt(i) == DeclaredCategoryAt(KnownPosition(i))
  {
    KnownPositionsA();
    KnownPositionsB();
    KnownPositionsC();
    KnownPositionsD();
    KnownPositionsE();
    KnownPositionsF();
    KnownPositionsG();
    KnownPositionsH();
    KnownPositionsI();
    KnownPositionsJ();
  }

  lemma KnownPositionsA()
    ensures forall i :: 0 <= i < 5 ==> KnownPosition(i) < 50 && KnownCategoryAt(i) == DeclaredCategoryAt(KnownPosition(i))
  {
    forall i | 0 <= i < 5
      ensures KnownPosition(i) < 50 && KnownCategoryAt(i) == DeclaredCategoryAt(KnownPosition(i))
    {
      match i
      case 0 =>
      case 1 =>
      case 2 =>
      case 3 =>
      case _ =>
    }
  }

  lemma KnownPositionsB()
    ensures forall i :: 5 <= i < 10 ==> KnownPosition(i) < 50 && KnownCategoryAt(i) == DeclaredCategoryAt(KnownPosition(i))
  {
    forall i | 5 <= i < 10
      ensures KnownPosition(i) < 50 && KnownCategoryAt(i) == DeclaredCategoryAt(KnownPosition(i))
    {
      match i
      case 5 =>
      case 6 =>
      case 7 =>
      case 8 =>
      case _ =>
    }
  }

  lemma KnownPositionsC()
    ensures forall i :: 10 <= i < 15 ==> KnownPosition(i) < 50 && KnownCategoryAt(i) == DeclaredCategoryAt(KnownPosition(i))
  {
    forall i | 10 <= i < 15
      ensures KnownPosition(i) < 50 && KnownCategoryAt(i) == DeclaredCategoryAt(KnownPosition(i))
    {
      match i
      case 10 =>
      case 11 =>
      case 12 =>
      case 13 =>
      case _ =>
    }
  }

  lemma KnownPositionsD()
    ensures forall i :: 15 <= i < 20 ==> KnownPosition(i) < 50 && KnownCategoryAt(i) == DeclaredCategoryAt(KnownPosition(i))
  {
    forall i | 15 <= i < 20
      ensures KnownPosition(i) < 50 && KnownCategoryAt(i) == DeclaredCategoryAt(KnownPosition(i))
    {
      match i
      case 15 =>
      case 16 =>
      case 17 =>
      case 18 =>
      case _ =>
    }
  }

  lemma KnownPositionsE()
    ensures forall i :: 20 <= i < 25 ==> KnownPosition(i) < 50 && KnownCategoryAt(i) == DeclaredCategoryAt(KnownPosition(i))
  {
    forall i | 20 <= i < 25
      ensures KnownPosition(i) < 50 && KnownCategoryAt(i) == DeclaredCategoryAt(KnownPosition(i))
    {
      match i
      case 20 =>
      case 21 =>
      case 22 =>
      case 23 =>
      case _ =>
    }
  }

  lemma KnownPositionsF()
    ensures forall i :: 25 <= i < 30 ==> KnownPosition(i) < 50 && KnownCategoryAt(i) == DeclaredCategoryAt(KnownPosition(i))
  {
    forall i | 25 <= i < 30
      ensures KnownPosition(i) < 50 && KnownCategoryAt(i) == DeclaredCategoryAt(KnownPosition(i))
    {
      match i
      case 25 =>
      case 26 =>
      case 27 =>
      case 28 =>
      case _ =>
    }
  }

  lemma KnownPositionsG()
    ensures forall i :: 30 <= i < 35 ==> KnownPosition(i) < 50 && KnownCategoryAt(i) == DeclaredCategoryAt(KnownPosition(i))
  {
    forall i | 30 <= i < 35
      ensures KnownPosition(i) < 50 && KnownCategoryAt(i) == DeclaredCategoryAt(KnownPosition(i))
    {
      match i
      case 30 =>
      case 31 =>
      case 32 =>
      case 33 =>
      case _ =>
    }
  }

  lemma KnownPositionsH()
    ensures forall i :: 35 <= i < 40 ==> KnownPosition(i) < 50 && KnownCategoryAt(i) == DeclaredCategoryAt(KnownPosition(i))
  {
    forall i | 35 <= i < 40
      ensures KnownPosition(i) < 50 && KnownCategoryAt(i) == DeclaredCategoryAt(KnownPosition(i))
    {
      match i
      case 35 =>
      case 36 =>
      case 37 =>
      case 38 =>
      case _ =>
    }
  }

  lemma KnownPositionsI()
    ensures forall i :: 40 <= i < 45 ==> KnownPosition(i) < 50 && KnownCategoryAt(i) == DeclaredCategoryAt(KnownPosition(i))
  {
    forall i | 40 <= i < 45
      ensures KnownPosition(i) < 50 && KnownCategoryAt(i) == DeclaredCategoryAt(KnownPosition(i))
    {
      match i
      case 40 =>
      case 41 =>
      case 42 =>
      case 43 =>
      case _ =>
    }
  }

  lemma KnownPositionsJ()
    ensures forall i :: 45 <= i < 50 ==> KnownPosition(i) < 50 && KnownCategoryAt(i) == DeclaredCategoryAt(KnownPosition(i))
  {
    forall i | 45 <= i < 50
      ensures KnownPosition(i) < 50 && KnownCategoryAt(i) == DeclaredCategoryAt(KnownPosition(i))
    {
      match i
      case 45 =>
      case 46 =>
      case 47 =>
      case 48 =>
      case _ =>
    }
  }

  lemma DeclaredPositionsMatch()
    ensures forall i :: 0 <= i < 50 ==> DeclaredPosition(i) < 50 && DeclaredCategoryAt(i) == KnownCategoryAt(DeclaredPosition(i))
  {
    DeclaredPositionsA();
    DeclaredPositionsB();
    DeclaredPositionsC();
    DeclaredPositionsD();
    DeclaredPositionsE();
    DeclaredPositionsF();
    DeclaredPositionsG();
    DeclaredPositionsH();
    DeclaredPositionsI();
    DeclaredPositionsJ();
  }

  lemma DeclaredPositionsA()
    ensures forall i :: 0 <= i < 5 ==> DeclaredPosition(i) < 50 && DeclaredCategoryAt(i) == KnownCategoryAt(DeclaredPosition(i))
  {
    forall i | 0 <= i < 5
      ensures DeclaredPosition(i) < 50 && DeclaredCategoryAt(i) == KnownCategoryAt(DeclaredPosition(i))
    {
      match i
      case 0 =>
      case 1 =>
      case 2 =>
      case 3 =>
      case _ =>
    }
  }

  lemma DeclaredPositionsB()
    ensures forall i :: 5 <= i < 10 ==> DeclaredPosition(i) < 50 && DeclaredCategoryAt(i) == KnownCategoryAt(DeclaredPosition(i))
  {
    forall i | 5 <= i < 10
      ensures DeclaredPosition(i) < 50 && DeclaredCategoryAt(i) == KnownCategoryAt(DeclaredPosition(i))
    {
      match i
      case 5 =>
      case 6 =>
      case 7 =>
      case 8 =>
      case _ =>
    }
  }

  lemma DeclaredPositionsC()
    ensures forall i :: 10 <= i < 15 ==> DeclaredPosition(i) < 50 && DeclaredCategoryAt(i) == KnownCategoryAt(DeclaredPosition(i))
  {
    forall i | 10 <= i < 15
      ensures DeclaredPosition(i) < 50 && DeclaredCategoryAt(i) == KnownCategoryAt(DeclaredPosition(i))
    {
      match i
      case 10 =>
      case 11 =>
      case 12 =>
      case 13 =>
      case _ =>
    }
  }

  lemma DeclaredPositionsD()
    ensures forall i :: 15 <= i < 20 ==> DeclaredPosition(i) < 50 && DeclaredCategoryAt(i) == KnownCategoryAt(DeclaredPosition(i))
  {
    forall i | 15 <= i < 20
      ensures DeclaredPosition(i) < 50 && DeclaredCategoryAt(i) == KnownCategoryAt(DeclaredPosition(i))
    {
      match i
      case 15 =>
      case 16 =>
      case 17 =>
      case 18 =>
      case _ =>
    }
  }

  lemma DeclaredPositionsE()
    ensures forall i :: 20 <= i < 25 ==> DeclaredPosition(i) < 50 && DeclaredCategoryAt(i) == KnownCategoryAt(DeclaredPosition(i))
  {
    forall i | 20 <= i < 25
      ensures DeclaredPosition(i) < 50 && DeclaredCategoryAt(i) == KnownCategoryAt(DeclaredPosition(i))
    {
      match i
      case 20 =>
      case 21 =>
      case 22 =>
      case 23 =>
      case _ =>
    }
  }

  lemma DeclaredPositionsF()
    ensures forall i :: 25 <= i < 30 ==> DeclaredPosition(i) < 50 && DeclaredCategoryAt(i) == KnownCategoryAt(DeclaredPosition(i))
  {
    forall i | 25 <= i < 30
      ensures DeclaredPosition(i) < 50 && DeclaredCategoryAt(i) == KnownCategoryAt(DeclaredPosition(i))
    {
      match i
      case 25 =>
      case 26 =>
      case 27 =>
      case 28 =>
      case _ =>
    }
  }

  lemma DeclaredPositionsG()
    ensures forall i :: 30 <= i < 35 ==> DeclaredPosition(i) < 50 && DeclaredCategoryAt(i) == KnownCategoryAt(DeclaredPosition(i))
  {
    forall i | 30 <= i < 35
      ensures DeclaredPosition(i) < 50 && DeclaredCategoryAt(i) == KnownCategoryAt(DeclaredPosition(i))
    {
      match i
      case 30 =>
      case 31 =>
      case 32 =>
      case 33 =>
      case _ =>
    }
  }

  lemma DeclaredPositionsH()
    ensures forall i :: 35 <= i < 40 ==> DeclaredPosition(i) < 50 && DeclaredCategoryAt(i) == KnownCategoryAt(DeclaredPosition(i))
  {
    forall i | 35 <= i < 40
      ensures DeclaredPosition(i) < 50 && DeclaredCategoryAt(i) == KnownCategoryAt(DeclaredPosition(i))
    {
      match i
      case 35 =>
      case 36 =>
      case 37 =>
      case 38 =>
      case _ =>
    }
  }

  lemma DeclaredPositionsI()
    ensures forall i :: 40 <= i < 45 ==> DeclaredPosition(i) < 50 && DeclaredCategoryAt(i) == KnownCategoryAt(DeclaredPosition(i))
  {
    forall i | 40 <= i < 45
      ensures DeclaredPosition(i) < 50 && DeclaredCategoryAt(i) == KnownCategoryAt(DeclaredPosition(i))
    {
      match i
      case 40 =>
      case 41 =>
      case 42 =>
      case 43 =>
      case _ =>
    }
  }

  lemma DeclaredPositionsJ()
    ensures forall i :: 45 <= i < 50 ==> DeclaredPosition(i) < 50 && DeclaredCategoryAt(i) == KnownCategoryAt(DeclaredPosition(i))
  {
    forall i | 45 <= i < 50
      ensures DeclaredPosition(i) < 50 && DeclaredCategoryAt(i) == KnownCategoryAt(DeclaredPosition(i))
    {
      match i
      case 45 =>
      case 46 =>
      case 47 =>
      case 48 =>
      case _ =>
    }
  }

  lemma KnownAreDeclared()
    ensures forall i :: 0 <= i < 50 ==> KnownCategories()[i] in DeclaredCategories()
  {
    KnownPositionsMatch();
    var known, declared := KnownCategories(), DeclaredCategories();
    forall i | 0 <= i < 50
      ensures known[i] in declared
    {
      assert declared[KnownPosition(i)] == known[i];
    }
  }

  lemma DeclaredAreKnown()
    ensures forall i :: 0 <= i < 50 ==> DeclaredCategories()[i] in KnownCategories()
  {
    DeclaredPositionsMatch();
    var known, declared := KnownCategories(), DeclaredCategories();
    forall i | 0 <= i < 50
      ensures declared[i] in known
    {
      assert known[DeclaredPosition(i)] == declared[i];
    }
  }

  /** The sorted list is longest first and holds exactly the declared names. */
  lemma KnownCategoriesFacts()
    ensures LengthDescending(KnownCategories())
    ensures forall c :: c in KnownCategories() <==> c in DeclaredCategories()
  {
    KnownCategoriesDescending();
    KnownAreDeclared();
    DeclaredAreKnown();
    var known, declared := KnownCategories(), DeclaredCategories();
    forall c ensures c in known <==> c in declared {
      if c in known {
        var i :| 0 <= i < 50 && known[i] == c;
      }
      if c in declared {
        var i :| 0 <= i < 50 && declared[i] == c;
      }
    }
  }

  // ---------------------------------------------------------------------------
  // Classification

  datatype Classification = Classification(category: string, internalKey: string)

  /** `full_key.startswith(cat + "_") or full_key == cat`. */
  predicate CategoryMatches(key: string, cat: string) {
    key == cat || StartsWith(key, cat + "_")
  }

  /** The internal key under a matching category: the category itself, or the text after `cat + "_"`. */
  function InternalKey(key: string, cat: string): string
    requires CategoryMatches(key, cat)
  {
    if key == cat then cat
    else
      StartsWithIff(key, cat + "_");
      key[|cat| + 1..]
  }

  /** The first category of `cats` that matches `key`. */
  function ClassifyBy(key: string, cats: seq<string>): Classification
  {
    if cats == [] then Classification(Uncategorized, key)
    else if CategoryMatches(key, cats[0]) then Classification(cats[0], InternalKey(key, cats[0]))
    else ClassifyBy(key, cats[1..])
  }

  /** The classification `parse_files` gives a key. */
  function Classify(key: string): Classification {
    ClassifyBy(key, KnownCategories())
  }

  /** Two categories of the same length cannot both match one key. */
  lemma SameLengthMatchesEqual(key: string, c: string, d: string)
    requires CategoryMatches(key, c) && CategoryMatches(key, d) && |c| == |d|
    ensures c == d
  {
    StartsWithIff(key, c + "_");
    StartsWithIff(key, d + "_");
    if key != c && key != d {
      var head := key[..|c| + 1];
      assert head == c + "_" && head == d + "_";
      assert c == head[..|c|] == d;
    }
  }

  lemma {:induction false} ClassifyBySpec(key: string, cats: seq<string>)
    requires LengthDescending(cats)
    ensures var r := ClassifyBy(key, cats);
      && ((forall c :: c in cats ==> !CategoryMatches(key, c)) ==> r == Classification(Uncategorized, key))
      && ((exists c :: c in cats && CategoryMatches(key, c)) ==>
            && r.category in cats
            && CategoryMatches(key, r.category)
            && r.internalKey == InternalKey(key, r.category)
            && forall c :: c in cats && CategoryMatches(key, c) ==> |c| <= |r.category|)
  {
    if cats != [] && !CategoryMatches(key, cats[0]) {
      assert LengthDescending(cats[1..]);
      ClassifyBySpec(key, cats[1..]);
    }
  }

  /**
   * The classifier picks the longest declared category that matches the key
   * (unique, since two matches of one length coincide), whatever the
   * declaration order; with no match the key is UNCATEGORIZED and is its own
   * internal key.
   */
  lemma ClassifySpec(key: string)
    ensures var r := Classify(key);
      && ((forall c :: c in DeclaredCategories() ==> !CategoryMatches(key, c)) ==>
            r == Classification(Uncategorized, key))
      && ((exists c :: c in DeclaredCategories() && CategoryMatches(key, c)) ==>
            && r.category in DeclaredCategories()
            && CategoryMatches(key, r.category)
            && r.internalKey == InternalKey(key, r.category)
            && forall c :: c in DeclaredCategories() && CategoryMatches(key, c) ==>
                 |c| <= |r.category| && (|c| == |r.category| ==> c == r.category))
  {
    KnownCategoriesFacts();
    ClassifyBySpec(key, KnownCategories());
    var r := Classify(key);
    forall c | c in DeclaredCategories() && CategoryMatches(key, c) && |c| == |r.category|
      ensures c == r.category
    {
      SameLengthMatchesEqual(key, c, r.category);
    }
  }

  /**
   * The classifying loop of `parse_files`: the first category, longest first,
   * that the key equals or starts with followed by `_`.
   */
  method ClassifyKey(key: string, cats: seq<string>) returns (category: string, internalName: string)
    ensures Classification(category, internalName) == ClassifyBy(key, cats)
  {
    category, internalName := Uncategorized, key;
    var i := 0;
    assert cats[i..] == cats;
    while i < |cats|
      invariant 0 <= i <= |cats|
      invariant ClassifyBy(key, cats[i..]) == ClassifyBy(key, cats)
      invariant category == Uncategorized && internalName == key
    {
      var cat := cats[i];
      assert cats[i..][0] == cat && cats[i..][1..] == cats[i + 1..];
      if StartsWith(key, cat + "_") || key == cat {
        category := cat;
        if key == cat {
          internalName := cat;
        } else {
          StartsWithIff(key, cat + "_");
          internalName := key[|cat| + 1..];
        }
        assert Classification(category, internalName) == ClassifyBy(key, cats[i..]);
        return;
      }
      i := i + 1;
    }
    assert cats[i..] == [];
  }

  // ---------------------------------------------------------------------------
  // Blacklist

  /** Some blacklisted term of `category` occurs in the normalised label. */
  predicate Blacklisted(category: string, cleanTerm: string) {
    category in TermBlacklist &&
    exists i :: 0 <= i < |TermBlacklist[category]| && Contains(cleanTerm, TermBlacklist[category][i])
  }

  /** The blacklist loop of `parse_files`, stopping at the first hit. */
  method CheckBlacklist(category: string, cleanTerm: string) returns (isBlacklisted: bool)
    ensures isBlacklisted <==> Blacklisted(category, cleanTerm)
  {
    isBlacklisted := false;
    if category in TermBlacklist {
      var bad := TermBlacklist[category];
      var i := 0;
      while i < |bad|
        invariant 0 <= i <= |bad|
        invariant forall j :: 0 <= j < i ==> !Contains(cleanTerm, bad[j])
      {
        if Contains(cleanTerm, bad[i]) {
          isBlacklisted := true;
          break;
        }
        i := i + 1;
      }
    }
  }

  // ---------------------------------------------------------------------------
  // One line of a translation file

  /** A parsed line: the key and its display name (`label`, a Dafny keyword, is called `title` here). */
  datatype Entry = Entry(key: string, title: string)

  const KeyPrefix: string := "exercise_type_"

  /**
   * One line of a translation file: blank lines, lines without `=`, and
   * `exercise_picker` / `primary_muscle` lines are skipped; the rest splits at
   * the first `=`, every `exercise_type_` is removed from the stripped key, and
   * a line whose stripped label equals that key is skipped too.
   */
  function ParseLine(raw: string): Option<Entry>
  {
    var line := Strip(raw);
    if line == [] || '=' !in line then None
    else if StartsWith(line, "exercise_picker") || StartsWith(line, "primary_muscle") then None
    else
      match SplitFirst(line, '=')
      case None => None
      case Some((k, v)) =>
        var key := RemoveAll(Strip(k), KeyPrefix);
        var title := Strip(v);
        if title == key then None else Some(Entry(key, title))
  }

  /** An entry as Garmin's translation files write it. */
  function FormatLine(e: Entry): string {
    KeyPrefix + e.key + "=" + e.title
  }

  /** A key and label that a translation line can carry unchanged. */
  predicate WritableEntry(e: Entry) {
    && e.key != []
    && !IsSpace(e.key[0]) && !IsSpace(e.key[|e.key| - 1])
    && '=' !in e.key
    && !Contains(e.key, KeyPrefix)
    && (e.title == [] || (!IsSpace(e.title[0]) && !IsSpace(e.title[|e.title| - 1])))
    && e.title != e.key
  }

  /**
   * A line is skipped exactly when, once stripped, it is blank, has no `=`, is
   * a picker or muscle line, or its stripped label equals its key with every
   * `exercise_type_` removed. A skipped line leaves the raw map as it was; any
   * other line leaves its key recorded, with the line's terms in its vocabulary.
   */
  lemma ParseLineSkips(lines: seq<string>, raw: string)
    ensures var line := Strip(raw);
      ParseLine(raw).None? <==>
        || line == [] || '=' !in line
        || StartsWith(line, "exercise_picker") || StartsWith(line, "primary_muscle")
        || (SplitFirst(line, '=').Some? &&
            RemoveAll(Strip(SplitFirst(line, '=').value.0), KeyPrefix) == Strip(SplitFirst(line, '=').value.1))
    ensures ParseLine(raw).None? ==> ParseLines(lines + [raw]) == ParseLines(lines)
    ensures ParseLine(raw).Some? ==>
      var e := ParseLine(raw).value;
      && e.key in ParseLines(lines + [raw]).records
      && SightingOf(e).terms <= ParseLines(lines + [raw]).records[e.key].searchVocab
  {
    var line := Strip(raw);
    SplitFirstSpec(line, '=');
    if '=' in line {
      var k :| 0 <= k < |line| && line[k] == '=';
      assert SplitFirst(line, '=').Some?;
    }
    ParseLinesSnoc(lines, raw);
  }

  /** Reading a formatted line gives back the entry. */
  lemma ParseFormatLine(e: Entry)
    requires WritableEntry(e)
    ensures ParseLine(FormatLine(e)) == Some(e)
  {
    FormattedLineShape(e);
    FormatLineSplit(e);
    FormattedParts(e);
    ParseLineAt(FormatLine(e), KeyPrefix + e.key, e.title);
  }

  /** The two sides of a formatted line are stripped, and the left one loses exactly its prefix. */
  lemma FormattedParts(e: Entry)
    requires WritableEntry(e)
    ensures Strip(KeyPrefix + e.key) == KeyPrefix + e.key
    ensures RemoveAll(KeyPrefix + e.key, KeyPrefix) == e.key
    ensures Strip(e.title) == e.title
  {
    var head := KeyPrefix + e.key;
    assert head[0] == 'e' && head[|head| - 1] == e.key[|e.key| - 1];
    StripNoSpace(head);
    StripNoSpace(e.title);
    RemovePrefix(KeyPrefix, e.key);
  }

  /** A formatted line splits at the `=` that follows the key. */
  lemma FormatLineSplit(e: Entry)
    requires WritableEntry(e)
    ensures SplitFirst(FormatLine(e), '=') == Some((KeyPrefix + e.key, e.title))
  {
    var line := FormatLine(e);
    var head := KeyPrefix + e.key;
    assert line == head + "=" + e.title;
    FormattedLineShape(e);
    assert forall i :: 0 <= i < |head| ==> line[i] == head[i];
    SplitFirstAt(line, '=', |head|);
    assert line[..|head|] == head;
    assert line[|head| + 1..] == e.title;
  }

  /** A stripped line with an `=` and no skipped prefix reads as the stripped text around its first `=`. */
  lemma ParseLineAt(line: string, head: string, title: string)
    requires line != [] && Strip(line) == line && '=' in line
    requires !StartsWith(line, "exercise_picker") && !StartsWith(line, "primary_muscle")
    requires SplitFirst(line, '=') == Some((head, title))
    requires RemoveAll(Strip(head), KeyPrefix) != Strip(title)
    ensures ParseLine(line) == Some(Entry(RemoveAll(Strip(head), KeyPrefix), Strip(title)))
  {
  }

  /** A formatted line is already stripped, holds `=`, and is not a picker or muscle line. */
  lemma FormattedLineShape(e: Entry)
    requires WritableEntry(e)
    ensures var line := FormatLine(e);
      && Strip(line) == line
      && '=' in line
      && !StartsWith(line, "exercise_picker")
      && !StartsWith(line, "primary_muscle")
      && forall i :: 0 <= i < |KeyPrefix + e.key| ==> line[i] != '='
  {
    FormattedLineStripped(e);
    FormattedLineNotSkipped(e);
    FormattedLineHead(e);
  }

  lemma FormattedLineStripped(e: Entry)
    requires WritableEntry(e)
    ensures Strip(FormatLine(e)) == FormatLine(e)
  {
    var line := FormatLine(e);
    assert line == KeyPrefix + e.key + "=" + e.title;
    assert line[0] == 'e';
    assert line[|line| - 1] == if e.title == [] then '=' else e.title[|e.title| - 1];
    StripNoSpace(line);
  }

  lemma FormattedLineNotSkipped(e: Entry)
    requires WritableEntry(e)
    ensures !StartsWith(FormatLine(e), "exercise_picker") && !StartsWith(FormatLine(e), "primary_muscle")
  {
    var line := FormatLine(e);
    assert line == KeyPrefix + e.key + "=" + e.title;
    assert line[0] == 'e' && line[9] == 't';
    assert !MatchesFrom(line, "exercise_picker", 0, 9);
  }

  lemma FormattedLineHead(e: Entry)
    requires WritableEntry(e)
    ensures var line := FormatLine(e);
      && '=' in line
      && forall i :: 0 <= i < |KeyPrefix + e.key| ==> line[i] != '='
  {
    var line := FormatLine(e);
    var head := KeyPrefix + e.key;
    assert line == head + "=" + e.title;
    assert line[|head|] == '=';
    assert forall i :: 0 <= i < |head| ==> line[i] == head[i];
  }

  /** Removing `p` from `p + s` leaves `s` when `s` does not hold `p`. */
  lemma RemovePrefix(p: string, s: string)
    requires |p| > 0 && !Contains(s, p)
    ensures RemoveAll(p + s, p) == s
  {
    var t := p + s;
    MatchesAtSlice(t, p, 0);
    assert t[0..|p|] == p;
    ContainsIff(s, p);
    forall k: nat | |p| <= k ensures !MatchesAt(t, p, k) {
      MatchesAtSlice(t, p, k);
      MatchesAtSlice(s, p, k - |p|);
      if k + |p| <= |t| {
        assert t[k..k + |p|] == s[k - |p|..k];
      }
    }
    ContainsFromIff(t, p, |p|);
    RemoveFromAbsent(t, p, |p|);
    assert t[|p|..] == s;
  }

  // ---------------------------------------------------------------------------
  // Input files (`get_sorted_files`)

  const PrimaryMarker: string := "pt_BR"

  /** `os.path.join` of the raw-data directory and a listed file name. */
  function JoinPath(dir: string, name: string): string {
    dir + "/" + name
  }

  /** A listed name the reader keeps: a `.txt` file, and a `pt_BR` one when only those are wanted. */
  predicate Wanted(name: string, onlyBr: bool) {
    EndsWith(name, ".txt") && (onlyBr ==> Contains(name, PrimaryMarker))
  }

  /** The wanted names of the listing, joined to the directory, in listing order. */
  function Selected(dir: string, names: seq<string>, onlyBr: bool): seq<string> {
    if names == [] then []
    else
      var init := Selected(dir, names[..|names| - 1], onlyBr);
      var name := names[|names| - 1];
      if Wanted(name, onlyBr) then init + [JoinPath(dir, name)] else init
  }

  /** A path read ahead of the others: one that mentions `pt_BR`. */
  predicate IsPrimary(path: string) {
    Contains(path, PrimaryMarker)
  }

  /** The paths with (`keep`) or without the `pt_BR` marker, in their original order. */
  function WithMarker(paths: seq<string>, keep: bool): seq<string> {
    if paths == [] then []
    else
      var init := WithMarker(paths[..|paths| - 1], keep);
      var p := paths[|paths| - 1];
      if IsPrimary(p) == keep then init + [p] else init
  }

  /**
   * The stable sort on the key "0 if pt_BR else 1": the `pt_BR` paths in their
   * order, then the others in theirs.
   */
  function PrimaryFirst(paths: seq<string>): seq<string> {
    WithMarker(paths, true) + WithMarker(paths, false)
  }

  /** `get_sorted_files`: nothing when the directory is missing, else the sorted selection. */
  function SortedFiles(dir: string, listing: Option<seq<string>>, onlyBr: bool): seq<string> {
    match listing
    case None => []
    case Some(names) => PrimaryFirst(Selected(dir, names, onlyBr))
  }

  method GetSortedFiles(dir: string, listing: Option<seq<string>>, onlyBr: bool) returns (files: seq<string>)
    ensures files == SortedFiles(dir, listing, onlyBr)
  {
    if listing.None? {
      return [];
    }
    var names := listing.value;
    var valid: seq<string> := [];
    var i := 0;
    while i < |names|
      invariant 0 <= i <= |names|
      invariant valid == Selected(dir, names[..i], onlyBr)
    {
      assert names[..i + 1][..i] == names[..i];
      var name := names[i];
      if Wanted(name, onlyBr) {
        valid := valid + [JoinPath(dir, name)];
      }
      i := i + 1;
    }
    assert names[..i] == names;
    var primary: seq<string> := [];
    var others: seq<string> := [];
    var j := 0;
    while j < |valid|
      invariant 0 <= j <= |valid|
      invariant primary == WithMarker(valid[..j], true)
      invariant others == WithMarker(valid[..j], false)
    {
      assert valid[..j + 1][..j] == valid[..j];
      if IsPrimary(valid[j]) {
        primary := primary + [valid[j]];
      } else {
        others := others + [valid[j]];
      }
      j := j + 1;
    }
    assert valid[..j] == valid;
    files := primary + others;
  }

  /** A path is selected exactly when it joins a wanted listed name to the directory. */
  lemma {:induction false} SelectedIff(dir: string, names: seq<string>, onlyBr: bool, path: string)
    ensures path in Selected(dir, names, onlyBr) <==>
            exists i :: 0 <= i < |names| && Wanted(names[i], onlyBr) && path == JoinPath(dir, names[i])
  {
    if names != [] {
      var init := names[..|names| - 1];
      SelectedIff(dir, init, onlyBr, path);
      if exists i :: 0 <= i < |names| && Wanted(names[i], onlyBr) && path == JoinPath(dir, names[i]) {
        var i :| 0 <= i < |names| && Wanted(names[i], onlyBr) && path == JoinPath(dir, names[i]);
        if i < |init| {
          assert init[i] == names[i];
        }
      }
      if exists i :: 0 <= i < |init| && Wanted(init[i], onlyBr) && path == JoinPath(dir, init[i]) {
        var i :| 0 <= i < |init| && Wanted(init[i], onlyBr) && path == JoinPath(dir, init[i]);
        assert names[i] == init[i];
      }
    }
  }

  lemma {:induction false} WithMarkerSplit(paths: seq<string>)
    ensures multiset(WithMarker(paths, true)) + multiset(WithMarker(paths, false)) == multiset(paths)
    ensures forall p :: p in WithMarker(paths, true) ==> IsPrimary(p)
    ensures forall p :: p in WithMarker(paths, false) ==> !IsPrimary(p)
  {
    if paths != [] {
      var init := paths[..|paths| - 1];
      WithMarkerSplit(init);
      assert paths == init + [paths[|paths| - 1]];
    }
  }

  /**
   * The sort reorders and drops nothing, and every `pt_BR` path comes before
   * every other path.
   */
  lemma PrimaryFirstSorted(paths: seq<string>)
    ensures multiset(PrimaryFirst(paths)) == multiset(paths)
    ensures forall i, j :: 0 <= i < j < |PrimaryFirst(paths)| && IsPrimary(PrimaryFirst(paths)[j])
              ==> IsPrimary(PrimaryFirst(paths)[i])
  {
    WithMarkerSplit(paths);
    var r, a := PrimaryFirst(paths), WithMarker(paths, true);
    assert forall k :: |a| <= k < |r| ==> r[k] in WithMarker(paths, false);
    assert forall k :: 0 <= k < |a| ==> r[k] in a;
  }

  /** When every path is a `pt_BR` one, the sort leaves the order as it is. */
  lemma PrimaryFirstKeepsPrimaries(paths: seq<string>)
    requires forall p :: p in paths ==> IsPrimary(p)
    ensures PrimaryFirst(paths) == paths
  {
    AllPrimary(paths);
  }

  lemma {:induction false} AllPrimary(paths: seq<string>)
    requires forall p :: p in paths ==> IsPrimary(p)
    ensures WithMarker(paths, true) == paths && WithMarker(paths, false) == []
  {
    if paths != [] {
      var init := paths[..|paths| - 1];
      AllPrimary(init);
      assert paths == init + [paths[|paths| - 1]];
    }
  }

  /**
   * With `USE_ONLY_BR` every selected path is a `pt_BR` one, so the files are
   * read in listing order.
   */
  lemma OnlyBrKeepsListingOrder(dir: string, names: seq<string>)
    ensures SortedFiles(dir, Some(names), UseOnlyBr) == Selected(dir, names, UseOnlyBr)
  {
    var sel := Selected(dir, names, UseOnlyBr);
    forall p | p in sel ensures IsPrimary(p) {
      SelectedIff(dir, names, UseOnlyBr, p);
      var i :| 0 <= i < |names| && Wanted(names[i], UseOnlyBr) && p == JoinPath(dir, names[i]);
      ContainsBehind(dir + "/", names[i], PrimaryMarker);
    }
    PrimaryFirstKeepsPrimaries(sel);
  }

  // ---------------------------------------------------------------------------
  // The raw map (`parse_files`)

  /** One `raw_data_map` record; `title` is its `label`. */
  datatype RawRecord = RawRecord(
    id: string, title: string, category: string, internalKey: string, searchVocab: set<string>)

  /** `raw_data_map`: its keys in insertion order and the records they map to. */
  datatype RawMap = RawMap(order: seq<string>, records: map<string, RawRecord>)

  const EmptyRawMap: RawMap := RawMap([], map[])

  /**
   * The search terms an accepted line adds to its key's record: none when the
   * normalised label holds a blacklisted term of the key's category, otherwise
   * the normalised label and the normalised key.
   */
  function LineTerms(e: Entry): (r: set<string>)
    ensures r == {} <==> Blacklisted(Classify(e.key).category, SanitizeTerm(e.title))
    ensures r != {} ==> r == {SanitizeTerm(e.title), SanitizeTerm(e.key)}
    ensures forall t :: t in r ==> NormalTerm(t)
  {
    var clean := SanitizeTerm(e.title);
    if Blacklisted(Classify(e.key).category, clean) then {}
    else
      SanitizeIgnoresUnderscore(e.key);
      SanitizeTermNormal(e.title);
      SanitizeTermNormal(e.key);
      {clean, SanitizeTerm(ReplaceChar(e.key, '_', ' '))}
  }

  /** What one accepted line contributes: its key, label, the key's classification and the line's terms. */
  datatype Sighting = Sighting(key: string, title: string, category: string, internalKey: string, terms: set<string>)

  function SightingOf(e: Entry): Sighting {
    var c := Classify(e.key);
    Sighting(e.key, e.title, c.category, c.internalKey, LineTerms(e))
  }

  /** A sighting as `SightingOf` produces it: classified by its key, with normalised terms. */
  ghost predicate Genuine(s: Sighting) {
    Classification(s.category, s.internalKey) == Classify(s.key) && forall t :: t in s.terms ==> NormalTerm(t)
  }

  lemma SightingOfGenuine(e: Entry)
    ensures Genuine(SightingOf(e)) && SightingOf(e).key == e.key
  {
  }

  /**
   * One accepted line: a key seen for the first time gets a record with this
   * line's label and classification; either way the line's terms are added to
   * the key's vocabulary.
   */
  function AddSighting(m: RawMap, s: Sighting): RawMap {
    var m1 :=
      if s.key in m.records then m
      else RawMap(m.order + [s.key], m.records[s.key := RawRecord(s.key, s.title, s.category, s.internalKey, {})]);
    var r := m1.records[s.key];
    RawMap(m1.order, m1.records[s.key := r.(searchVocab := r.searchVocab + s.terms)])
  }

  /** The raw map after adding the sightings in order. */
  function BuildRaw(ss: seq<Sighting>): RawMap {
    if ss == [] then EmptyRawMap else AddSighting(BuildRaw(ss[..|ss| - 1]), ss[|ss| - 1])
  }

  /** The entries `read` yields for the lines it does not skip, in line order. */
  function EntriesWith(read: string -> Option<Entry>, lines: seq<string>): seq<Entry> {
    if lines == [] then []
    else
      var init := EntriesWith(read, lines[..|lines| - 1]);
      match read(lines[|lines| - 1])
      case None => init
      case Some(e) => init + [e]
  }

  /** `f` applied to each element. */
  function MapSeq<A, B>(f: A -> B, xs: seq<A>): (ys: seq<B>)
    ensures |ys| == |xs| && forall i :: 0 <= i < |xs| ==> ys[i] == f(xs[i])
  {
    seq(|xs|, i requires 0 <= i < |xs| => f(xs[i]))
  }

  lemma MapSeqAppend<A, B>(f: A -> B, a: seq<A>, b: seq<A>)
    ensures MapSeq(f, a + b) == MapSeq(f, a) + MapSeq(f, b)
  {
  }

  function Sightings(es: seq<Entry>): seq<Sighting> {
    MapSeq(SightingOf, es)
  }

  /** The raw map `parse_files` builds from these lines. */
  function ParseLines(lines: seq<string>): RawMap {
    BuildRaw(Sightings(EntriesWith(ParseLine, lines)))
  }

  /** The lines of all files, file after file. */
  function Flatten(files: seq<seq<string>>): seq<string> {
    if files == [] then [] else Flatten(files[..|files| - 1]) + files[|files| - 1]
  }

  /** The raw map after one more line: unchanged when the line is skipped. */
  function ReadOne(m: RawMap, line: string): RawMap {
    match ParseLine(line)
    case None => m
    case Some(e) => AddSighting(m, SightingOf(e))
  }

  /** Reading one more line adds at most one sighting. */
  lemma BuildSnoc(read: string -> Option<Entry>, see: Entry -> Sighting, lines: seq<string>, line: string)
    ensures var before := BuildRaw(MapSeq(see, EntriesWith(read, lines)));
      BuildRaw(MapSeq(see, EntriesWith(read, lines + [line])))
      == match read(line) case None => before case Some(e) => AddSighting(before, see(e))
  {
    var all := lines + [line];
    assert all[..|all| - 1] == lines && all[|all| - 1] == line;
    var es := EntriesWith(read, lines);
    if read(line).Some? {
      MapSeqAppend(see, es, [read(line).value]);
      var ss := MapSeq(see, es + [read(line).value]);
      assert ss[..|ss| - 1] == MapSeq(see, es);
    }
  }

  lemma ParseLinesSnoc(lines: seq<string>, line: string)
    ensures ParseLines(lines + [line]) == ReadOne(ParseLines(lines), line)
  {
    BuildSnoc(ParseLine, SightingOf, lines, line);
  }

  /** Classification, normalisation and blacklist check of one accepted line. */
  method SightLine(e: Entry) returns (s: Sighting)
    ensures s == SightingOf(e)
  {
    var category, internalName := ClassifyKey(e.key, KnownCategories());
    var clean := SanitizeTerm(e.title);
    var isBlacklisted := CheckBlacklist(category, clean);
    var terms: set<string> := {};
    if !isBlacklisted {
      terms := {clean, SanitizeTerm(ReplaceChar(e.key, '_', ' '))};
    }
    s := Sighting(e.key, e.title, category, internalName, terms);
  }

  /**
   * Storing one accepted line: the downgrade guard, the insertion of a new
   * record and the addition of the line's terms.
   */
  method Record(order: seq<string>, records: map<string, RawRecord>, s: Sighting)
    returns (order': seq<string>, records': map<string, RawRecord>)
    requires WellFormedRaw(RawMap(order, records)) && Genuine(s)
    ensures RawMap(order', records') == AddSighting(RawMap(order, records), s)
  {
    order', records' := order, records;
    var key := s.key;
    // The guard against downgrading a categorised record never fires:
    // the stored category was computed from this very key.
    assert !(key in records' && records'[key].category != Uncategorized && s.category == Uncategorized);
    if key !in records' {
      order' := order' + [key];
      records' := records'[key := RawRecord(key, s.title, s.category, s.internalKey, {})];
    }
    var r := records'[key];
    records' := records'[key := r.(searchVocab := r.searchVocab + s.terms)];
  }

  /** The body of `parse_files`' inner loop: one line read into the map. */
  method ReadLine(order: seq<string>, records: map<string, RawRecord>, ghost before: seq<string>, line: string)
    returns (order': seq<string>, records': map<string, RawRecord>)
    requires RawMap(order, records) == ParseLines(before)
    ensures RawMap(order', records') == ParseLines(before + [line])
  {
    ParseLinesWellFormed(before);
    ParseLinesSnoc(before, line);
    order', records' := order, records;
    var entry := ParseLine(line);
    if entry.Some? {
      var s := SightLine(entry.value);
      SightingOfGenuine(entry.value);
      order', records' := Record(order, records, s);
    }
  }

  /** One file's lines read, in order, into the map built from the lines before them. */
  method ReadFile(order: seq<string>, records: map<string, RawRecord>, ghost before: seq<string>, lines: seq<string>)
    returns (order': seq<string>, records': map<string, RawRecord>)
    requires RawMap(order, records) == ParseLines(before)
    ensures RawMap(order', records') == ParseLines(before + lines)
  {
    order', records' := order, records;
    ghost var seen := before;
    for n := 0 to |lines|
      invariant seen == before + lines[..n]
      invariant RawMap(order', records') == ParseLines(seen)
    {
      order', records' := ReadLine(order', records', seen, lines[n]);
      seen := seen + [lines[n]];
      assert lines[..n + 1] == lines[..n] + [lines[n]];
    }
    assert lines[..|lines|] == lines;
  }

  /**
   * `parse_files` over the files' contents (already read into lines), in the
   * order given.
   */
  method ParseFiles(files: seq<seq<string>>) returns (raw: RawMap)
    ensures raw == ParseLines(Flatten(files))
  {
    var order: seq<string> := [];
    var records: map<string, RawRecord> := map[];
    var f := 0;
    while f < |files|
      invariant 0 <= f <= |files|
      invariant RawMap(order, records) == ParseLines(Flatten(files[..f]))
    {
      assert files[..f + 1][..f] == files[..f];
      order, records := ReadFile(order, records, Flatten(files[..f]), files[f]);
      f := f + 1;
    }
    assert files[..f] == files;
    raw := RawMap(order, records);
  }

  // ---------------------------------------------------------------------------
  // What the raw map holds

  /**
   * The reader skips lines without yielding anything; every other line yields
   * its entry, in line order. (`ParseLines` uses `ParseLine` as the reader.)
   */
  lemma {:induction false} EntriesOfLines(read: string -> Option<Entry>, lines: seq<string>, e: Entry)
    ensures e in EntriesWith(read, lines) <==> exists i :: 0 <= i < |lines| && read(lines[i]) == Some(e)
  {
    if lines != [] {
      var init := lines[..|lines| - 1];
      EntriesOfLines(read, init, e);
      if exists i :: 0 <= i < |lines| && read(lines[i]) == Some(e) {
        var i :| 0 <= i < |lines| && read(lines[i]) == Some(e);
        if i < |init| {
          assert init[i] == lines[i];
        }
      }
      if exists i :: 0 <= i < |init| && read(init[i]) == Some(e) {
        var i :| 0 <= i < |init| && read(init[i]) == Some(e);
        assert lines[i] == init[i];
      }
    }
  }

  lemma {:induction false} EntriesAppend(read: string -> Option<Entry>, a: seq<string>, b: seq<string>)
    ensures EntriesWith(read, a + b) == EntriesWith(read, a) + EntriesWith(read, b)
  {
    if b != [] {
      EntriesAppend(read, a, b[..|b| - 1]);
      assert (a + b)[..|a + b| - 1] == a + b[..|b| - 1];
      assert (a + b)[|a + b| - 1] == b[|b| - 1];
    } else {
      assert a + b == a;
    }
  }

  /**
   * The raw map's invariant: its key order lists each key once and exactly the
   * keys of the map; each record carries its own key as id, that key's
   * classification, and normalised terms only.
   */
  ghost predicate WellFormedRaw(m: RawMap) {
    && (forall i, j :: 0 <= i < j < |m.order| ==> m.order[i] != m.order[j])
    && (forall k :: k in m.records <==> k in m.order)
    && (forall k :: k in m.records ==>
          && m.records[k].id == k
          && Classification(m.records[k].category, m.records[k].internalKey) == Classify(k)
          && forall t :: t in m.records[k].searchVocab ==> NormalTerm(t))
  }

  lemma AddSightingWellFormed(m: RawMap, s: Sighting)
    requires WellFormedRaw(m) && Genuine(s)
    ensures WellFormedRaw(AddSighting(m, s))
  {
  }

  lemma {:induction false} BuildRawWellFormed(ss: seq<Sighting>)
    requires forall i :: 0 <= i < |ss| ==> Genuine(ss[i])
    ensures WellFormedRaw(BuildRaw(ss))
  {
    if ss != [] {
      BuildRawWellFormed(ss[..|ss| - 1]);
      AddSightingWellFormed(BuildRaw(ss[..|ss| - 1]), ss[|ss| - 1]);
    }
  }

  /** Whatever lines are read, the raw map is well formed. */
  lemma ParseLinesWellFormed(lines: seq<string>)
    ensures WellFormedRaw(ParseLines(lines))
  {
    var es := EntriesWith(ParseLine, lines);
    forall i | 0 <= i < |es| ensures Genuine(Sightings(es)[i]) {
      SightingOfGenuine(es[i]);
    }
    BuildRawWellFormed(Sightings(es));
  }

  /**
   * Classification depends on the key alone, so the check that keeps a
   * categorised record from being downgraded to UNCATEGORIZED never applies.
   */
  lemma DowngradeGuardIdle(es: seq<Entry>, key: string)
    ensures var m := BuildRaw(Sightings(es));
      !(key in m.records && m.records[key].category != Uncategorized
        && Classify(key).category == Uncategorized)
  {
    forall i | 0 <= i < |es| ensures Genuine(Sightings(es)[i]) {
      SightingOfGenuine(es[i]);
    }
    BuildRawWellFormed(Sightings(es));
  }

  /** A record exists exactly for the keys sighted. */
  lemma {:induction false} RecordIffSighted(ss: seq<Sighting>, key: string)
    ensures key in BuildRaw(ss).records <==> exists i :: 0 <= i < |ss| && ss[i].key == key
  {
    if ss != [] {
      var init := ss[..|ss| - 1];
      RecordIffSighted(init, key);
      if exists i :: 0 <= i < |init| && init[i].key == key {
        var i :| 0 <= i < |init| && init[i].key == key;
        assert ss[i] == init[i];
      }
      if exists i :: 0 <= i < |ss| && ss[i].key == key {
        var i :| 0 <= i < |ss| && ss[i].key == key;
        if i < |init| {
          assert init[i] == ss[i];
        }
      }
    }
  }

  /** Sighting `i` is the first one of `key`. */
  ghost predicate FirstFor(ss: seq<Sighting>, key: string, i: int) {
    0 <= i < |ss| && ss[i].key == key && forall j :: 0 <= j < i ==> ss[j].key != key
  }

  /** The record carries the key as id and the sighting's label and classification. */
  ghost predicate SameAsSighting(r: RawRecord, key: string, s: Sighting) {
    r.id == key && r.title == s.title && r.category == s.category && r.internalKey == s.internalKey
  }

  /** A key's label, category and internal key come from its first sighting. */
  lemma {:induction false} RecordIsFirstSighting(ss: seq<Sighting>, key: string)
    requires key in BuildRaw(ss).records
    ensures exists i :: FirstFor(ss, key, i) && SameAsSighting(BuildRaw(ss).records[key], key, ss[i])
  {
    var init := ss[..|ss| - 1];
    var m := BuildRaw(init);
    if key in m.records {
      RecordIsFirstSighting(init, key);
      var i :| FirstFor(init, key, i) && SameAsSighting(m.records[key], key, init[i]);
      assert forall j :: 0 <= j <= i ==> ss[j] == init[j];
      assert FirstFor(ss, key, i);
    } else {
      RecordIffSighted(init, key);
      var i := |ss| - 1;
      forall j | 0 <= j < i ensures ss[j].key != key {
        assert ss[j] == init[j];
      }
      assert FirstFor(ss, key, i);
    }
  }

  /** A key's vocabulary is the union of the terms of all its sightings. */
  lemma {:induction false} VocabIsUnion(ss: seq<Sighting>, key: string, t: string)
    requires key in BuildRaw(ss).records
    ensures t in BuildRaw(ss).records[key].searchVocab <==>
            exists i :: 0 <= i < |ss| && ss[i].key == key && t in ss[i].terms
  {
    var init := ss[..|ss| - 1];
    var last := ss[|ss| - 1];
    var m := BuildRaw(init);
    var inInit := key in m.records && t in m.records[key].searchVocab;
    assert inInit <==> exists i :: 0 <= i < |init| && init[i].key == key && t in init[i].terms by {
      if key in m.records {
        VocabIsUnion(init, key, t);
      } else {
        RecordIffSighted(init, key);
      }
    }
    assert t in BuildRaw(ss).records[key].searchVocab <==> inInit || (last.key == key && t in last.terms);
    if exists i :: 0 <= i < |ss| && ss[i].key == key && t in ss[i].terms {
      var i :| 0 <= i < |ss| && ss[i].key == key && t in ss[i].terms;
      if i < |init| {
        assert init[i] == ss[i];
      }
    }
    if inInit {
      var i :| 0 <= i < |init| && init[i].key == key && t in init[i].terms;
      assert ss[i] == init[i];
    }
  }

  /**
   * id, label, category and internal key are fixed at a key's first sighting:
   * later sightings only add search terms.
   */
  lemma {:induction false} FirstSightingFixed(a: seq<Sighting>, b: seq<Sighting>, key: string)
    requires key in BuildRaw(a).records
    ensures key in BuildRaw(a + b).records
    ensures var r, s := BuildRaw(a).records[key], BuildRaw(a + b).records[key];
      r.id == s.id && r.title == s.title && r.category == s.category
      && r.internalKey == s.internalKey && r.searchVocab <= s.searchVocab
  {
    if b != [] {
      var b' := b[..|b| - 1];
      FirstSightingFixed(a, b', key);
      assert (a + b)[..|a + b| - 1] == a + b';
      assert (a + b)[|a + b| - 1] == b[|b| - 1];
    } else {
      assert a + b == a;
    }
  }

  lemma {:induction false} FlattenAppend(xs: seq<seq<string>>, ys: seq<seq<string>>)
    ensures Flatten(xs + ys) == Flatten(xs) + Flatten(ys)
  {
    if ys != [] {
      FlattenAppend(xs, ys[..|ys| - 1]);
      assert (xs + ys)[..|xs + ys| - 1] == xs + ys[..|ys| - 1];
    } else {
      assert xs + ys == xs;
    }
  }

  /**
   * When the `pt_BR` files are read first, a key they define takes its label
   * from them, whatever later files say.
   */
  lemma TitleFromPrimaryFiles(primary: seq<seq<string>>, others: seq<seq<string>>, key: string)
    requires key in ParseLines(Flatten(primary)).records
    ensures key in ParseLines(Flatten(primary + others)).records
    ensures ParseLines(Flatten(primary + others)).records[key].title
         == ParseLines(Flatten(primary)).records[key].title
  {
    FlattenAppend(primary, others);
    var a, b := EntriesWith(ParseLine, Flatten(primary)), EntriesWith(ParseLine, Flatten(others));
    EntriesAppend(ParseLine, Flatten(primary), Flatten(others));
    MapSeqAppend(SightingOf, a, b);
    FirstSightingFixed(Sightings(a), Sightings(b), key);
  }
}
