/**
 * Three names run through `get_exercise_data`, and the keys the table shadows.
 *
 * A key is seen not to occur in a name when it is longer than the name, when
 * it holds a character the name lacks, or when it holds two adjacent characters
 * that are nowhere adjacent in the name. The table is walked block by block.
 */
module ResolverExamples {
  import opened Wrappers
  import opened Text
  import opened ExerciseDb
  import opened Resolver

  /** Every character of `s` is in `chars`. */
  ghost predicate Spelt(s: string, chars: set<char>) {
    forall i :: 0 <= i < |s| ==> s[i] in chars
  }

  /** Every adjacent pair of characters of `s` is in `pairs`. */
  ghost predicate PairsWithin(s: string, pairs: set<(char, char)>) {
    forall i :: 0 <= i && i + 1 < |s| ==> (s[i], s[i + 1]) in pairs
  }

  /** A key longer than the name does not occur in it. */
  lemma LongerKey(s: string, k: string)
    requires |s| < |k|
    ensures !Contains(s, k)
  {
  }

  /** At an occurrence of `k` in `s`, the `m`-th character of `k` is one of `s`'s. */
  lemma OccurrenceSpelt(s: string, chars: set<char>, k: string, at: nat, m: nat)
    requires Spelt(s, chars) && m < |k|
    ensures MatchesAt(s, k, at) ==> k[m] in chars
  {
    if MatchesAt(s, k, at) {
      MatchesAtSlice(s, k, at);
      assert s[at + m] == k[m];
    }
  }

  /** At an occurrence of `k` in `s`, the pair at `m` in `k` is a pair of adjacent characters of `s`. */
  lemma OccurrencePairs(s: string, pairs: set<(char, char)>, k: string, at: nat, m: nat)
    requires PairsWithin(s, pairs) && m + 1 < |k|
    ensures MatchesAt(s, k, at) ==> (k[m], k[m + 1]) in pairs
  {
    if MatchesAt(s, k, at) {
      MatchesAtSlice(s, k, at);
      assert s[at + m] == k[m] && s[at + m + 1] == k[m + 1];
    }
  }

  /** A key with a character outside the name's characters does not occur in it. */
  lemma MissingChar(s: string, chars: set<char>, k: string, m: nat)
    requires Spelt(s, chars) && m < |k| && k[m] !in chars
    ensures !Contains(s, k)
  {
    forall at: nat ensures !MatchesAt(s, k, at) {
      OccurrenceSpelt(s, chars, k, at, m);
    }
    ContainsIff(s, k);
  }

  /** A key with an adjacent pair outside the name's adjacent pairs does not occur in it. */
  lemma MissingPair(s: string, pairs: set<(char, char)>, k: string, m: nat)
    requires PairsWithin(s, pairs) && m + 1 < |k| && (k[m], k[m + 1]) !in pairs
    ensures !Contains(s, k)
  {
    forall at: nat ensures !MatchesAt(s, k, at) {
      OccurrencePairs(s, pairs, k, at, m);
    }
    ContainsIff(s, k);
  }

  /** A key equal to a slice of the name occurs in it. */
  lemma OccursAt(s: string, k: string, at: nat)
    requires at + |k| <= |s| && s[at..at + |k|] == k
    ensures Contains(s, k)
  {
    MatchesAtSlice(s, k, at);
    ContainsIff(s, k);
  }

  /**
   * An ASCII name with no whitespace at its ends is resolved by looking up its
   * lower-cased form: transliteration and `strip` leave it alone, and lower-casing
   * undoes `upper`.
   */
  lemma ResolvesThrough(name: string, s: string)
    requires AllAscii(name) && name != [] && !IsSpace(name[0]) && !IsSpace(name[|name| - 1])
    requires Lower(name) == s
    ensures GetExerciseData(Str(name)) == Lookup(Table(), s)
  {
    FoldAscii(Nfkd, name);
    StripNoSpace(name);
    LowerOfUpper(name);
  }

  // ---------------------------------------------------------------------------
  // Rows that no name can reach: an earlier key occurs in their own key

  /** When row `j`'s key occurs at `at` in the key of a later row `i`, no lookup stops at `i`. */
  lemma ShadowedRow(j: nat, i: nat, at: nat)
    requires j < i < TableSize
    requires at + |Table()[j].key| <= |Table()[i].key|
    requires Table()[i].key[at..at + |Table()[j].key|] == Table()[j].key
    ensures forall s :: FirstMatch(Table(), s) != Some(i)
  {
    OccursAt(Table()[i].key, Table()[j].key, at);
    forall s ensures FirstMatch(Table(), s) != Some(i) {
      Shadowed(Table(), s, j, i);
    }
  }

  /** "agachamento smith" (row 52) holds "agachamento" (row 51). */
  lemma AgachamentoSmithShadowed()
    ensures forall s :: FirstMatch(Table(), s) != Some(52)
  {
    assert Table()[51].key == "agachamento";
    assert Table()[52].key == "agachamento smith";
    ShadowedRow(51, 52, 0);
  }

  /** "agachamento pendulo" (row 53) holds "agachamento" (row 51). */
  lemma AgachamentoPenduloShadowed()
    ensures forall s :: FirstMatch(Table(), s) != Some(53)
  {
    assert Table()[51].key == "agachamento";
    assert Table()[53].key == "agachamento pendulo";
    ShadowedRow(51, 53, 0);
  }

  /** "leg press" (row 58) holds "press" (row 50). */
  lemma LegPressShadowed()
    ensures forall s :: FirstMatch(Table(), s) != Some(58)
  {
    assert Table()[50].key == "press";
    assert Table()[58].key == "leg press";
    ShadowedRow(50, 58, 4);
  }

  /** "leg press 45" (row 59) holds "press" (row 50). */
  lemma LegPress45Shadowed()
    ensures forall s :: FirstMatch(Table(), s) != Some(59)
  {
    assert Table()[50].key == "press";
    assert Table()[59].key == "leg press 45";
    ShadowedRow(50, 59, 4);
  }

  /** "gemeos sentado" (row 73) holds "gemeos" (row 72). */
  lemma GemeosSentadoShadowed()
    ensures forall s :: FirstMatch(Table(), s) != Some(73)
  {
    assert Table()[72].key == "gemeos";
    assert Table()[73].key == "gemeos sentado";
    ShadowedRow(72, 73, 0);
  }

  /** "gemeos em pe" (row 74) holds "gemeos" (row 72). */
  lemma GemeosEmPeShadowed()
    ensures forall s :: FirstMatch(Table(), s) != Some(74)
  {
    assert Table()[72].key == "gemeos";
    assert Table()[74].key == "gemeos em pe";
    ShadowedRow(72, 74, 0);
  }

  /** "lateral polia" (row 79) holds "lateral" (row 78). */
  lemma LateralPoliaShadowed()
    ensures forall s :: FirstMatch(Table(), s) != Some(79)
  {
    assert Table()[78].key == "lateral";
    assert Table()[79].key == "lateral polia";
    ShadowedRow(78, 79, 0);
  }

  /** "elevacao frontal polia" (row 81) holds "elevacao frontal" (row 80). */
  lemma ElevacaoFrontalPoliaShadowed()
    ensures forall s :: FirstMatch(Table(), s) != Some(81)
  {
    assert Table()[80].key == "elevacao frontal";
    assert Table()[81].key == "elevacao frontal polia";
    ShadowedRow(80, 81, 0);
  }

  /** "elevacao frontal cabo" (row 82) holds "elevacao frontal" (row 80). */
  lemma ElevacaoFrontalCaboShadowed()
    ensures forall s :: FirstMatch(Table(), s) != Some(82)
  {
    assert Table()[80].key == "elevacao frontal";
    assert Table()[82].key == "elevacao frontal cabo";
    ShadowedRow(80, 82, 0);
  }

  /** "elevacao frontal halter" (row 83) holds "elevacao frontal" (row 80). */
  lemma ElevacaoFrontalHalterShadowed()
    ensures forall s :: FirstMatch(Table(), s) != Some(83)
  {
    assert Table()[80].key == "elevacao frontal";
    assert Table()[83].key == "elevacao frontal halter";
    ShadowedRow(80, 83, 0);
  }

  /** "puxada face" (row 87) holds "puxada" (row 25). */
  lemma PuxadaFaceShadowed()
    ensures forall s :: FirstMatch(Table(), s) != Some(87)
  {
    assert Table()[25].key == "puxada";
    assert Table()[87].key == "puxada face";
    ShadowedRow(25, 87, 0);
  }

  /** "face pull cabo" (row 88) holds "face pull" (row 85). */
  lemma FacePullCaboShadowed()
    ensures forall s :: FirstMatch(Table(), s) != Some(88)
  {
    assert Table()[85].key == "face pull";
    assert Table()[88].key == "face pull cabo";
    ShadowedRow(85, 88, 0);
  }

  /** "abdominal paralelas" (row 92) holds "abdominal" (row 91). */
  lemma AbdominalParalelasShadowed()
    ensures forall s :: FirstMatch(Table(), s) != Some(92)
  {
    assert Table()[91].key == "abdominal";
    assert Table()[92].key == "abdominal paralelas";
    ShadowedRow(91, 92, 0);
  }

  /** The rows whose key holds an earlier key. */
  function DeadRows(): set<nat> {
    {52, 53, 58, 59, 73, 74, 79, 81, 82, 83, 87, 88, 92}
  }

  /** Whatever the name, the lookup never stops at one of these rows. */
  lemma DeadRowsUnreachable(s: string)
    ensures FirstMatch(Table(), s).Some? ==> FirstMatch(Table(), s).value !in DeadRows()
  {
    AgachamentoSmithShadowed();
    AgachamentoPenduloShadowed();
    LegPressShadowed();
    LegPress45Shadowed();
    GemeosSentadoShadowed();
    GemeosEmPeShadowed();
    LateralPoliaShadowed();
    ElevacaoFrontalPoliaShadowed();
    ElevacaoFrontalCaboShadowed();
    ElevacaoFrontalHalterShadowed();
    PuxadaFaceShadowed();
    FacePullCaboShadowed();
    AbdominalParalelasShadowed();
  }

  // ---------------------------------------------------------------------------
  // "Rosca Scott": the first key

  lemma RoscaScottLookup()
    ensures Lookup(Table(), "rosca scott") == ExerciseData("CURL", "PREACHER_CURL")
  {
    assert Table()[0].key == "rosca scott";
    OccursAt("rosca scott", Table()[0].key, 0);
    LookupFirst(Table(), "rosca scott", 0);
  }

  /** "Rosca Scott" resolves through the table's first key. */
  lemma RoscaScottResolves()
    ensures GetExerciseData(Str("Rosca Scott")) == ExerciseData("CURL", "PREACHER_CURL")
  {
    ResolvesThrough("Rosca Scott", "rosca scott");
    RoscaScottLookup();
  }

  /**
   * Two ASCII words joined by a no-break space resolve as if joined by a plain
   * space ("Rosca\U{a0}Scott" as "Rosca Scott"): NFKD turns the no-break space
   * into a space.
   */
  lemma NoBreakResolves(a: string, b: string)
    requires AllAscii(a) && AllAscii(b)
    ensures GetExerciseData(Str(a + ['\U{a0}'] + b)) == GetExerciseData(Str(a + " " + b))
  {
    FoldNoBreak(a, b);
    FoldAscii(Nfkd, a + " " + b);
  }

  // ---------------------------------------------------------------------------
  // "Cadeira Extensora": no key before row 61 occurs in it

  function CadeiraChars(): set<char> {
    {' ', 'a', 'c', 'd', 'e', 'i', 'n', 'o', 'r', 's', 't', 'x'}
  }

  function CadeiraPairs(): set<(char, char)> {
    {(' ', 'e'), ('a', ' '), ('a', 'd'), ('c', 'a'), ('d', 'e'), ('e', 'i'), ('e', 'n'), ('e', 'x'), ('i', 'r'), ('n', 's'), ('o', 'r'), ('r', 'a'), ('s', 'o'), ('t', 'e'), ('x', 't')}
  }

  lemma CadeiraMisses0To6(s: string)
    requires Spelt(s, CadeiraChars())
    requires PairsWithin(s, CadeiraPairs())
    ensures forall j :: 0 <= j < 4 ==> !Contains(s, PreacherAndCableCurls(j).key)
    ensures forall j :: 4 <= j < 7 ==> !Contains(s, Curls(j).key)
  {
    MissingPair(s, CadeiraPairs(), PreacherAndCableCurls(0).key, 0);
    MissingChar(s, CadeiraChars(), PreacherAndCableCurls(1).key, 0);
    MissingChar(s, CadeiraChars(), PreacherAndCableCurls(2).key, 6);
    MissingChar(s, CadeiraChars(), PreacherAndCableCurls(3).key, 0);
    MissingPair(s, CadeiraPairs(), Curls(4).key, 0);
    MissingChar(s, CadeiraChars(), Curls(5).key, 8);
    MissingChar(s, CadeiraChars(), Curls(6).key, 6);
  }

  lemma CadeiraMisses7To13(s: string)
    requires Spelt(s, CadeiraChars())
    requires PairsWithin(s, CadeiraPairs())
    ensures forall j :: 7 <= j < 10 ==> !Contains(s, BicepsGeneric(j).key)
    ensures forall j :: 10 <= j < 14 ==> !Contains(s, TricepsPulleyAndBench(j).key)
  {
    MissingPair(s, CadeiraPairs(), BicepsGeneric(7).key, 0);
    MissingChar(s, CadeiraChars(), BicepsGeneric(8).key, 0);
    MissingPair(s, CadeiraPairs(), BicepsGeneric(9).key, 0);
    MissingChar(s, CadeiraChars(), TricepsPulleyAndBench(10).key, 5);
    MissingChar(s, CadeiraChars(), TricepsPulleyAndBench(11).key, 5);
    MissingChar(s, CadeiraChars(), TricepsPulleyAndBench(12).key, 5);
    MissingChar(s, CadeiraChars(), TricepsPulleyAndBench(13).key, 5);
  }

  lemma CadeiraMisses14To19(s: string)
    requires Spelt(s, CadeiraChars())
    ensures forall j :: 14 <= j < 17 ==> !Contains(s, TricepsOther(j).key)
    ensures forall j :: 17 <= j < 20 ==> !Contains(s, RearDelts(j).key)
  {
    MissingChar(s, CadeiraChars(), TricepsOther(14).key, 0);
    MissingChar(s, CadeiraChars(), TricepsOther(15).key, 0);
    MissingChar(s, CadeiraChars(), TricepsOther(16).key, 5);
    MissingChar(s, CadeiraChars(), RearDelts(17).key, 0);
    MissingChar(s, CadeiraChars(), RearDelts(18).key, 2);
    MissingChar(s, CadeiraChars(), RearDelts(19).key, 0);
  }

  lemma CadeiraMisses20To25(s: string)
    requires Spelt(s, CadeiraChars())
    ensures forall j :: 20 <= j < 26 ==> !Contains(s, PulleyFront(j).key)
  {
    MissingChar(s, CadeiraChars(), PulleyFront(20).key, 0);
    MissingChar(s, CadeiraChars(), PulleyFront(21).key, 0);
    MissingChar(s, CadeiraChars(), PulleyFront(22).key, 0);
    MissingChar(s, CadeiraChars(), PulleyFront(23).key, 0);
    MissingChar(s, CadeiraChars(), PulleyFront(24).key, 0);
    MissingChar(s, CadeiraChars(), PulleyFront(25).key, 0);
  }

  lemma CadeiraMisses26To31(s: string)
    requires Spelt(s, CadeiraChars())
    ensures forall j :: 26 <= j < 28 ==> !Contains(s, PullDown(j).key)
    ensures forall j :: 28 <= j < 32 ==> !Contains(s, MachineRows(j).key)
  {
    MissingChar(s, CadeiraChars(), PullDown(26).key, 0);
    MissingChar(s, CadeiraChars(), PullDown(27).key, 0);
    MissingChar(s, CadeiraChars(), MachineRows(28).key, 2);
    MissingChar(s, CadeiraChars(), MachineRows(29).key, 2);
    MissingChar(s, CadeiraChars(), MachineRows(30).key, 2);
    MissingChar(s, CadeiraChars(), MachineRows(31).key, 2);
  }

  lemma CadeiraMisses32To39(s: string)
    requires Spelt(s, CadeiraChars())
    requires PairsWithin(s, CadeiraPairs())
    ensures forall j :: 32 <= j < 36 ==> !Contains(s, FreeRows(j).key)
    ensures forall j :: 36 <= j < 40 ==> !Contains(s, BackOther(j).key)
  {
    MissingChar(s, CadeiraChars(), FreeRows(32).key, 2);
    MissingPair(s, CadeiraPairs(), FreeRows(33).key, 0);
    MissingChar(s, CadeiraChars(), FreeRows(34).key, 2);
    MissingChar(s, CadeiraChars(), FreeRows(35).key, 2);
    MissingChar(s, CadeiraChars(), BackOther(36).key, 0);
    MissingChar(s, CadeiraChars(), BackOther(37).key, 0);
    MissingChar(s, CadeiraChars(), BackOther(38).key, 0);
    MissingChar(s, CadeiraChars(), BackOther(39).key, 0);
  }

  lemma CadeiraMisses40To46(s: string)
    requires Spelt(s, CadeiraChars())
    ensures forall j :: 40 <= j < 44 ==> !Contains(s, BenchPresses(j).key)
    ensures forall j :: 44 <= j < 47 ==> !Contains(s, ChestOther(j).key)
  {
    MissingChar(s, CadeiraChars(), BenchPresses(40).key, 1);
    MissingChar(s, CadeiraChars(), BenchPresses(41).key, 1);
    MissingChar(s, CadeiraChars(), BenchPresses(42).key, 1);
    MissingChar(s, CadeiraChars(), BenchPresses(43).key, 1);
    MissingChar(s, CadeiraChars(), ChestOther(44).key, 1);
    MissingChar(s, CadeiraChars(), ChestOther(45).key, 0);
    MissingChar(s, CadeiraChars(), ChestOther(46).key, 2);
  }

  lemma CadeiraMisses47To53(s: string)
    requires Spelt(s, CadeiraChars())
    requires |s| == 17
    ensures forall j :: 47 <= j < 51 ==> !Contains(s, ChestFly(j).key)
    ensures forall j :: 51 <= j < 54 ==> !Contains(s, Squats(j).key)
  {
    MissingChar(s, CadeiraChars(), ChestFly(47).key, 6);
    MissingChar(s, CadeiraChars(), ChestFly(48).key, 0);
    MissingChar(s, CadeiraChars(), ChestFly(49).key, 0);
    MissingChar(s, CadeiraChars(), ChestFly(50).key, 0);
    MissingChar(s, CadeiraChars(), Squats(51).key, 1);
    MissingChar(s, CadeiraChars(), Squats(52).key, 1);
    LongerKey(s, Squats(53).key);
  }

  lemma CadeiraMisses54To60(s: string)
    requires Spelt(s, CadeiraChars())
    ensures forall j :: 54 <= j < 58 ==> !Contains(s, SquatVariants(j).key)
    ensures forall j :: 58 <= j < 61 ==> !Contains(s, LegPress(j).key)
  {
    MissingChar(s, CadeiraChars(), SquatVariants(54).key, 0);
    MissingChar(s, CadeiraChars(), SquatVariants(55).key, 1);
    MissingChar(s, CadeiraChars(), SquatVariants(56).key, 0);
    MissingChar(s, CadeiraChars(), SquatVariants(57).key, 1);
    MissingChar(s, CadeiraChars(), LegPress(58).key, 0);
    MissingChar(s, CadeiraChars(), LegPress(59).key, 0);
    MissingChar(s, CadeiraChars(), LegPress(60).key, 0);
  }

  lemma CadeiraMissesBefore(s: string)
    requires s == "cadeira extensora"
    ensures forall j :: 0 <= j < 61 ==> !Contains(s, Table()[j].key)
  {
    assert Spelt(s, CadeiraChars());
    assert PairsWithin(s, CadeiraPairs());
    CadeiraMisses0To6(s);
    CadeiraMisses7To13(s);
    CadeiraMisses14To19(s);
    CadeiraMisses20To25(s);
    CadeiraMisses26To31(s);
    CadeiraMisses32To39(s);
    CadeiraMisses40To46(s);
    CadeiraMisses47To53(s);
    CadeiraMisses54To60(s);
  }

  lemma CadeiraLookup()
    ensures Lookup(Table(), "cadeira extensora") == ExerciseData("CRUNCH", "LEG_EXTENSIONS")
  {
    var s := "cadeira extensora";
    CadeiraMissesBefore(s);
    assert Table()[61].key == s;
    OccursAt(s, Table()[61].key, 0);
    LookupFirst(Table(), s, 61);
  }

  /** The header's first note holds through the lookup: no earlier key occurs in the name. */
  lemma CadeiraExtensoraResolves()
    ensures GetExerciseData(Str("Cadeira Extensora")) == ExerciseData("CRUNCH", "LEG_EXTENSIONS")
  {
    ResolvesThrough("Cadeira Extensora", "cadeira extensora");
    CadeiraLookup();
  }

  // ---------------------------------------------------------------------------
  // "Leg Press": "press" (row 50) comes before "leg press" (row 58)

  function LegPressChars(): set<char> {
    {' ', 'e', 'g', 'l', 'p', 'r', 's'}
  }

  lemma LegPressMisses0To6(s: string)
    requires Spelt(s, LegPressChars())
    requires |s| == 9
    ensures forall j :: 0 <= j < 4 ==> !Contains(s, PreacherAndCableCurls(j).key)
    ensures forall j :: 4 <= j < 7 ==> !Contains(s, Curls(j).key)
  {
    LongerKey(s, PreacherAndCableCurls(0).key);
    LongerKey(s, PreacherAndCableCurls(1).key);
    LongerKey(s, PreacherAndCableCurls(2).key);
    LongerKey(s, PreacherAndCableCurls(3).key);
    LongerKey(s, Curls(4).key);
    LongerKey(s, Curls(5).key);
    LongerKey(s, Curls(6).key);
  }

  lemma LegPressMisses7To13(s: string)
    requires Spelt(s, LegPressChars())
    requires |s| == 9
    ensures forall j :: 7 <= j < 10 ==> !Contains(s, BicepsGeneric(j).key)
    ensures forall j :: 10 <= j < 14 ==> !Contains(s, TricepsPulleyAndBench(j).key)
  {
    MissingChar(s, LegPressChars(), BicepsGeneric(7).key, 1);
    MissingChar(s, LegPressChars(), BicepsGeneric(8).key, 0);
    MissingChar(s, LegPressChars(), BicepsGeneric(9).key, 1);
    LongerKey(s, TricepsPulleyAndBench(10).key);
    LongerKey(s, TricepsPulleyAndBench(11).key);
    LongerKey(s, TricepsPulleyAndBench(12).key);
    LongerKey(s, TricepsPulleyAndBench(13).key);
  }

  lemma LegPressMisses14To19(s: string)
    requires Spelt(s, LegPressChars())
    requires |s| == 9
    ensures forall j :: 14 <= j < 17 ==> !Contains(s, TricepsOther(j).key)
    ensures forall j :: 17 <= j < 20 ==> !Contains(s, RearDelts(j).key)
  {
    MissingChar(s, LegPressChars(), TricepsOther(14).key, 0);
    MissingChar(s, LegPressChars(), TricepsOther(15).key, 0);
    MissingChar(s, LegPressChars(), TricepsOther(16).key, 0);
    LongerKey(s, RearDelts(17).key);
    LongerKey(s, RearDelts(18).key);
    LongerKey(s, RearDelts(19).key);
  }

  lemma LegPressMisses20To25(s: string)
    requires Spelt(s, LegPressChars())
    requires |s| == 9
    ensures forall j :: 20 <= j < 26 ==> !Contains(s, PulleyFront(j).key)
  {
    LongerKey(s, PulleyFront(20).key);
    LongerKey(s, PulleyFront(21).key);
    LongerKey(s, PulleyFront(22).key);
    LongerKey(s, PulleyFront(23).key);
    LongerKey(s, PulleyFront(24).key);
    MissingChar(s, LegPressChars(), PulleyFront(25).key, 1);
  }

  lemma LegPressMisses26To31(s: string)
    requires Spelt(s, LegPressChars())
    requires |s| == 9
    ensures forall j :: 26 <= j < 28 ==> !Contains(s, PullDown(j).key)
    ensures forall j :: 28 <= j < 32 ==> !Contains(s, MachineRows(j).key)
  {
    MissingChar(s, LegPressChars(), PullDown(26).key, 1);
    MissingChar(s, LegPressChars(), PullDown(27).key, 1);
    LongerKey(s, MachineRows(28).key);
    LongerKey(s, MachineRows(29).key);
    LongerKey(s, MachineRows(30).key);
    LongerKey(s, MachineRows(31).key);
  }

  lemma LegPressMisses32To39(s: string)
    requires Spelt(s, LegPressChars())
    requires |s| == 9
    ensures forall j :: 32 <= j < 36 ==> !Contains(s, FreeRows(j).key)
    ensures forall j :: 36 <= j < 40 ==> !Contains(s, BackOther(j).key)
  {
    LongerKey(s, FreeRows(32).key);
    MissingChar(s, LegPressChars(), FreeRows(33).key, 4);
    LongerKey(s, FreeRows(34).key);
    MissingChar(s, LegPressChars(), FreeRows(35).key, 2);
    LongerKey(s, BackOther(36).key);
    MissingChar(s, LegPressChars(), BackOther(37).key, 2);
    LongerKey(s, BackOther(38).key);
    MissingChar(s, LegPressChars(), BackOther(39).key, 1);
  }

  lemma LegPressMisses40To46(s: string)
    requires Spelt(s, LegPressChars())
    requires |s| == 9
    ensures forall j :: 40 <= j < 44 ==> !Contains(s, BenchPresses(j).key)
    ensures forall j :: 44 <= j < 47 ==> !Contains(s, ChestOther(j).key)
  {
    LongerKey(s, BenchPresses(40).key);
    LongerKey(s, BenchPresses(41).key);
    LongerKey(s, BenchPresses(42).key);
    LongerKey(s, BenchPresses(43).key);
    MissingChar(s, LegPressChars(), ChestOther(44).key, 1);
    MissingChar(s, LegPressChars(), ChestOther(45).key, 2);
    MissingChar(s, LegPressChars(), ChestOther(46).key, 0);
  }

  lemma LegPressMisses47To49(s: string)
    requires Spelt(s, LegPressChars())
    ensures forall j :: 47 <= j < 50 ==> !Contains(s, ChestFly(j).key)
  {
    MissingChar(s, LegPressChars(), ChestFly(47).key, 0);
    MissingChar(s, LegPressChars(), ChestFly(48).key, 0);
    MissingChar(s, LegPressChars(), ChestFly(49).key, 0);
  }

  lemma LegPressMissesBefore(s: string)
    requires s == "leg press"
    ensures forall j :: 0 <= j < 50 ==> !Contains(s, Table()[j].key)
  {
    assert Spelt(s, LegPressChars()) && |s| == 9;
    LegPressMisses0To6(s);
    LegPressMisses7To13(s);
    LegPressMisses14To19(s);
    LegPressMisses20To25(s);
    LegPressMisses26To31(s);
    LegPressMisses32To39(s);
    LegPressMisses40To46(s);
    LegPressMisses47To49(s);
  }

  lemma LegPressLookup()
    ensures Lookup(Table(), "leg press") == ExerciseData("BENCH_PRESS", "BENCH_PRESS")
  {
    var s := "leg press";
    LegPressMissesBefore(s);
    assert Table()[50].key == "press";
    assert s[4..9] == "press";
    OccursAt(s, Table()[50].key, 4);
    LookupFirst(Table(), s, 50);
  }

  /**
   * "Leg Press" resolves through "press" (row 50) to BENCH_PRESS, not to the
   * SQUAT/LEG_PRESS entry of "leg press" (row 58) that the header's second note names.
   */
  lemma LegPressResolves()
    ensures GetExerciseData(Str("Leg Press")) == ExerciseData("BENCH_PRESS", "BENCH_PRESS")
  {
    ResolvesThrough("Leg Press", "leg press");
    LegPressLookup();
  }
}
