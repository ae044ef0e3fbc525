/**
 * The keyword table `EXERCISE_DB` (src/exercise_db.py): an ordered dict from a
 * lower-case Portuguese keyword to the Garmin category and exercise name it
 * stands for. Its declaration order matters, because the resolver returns the
 * first keyword, in that order, that occurs in an exercise name.
 *
 * The table is written as 28 small block functions of consecutive rows (the
 * muscle-group sections of the source), with `RowAt` dispatching on the row
 * number. A lemma per block shows `KeyIndex` recovering the row number from the
 * key, which makes the keys distinct.
 */
module ExerciseDb {
  import opened Text
  import BuildDb

  /** The value of one table entry: `{"cat": …, "name": …}`. */
  datatype ExerciseData = ExerciseData(cat: string, name: string)

  /** A character a keyword may hold: a small ASCII letter, a digit or a space. */
  type KeyChar = c: char | c == ' ' || IsLowerLetter(c) || IsDigit(c) witness 'a'

  /** One `keyword: {…}` entry; every keyword is spelt in the characters above. */
  datatype Row = Row(key: seq<KeyChar>, data: ExerciseData)

  /** The number of entries of `EXERCISE_DB`. */
  const TableSize: nat := 97

  /** The form the resolver compares keys against: lower-case unaccented ASCII letters, digits and spaces. */
  predicate CanonicalKey(k: string) {
    forall j :: 0 <= j < |k| ==> k[j] == ' ' || IsLowerLetter(k[j]) || IsDigit(k[j])
  }

  /** The whole table, in declaration order. */
  function Table(): (t: seq<Row>)
    ensures |t| == TableSize
  {
    seq(TableSize, i requires 0 <= i < TableSize => RowAt(i))
  }

  /**
   * The row number of a table key, read off its length and a few of its
   * characters (a decision tree; its value on other strings is meaningless).
   */
  function KeyIndex(k: string): nat {
    match |k|
    case 3 =>
      if k[0] < 'l' then
          48
        else
          60
    case 4 =>
      if k[0] < 's' then
          54
        else
          57
    case 5 =>
      if k[0] < 'r' then
          if k[0] < 'o' then
            93
          else
            if k[0] < 'p' then
              89
            else
              50
        else
          if k[0] < 's' then
            7
          else
            if k[0] < 't' then
              if k[1] < 't' then
                if k[1] < 'm' then
                  9
                else
                  55
              else
                if k[1] < 'u' then
                  67
                else
                  94
            else
              68
    case 6 =>
      if k[0] < 'l' then
          if k[0] < 'f' then
            if k[0] < 'b' then
              66
            else
              8
          else
            if k[0] < 'g' then
              49
            else
              72
        else
          if k[0] < 'r' then
            if k[0] < 'p' then
              39
            else
              25
          else
            if k[0] < 's' then
              35
            else
              if k[1] < 'u' then
                75
              else
                44
    case 7 =>
      if k[0] < 'p' then
          if k[0] < 'f' then
            56
          else
            if k[0] < 'l' then
              if k[1] < 'r' then
                65
              else
                if k[2] < 'o' then
                  14
                else
                  84
            else
              78
        else
          if k[0] < 's' then
            if k[0] < 'r' then
              if k[1] < 'r' then
                70
              else
                96
            else
              95
          else
            if k[0] < 't' then
              33
            else
              16
    case 8 =>
      if k[0] < 'm' then
          if k[0] < 'g' then
            86
          else
            37
        else
          if k[0] < 'p' then
            15
          else
            27
    case 9 =>
      if k[0] < 'f' then
          if k[0] < 'c' then
            91
          else
            if k[0] < 'e' then
              if k[2] < 'u' then
                47
              else
                46
            else
              62
        else
          if k[0] < 'l' then
            85
          else
            if k[0] < 'p' then
              58
            else
              if k[1] < 'u' then
                45
              else
                26
    case 10 =>
      36
    case 11 =>
      if k[0] < 'p' then
          if k[0] < 'b' then
            51
          else
            1
        else
          if k[0] < 'r' then
            if k[1] < 'o' then
              71
            else
              if k[1] < 'u' then
                3
              else
                if k[7] < 'f' then
                  23
                else
                  87
          else
            if k[0] < 's' then
              if k[1] < 'o' then
                31
              else
                if k[6] < 's' then
                  2
                else
                  0
            else
              40
    case 12 =>
      if k[0] < 'm' then
          if k[0] < 'l' then
            74
          else
            59
        else
          if k[0] < 'r' then
            63
          else
            if k[1] < 'o' then
              30
            else
              4
    case 13 =>
      if k[0] < 'p' then
          if k[0] < 'l' then
            38
          else
            79
        else
          if k[0] < 'r' then
            if k[2] < 'x' then
              if k[7] < 'f' then
                21
              else
                20
            else
              24
          else
            if k[0] < 't' then
              if k[6] < 'm' then
                5
              else
                6
            else
              if k[8] < 'c' then
                13
              else
                if k[8] < 't' then
                  11
                else
                  12
    case 14 =>
      if k[0] < 'r' then
          if k[0] < 'g' then
            88
          else
            73
        else
          if k[0] < 't' then
            if k[7] < 'm' then
              34
            else
              29
          else
            if k[0] < 'v' then
              10
            else
              19
    case 15 =>
      if k[0] < 'd' then
          64
        else
          if k[0] < 's' then
            76
          else
            43
    case 16 =>
      if k[0] < 'r' then
          if k[0] < 'p' then
            if k[9] < 'l' then
              80
            else
              if k[9] < 'p' then
                77
              else
                69
          else
            22
        else
          if k[0] < 's' then
            32
          else
            if k[7] < 'i' then
              42
            else
              41
    case 17 =>
      if k[0] < 'p' then
          if k[0] < 'c' then
            if k[1] < 'g' then
              90
            else
              52
          else
            if k[1] < 'r' then
              61
            else
              18
        else
          if k[0] < 'r' then
            17
          else
            28
    case 19 =>
      if k[1] < 'g' then
          92
        else
          53
    case 21 =>
      82
    case 22 =>
      81
    case 23 =>
      83
    case _ => 0
  }

  /** The entry at position `i` of the table. */
  function RowAt(i: nat): Row
    requires i < TableSize
  {
    if i < 4 then PreacherAndCableCurls(i)
    else if i < 7 then Curls(i)
    else if i < 10 then BicepsGeneric(i)
    else if i < 14 then TricepsPulleyAndBench(i)
    else if i < 17 then TricepsOther(i)
    else if i < 20 then RearDelts(i)
    else if i < 26 then PulleyFront(i)
    else if i < 28 then PullDown(i)
    else if i < 32 then MachineRows(i)
    else if i < 36 then FreeRows(i)
    else if i < 40 then BackOther(i)
    else if i < 44 then BenchPresses(i)
    else if i < 47 then ChestOther(i)
    else if i < 51 then ChestFly(i)
    else if i < 54 then Squats(i)
    else if i < 58 then SquatVariants(i)
    else if i < 61 then LegPress(i)
    else if i < 63 then Extensors(i)
    else if i < 66 then LegCurls(i)
    else if i < 71 then PosteriorChain(i)
    else if i < 76 then Calves(i)
    else if i < 77 then Shoulders(i)
    else if i < 80 then LateralRaise(i)
    else if i < 83 then FrontRaises(i)
    else if i < 85 then FrontRaisesOther(i)
    else if i < 90 then FacePull(i)
    else if i < 93 then Crunches(i)
    else AbsOther(i)
  }

  /** `KeyIndex` recovers every row's position from its key, and every row's category is declared in `KNOWN_CATEGORIES` and is not the fallback `CARRY`. */
  lemma RowAtKeyed(i: nat)
    requires i < TableSize
    ensures KeyIndex(RowAt(i).key) == i
    ensures RowAt(i).data.cat in BuildDb.DeclaredCategories() && RowAt(i).data.cat != "CARRY"
  {
    if i < 4 {
      PreacherAndCableCurlsKeyed(i);
    } else if i < 7 {
      CurlsKeyed(i);
    } else if i < 10 {
      BicepsGenericKeyed(i);
    } else if i < 14 {
      TricepsPulleyAndBenchKeyed(i);
    } else if i < 17 {
      TricepsOtherKeyed(i);
    } else if i < 20 {
      RearDeltsKeyed(i);
    } else if i < 26 {
      PulleyFrontKeyed(i);
    } else if i < 28 {
      PullDownKeyed(i);
    } else if i < 32 {
      MachineRowsKeyed(i);
    } else if i < 36 {
      FreeRowsKeyed(i);
    } else if i < 40 {
      BackOtherKeyed(i);
    } else if i < 44 {
      BenchPressesKeyed(i);
    } else if i < 47 {
      ChestOtherKeyed(i);
    } else if i < 51 {
      ChestFlyKeyed(i);
    } else if i < 54 {
      SquatsKeyed(i);
    } else if i < 58 {
      SquatVariantsKeyed(i);
    } else if i < 61 {
      LegPressKeyed(i);
    } else if i < 63 {
      ExtensorsKeyed(i);
    } else if i < 66 {
      LegCurlsKeyed(i);
    } else if i < 71 {
      PosteriorChainKeyed(i);
    } else if i < 76 {
      CalvesKeyed(i);
    } else if i < 77 {
      ShouldersKeyed(i);
    } else if i < 80 {
      LateralRaiseKeyed(i);
    } else if i < 83 {
      FrontRaisesKeyed(i);
    } else if i < 85 {
      FrontRaisesOtherKeyed(i);
    } else if i < 90 {
      FacePullKeyed(i);
    } else if i < 93 {
      CrunchesKeyed(i);
    } else {
      AbsOtherKeyed(i);
    }
  }

  /** Rows 0..3 (src/exercise_db.py:14-17). */
  function PreacherAndCableCurls(i: nat): Row
    requires 0 <= i < 4
  {
    match i
    case 0 => Row("rosca scott", ExerciseData("CURL", "PREACHER_CURL"))
    case 1 => Row("banco scott", ExerciseData("CURL", "PREACHER_CURL"))
    case 2 => Row("rosca polia", ExerciseData("CURL", "CABLE_CURL"))
    case _ => Row("polia baixa", ExerciseData("CURL", "CABLE_CURL"))
  }

  lemma PreacherAndCableCurlsKeyed(i: nat)
    requires 0 <= i < 4
    ensures KeyIndex(PreacherAndCableCurls(i).key) == i
    ensures PreacherAndCableCurls(i).data.cat in BuildDb.DeclaredCategories() && PreacherAndCableCurls(i).data.cat != "CARRY"
  {
    Declared(10);
  }

  /** Rows 4..6 (src/exercise_db.py:18-20). */
  function Curls(i: nat): Row
    requires 4 <= i < 7
  {
    match i
    case 4 => Row("rosca direta", ExerciseData("CURL", "CURL"))
    case 5 => Row("rosca inversa", ExerciseData("CURL", "CURL"))
    case _ => Row("rosca martelo", ExerciseData("CURL", "CURL"))
  }

  lemma CurlsKeyed(i: nat)
    requires 4 <= i < 7
    ensures KeyIndex(Curls(i).key) == i
    ensures Curls(i).data.cat in BuildDb.DeclaredCategories() && Curls(i).data.cat != "CARRY"
  {
    Declared(10);
  }

  /** Rows 7..9 (src/exercise_db.py:23-25). */
  function BicepsGeneric(i: nat): Row
    requires 7 <= i < 10
  {
    match i
    case 7 => Row("rosca", ExerciseData("CURL", "CURL"))
    case 8 => Row("biceps", ExerciseData("CURL", "CURL"))
    case _ => Row("scott", ExerciseData("CURL", "PREACHER_CURL"))
  }

  lemma BicepsGenericKeyed(i: nat)
    requires 7 <= i < 10
    ensures KeyIndex(BicepsGeneric(i).key) == i
    ensures BicepsGeneric(i).data.cat in BuildDb.DeclaredCategories() && BicepsGeneric(i).data.cat != "CARRY"
  {
    Declared(10);
  }

  /** Rows 10..13 (src/exercise_db.py:28-31). */
  function TricepsPulleyAndBench(i: nat): Row
    requires 10 <= i < 14
  {
    match i
    case 10 => Row("triceps pulley", ExerciseData("TRICEPS_EXTENSION", "TRICEPS_EXTENSION"))
    case 11 => Row("triceps corda", ExerciseData("TRICEPS_EXTENSION", "TRICEPS_EXTENSION"))
    case 12 => Row("triceps testa", ExerciseData("TRICEPS_EXTENSION", "TRICEPS_EXTENSION"))
    case _ => Row("triceps banco", ExerciseData("TRICEPS_EXTENSION", "TRICEPS_EXTENSION"))
  }

  lemma TricepsPulleyAndBenchKeyed(i: nat)
    requires 10 <= i < 14
    ensures KeyIndex(TricepsPulleyAndBench(i).key) == i
    ensures TricepsPulleyAndBench(i).data.cat in BuildDb.DeclaredCategories() && TricepsPulleyAndBench(i).data.cat != "CARRY"
  {
    if i < 12 {
      TricepsPulleyAndBenchKeyedLow(i);
    } else {
      TricepsPulleyAndBenchKeyedHigh(i);
    }
  }

  lemma TricepsPulleyAndBenchKeyedLow(i: nat)
    requires 10 <= i < 12
    ensures KeyIndex(TricepsPulleyAndBench(i).key) == i
    ensures TricepsPulleyAndBench(i).data.cat in BuildDb.DeclaredCategories() && TricepsPulleyAndBench(i).data.cat != "CARRY"
  {
    Declared(46);
  }

  lemma TricepsPulleyAndBenchKeyedHigh(i: nat)
    requires 12 <= i < 14
    ensures KeyIndex(TricepsPulleyAndBench(i).key) == i
    ensures TricepsPulleyAndBench(i).data.cat in BuildDb.DeclaredCategories() && TricepsPulleyAndBench(i).data.cat != "CARRY"
  {
    Declared(46);
  }

  /** Rows 14..16 (src/exercise_db.py:32-34). */
  function TricepsOther(i: nat): Row
    requires 14 <= i < 17
  {
    match i
    case 14 => Row("frances", ExerciseData("TRICEPS_EXTENSION", "TRICEPS_EXTENSION"))
    case 15 => Row("mergulho", ExerciseData("TRICEPS_EXTENSION", "TRICEPS_EXTENSION"))
    case _ => Row("triceps", ExerciseData("TRICEPS_EXTENSION", "TRICEPS_EXTENSION"))
  }

  lemma TricepsOtherKeyed(i: nat)
    requires 14 <= i < 17
    ensures KeyIndex(TricepsOther(i).key) == i
    ensures TricepsOther(i).data.cat in BuildDb.DeclaredCategories() && TricepsOther(i).data.cat != "CARRY"
  {
    Declared(46);
  }

  /** Rows 17..19 (src/exercise_db.py:40-42). */
  function RearDelts(i: nat): Row
    requires 17 <= i < 20
  {
    match i
    case 17 => Row("peck deck inverso", ExerciseData("SHOULDER_PRESS", "REVERSE_FLY_MACHINE"))
    case 18 => Row("crucifixo inverso", ExerciseData("SHOULDER_PRESS", "REVERSE_FLY"))
    case _ => Row("voador inverso", ExerciseData("SHOULDER_PRESS", "REVERSE_FLY_MACHINE"))
  }

  lemma RearDeltsKeyed(i: nat)
    requires 17 <= i < 20
    ensures KeyIndex(RearDelts(i).key) == i
    ensures RearDelts(i).data.cat in BuildDb.DeclaredCategories() && RearDelts(i).data.cat != "CARRY"
  {
    if i < 19 {
      RearDeltsKeyedLow(i);
    } else {
      RearDeltsKeyedHigh(i);
    }
  }

  lemma RearDeltsKeyedLow(i: nat)
    requires 17 <= i < 19
    ensures KeyIndex(RearDelts(i).key) == i
    ensures RearDelts(i).data.cat in BuildDb.DeclaredCategories() && RearDelts(i).data.cat != "CARRY"
  {
    Declared(35);
  }

  lemma RearDeltsKeyedHigh(i: nat)
    requires 19 <= i < 20
    ensures KeyIndex(RearDelts(i).key) == i
    ensures RearDelts(i).data.cat in BuildDb.DeclaredCategories() && RearDelts(i).data.cat != "CARRY"
  {
    Declared(35);
  }

  /** Rows 20..25 (src/exercise_db.py:45-50). */
  function PulleyFront(i: nat): Row
    requires 20 <= i < 26
  {
    match i
    case 20 => Row("pulley frente", ExerciseData("PULL_UP", "CABLE_PULLDOWN"))
    case 21 => Row("pulley costas", ExerciseData("PULL_UP", "CABLE_PULLDOWN"))
    case 22 => Row("pulley triangulo", ExerciseData("PULL_UP", "CABLE_PULLDOWN"))
    case 23 => Row("puxada alta", ExerciseData("PULL_UP", "CABLE_PULLDOWN"))
    case 24 => Row("puxada frente", ExerciseData("PULL_UP", "CABLE_PULLDOWN"))
    case _ => Row("puxada", ExerciseData("PULL_UP", "CABLE_PULLDOWN"))
  }

  lemma PulleyFrontKeyed(i: nat)
    requires 20 <= i < 26
    ensures KeyIndex(PulleyFront(i).key) == i
    ensures PulleyFront(i).data.cat in BuildDb.DeclaredCategories() && PulleyFront(i).data.cat != "CARRY"
  {
    if i < 23 {
      PulleyFrontKeyedLow(i);
    } else {
      PulleyFrontKeyedHigh(i);
    }
  }

  lemma PulleyFrontKeyedLow(i: nat)
    requires 20 <= i < 23
    ensures KeyIndex(PulleyFront(i).key) == i
    ensures PulleyFront(i).data.cat in BuildDb.DeclaredCategories() && PulleyFront(i).data.cat != "CARRY"
  {
    Declared(29);
  }

  lemma PulleyFrontKeyedHigh(i: nat)
    requires 23 <= i < 26
    ensures KeyIndex(PulleyFront(i).key) == i
    ensures PulleyFront(i).data.cat in BuildDb.DeclaredCategories() && PulleyFront(i).data.cat != "CARRY"
  {
    Declared(29);
  }

  /** Rows 26..27 (src/exercise_db.py:53-54). */
  function PullDown(i: nat): Row
    requires 26 <= i < 28
  {
    match i
    case 26 => Row("pull down", ExerciseData("ROW", "STRAIGHT_ARM_PULLDOWN"))
    case _ => Row("pulldown", ExerciseData("ROW", "STRAIGHT_ARM_PULLDOWN"))
  }

  lemma PullDownKeyed(i: nat)
    requires 26 <= i < 28
    ensures KeyIndex(PullDown(i).key) == i
    ensures PullDown(i).data.cat in BuildDb.DeclaredCategories() && PullDown(i).data.cat != "CARRY"
  {
    Declared(31);
  }

  /** Rows 28..31 (src/exercise_db.py:57-60). */
  function MachineRows(i: nat): Row
    requires 28 <= i < 32
  {
    match i
    case 28 => Row("remada articulada", ExerciseData("ROW", "MACHINE_ROW"))
    case 29 => Row("remada maquina", ExerciseData("ROW", "MACHINE_ROW"))
    case 30 => Row("remada baixa", ExerciseData("ROW", "SEATED_CABLE_ROW"))
    case _ => Row("remada cabo", ExerciseData("ROW", "SEATED_CABLE_ROW"))
  }

  lemma MachineRowsKeyed(i: nat)
    requires 28 <= i < 32
    ensures KeyIndex(MachineRows(i).key) == i
    ensures MachineRows(i).data.cat in BuildDb.DeclaredCategories() && MachineRows(i).data.cat != "CARRY"
  {
    if i < 30 {
      MachineRowsKeyedLow(i);
    } else {
      MachineRowsKeyedHigh(i);
    }
  }

  lemma MachineRowsKeyedLow(i: nat)
    requires 28 <= i < 30
    ensures KeyIndex(MachineRows(i).key) == i
    ensures MachineRows(i).data.cat in BuildDb.DeclaredCategories() && MachineRows(i).data.cat != "CARRY"
  {
    Declared(31);
  }

  lemma MachineRowsKeyedHigh(i: nat)
    requires 30 <= i < 32
    ensures KeyIndex(MachineRows(i).key) == i
    ensures MachineRows(i).data.cat in BuildDb.DeclaredCategories() && MachineRows(i).data.cat != "CARRY"
  {
    Declared(31);
  }

  /** Rows 32..35 (src/exercise_db.py:61-65). */
  function FreeRows(i: nat): Row
    requires 32 <= i < 36
  {
    match i
    case 32 => Row("remada cavalinho", ExerciseData("ROW", "V_BAR_ROW"))
    case 33 => Row("serrote", ExerciseData("ROW", "ROW"))
    case 34 => Row("remada curvada", ExerciseData("ROW", "ROW"))
    case _ => Row("remada", ExerciseData("ROW", "ROW"))
  }

  lemma FreeRowsKeyed(i: nat)
    requires 32 <= i < 36
    ensures KeyIndex(FreeRows(i).key) == i
    ensures FreeRows(i).data.cat in BuildDb.DeclaredCategories() && FreeRows(i).data.cat != "CARRY"
  {
    Declared(31);
  }

  /** Rows 36..39 (src/exercise_db.py:67-71). */
  function BackOther(i: nat): Row
    requires 36 <= i < 40
  {
    match i
    case 36 => Row("barra fixa", ExerciseData("PULL_UP", "PULL_UP"))
    case 37 => Row("graviton", ExerciseData("PULL_UP", "PULL_UP"))
    case 38 => Row("hiperextensao", ExerciseData("HYPEREXTENSION", "HYPEREXTENSION"))
    case _ => Row("lombar", ExerciseData("HYPEREXTENSION", "HYPEREXTENSION"))
  }

  lemma BackOtherKeyed(i: nat)
    requires 36 <= i < 40
    ensures KeyIndex(BackOther(i).key) == i
    ensures BackOther(i).data.cat in BuildDb.DeclaredCategories() && BackOther(i).data.cat != "CARRY"
  {
    Declared(18);
    Declared(29);
  }

  /** Rows 40..43 (src/exercise_db.py:76-79). */
  function BenchPresses(i: nat): Row
    requires 40 <= i < 44
  {
    match i
    case 40 => Row("supino reto", ExerciseData("BENCH_PRESS", "BENCH_PRESS"))
    case 41 => Row("supino inclinado", ExerciseData("BENCH_PRESS", "BENCH_PRESS"))
    case 42 => Row("supino declinado", ExerciseData("BENCH_PRESS", "BENCH_PRESS"))
    case _ => Row("supino vertical", ExerciseData("BENCH_PRESS", "BENCH_PRESS"))
  }

  lemma BenchPressesKeyed(i: nat)
    requires 40 <= i < 44
    ensures KeyIndex(BenchPresses(i).key) == i
    ensures BenchPresses(i).data.cat in BuildDb.DeclaredCategories() && BenchPresses(i).data.cat != "CARRY"
  {
    if i < 42 {
      BenchPressesKeyedLow(i);
    } else {
      BenchPressesKeyedHigh(i);
    }
  }

  lemma BenchPressesKeyedLow(i: nat)
    requires 40 <= i < 42
    ensures KeyIndex(BenchPresses(i).key) == i
    ensures BenchPresses(i).data.cat in BuildDb.DeclaredCategories() && BenchPresses(i).data.cat != "CARRY"
  {
    Declared(2);
  }

  lemma BenchPressesKeyedHigh(i: nat)
    requires 42 <= i < 44
    ensures KeyIndex(BenchPresses(i).key) == i
    ensures BenchPresses(i).data.cat in BuildDb.DeclaredCategories() && BenchPresses(i).data.cat != "CARRY"
  {
    Declared(2);
  }

  /** Rows 44..46 (src/exercise_db.py:80-83). */
  function ChestOther(i: nat): Row
    requires 44 <= i < 47
  {
    match i
    case 44 => Row("supino", ExerciseData("BENCH_PRESS", "BENCH_PRESS"))
    case 45 => Row("peck deck", ExerciseData("BENCH_PRESS", "BENCH_PRESS"))
    case _ => Row("crucifixo", ExerciseData("BENCH_PRESS", "BENCH_PRESS"))
  }

  lemma ChestOtherKeyed(i: nat)
    requires 44 <= i < 47
    ensures KeyIndex(ChestOther(i).key) == i
    ensures ChestOther(i).data.cat in BuildDb.DeclaredCategories() && ChestOther(i).data.cat != "CARRY"
  {
    Declared(2);
  }

  /** Rows 47..50 (src/exercise_db.py:84-87). */
  function ChestFly(i: nat): Row
    requires 47 <= i < 51
  {
    match i
    case 47 => Row("crossover", ExerciseData("BENCH_PRESS", "BENCH_PRESS"))
    case 48 => Row("fly", ExerciseData("BENCH_PRESS", "BENCH_PRESS"))
    case 49 => Row("flexao", ExerciseData("PUSH_UP", "PUSH_UP"))
    case _ => Row("press", ExerciseData("BENCH_PRESS", "BENCH_PRESS"))
  }

  lemma ChestFlyKeyed(i: nat)
    requires 47 <= i < 51
    ensures KeyIndex(ChestFly(i).key) == i
    ensures ChestFly(i).data.cat in BuildDb.DeclaredCategories() && ChestFly(i).data.cat != "CARRY"
  {
    Declared(2);
    Declared(30);
  }

  /** Rows 51..53 (src/exercise_db.py:92-94). */
  function Squats(i: nat): Row
    requires 51 <= i < 54
  {
    match i
    case 51 => Row("agachamento", ExerciseData("SQUAT", "SQUAT"))
    case 52 => Row("agachamento smith", ExerciseData("SQUAT", "SQUAT"))
    case _ => Row("agachamento pendulo", ExerciseData("SQUAT", "SQUAT"))
  }

  lemma SquatsKeyed(i: nat)
    requires 51 <= i < 54
    ensures KeyIndex(Squats(i).key) == i
    ensures Squats(i).data.cat in BuildDb.DeclaredCategories() && Squats(i).data.cat != "CARRY"
  {
    if i < 53 {
      SquatsKeyedLow(i);
    } else {
      SquatsKeyedHigh(i);
    }
  }

  lemma SquatsKeyedLow(i: nat)
    requires 51 <= i < 53
    ensures KeyIndex(Squats(i).key) == i
    ensures Squats(i).data.cat in BuildDb.DeclaredCategories() && Squats(i).data.cat != "CARRY"
  {
    Declared(41);
  }

  lemma SquatsKeyedHigh(i: nat)
    requires 53 <= i < 54
    ensures KeyIndex(Squats(i).key) == i
    ensures Squats(i).data.cat in BuildDb.DeclaredCategories() && Squats(i).data.cat != "CARRY"
  {
    Declared(41);
  }

  /** Rows 54..57 (src/exercise_db.py:95-98). */
  function SquatVariants(i: nat): Row
    requires 54 <= i < 58
  {
    match i
    case 54 => Row("hack", ExerciseData("SQUAT", "SQUAT"))
    case 55 => Row("smith", ExerciseData("SQUAT", "SQUAT"))
    case 56 => Row("bulgaro", ExerciseData("SQUAT", "SQUAT"))
    case _ => Row("sumo", ExerciseData("SQUAT", "SQUAT"))
  }

  lemma SquatVariantsKeyed(i: nat)
    requires 54 <= i < 58
    ensures KeyIndex(SquatVariants(i).key) == i
    ensures SquatVariants(i).data.cat in BuildDb.DeclaredCategories() && SquatVariants(i).data.cat != "CARRY"
  {
    Declared(41);
  }

  /** Rows 58..60 (src/exercise_db.py:101-103). */
  function LegPress(i: nat): Row
    requires 58 <= i < 61
  {
    match i
    case 58 => Row("leg press", ExerciseData("SQUAT", "LEG_PRESS"))
    case 59 => Row("leg press 45", ExerciseData("SQUAT", "LEG_PRESS"))
    case _ => Row("leg", ExerciseData("SQUAT", "LEG_PRESS"))
  }

  lemma LegPressKeyed(i: nat)
    requires 58 <= i < 61
    ensures KeyIndex(LegPress(i).key) == i
    ensures LegPress(i).data.cat in BuildDb.DeclaredCategories() && LegPress(i).data.cat != "CARRY"
  {
    Declared(41);
  }

  /** Rows 61..62 (src/exercise_db.py:107-108). */
  function Extensors(i: nat): Row
    requires 61 <= i < 63
  {
    match i
    case 61 => Row("cadeira extensora", ExerciseData("CRUNCH", "LEG_EXTENSIONS"))
    case _ => Row("extensora", ExerciseData("CRUNCH", "LEG_EXTENSIONS"))
  }

  lemma ExtensorsKeyed(i: nat)
    requires 61 <= i < 63
    ensures KeyIndex(Extensors(i).key) == i
    ensures Extensors(i).data.cat in BuildDb.DeclaredCategories() && Extensors(i).data.cat != "CARRY"
  {
    Declared(9);
  }

  /** Rows 63..65 (src/exercise_db.py:111-113). */
  function LegCurls(i: nat): Row
    requires 63 <= i < 66
  {
    match i
    case 63 => Row("mesa flexora", ExerciseData("LEG_CURL", "LYING_LEG_CURL"))
    case 64 => Row("cadeira flexora", ExerciseData("LEG_CURL", "SEATED_LEG_CURL"))
    case _ => Row("flexora", ExerciseData("LEG_CURL", "LEG_CURL"))
  }

  lemma LegCurlsKeyed(i: nat)
    requires 63 <= i < 66
    ensures KeyIndex(LegCurls(i).key) == i
    ensures LegCurls(i).data.cat in BuildDb.DeclaredCategories() && LegCurls(i).data.cat != "CARRY"
  {
    Declared(22);
  }

  /** Rows 66..70 (src/exercise_db.py:115-119). */
  function PosteriorChain(i: nat): Row
    requires 66 <= i < 71
  {
    match i
    case 66 => Row("afundo", ExerciseData("LUNGE", "LUNGE"))
    case 67 => Row("stiff", ExerciseData("DEADLIFT", "DEADLIFT"))
    case 68 => Row("terra", ExerciseData("DEADLIFT", "DEADLIFT"))
    case 69 => Row("elevacao pelvica", ExerciseData("HIP_RAISE", "HIP_RAISE"))
    case _ => Row("pelvica", ExerciseData("HIP_RAISE", "HIP_RAISE"))
  }

  lemma PosteriorChainKeyed(i: nat)
    requires 66 <= i < 71
    ensures KeyIndex(PosteriorChain(i).key) == i
    ensures PosteriorChain(i).data.cat in BuildDb.DeclaredCategories() && PosteriorChain(i).data.cat != "CARRY"
  {
    if i < 69 {
      PosteriorChainKeyedLow(i);
    } else {
      PosteriorChainKeyedHigh(i);
    }
  }

  lemma PosteriorChainKeyedLow(i: nat)
    requires 66 <= i < 69
    ensures KeyIndex(PosteriorChain(i).key) == i
    ensures PosteriorChain(i).data.cat in BuildDb.DeclaredCategories() && PosteriorChain(i).data.cat != "CARRY"
  {
    Declared(11);
    Declared(15);
    Declared(24);
  }

  lemma PosteriorChainKeyedHigh(i: nat)
    requires 69 <= i < 71
    ensures KeyIndex(PosteriorChain(i).key) == i
    ensures PosteriorChain(i).data.cat in BuildDb.DeclaredCategories() && PosteriorChain(i).data.cat != "CARRY"
  {
    Declared(11);
    Declared(15);
    Declared(24);
  }

  /** Rows 71..75 (src/exercise_db.py:122-126). */
  function Calves(i: nat): Row
    requires 71 <= i < 76
  {
    match i
    case 71 => Row("panturrilha", ExerciseData("CALF_RAISE", "CALF_RAISE"))
    case 72 => Row("gemeos", ExerciseData("CALF_RAISE", "CALF_RAISE"))
    case 73 => Row("gemeos sentado", ExerciseData("CALF_RAISE", "SEATED_CALF_RAISE"))
    case 74 => Row("gemeos em pe", ExerciseData("CALF_RAISE", "STANDING_CALF_RAISE"))
    case _ => Row("solear", ExerciseData("CALF_RAISE", "SEATED_CALF_RAISE"))
  }

  lemma CalvesKeyed(i: nat)
    requires 71 <= i < 76
    ensures KeyIndex(Calves(i).key) == i
    ensures Calves(i).data.cat in BuildDb.DeclaredCategories() && Calves(i).data.cat != "CARRY"
  {
    if i < 74 {
      CalvesKeyedLow(i);
    } else {
      CalvesKeyedHigh(i);
    }
  }

  lemma CalvesKeyedLow(i: nat)
    requires 71 <= i < 74
    ensures KeyIndex(Calves(i).key) == i
    ensures Calves(i).data.cat in BuildDb.DeclaredCategories() && Calves(i).data.cat != "CARRY"
  {
    Declared(4);
  }

  lemma CalvesKeyedHigh(i: nat)
    requires 74 <= i < 76
    ensures KeyIndex(Calves(i).key) == i
    ensures Calves(i).data.cat in BuildDb.DeclaredCategories() && Calves(i).data.cat != "CARRY"
  {
    Declared(4);
  }

  /** Rows 76..76 (src/exercise_db.py:131-131). */
  function Shoulders(i: nat): Row
    requires i == 76
  {
    Row("desenvolvimento", ExerciseData("SHOULDER_PRESS", "SHOULDER_PRESS"))
  }

  lemma ShouldersKeyed(i: nat)
    requires i == 76
    ensures KeyIndex(Shoulders(i).key) == i
    ensures Shoulders(i).data.cat in BuildDb.DeclaredCategories() && Shoulders(i).data.cat != "CARRY"
  {
    Declared(35);
  }

  /** Rows 77..79 (src/exercise_db.py:134-136). */
  function LateralRaise(i: nat): Row
    requires 77 <= i < 80
  {
    match i
    case 77 => Row("elevacao lateral", ExerciseData("LATERAL_RAISE", "LATERAL_RAISE"))
    case 78 => Row("lateral", ExerciseData("LATERAL_RAISE", "LATERAL_RAISE"))
    case _ => Row("lateral polia", ExerciseData("LATERAL_RAISE", "CABLE_LATERAL_RAISE"))
  }

  lemma LateralRaiseKeyed(i: nat)
    requires 77 <= i < 80
    ensures KeyIndex(LateralRaise(i).key) == i
    ensures LateralRaise(i).data.cat in BuildDb.DeclaredCategories() && LateralRaise(i).data.cat != "CARRY"
  {
    Declared(21);
  }

  /** Rows 80..82 (src/exercise_db.py:139-141). */
  function FrontRaises(i: nat): Row
    requires 80 <= i < 83
  {
    match i
    case 80 => Row("elevacao frontal", ExerciseData("LATERAL_RAISE", "FRONT_RAISE"))
    case 81 => Row("elevacao frontal polia", ExerciseData("LATERAL_RAISE", "CABLE_FRONT_RAISE"))
    case _ => Row("elevacao frontal cabo", ExerciseData("LATERAL_RAISE", "CABLE_FRONT_RAISE"))
  }

  lemma FrontRaisesKeyed(i: nat)
    requires 80 <= i < 83
    ensures KeyIndex(FrontRaises(i).key) == i
    ensures FrontRaises(i).data.cat in BuildDb.DeclaredCategories() && FrontRaises(i).data.cat != "CARRY"
  {
    if i < 82 {
      FrontRaisesKeyedLow(i);
    } else {
      FrontRaisesKeyedHigh(i);
    }
  }

  lemma FrontRaisesKeyedLow(i: nat)
    requires 80 <= i < 82
    ensures KeyIndex(FrontRaises(i).key) == i
    ensures FrontRaises(i).data.cat in BuildDb.DeclaredCategories() && FrontRaises(i).data.cat != "CARRY"
  {
    Declared(21);
  }

  lemma FrontRaisesKeyedHigh(i: nat)
    requires 82 <= i < 83
    ensures KeyIndex(FrontRaises(i).key) == i
    ensures FrontRaises(i).data.cat in BuildDb.DeclaredCategories() && FrontRaises(i).data.cat != "CARRY"
  {
    Declared(21);
  }

  /** Rows 83..84 (src/exercise_db.py:142-143). */
  function FrontRaisesOther(i: nat): Row
    requires 83 <= i < 85
  {
    match i
    case 83 => Row("elevacao frontal halter", ExerciseData("LATERAL_RAISE", "DUMBBELL_FRONT_RAISE"))
    case _ => Row("frontal", ExerciseData("LATERAL_RAISE", "FRONT_RAISE"))
  }

  lemma FrontRaisesOtherKeyed(i: nat)
    requires 83 <= i < 85
    ensures KeyIndex(FrontRaisesOther(i).key) == i
    ensures FrontRaisesOther(i).data.cat in BuildDb.DeclaredCategories() && FrontRaisesOther(i).data.cat != "CARRY"
  {
    Declared(21);
  }

  /** Rows 85..89 (src/exercise_db.py:146-151). */
  function FacePull(i: nat): Row
    requires 85 <= i < 90
  {
    match i
    case 85 => Row("face pull", ExerciseData("SHOULDER_PRESS", "FACE_PULL"))
    case 86 => Row("facepull", ExerciseData("SHOULDER_PRESS", "FACE_PULL"))
    case 87 => Row("puxada face", ExerciseData("SHOULDER_PRESS", "FACE_PULL"))
    case 88 => Row("face pull cabo", ExerciseData("SHOULDER_PRESS", "CABLE_FACE_PULL"))
    case _ => Row("ombro", ExerciseData("SHOULDER_PRESS", "SHOULDER_PRESS"))
  }

  lemma FacePullKeyed(i: nat)
    requires 85 <= i < 90
    ensures KeyIndex(FacePull(i).key) == i
    ensures FacePull(i).data.cat in BuildDb.DeclaredCategories() && FacePull(i).data.cat != "CARRY"
  {
    if i < 88 {
      FacePullKeyedLow(i);
    } else {
      FacePullKeyedHigh(i);
    }
  }

  lemma FacePullKeyedLow(i: nat)
    requires 85 <= i < 88
    ensures KeyIndex(FacePull(i).key) == i
    ensures FacePull(i).data.cat in BuildDb.DeclaredCategories() && FacePull(i).data.cat != "CARRY"
  {
    Declared(35);
  }

  lemma FacePullKeyedHigh(i: nat)
    requires 88 <= i < 90
    ensures KeyIndex(FacePull(i).key) == i
    ensures FacePull(i).data.cat in BuildDb.DeclaredCategories() && FacePull(i).data.cat != "CARRY"
  {
    Declared(35);
  }

  /** Rows 90..92 (src/exercise_db.py:156-158). */
  function Crunches(i: nat): Row
    requires 90 <= i < 93
  {
    match i
    case 90 => Row("abdominal maquina", ExerciseData("CRUNCH", "MACHINE_CRUNCH"))
    case 91 => Row("abdominal", ExerciseData("CRUNCH", "CRUNCH"))
    case _ => Row("abdominal paralelas", ExerciseData("CRUNCH", "KNEE_RAISE_PARALLEL_BARS"))
  }

  lemma CrunchesKeyed(i: nat)
    requires 90 <= i < 93
    ensures KeyIndex(Crunches(i).key) == i
    ensures Crunches(i).data.cat in BuildDb.DeclaredCategories() && Crunches(i).data.cat != "CARRY"
  {
    Declared(9);
  }

  /** Rows 93..96 (src/exercise_db.py:159-162). */
  function AbsOther(i: nat): Row
    requires 93 <= i < 97
  {
    match i
    case 93 => Row("infra", ExerciseData("CRUNCH", "CRUNCH"))
    case 94 => Row("supra", ExerciseData("CRUNCH", "CRUNCH"))
    case 95 => Row("remador", ExerciseData("CRUNCH", "CRUNCH"))
    case _ => Row("prancha", ExerciseData("PLANK", "PLANK"))
  }

  lemma AbsOtherKeyed(i: nat)
    requires 93 <= i < 97
    ensures KeyIndex(AbsOther(i).key) == i
    ensures AbsOther(i).data.cat in BuildDb.DeclaredCategories() && AbsOther(i).data.cat != "CARRY"
  {
    Declared(9);
    Declared(26);
  }

  // ---------------------------------------------------------------------------
  // Facts about the table

  /** No keyword is declared twice. */
  lemma KeysDistinct()
    ensures forall i, j :: 0 <= i < j < |Table()| ==> Table()[i].key != Table()[j].key
  {
    forall i, j | 0 <= i < j < |Table()| ensures Table()[i].key != Table()[j].key {
      RowAtKeyed(i);
      RowAtKeyed(j);
    }
  }

  /** Every key is already in the form `sanitize_text(name).lower()` produces: folding and lower-casing leave it alone. */
  lemma CanonicalKeyIsClean(k: string)
    requires CanonicalKey(k)
    ensures AllAscii(k) && Fold(Nfkd, k) == k && Lower(k) == k
  {
    FoldAscii(Nfkd, k);
  }

  /** Every table key is canonical. */
  lemma TableKeysCanonical()
    ensures forall i :: 0 <= i < |Table()| ==> CanonicalKey(Table()[i].key)
  {
  }

  /** The `i`-th declared category is declared. */
  lemma Declared(i: nat)
    requires i < 50
    ensures BuildDb.DeclaredCategoryAt(i) in BuildDb.DeclaredCategories()
  {
    assert BuildDb.DeclaredCategories()[i] == BuildDb.DeclaredCategoryAt(i);
  }

  /** Every row's category is declared in `KNOWN_CATEGORIES`. */
  lemma CategoriesDeclared()
    ensures forall i :: 0 <= i < |Table()| ==> Table()[i].data.cat in BuildDb.DeclaredCategories()
  {
    forall i | 0 <= i < |Table()| {
      RowAtKeyed(i);
    }
  }

  /** No row carries the resolver's fallback category `CARRY`. */
  lemma NoCarryRow()
    ensures forall i :: 0 <= i < |Table()| ==> Table()[i].data.cat != "CARRY"
  {
    forall i | 0 <= i < |Table()| {
      RowAtKeyed(i);
    }
  }

  /** The three entries the file's header notes single out. */
  lemma HeaderNotes()
    ensures Table()[61] == Row("cadeira extensora", ExerciseData("CRUNCH", "LEG_EXTENSIONS"))
    ensures Table()[62] == Row("extensora", ExerciseData("CRUNCH", "LEG_EXTENSIONS"))
    ensures Table()[58] == Row("leg press", ExerciseData("SQUAT", "LEG_PRESS"))
    ensures Table()[85] == Row("face pull", ExerciseData("SHOULDER_PRESS", "FACE_PULL"))
  {
  }
}
