/**
 * `generate_workout_payload` of src/utils.py: each CSV row is resolved by
 * keyword (`get_exercise_data` on its note), described by its cleaned note,
 * and written out through the shared step builder.
 */
module UtilsPayload {
  import opened Wrappers
  import opened Text
  import opened ExerciseDb
  import opened Resolver
  import opened WorkoutSteps

  /**
   * One CSV row after `fillna(0)`: the `str()` of its note cell and its four
   * numbers, already read.
   */
  datatype CsvRow = CsvRow(note: string, sets: int, reps: int, weight: real, rest: int)

  /** This copy's rest step: step type 5, ending on time (condition 1). */
  function UtilsRestCodes(): RestCodes {
    RestCodes(5, 1)
  }

  /**
   * The exercise step's description: the cleaned note, or "EXERCICIO" in place
   * of an empty or "0" one. It is never empty or "0", and a usable note is kept.
   */
  function Description(raw: string): (d: string)
    ensures d != "" && d != "0"
    ensures d == SanitizeText(Str(raw)) || d == "EXERCICIO"
    ensures SanitizeText(Str(raw)) != "" && SanitizeText(Str(raw)) != "0" ==> d == SanitizeText(Str(raw))
    ensures d == "EXERCICIO" <==> SanitizeText(Str(raw)) in {"", "0", "EXERCICIO"}
  {
    var clean := SanitizeText(Str(raw));
    if clean == "" || clean == "0" then "EXERCICIO" else clean
  }

  /** The row at position `i`, planned: its child id is `i + 1`, its exercise found by keyword. */
  function PlanRow(r: CsvRow, i: nat): PlannedRow {
    var raw := Strip(r.note);
    var data := GetExerciseData(Str(raw));
    PlannedRow(i + 1, Some(Description(raw)), Some(data.cat), Some(data.name), r.sets, r.reps, r.weight, r.rest)
  }

  /** The planned rows, one per CSV row, in order. */
  function Plan(rows: seq<CsvRow>): (ps: seq<PlannedRow>)
    ensures |ps| == |rows|
  {
    if rows == [] then [] else Plan(rows[..|rows| - 1]) + [PlanRow(rows[|rows| - 1], |rows| - 1)]
  }

  lemma {:induction false} PlanAt(rows: seq<CsvRow>, i: nat)
    requires i < |rows|
    ensures Plan(rows)[i] == PlanRow(rows[i], i)
  {
    if i < |rows| - 1 {
      PlanAt(rows[..|rows| - 1], i);
    }
  }

  lemma PlanSnoc(rows: seq<CsvRow>, i: nat)
    requires i < |rows|
    ensures Plan(rows[..i + 1]) == Plan(rows[..i]) + [PlanRow(rows[i], i)]
  {
    assert rows[..i + 1][..i] == rows[..i];
  }

  /** `generate_workout_payload(workout_name, df)` for a frame whose index is its row positions. */
  method GenerateWorkoutPayload(workoutName: string, rows: seq<CsvRow>) returns (p: Payload)
    ensures p == Payload(workoutName, Build(Plan(rows), UtilsRestCodes(), 1))
  {
    var steps: seq<Step> := [];
    var counter: nat := 1;
    ghost var plan: seq<PlannedRow> := [];
    for i := 0 to |rows|
      invariant plan == Plan(rows[..i])
      invariant steps == Build(plan, UtilsRestCodes(), 1)
      invariant counter == 1 + TotalWidth(plan)
    {
      var row := PlanRow(rows[i], i);
      PlanSnoc(rows, i);
      steps, counter := EmitRow(steps, counter, row, UtilsRestCodes());
      BuildSnocFromOne(plan, row, UtilsRestCodes());
      plan := plan + [row];
    }
    assert rows[..|rows|] == rows;
    p := Payload(workoutName, steps);
  }

  // ---------------------------------------------------------------------------
  // What the payload promises

  /**
   * A description is never empty and never "0"; unless it is the placeholder,
   * it is ASCII, has no whitespace at its ends and no lower-case letter.
   */
  lemma DescriptionClean(raw: string)
    ensures var d := Description(raw);
      d != "EXERCICIO" ==>
        && AllAscii(d) && !IsSpace(d[0]) && !IsSpace(d[|d| - 1])
        && forall k :: 0 <= k < |d| ==> !IsLowerLetter(d[k])
  {
    SanitizeTextSpec(Str(raw));
  }

  /** The steps of the payload are numbered 1, 2, … with no gap or repeat, in the order they are listed. */
  lemma PayloadOrders(rows: seq<CsvRow>)
    ensures Orders(Build(Plan(rows), UtilsRestCodes(), 1)) == Range(1, TotalWidth(Plan(rows)))
  {
    BuildOrders(Plan(rows), UtilsRestCodes(), 1);
  }

  /**
   * Row `i` is planned with child id `i + 1`, the exercise that the keyword
   * lookup finds for its stripped note, and that note's description.
   */
  lemma PlanRowSpec(rows: seq<CsvRow>, i: nat)
    requires i < |rows|
    ensures var p := Plan(rows)[i];
      var raw := Strip(rows[i].note);
      && p.childId == i + 1
      && p.category == Some(GetExerciseData(Str(raw)).cat)
      && p.exerciseName == Some(GetExerciseData(Str(raw)).name)
      && p.description == Some(Description(raw))
      && (p.sets, p.reps, p.weight, p.rest) == (rows[i].sets, rows[i].reps, rows[i].weight, rows[i].rest)
  {
    PlanAt(rows, i);
  }
}
