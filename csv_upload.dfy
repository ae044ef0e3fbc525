/**
 * src/upload_csv.py: the catalogue is indexed by id, and each CSV row of a
 * workout is resolved through that index (or, failing that, by splitting its
 * id at the first '_') and written out through the shared step builder.
 */
module CsvUpload {
  import opened Wrappers
  import opened Text
  import opened Catalogue
  import opened WorkoutSteps

  /** The four numbers of a row, once converted. */
  datatype Numbers = Numbers(sets: int, reps: int, weight: real, rest: int)

  /**
   * One CSV row of a workout: the `str()` of its `exercicio` cell, its note
   * (`None` when the cell is missing), and its numbers (`None` when one of
   * them fails to convert).
   */
  datatype UploadRow = UploadRow(exerciseId: string, note: Option<string>, numbers: Option<Numbers>)

  /** This copy's rest step: step type 4, ending on time (condition 2). */
  function CsvRestCodes(): RestCodes {
    RestCodes(4, 2)
  }

  /** The numbers used for a row whose numbers do not convert. */
  function DefaultNumbers(): Numbers {
    Numbers(1, 10, 0.0, 60)
  }

  /** `load_exercise_db`: the records keyed by id; an empty index when the file is missing. */
  function LoadExerciseDb(data: Option<seq<CatalogueRecord>>): map<string, CatalogueRecord> {
    match data
    case None => map[]
    case Some(records) => IndexById(records).byId
  }

  /** An id is indexed exactly when some record carries it, and then maps to the last such record. */
  lemma LoadExerciseDbSpec(data: Option<seq<CatalogueRecord>>, id: string)
    ensures data.None? ==> LoadExerciseDb(data) == map[]
    ensures data.Some? ==>
      && (id in LoadExerciseDb(data) <==> exists i :: 0 <= i < |data.value| && data.value[i].id == id)
      && (id in LoadExerciseDb(data) ==> LastWithId(data.value, id, LoadExerciseDb(data)[id]))
  {
    if data.Some? {
      IndexByIdSpec(data.value, id);
    }
  }

  /** Categories that the upload sends as no category at all. */
  predicate Discarded(category: string) {
    category == "UNCATEGORIZED" || category == "NOT_FOUND" || category == "nan"
  }

  /**
   * Category and exercise name of an id: the cached record's category and
   * internal key; otherwise the id split at its first '_', or the id twice
   * when it has none. A discarded category clears both.
   */
  function ResolveExercise(id: string, cache: map<string, CatalogueRecord>): (Option<string>, Option<string>) {
    var (category, name) :=
      if id in cache then (cache[id].category, cache[id].internalKey)
      else match SplitFirst(id, '_')
        case Some((head, tail)) => (head, tail)
        case None => (id, id);
    if Discarded(category) then (None, None) else (Some(category), Some(name))
  }

  /**
   * Either both category and name are sent or neither is. A cached id takes
   * both from its record, unless the category is discarded. An unknown id is
   * split at its first '_' into a category without '_' and a name that rejoin
   * to the id; without '_' both are the id itself.
   */
  lemma ResolveExerciseSpec(id: string, cache: map<string, CatalogueRecord>)
    ensures var (c, n) := ResolveExercise(id, cache);
      && (c.None? <==> n.None?)
      && (id in cache ==>
            && (c.None? <==> Discarded(cache[id].category))
            && (c.Some? ==> c.value == cache[id].category && n.value == cache[id].internalKey))
      && (id !in cache && '_' !in id ==> (c.None? <==> Discarded(id)) && (c.Some? ==> c.value == id && n.value == id))
      && (id !in cache && '_' in id && c.Some? ==> c.value + "_" + n.value == id && '_' !in c.value)
  {
    SplitFirstSpec(id, '_');
    if '_' in id {
      var k :| 0 <= k < |id| && id[k] == '_';
      assert SplitFirst(id, '_').Some?;
    } else {
      assert SplitFirst(id, '_').None?;
    }
  }

  /** The row at position `i`, planned: child id `i + 1`, and no description for an empty note. */
  function PlanRow(r: UploadRow, i: nat, cache: map<string, CatalogueRecord>): PlannedRow {
    var id := Strip(r.exerciseId);
    var note := if r.note.Some? then Strip(r.note.value) else "";
    var n := r.numbers.GetOr(DefaultNumbers());
    var (category, name) := ResolveExercise(id, cache);
    PlannedRow(i + 1, if note != "" then Some(note) else None, category, name, n.sets, n.reps, n.weight, n.rest)
  }

  /** The planned rows, one per CSV row, in order. */
  function Plan(rows: seq<UploadRow>, cache: map<string, CatalogueRecord>): (ps: seq<PlannedRow>)
    ensures |ps| == |rows|
  {
    if rows == [] then [] else Plan(rows[..|rows| - 1], cache) + [PlanRow(rows[|rows| - 1], |rows| - 1, cache)]
  }

  lemma {:induction false} PlanAt(rows: seq<UploadRow>, cache: map<string, CatalogueRecord>, i: nat)
    requires i < |rows|
    ensures Plan(rows, cache)[i] == PlanRow(rows[i], i, cache)
  {
    if i < |rows| - 1 {
      PlanAt(rows[..|rows| - 1], cache, i);
    }
  }

  /** `generate_payload(workout_name, group_df, db_cache)`. */
  method GeneratePayload(workoutName: string, rows: seq<UploadRow>, cache: map<string, CatalogueRecord>)
    returns (p: Payload)
    ensures p == Payload(workoutName, Build(Plan(rows, cache), CsvRestCodes(), 1))
  {
    var steps: seq<Step> := [];
    var counter: nat := 1;
    ghost var plan: seq<PlannedRow> := [];
    for i := 0 to |rows|
      invariant plan == Plan(rows[..i], cache)
      invariant steps == Build(plan, CsvRestCodes(), 1)
      invariant counter == 1 + TotalWidth(plan)
    {
      var row := PlanRow(rows[i], i, cache);
      assert rows[..i + 1][..i] == rows[..i];
      steps, counter := EmitRow(steps, counter, row, CsvRestCodes());
      BuildSnocFromOne(plan, row, CsvRestCodes());
      plan := plan + [row];
    }
    assert rows[..|rows|] == rows;
    p := Payload(workoutName, steps);
  }

  // ---------------------------------------------------------------------------
  // What the payload promises

  /** The steps of the payload are numbered 1, 2, … with no gap or repeat, in the order they are listed. */
  lemma PayloadOrders(rows: seq<UploadRow>, cache: map<string, CatalogueRecord>)
    ensures Orders(Build(Plan(rows, cache), CsvRestCodes(), 1)) == Range(1, TotalWidth(Plan(rows, cache)))
  {
    BuildOrders(Plan(rows, cache), CsvRestCodes(), 1);
  }

  /**
   * Row `i` is planned with child id `i + 1` and the exercise its stripped id
   * resolves to; a row whose numbers do not convert gets 1 set of 10 reps,
   * no weight and 60 seconds of rest.
   */
  lemma PlanRowSpec(rows: seq<UploadRow>, cache: map<string, CatalogueRecord>, i: nat)
    requires i < |rows|
    ensures var p := Plan(rows, cache)[i];
      && p.childId == i + 1
      && (p.category, p.exerciseName) == ResolveExercise(Strip(rows[i].exerciseId), cache)
      && (rows[i].numbers.None? ==> p.sets == 1 && p.reps == 10 && p.weight == 0.0 && p.rest == 60)
      && (rows[i].numbers.Some? ==> (p.sets, p.reps, p.weight, p.rest) == (
            rows[i].numbers.value.sets, rows[i].numbers.value.reps, rows[i].numbers.value.weight, rows[i].numbers.value.rest))
      && (p.description.Some? <==> rows[i].note.Some? && Strip(rows[i].note.value) != "")
  {
    PlanAt(rows, cache, i);
  }
}
