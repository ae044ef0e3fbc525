/**
 * src/app.py: the web front end keeps the catalogue in a process-wide cache
 * keyed by id, lists it sorted by label, and turns the steps posted by the
 * page into a workout through the shared step builder, skipping every step
 * whose exercise the cache does not hold.
 */
module WebApp {
  import opened Wrappers
  import opened Catalogue
  import opened WorkoutSteps

  /**
   * One step posted by the page. `None` stands for a key that is missing
   * (and, for weight, rest and note, also for a `null` value).
   */
  datatype UiStep = UiStep(
    exerciseId: Option<string>, sets: Option<int>, reps: Option<int>,
    weight: Option<real>, rest: Option<int>, note: Option<string>)

  /** The posted body: the workout's name and its steps (an absent list is empty). */
  datatype UploadRequest = UploadRequest(workoutName: Option<string>, steps: seq<UiStep>)

  /** What `api_upload` answers before the network call: a 400, a 500, or the payload it sends. */
  datatype UploadResult = MissingName | AuthFailed | Ready(payload: Payload)

  /** This copy's rest step: step type 5, ending on time (condition 1). */
  function AppRestCodes(): RestCodes {
    RestCodes(5, 1)
  }

  /** A step is kept when its exercise id is in the cache. */
  predicate Kept(byId: map<string, CatalogueRecord>, s: UiStep) {
    s.exerciseId.Some? && s.exerciseId.value in byId
  }

  /** The step at position `i` with its cached record: 1 set of 10 reps, no weight and no rest unless given. */
  function PlanStep(s: UiStep, i: nat, r: CatalogueRecord): PlannedRow {
    PlannedRow(
      i + 1, if s.note.Some? && s.note.value != "" then s.note else None,
      Some(r.category), Some(r.internalKey),
      s.sets.GetOr(1), s.reps.GetOr(10), s.weight.GetOr(0.0), s.rest.GetOr(0))
  }

  /** The planned rows of the kept steps, in input order; each keeps its position in the posted list. */
  function Plan(byId: map<string, CatalogueRecord>, steps: seq<UiStep>): (ps: seq<PlannedRow>)
    ensures |ps| <= |steps|
  {
    if steps == [] then []
    else
      var init := Plan(byId, steps[..|steps| - 1]);
      var s := steps[|steps| - 1];
      if Kept(byId, s) then init + [PlanStep(s, |steps| - 1, byId[s.exerciseId.value])] else init
  }

  /**
   * Every planned row comes from a kept step: its child id is that step's
   * position plus one, its category and exercise name are the cached
   * record's, and its description is the step's note unless that is empty.
   */
  lemma {:induction false} PlanSound(byId: map<string, CatalogueRecord>, steps: seq<UiStep>, k: nat)
    requires k < |Plan(byId, steps)|
    ensures var p := Plan(byId, steps)[k];
      && 1 <= p.childId <= |steps|
      && var s := steps[p.childId - 1];
      && Kept(byId, s)
      && p.category == Some(byId[s.exerciseId.value].category)
      && p.exerciseName == Some(byId[s.exerciseId.value].internalKey)
      && (p.description.Some? <==> s.note.Some? && s.note.value != "")
      && (p.description.Some? ==> p.description == s.note)
      && (p.sets, p.reps, p.weight, p.rest) == (s.sets.GetOr(1), s.reps.GetOr(10), s.weight.GetOr(0.0), s.rest.GetOr(0))
  {
    var init := steps[..|steps| - 1];
    if k < |Plan(byId, init)| {
      PlanSound(byId, init, k);
      var p := Plan(byId, init)[k];
      assert steps[p.childId - 1] == init[p.childId - 1];
    }
  }

  /** The rows keep the input order: child ids strictly increase, though skipped steps leave gaps. */
  lemma {:induction false} PlanIncreasing(byId: map<string, CatalogueRecord>, steps: seq<UiStep>, k: nat, l: nat)
    requires k < l < |Plan(byId, steps)|
    ensures Plan(byId, steps)[k].childId < Plan(byId, steps)[l].childId
  {
    var init := steps[..|steps| - 1];
    if l < |Plan(byId, init)| {
      PlanIncreasing(byId, init, k, l);
    } else {
      PlanSound(byId, init, k);
    }
  }

  /** Every kept step has its row. */
  lemma {:induction false} PlanComplete(byId: map<string, CatalogueRecord>, steps: seq<UiStep>, j: nat)
    requires j < |steps| && Kept(byId, steps[j])
    ensures exists k :: 0 <= k < |Plan(byId, steps)| && Plan(byId, steps)[k].childId == j + 1
  {
    var init := steps[..|steps| - 1];
    if j < |steps| - 1 {
      PlanComplete(byId, init, j);
      var k :| 0 <= k < |Plan(byId, init)| && Plan(byId, init)[k].childId == j + 1;
      assert Plan(byId, steps)[k] == Plan(byId, init)[k];
    } else {
      assert Plan(byId, steps)[|Plan(byId, init)|].childId == j + 1;
    }
  }

  /** With nothing cached, every step is skipped. */
  lemma {:induction false} PlanEmptyCache(steps: seq<UiStep>)
    ensures Plan(map[], steps) == []
  {
    if steps != [] {
      PlanEmptyCache(steps[..|steps| - 1]);
    }
  }

  /** The process-wide state of the web app: `EXERCISE_CACHE`. */
  class App {
    var cache: RecordIndex

    ghost predicate Valid()
      reads this
    {
      WellFormedIndex(cache)
    }

    /** The app starts with an empty cache. */
    constructor()
      ensures Valid() && cache == RecordIndex([], map[])
    {
      cache := RecordIndex([], map[]);
    }

    /**
     * `load_exercise_db`: nothing happens once the cache holds a record;
     * otherwise the file's records (`None` when it cannot be read or parsed)
     * replace it, keyed by id.
     */
    method LoadExerciseDb(data: Option<seq<CatalogueRecord>>)
      requires Valid()
      modifies this
      ensures Valid()
      ensures old(cache.byId) != map[] || data.None? ==> cache == old(cache)
      ensures old(cache.byId) == map[] && data.Some? ==> cache == IndexById(data.value)
    {
      if cache.byId != map[] {
        return;
      }
      match data {
        case None =>
        case Some(records) =>
          IndexByIdWellFormed(records);
          cache := IndexById(records);
      }
    }

    /** `api_exercises`: load the cache, then list its records sorted by label. */
    method Exercises(data: Option<seq<CatalogueRecord>>) returns (list: seq<CatalogueRecord>)
      requires Valid()
      modifies this
      ensures Valid()
      ensures old(cache.byId) != map[] || data.None? ==> cache == old(cache)
      ensures old(cache.byId) == map[] && data.Some? ==> cache == IndexById(data.value)
      ensures list == SortByLabel(Values(cache))
    {
      LoadExerciseDb(data);
      list := Values(cache);
      list := SortRecords(list);
    }

    /**
     * `api_upload` up to the network call: a missing or empty name is
     * refused first, a failed sign-in next, and otherwise the kept steps are
     * built into the payload in one pass with a running step counter.
     */
    method Upload(req: UploadRequest, authenticated: bool) returns (r: UploadResult)
      ensures req.workoutName.None? || req.workoutName.value == "" <==> r == MissingName
      ensures r == AuthFailed <==> req.workoutName.Some? && req.workoutName.value != "" && !authenticated
      ensures r.Ready? ==> r.payload == Payload(req.workoutName.value, Build(Plan(cache.byId, req.steps), AppRestCodes(), 1))
      ensures r.Ready? || r == MissingName || r == AuthFailed
    {
      if req.workoutName.None? || req.workoutName.value == "" {
        return MissingName;
      }
      if !authenticated {
        return AuthFailed;
      }
      var steps: seq<Step> := [];
      var counter: nat := 1;
      ghost var plan: seq<PlannedRow> := [];
      for i := 0 to |req.steps|
        invariant plan == Plan(cache.byId, req.steps[..i])
        invariant steps == Build(plan, AppRestCodes(), 1)
        invariant counter == 1 + TotalWidth(plan)
      {
        var s := req.steps[i];
        assert req.steps[..i + 1][..i] == req.steps[..i];
        if s.exerciseId.Some? && s.exerciseId.value in cache.byId {
          var row := PlanStep(s, i, cache.byId[s.exerciseId.value]);
          steps, counter := EmitRow(steps, counter, row, AppRestCodes());
          BuildSnocFromOne(plan, row, AppRestCodes());
          plan := plan + [row];
        }
      }
      assert req.steps[..|req.steps|] == req.steps;
      r := Ready(Payload(req.workoutName.value, steps));
    }
  }

  /**
   * The listing is the dict's values reordered: ascending by label, one
   * entry per key, every key's record among them and nothing else.
   */
  lemma ListingSpec(ix: RecordIndex)
    requires WellFormedIndex(ix)
    ensures var list := SortByLabel(Values(ix));
      && SortedByLabel(list)
      && |list| == |ix.order|
      && multiset(list) == multiset(Values(ix))
      && (forall k :: k in ix.byId ==> ix.byId[k] in list)
      && (forall x :: x in list ==> exists k :: k in ix.byId && ix.byId[k] == x)
  {
    var vals := Values(ix);
    IndexValues(ix);
    SortByLabelSorted(vals);
    var list := SortByLabel(vals);
    assert |list| == |vals| by {
      assert |multiset(list)| == |multiset(vals)|;
    }
    forall x
      ensures x in list <==> x in vals
    {
      assert x in list <==> x in multiset(list);
      assert x in vals <==> x in multiset(vals);
    }
  }

  /** The dict's values: one per key, each key's record among them, and nothing else. */
  lemma IndexValues(ix: RecordIndex)
    requires WellFormedIndex(ix)
    ensures var vals := Values(ix);
      && |vals| == |ix.order|
      && (forall k :: k in ix.byId ==> ix.byId[k] in vals)
      && (forall x :: x in vals ==> exists k :: k in ix.byId && ix.byId[k] == x)
  {
    var vals := Values(ix);
    ValuesSpec(ix.order, ix.byId);
    forall k | k in ix.byId
      ensures ix.byId[k] in vals
    {
      var i :| 0 <= i < |ix.order| && ix.order[i] == k;
      assert vals[i] == ix.byId[k];
    }
    forall x | x in vals
      ensures exists k :: k in ix.byId && ix.byId[k] == x
    {
      var i :| 0 <= i < |vals| && vals[i] == x;
      assert ix.order[i] in ix.byId;
    }
  }

  /**
   * The payload's steps are numbered 1, 2, … in the order they are listed,
   * and there is one row for each kept step; with an empty cache the workout
   * has no step at all.
   */
  lemma UploadPayloadSpec(byId: map<string, CatalogueRecord>, steps: seq<UiStep>)
    ensures Orders(Build(Plan(byId, steps), AppRestCodes(), 1)) == Range(1, TotalWidth(Plan(byId, steps)))
    ensures byId == map[] ==> Build(Plan(byId, steps), AppRestCodes(), 1) == []
  {
    BuildOrders(Plan(byId, steps), AppRestCodes(), 1);
    if byId == map[] {
      PlanEmptyCache(steps);
      assert Range(1, TotalWidth(Plan(byId, steps))) == [];
    }
  }
}
