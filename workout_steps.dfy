/**
 * The step tree that all three workout uploaders build (src/utils.py,
 * src/upload_csv.py and the loop of `api_upload` in src/app.py).
 *
 * Each planned row yields an exercise step, a rest step when its rest is
 * positive, and, when it has more than one set, a repeat group that wraps
 * them. A single counter, starting at 1, hands out `stepOrder` values in
 * the order the steps are written out: a group takes its number before its
 * children. The copies differ in how a row is planned and in the two codes
 * of the rest step; both are parameters here.
 */
module WorkoutSteps {
  import opened Wrappers
  import opened Text

  /** The rest step's `stepTypeId` and its end condition's `conditionTypeId`. */
  datatype RestCodes = RestCodes(stepTypeId: nat, conditionTypeId: nat)

  /** One row of a workout, with its exercise resolved and its numbers read. */
  datatype PlannedRow = PlannedRow(
    childId: int,
    description: Option<string>,
    category: Option<string>,
    exerciseName: Option<string>,
    sets: int,
    reps: int,
    weight: real,
    rest: int)

  /** An `ExecutableStepDTO`: an exercise (step type "interval", ends after reps) or a rest (ends after time). */
  datatype ExecStep =
    | ExerciseStep(
        order: nat, childId: int, description: Option<string>, category: Option<string>,
        exerciseName: Option<string>, reps: int, weight: Option<real>)
    | RestStep(order: nat, childId: int, note: string, seconds: nat, codes: RestCodes)

  /** A top-level step: an executable step or a `RepeatGroupDTO` around executable steps. */
  datatype Step =
    | Exec(step: ExecStep)
    | Group(order: nat, childId: int, iterations: int, children: seq<ExecStep>)

  /** The payload: the workout's name and its single segment's steps. */
  datatype Payload = Payload(workoutName: string, steps: seq<Step>)

  // ---------------------------------------------------------------------------
  // The steps of one row, and of a list of rows

  /** How many `stepOrder` values a row uses. */
  function Width(p: PlannedRow): nat {
    (if p.sets > 1 then 1 else 0) + 1 + (if p.rest > 0 then 1 else 0)
  }

  /** How many `stepOrder` values a list of rows uses. */
  function TotalWidth(ps: seq<PlannedRow>): nat {
    Span(ps, Width)
  }

  /** The exercise step of a row: at least one rep, and a weight only when it is positive. */
  function ExerciseOf(p: PlannedRow, order: nat): ExecStep {
    ExerciseStep(
      order, p.childId, p.description, p.category, p.exerciseName,
      if p.reps > 0 then p.reps else 1,
      if p.weight > 0.0 then Some(p.weight) else None)
  }

  /** The rest step of a row, described as the number of seconds followed by "s". */
  function RestOf(p: PlannedRow, codes: RestCodes, order: nat): ExecStep
    requires p.rest > 0
  {
    RestStep(order, p.childId, Decimal(p.rest) + "s", p.rest, codes)
  }

  /** The row's rest step, numbered `order`, when its rest is positive. */
  function RestPart(p: PlannedRow, codes: RestCodes, order: nat): seq<ExecStep> {
    if p.rest > 0 then [RestOf(p, codes, order)] else []
  }

  /** The steps one row adds when the counter stands at `c`. */
  function RowSteps(p: PlannedRow, codes: RestCodes, c: nat): seq<Step> {
    if p.sets > 1 then [Group(c, p.childId, p.sets, [ExerciseOf(p, c + 1)] + RestPart(p, codes, c + 2))]
    else if p.rest > 0 then [Exec(ExerciseOf(p, c)), Exec(RestOf(p, codes, c + 1))]
    else [Exec(ExerciseOf(p, c))]
  }

  function RowEmitter(codes: RestCodes): (PlannedRow, nat) -> seq<Step> {
    (p: PlannedRow, c: nat) => RowSteps(p, codes, c)
  }

  /** The steps of a list of rows, the counter starting at `c`. */
  function Build(ps: seq<PlannedRow>, codes: RestCodes, c: nat): seq<Step> {
    Emit(ps, Width, RowEmitter(codes), c)
  }

  // ---------------------------------------------------------------------------
  // Rows written out one after another, each taking the next `width` numbers

  function Span<R>(rows: seq<R>, width: R -> nat): nat {
    if rows == [] then 0 else Span(rows[..|rows| - 1], width) + width(rows[|rows| - 1])
  }

  /** Each row's items, emitted with the counter the rows before it leave. */
  function Emit<R, S>(rows: seq<R>, width: R -> nat, emit: (R, nat) -> seq<S>, c: nat): seq<S> {
    if rows == [] then []
    else
      var init := rows[..|rows| - 1];
      Emit(init, width, emit, c) + emit(rows[|rows| - 1], c + Span(init, width))
  }

  /** Emitting two lists of rows one after the other is emitting the joined list. */
  lemma {:induction false} EmitAppend<R, S>(ps: seq<R>, qs: seq<R>, width: R -> nat, emit: (R, nat) -> seq<S>, c: nat)
    ensures Emit(ps + qs, width, emit, c) == Emit(ps, width, emit, c) + Emit(qs, width, emit, c + Span(ps, width))
    ensures Span(ps + qs, width) == Span(ps, width) + Span(qs, width)
  {
    if qs == [] {
      assert ps + qs == ps;
    } else {
      var init, last := qs[..|qs| - 1], qs[|qs| - 1];
      EmitAppend(ps, init, width, emit, c);
      assert (ps + qs)[..|ps + qs| - 1] == ps + init;
      assert (ps + qs)[|ps + qs| - 1] == last;
    }
  }

  // ---------------------------------------------------------------------------
  // Step orders in pre-order

  function ChildOrders(children: seq<ExecStep>): seq<nat> {
    seq(|children|, i requires 0 <= i < |children| => children[i].order)
  }

  function StepOrders(s: Step): seq<nat> {
    match s
    case Exec(e) => [e.order]
    case Group(order, _, _, children) => [order] + ChildOrders(children)
  }

  /** The `stepOrder` values in the order the payload lists them, a group before its children. */
  function Orders(steps: seq<Step>): seq<nat> {
    if steps == [] then [] else Orders(steps[..|steps| - 1]) + StepOrders(steps[|steps| - 1])
  }

  /** `a, a + 1, …, a + n - 1`. */
  function Range(a: nat, n: nat): seq<nat> {
    seq(n, i requires 0 <= i < n => a + i)
  }

  lemma {:induction false} OrdersAppend(a: seq<Step>, b: seq<Step>)
    ensures Orders(a + b) == Orders(a) + Orders(b)
  {
    if b != [] {
      var init := b[..|b| - 1];
      OrdersAppend(a, init);
      assert (a + b)[..|a + b| - 1] == a + init;
      assert (a + b)[|a + b| - 1] == b[|b| - 1];
    } else {
      assert a + b == a;
    }
  }

  lemma RangeAppend(a: nat, m: nat, n: nat)
    ensures Range(a, m) + Range(a + m, n) == Range(a, m + n)
  {
  }

  /** A row's steps take exactly the next `Width` numbers, in order. */
  lemma RowStepsOrders(p: PlannedRow, codes: RestCodes, c: nat)
    ensures Orders(RowSteps(p, codes, c)) == Range(c, Width(p))
  {
    var steps := RowSteps(p, codes, c);
    if p.sets > 1 {
      assert Orders(steps) == Orders([]) + StepOrders(steps[0]);
    } else if p.rest > 0 {
      assert steps[..1] == [Exec(ExerciseOf(p, c))];
      assert Orders(steps[..1]) == Orders([]) + [c];
    } else {
      assert Orders(steps) == Orders([]) + [c];
    }
  }

  /**
   * The counter hands out `c, c + 1, …` with no gap and no repeat: the orders
   * are consecutive, each used once, in the order the steps are listed.
   */
  lemma {:induction false} BuildOrders(ps: seq<PlannedRow>, codes: RestCodes, c: nat)
    ensures Orders(Build(ps, codes, c)) == Range(c, TotalWidth(ps))
  {
    if ps != [] {
      var init, last := ps[..|ps| - 1], ps[|ps| - 1];
      assert ps == init + [last];
      BuildSnoc(init, last, codes, c);
      BuildOrders(init, codes, c);
      RowStepsOrders(last, codes, c + TotalWidth(init));
      OrdersConsecutive(Build(init, codes, c), RowSteps(last, codes, c + TotalWidth(init)), c, TotalWidth(init), Width(last));
    } else {
      assert Range(c, 0) == [];
    }
  }

  /** Steps numbered `c, …` followed by steps numbered on from there are numbered `c, …` throughout. */
  lemma OrdersConsecutive(a: seq<Step>, b: seq<Step>, c: nat, m: nat, n: nat)
    requires Orders(a) == Range(c, m) && Orders(b) == Range(c + m, n)
    ensures Orders(a + b) == Range(c, m + n)
  {
    OrdersAppend(a, b);
    RangeAppend(c, m, n);
  }

  /** Adding a row at the end adds its steps, numbered after all the earlier rows' steps. */
  lemma BuildSnoc(ps: seq<PlannedRow>, p: PlannedRow, codes: RestCodes, c: nat)
    ensures Build(ps + [p], codes, c) == Build(ps, codes, c) + RowSteps(p, codes, c + TotalWidth(ps))
    ensures TotalWidth(ps + [p]) == TotalWidth(ps) + Width(p)
  {
    assert (ps + [p])[..|ps + [p]| - 1] == ps;
  }

  /** `BuildSnoc` for a build that starts counting at 1, in the terms of a running counter. */
  lemma BuildSnocFromOne(ps: seq<PlannedRow>, p: PlannedRow, codes: RestCodes)
    ensures Build(ps + [p], codes, 1) == Build(ps, codes, 1) + RowSteps(p, codes, 1 + TotalWidth(ps))
    ensures 1 + TotalWidth(ps + [p]) == 1 + TotalWidth(ps) + Width(p)
  {
    BuildSnoc(ps, p, codes, 1);
  }

  /**
   * Row `i`'s steps sit between the steps of the rows before it and those of
   * the rows after it, numbered from the counter the earlier rows leave.
   */
  lemma BuildRow(ps: seq<PlannedRow>, codes: RestCodes, c: nat, i: nat)
    requires i < |ps|
    ensures Build(ps, codes, c) ==
      Build(ps[..i], codes, c) + RowSteps(ps[i], codes, c + TotalWidth(ps[..i]))
      + Build(ps[i + 1..], codes, c + TotalWidth(ps[..i + 1]))
  {
    var before, after := ps[..i + 1], ps[i + 1..];
    assert ps == before + after;
    BuildAppend(before, after, codes, c);
    assert before == ps[..i] + [ps[i]];
    BuildSnoc(ps[..i], ps[i], codes, c);
    var x, y, z := Build(ps[..i], codes, c), RowSteps(ps[i], codes, c + TotalWidth(ps[..i])),
      Build(after, codes, c + TotalWidth(before));
    assert Build(ps, codes, c) == (x + y) + z;
  }

  /** Building two lists of rows one after the other is building the joined list. */
  lemma BuildAppend(ps: seq<PlannedRow>, qs: seq<PlannedRow>, codes: RestCodes, c: nat)
    ensures Build(ps + qs, codes, c) == Build(ps, codes, c) + Build(qs, codes, c + TotalWidth(ps))
  {
    EmitAppend(ps, qs, Width, RowEmitter(codes), c);
  }

  // ---------------------------------------------------------------------------
  // The shape of one row's steps

  /** The executable steps of a list of steps, in the order they are listed. */
  function Execs(steps: seq<Step>): seq<ExecStep> {
    if steps == [] then []
    else
      var last := steps[|steps| - 1];
      Execs(steps[..|steps| - 1]) + (match last case Exec(e) => [e] case Group(_, _, _, children) => children)
  }

  /**
   * A row gives one repeat group exactly when it has more than one set; the
   * group repeats the row's sets, is numbered before its children and wraps
   * all of the row's executable steps. Those are the exercise and, exactly
   * when the rest is positive, a rest of that many seconds. Every step
   * carries the row's child id.
   */
  lemma RowStepsShape(p: PlannedRow, codes: RestCodes, c: nat)
    ensures var steps := RowSteps(p, codes, c);
      && (exists k :: 0 <= k < |steps| && steps[k].Group?) == (p.sets > 1)
      && (p.sets > 1 ==>
            && |steps| == 1 && steps[0].order == c && steps[0].iterations == p.sets
            && steps[0].childId == p.childId && steps[0].children == Execs(steps)
            && (forall k :: 0 <= k < |steps[0].children| ==> c < steps[0].children[k].order))
      && |Execs(steps)| == (if p.rest > 0 then 2 else 1)
      && Execs(steps)[0].ExerciseStep?
      && (p.rest > 0 <==> exists k :: 0 <= k < |Execs(steps)| && Execs(steps)[k].RestStep?)
      && (p.rest > 0 ==> Execs(steps)[1] == RestStep(Execs(steps)[1].order, p.childId, Decimal(p.rest) + "s", p.rest, codes))
      && forall k :: 0 <= k < |Execs(steps)| ==> Execs(steps)[k].childId == p.childId
  {
    var steps := RowSteps(p, codes, c);
    if p.sets > 1 {
      assert Execs(steps) == Execs([]) + steps[0].children;
      if p.rest > 0 {
        assert Execs(steps)[1].RestStep?;
      }
    } else if p.rest > 0 {
      assert steps[..1] == [Exec(ExerciseOf(p, c))];
      assert Execs(steps[..1]) == Execs([]) + [ExerciseOf(p, c)];
      assert Execs(steps) == [ExerciseOf(p, c), RestOf(p, codes, c + 1)];
      assert Execs(steps)[1].RestStep?;
    } else {
      assert Execs(steps) == Execs([]) + [ExerciseOf(p, c)];
    }
  }

  /**
   * The exercise step asks for at least one rep (the row's reps when positive),
   * carries a weight exactly when the row's weight is positive, and copies the
   * row's description, category and exercise name.
   */
  lemma ExerciseShape(p: PlannedRow, order: nat)
    ensures var e := ExerciseOf(p, order);
      && e.reps >= 1 && (p.reps > 0 ==> e.reps == p.reps)
      && (e.weight.Some? <==> p.weight > 0.0) && (e.weight.Some? ==> e.weight.value == p.weight)
      && e.description == p.description && e.category == p.category && e.exerciseName == p.exerciseName
  {
  }

  // ---------------------------------------------------------------------------
  // The loop body the three copies share

  /**
   * Emits one row's steps: the counter is read for the group (if any), then
   * for the exercise, then for the rest (if any), moving on after each.
   */
  method EmitRow(steps: seq<Step>, counter: nat, p: PlannedRow, codes: RestCodes)
    returns (steps': seq<Step>, counter': nat)
    ensures steps' == steps + RowSteps(p, codes, counter)
    ensures counter' == counter + Width(p)
  {
    var next := counter;
    if p.sets > 1 {
      var groupOrder := next;
      next := next + 1;
      var block := [ExerciseOf(p, next)];
      next := next + 1;
      if p.rest > 0 {
        block := block + [RestOf(p, codes, next)];
        next := next + 1;
      }
      assert block == [ExerciseOf(p, counter + 1)] + RestPart(p, codes, counter + 2);
      steps' := steps + [Group(groupOrder, p.childId, p.sets, block)];
    } else {
      steps' := steps + [Exec(ExerciseOf(p, next))];
      next := next + 1;
      if p.rest > 0 {
        steps' := steps' + [Exec(RestOf(p, codes, next))];
        assert steps' == steps + [Exec(ExerciseOf(p, counter)), Exec(RestOf(p, codes, counter + 1))];
        next := next + 1;
      }
    }
    counter' := next;
  }
}
