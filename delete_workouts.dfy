/**
 * src/delete_workout.py: the workouts whose name holds a filter (or all of
 * them) are listed, confirmed by typing 'SIM', and deleted one request at a
 * time, counting the requests that succeed.
 */
module DeleteWorkouts {
  import opened Wrappers
  import opened Text

  /** One element of the listed workouts: an object (`None` for an absent key), or anything else. */
  datatype Entry = Workout(name: Option<string>, id: Option<string>) | NotAnObject

  /** What listing the workouts gave: a list (empty when the request raised), or another value. */
  datatype Listing = ListOf(entries: seq<Entry>) | NotAList

  /** How `delete_workouts` ends. */
  datatype DeleteResult =
    | NoCriteria
    | BadResponse
    | NothingFound
    | Cancelled(targets: seq<Entry>)
    | Deleted(targets: seq<Entry>, run: Run)

  /**
   * The delete loop: the ids it sent a DELETE for, in order; how many of
   * those succeeded; and whether a target without `workoutId` or
   * `workoutName` ended the loop with a `KeyError`.
   */
  datatype Run = Run(attempted: seq<string>, count: nat, interrupted: bool)

  /** A filter is given when it is present and not empty. */
  predicate HasFilter(filter: Option<string>) {
    filter.Some? && filter.value != ""
  }

  /** An entry is a target: every object with `--all`, else every object whose name holds the filter. */
  predicate Selects(filter: Option<string>, deleteAll: bool, e: Entry) {
    e.Workout? && (deleteAll || (HasFilter(filter) && Contains(e.name.GetOr(""), filter.value)))
  }

  /** The targets, in listing order. */
  function Targets(entries: seq<Entry>, filter: Option<string>, deleteAll: bool): seq<Entry> {
    if entries == [] then []
    else
      var init := Targets(entries[..|entries| - 1], filter, deleteAll);
      var e := entries[|entries| - 1];
      if Selects(filter, deleteAll, e) then init + [e] else init
  }

  /** A target the loop can read both keys of. */
  predicate Deletable(t: Entry) {
    t.Workout? && t.id.Some? && t.name.Some?
  }

  /**
   * The delete loop over `targets`, where the i-th DELETE request succeeds
   * exactly when `succeeds(i)`.
   */
  function RunOf(targets: seq<Entry>, succeeds: nat -> bool): Run {
    if targets == [] then Run([], 0, false)
    else
      var r := RunOf(targets[..|targets| - 1], succeeds);
      var t := targets[|targets| - 1];
      if r.interrupted then r
      else if Deletable(t) then
        Run(r.attempted + [t.id.value], r.count + if succeeds(|r.attempted|) then 1 else 0, false)
      else Run(r.attempted, r.count, true)
  }

  /** How many of the first `n` requests succeed. */
  function Successes(succeeds: nat -> bool, n: nat): nat {
    if n == 0 then 0 else Successes(succeeds, n - 1) + if succeeds(n - 1) then 1 else 0
  }

  /**
   * `delete_workouts(filter_name, delete_all)`, with the listing, the typed
   * confirmation and the outcome of each DELETE request as inputs.
   */
  method DeleteWorkoutsRun(
    filter: Option<string>, deleteAll: bool, listing: Listing, confirm: string, succeeds: nat -> bool)
    returns (r: DeleteResult)
    ensures !HasFilter(filter) && !deleteAll <==> r == NoCriteria
    ensures r == BadResponse <==> (HasFilter(filter) || deleteAll) && listing.NotAList?
    ensures r == NothingFound <==>
      (HasFilter(filter) || deleteAll) && listing.ListOf? && Targets(listing.entries, filter, deleteAll) == []
    ensures r.Cancelled? ==> confirm != "SIM" && r.targets == Targets(listing.entries, filter, deleteAll)
    ensures r.Deleted? ==>
      && confirm == "SIM"
      && r.targets == Targets(listing.entries, filter, deleteAll)
      && r.run == RunOf(r.targets, succeeds)
    ensures r.Cancelled? || r.Deleted? ==> r.targets != [] && listing.ListOf? && (HasFilter(filter) || deleteAll)
  {
    if !HasFilter(filter) && !deleteAll {
      return NoCriteria;
    }
    if listing.NotAList? {
      return BadResponse;
    }
    var entries := listing.entries;
    var targets: seq<Entry> := [];
    for i := 0 to |entries|
      invariant targets == Targets(entries[..i], filter, deleteAll)
    {
      assert entries[..i + 1][..i] == entries[..i];
      var e := entries[i];
      if e.Workout? {
        var name := e.name.GetOr("");
        if deleteAll {
          targets := targets + [e];
        } else if HasFilter(filter) && Contains(name, filter.value) {
          targets := targets + [e];
        }
      }
    }
    assert entries[..|entries|] == entries;
    if targets == [] {
      return NothingFound;
    }
    if confirm != "SIM" {
      return Cancelled(targets);
    }
    var attempted: seq<string> := [];
    var count: nat := 0;
    var interrupted := false;
    var i := 0;
    while i < |targets|
      invariant 0 <= i <= |targets|
      invariant Run(attempted, count, interrupted) == RunOf(targets[..i], succeeds)
      invariant interrupted ==> i < |targets|
    {
      assert targets[..i + 1][..i] == targets[..i];
      var t := targets[i];
      if !Deletable(t) {
        interrupted := true;
        break;
      }
      var ok := succeeds(|attempted|);
      attempted := attempted + [t.id.value];
      if ok {
        count := count + 1;
      }
      i := i + 1;
    }
    if interrupted {
      RunOfInterrupted(targets, succeeds, i + 1);
    } else {
      assert targets[..i] == targets;
    }
    r := Deleted(targets, Run(attempted, count, interrupted));
  }

  /** Once the loop has stopped on a missing key, later targets change nothing. */
  lemma {:induction false} RunOfInterrupted(targets: seq<Entry>, succeeds: nat -> bool, n: nat)
    requires 0 < n <= |targets| && RunOf(targets[..n], succeeds).interrupted
    ensures RunOf(targets, succeeds) == RunOf(targets[..n], succeeds)
    decreases |targets| - n
  {
    if n < |targets| {
      assert targets[..n + 1][..n] == targets[..n];
      RunOfInterrupted(targets, succeeds, n + 1);
    } else {
      assert targets[..n] == targets;
    }
  }

  // ---------------------------------------------------------------------------
  // What the selection and the loop promise

  /**
   * Only objects are ever targets. With `--all` every object is one, the
   * filter notwithstanding; otherwise exactly the objects whose name
   * (absent: '') holds the filter.
   */
  lemma {:induction false} TargetsSpec(entries: seq<Entry>, filter: Option<string>, deleteAll: bool)
    ensures forall t :: t in Targets(entries, filter, deleteAll) ==> t.Workout? && t in entries
    ensures forall e :: e in entries && e.Workout? && deleteAll ==> e in Targets(entries, filter, deleteAll)
    ensures forall e :: e in entries && e.Workout? && !deleteAll ==>
      (e in Targets(entries, filter, deleteAll) <==> HasFilter(filter) && Contains(e.name.GetOr(""), filter.value))
  {
    if entries != [] {
      var init := entries[..|entries| - 1];
      TargetsSpec(init, filter, deleteAll);
      assert entries == init + [entries[|entries| - 1]];
    }
  }

  /** Selection keeps listing order: the targets of two lists joined are their targets joined. */
  lemma {:induction false} TargetsAppend(a: seq<Entry>, b: seq<Entry>, filter: Option<string>, deleteAll: bool)
    ensures Targets(a + b, filter, deleteAll) == Targets(a, filter, deleteAll) + Targets(b, filter, deleteAll)
  {
    if b == [] {
      assert a + b == a;
    } else {
      var init := b[..|b| - 1];
      TargetsAppend(a, init, filter, deleteAll);
      assert (a + b)[..|a + b| - 1] == a + init;
    }
  }

  /**
   * Each target gets at most one request, in order, and the count is the
   * number of requests that succeeded. The loop runs to the end unless a
   * target lacks a key, and then it stops right there; so when every target
   * has both keys, every one of them gets exactly one request.
   */
  lemma {:induction false} RunOfSpec(targets: seq<Entry>, succeeds: nat -> bool)
    ensures var r := RunOf(targets, succeeds);
      && r.count == Successes(succeeds, |r.attempted|) <= |r.attempted| <= |targets|
      && (forall i :: 0 <= i < |r.attempted| ==> Deletable(targets[i]) && r.attempted[i] == targets[i].id.value)
      && (r.interrupted <==> |r.attempted| < |targets|)
      && (r.interrupted ==> !Deletable(targets[|r.attempted|]))
  {
    if targets != [] {
      var init := targets[..|targets| - 1];
      var r0 := RunOf(init, succeeds);
      var r := RunOf(targets, succeeds);
      RunOfSpec(init, succeeds);
      SuccessesBound(succeeds, |r0.attempted|);
      forall i | 0 <= i < |r.attempted|
        ensures Deletable(targets[i]) && r.attempted[i] == targets[i].id.value
      {
        if i < |r0.attempted| {
          assert targets[i] == init[i];
        }
      }
      if r.interrupted {
        if r0.interrupted {
          assert targets[|r.attempted|] == init[|r0.attempted|];
        }
      }
    }
  }

  /** When every target has both keys, every one of them gets exactly one request, in order. */
  lemma RunOfComplete(targets: seq<Entry>, succeeds: nat -> bool)
    requires forall i :: 0 <= i < |targets| ==> Deletable(targets[i])
    ensures !RunOf(targets, succeeds).interrupted
    ensures |RunOf(targets, succeeds).attempted| == |targets|
    ensures forall i :: 0 <= i < |targets| ==>
      Deletable(targets[i]) && RunOf(targets, succeeds).attempted[i] == targets[i].id.value
  {
    RunOfSpec(targets, succeeds);
  }

  /** Which requests are sent does not depend on how earlier ones went: a failure never stops the loop. */
  lemma {:induction false} RunOfIgnoresOutcomes(targets: seq<Entry>, s1: nat -> bool, s2: nat -> bool)
    ensures RunOf(targets, s1).attempted == RunOf(targets, s2).attempted
    ensures RunOf(targets, s1).interrupted == RunOf(targets, s2).interrupted
  {
    if targets != [] {
      RunOfIgnoresOutcomes(targets[..|targets| - 1], s1, s2);
    }
  }

  lemma {:induction false} SuccessesBound(succeeds: nat -> bool, n: nat)
    ensures Successes(succeeds, n) <= n
  {
    if n > 0 {
      SuccessesBound(succeeds, n - 1);
    }
  }
}
