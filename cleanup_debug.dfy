/**
 * delete_workout.py: every listed workout whose name starts with "DBG_" gets
 * one DELETE request, in listing order, whether or not the previous request
 * succeeded; a target without a `workoutId` or `workoutName` raises outside
 * the `try` and ends the run there.
 */
module CleanupDebug {
  import opened Wrappers
  import opened Text
  import opened DeleteWorkouts

  /** How `cleanup_debug_workouts` ends. */
  datatype CleanupResult =
    | ListingFailed
    | NoDebugWorkouts
    | Cleaned(targets: seq<Entry>, attempted: seq<string>, interrupted: bool)

  /** A debug workout: an object whose name (absent: '') starts with "DBG_". */
  predicate IsDebug(e: Entry) {
    e.Workout? && StartsWith(e.name.GetOr(""), "DBG_")
  }

  /** The debug workouts of a list, in order. */
  function DebugWorkouts(entries: seq<Entry>): seq<Entry> {
    if entries == [] then []
    else
      var init := DebugWorkouts(entries[..|entries| - 1]);
      var e := entries[|entries| - 1];
      if IsDebug(e) then init + [e] else init
  }

  /** The targets: the debug workouts of a list; none when the listing is not a list. */
  function DebugTargets(listing: Listing): seq<Entry> {
    match listing
    case ListOf(entries) => DebugWorkouts(entries)
    case NotAList => []
  }

  /**
   * `cleanup_debug_workouts`, with the listing (`None` when it raised) and
   * the outcome of each DELETE request as inputs.
   */
  method CleanupDebugWorkouts(listing: Option<Listing>, succeeds: nat -> bool) returns (r: CleanupResult)
    ensures r == ListingFailed <==> listing.None?
    ensures r == NoDebugWorkouts <==> listing.Some? && DebugTargets(listing.value) == []
    ensures r.Cleaned? ==>
      && listing.Some?
      && r.targets == DebugTargets(listing.value) != []
      && r.attempted == RunOf(r.targets, succeeds).attempted
      && r.interrupted == RunOf(r.targets, succeeds).interrupted
  {
    if listing.None? {
      return ListingFailed;
    }
    var targets: seq<Entry> := [];
    if listing.value.ListOf? {
      var entries := listing.value.entries;
      for i := 0 to |entries|
        invariant targets == DebugWorkouts(entries[..i])
      {
        assert entries[..i + 1][..i] == entries[..i];
        var e := entries[i];
        if e.Workout? && StartsWith(e.name.GetOr(""), "DBG_") {
          targets := targets + [e];
        }
      }
      assert entries[..|entries|] == entries;
    }
    if targets == [] {
      return NoDebugWorkouts;
    }
    var attempted: seq<string> := [];
    var interrupted := false;
    var i := 0;
    while i < |targets|
      invariant 0 <= i <= |targets|
      invariant attempted == RunOf(targets[..i], succeeds).attempted
      invariant interrupted == RunOf(targets[..i], succeeds).interrupted
      invariant interrupted ==> i < |targets|
    {
      assert targets[..i + 1][..i] == targets[..i];
      var t := targets[i];
      if !Deletable(t) {
        interrupted := true;
        break;
      }
      attempted := attempted + [t.id.value];
      i := i + 1;
    }
    if interrupted {
      RunOfInterrupted(targets, succeeds, i + 1);
    } else {
      assert targets[..i] == targets;
    }
    r := Cleaned(targets, attempted, interrupted);
  }

  /**
   * The targets are exactly the listed objects whose name starts with
   * "DBG_"; one without a name is never among them.
   */
  lemma {:induction false} DebugWorkoutsSpec(entries: seq<Entry>)
    ensures forall t :: t in DebugWorkouts(entries) ==> t in entries && t.Workout? && t.name.Some?
    ensures forall e :: e in entries ==> (e in DebugWorkouts(entries) <==> IsDebug(e))
  {
    if entries != [] {
      var init := entries[..|entries| - 1];
      DebugWorkoutsSpec(init);
      assert entries == init + [entries[|entries| - 1]];
      forall t | t in DebugWorkouts(entries)
        ensures t.name.Some?
      {
        if t.name.None? {
          assert !StartsWith("", "DBG_");
        }
      }
    }
  }
}
