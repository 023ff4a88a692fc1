/** The debounced save of core/emunel_core/state.py (StateStore.schedule_save).
    Each call is a coroutine; the code between its suspension points is one step,
    and requests, wake-ups, ends of saves and failures interleave arbitrarily. */
module DebouncedSave {
  import opened Prelude

  /** Where a coroutine that entered the saving loop stands. */
  datatype Phase = Sleeping | Saving

  /** savers are the coroutines inside the loop.  The observations count requests,
      saves begun, requests made before the last save began, and requests made
      before the flag was last reset; clean says that the last saver to leave did
      so normally. */
  datatype State = State(
    pending: bool,
    dirtyAgain: bool,
    savers: seq<Phase>,
    requests: nat,
    saves: nat,
    covered: nat,
    atReset: nat,
    clean: bool)

  const INITIAL := State(false, false, [], 0, 0, 0, 0, true)

  datatype Event =
    | Request             // schedule_save is called
    | Wake(i: nat)        // the sleep of saver i ends, its save begins
    | Saved(i: nat)       // the save of saver i ends
    | Abort(i: nat)       // saver i is cancelled, or its save raises

  predicate Enabled(s: State, e: Event) {
    match e
    case Request => true
    case Wake(i) => i < |s.savers| && s.savers[i] == Sleeping
    case Saved(i) => i < |s.savers| && s.savers[i] == Saving
    case Abort(i) => i < |s.savers|
  }

  function Without(savers: seq<Phase>, i: nat): seq<Phase>
    requires i < |savers|
  {
    savers[..i] + savers[i + 1..]
  }

  function Next(s: State, e: Event): State
    requires Enabled(s, e)
  {
    match e
    case Request =>
      if s.pending then s.(dirtyAgain := true, requests := s.requests + 1)
      else s.(pending := true, dirtyAgain := false, savers := s.savers + [Sleeping],
              requests := s.requests + 1, atReset := s.requests + 1)
    case Wake(i) => s.(savers := s.savers[i := Saving], saves := s.saves + 1, covered := s.requests)
    case Saved(i) =>
      if s.dirtyAgain then s.(dirtyAgain := false, savers := s.savers[i := Sleeping], atReset := s.requests)
      else s.(pending := false, savers := Without(s.savers, i), clean := true)
    case Abort(i) => s.(pending := false, savers := Without(s.savers, i), clean := false)
  }

  // ----- the store object -----

  class StateStore {
    var pending: bool
    var dirtyAgain: bool
    var savers: seq<Phase>
    ghost var requests: nat
    ghost var saves: nat
    ghost var covered: nat
    ghost var atReset: nat
    ghost var clean: bool

    constructor ()
      ensures Current() == INITIAL
    {
      pending, dirtyAgain, savers := false, false, [];
      requests, saves, covered, atReset, clean := 0, 0, 0, 0, true;
    }

    ghost function Current(): State
      reads this
    {
      State(pending, dirtyAgain, savers, requests, saves, covered, atReset, clean)
    }

    /** schedule_save up to its first await. */
    method ScheduleSave()
      modifies this
      ensures Current() == Next(old(Current()), Request)
    {
      requests := requests + 1;
      if pending {
        dirtyAgain := true;
        return;
      }
      pending := true;
      dirtyAgain := false;
      atReset := requests;
      savers := savers + [Sleeping];
    }

    /** From the end of the sleep into save. */
    method BeginSave(i: nat)
      requires Enabled(Current(), Wake(i))
      modifies this
      ensures Current() == Next(old(Current()), Wake(i))
    {
      savers := savers[i := Saving];
      saves, covered := saves + 1, requests;
    }

    /** From the end of save to the next sleep, or out of the loop. */
    method EndSave(i: nat)
      requires Enabled(Current(), Saved(i))
      modifies this
      ensures Current() == Next(old(Current()), Saved(i))
    {
      if !dirtyAgain {
        savers := Without(savers, i);
        pending, clean := false, true;
        return;
      }
      dirtyAgain := false;
      atReset := requests;
      savers := savers[i := Sleeping];
    }

    /** The finally clause after an exception. */
    method Fail(i: nat)
      requires Enabled(Current(), Abort(i))
      modifies this
      ensures Current() == Next(old(Current()), Abort(i))
    {
      savers := Without(savers, i);
      pending, clean := false, false;
    }
  }

  // ----- every run -----

  /** The state after a list of events, if each was possible when it happened. */
  function Run(events: seq<Event>): Option<State> {
    if events == [] then Some(INITIAL)
    else
      var before, e := Run(events[..|events| - 1]), events[|events| - 1];
      if before.Some? && Enabled(before.value, e) then Some(Next(before.value, e)) else None
  }

  /** One saver exactly while pending; a save under way covers every request
      unless the flag says otherwise; and every turn of the loop has a request of
      its own. */
  ghost predicate Invariant(s: State) {
    && (s.pending <==> |s.savers| == 1) && |s.savers| <= 1
    && s.covered <= s.requests && s.atReset <= s.requests
    && (s.savers == [Saving] && !s.dirtyAgain ==> s.covered == s.requests)
    && (s.savers == [] && s.clean ==> s.covered == s.requests)
    && s.saves + (if s.savers == [Sleeping] then 1 else 0) <= s.atReset
    && (s.pending && s.dirtyAgain ==> s.atReset < s.requests)
  }

  lemma NextKeepsInvariant(s: State, e: Event)
    requires Invariant(s) && Enabled(s, e)
    ensures Invariant(Next(s, e))
  {
    match e
    case Request =>
    case Wake(i) => assert i == 0 && s.savers[i := Saving] == [Saving];
    case Saved(i) =>
      assert i == 0 && s.savers == [Saving];
      assert s.savers[i := Sleeping] == [Sleeping] && Without(s.savers, i) == [];
    case Abort(i) => assert i == 0 && Without(s.savers, i) == [];
  }

  lemma {:induction false} RunsKeepInvariant(events: seq<Event>)
    ensures Run(events).Some? ==> Invariant(Run(events).value)
  {
    if events != [] {
      var n := |events| - 1;
      RunsKeepInvariant(events[..n]);
      if Run(events).Some? {
        NextKeepsInvariant(Run(events[..n]).value, events[n]);
      }
    }
  }

  /** In every run at most one saver is in the loop, and whenever none is, after a
      normal end, the last save began after the last request. */
  lemma NoUpdateLost(events: seq<Event>)
    requires Run(events).Some?
    ensures |Run(events).value.savers| <= 1
    ensures var s := Run(events).value; s.savers == [] && s.clean ==> s.covered == s.requests
  {
    RunsKeepInvariant(events);
  }

  /** Debouncing: there are never more saves than requests. */
  lemma SavesAreEarned(events: seq<Event>)
    requires Run(events).Some?
    ensures Run(events).value.saves <= Run(events).value.requests
  {
    RunsKeepInvariant(events);
  }

  /** A request was made after the last save began. */
  predicate RequestSinceSave(events: seq<Event>) {
    events != [] &&
    var n := |events| - 1;
    (events[n].Request? || (!events[n].Wake? && RequestSinceSave(events[..n])))
  }

  lemma {:induction false} UncoveredIff(events: seq<Event>)
    requires Run(events).Some?
    ensures Run(events).value.covered < Run(events).value.requests <==> RequestSinceSave(events)
  {
    if events != [] {
      var n := |events| - 1;
      UncoveredIff(events[..n]);
      RunsKeepInvariant(events[..n]);
    }
  }

  /** A saver that fails leaves nobody saving, and it leaves a request unsaved
      exactly if one was made after the last save began. */
  lemma FailureLosesIff(events: seq<Event>, i: nat, s: State)
    requires Run(events + [Abort(i)]) == Some(s)
    ensures s.savers == [] && !s.pending
    ensures s.covered < s.requests <==> RequestSinceSave(events)
  {
    var all := events + [Abort(i)];
    assert all[..|all| - 1] == events;
    RunsKeepInvariant(events);
    RunsKeepInvariant(all);
    UncoveredIff(events);
  }

  /** Such a run. */
  lemma FailureLosesUpdate()
    ensures var s := Run([Request, Abort(0)]); s.Some? && s.value.savers == [] && s.value.covered < s.value.requests
  {
    var one := [Request];
    assert [Request, Abort(0)][..1] == one && one[..0] == [];
    assert Run(one) == Some(Next(INITIAL, Request));
    assert Next(INITIAL, Request).savers == [Sleeping];
  }
}
