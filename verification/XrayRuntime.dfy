/** The reference-counted per-link runtimes of core/emunel_core/relay/vmess.py
    (XrayRuntime).  Everything between taking and releasing the lock is one step;
    holders, process exits and shutdown interleave arbitrarily. */
module XrayRuntimes {
  import opened Prelude

  /** An entry dict, with how often it was handed to _stop_entry (or, when it
      failed to start, to _stop_process). */
  datatype Entry = Entry(uuid: string, refs: int, exited: bool, stops: nat)

  /** entries maps a link to an index into store, which stands for the identity
      of the entry; held are the entries of the callers inside acquire, leaked
      those of callers that were cancelled while they waited to release, stranded
      those that an interrupted close took out of the map without stopping. */
  datatype State = State(
    closed: bool, entries: map<string, nat>, store: seq<Entry>, held: multiset<nat>, leaked: multiset<nat>,
    stranded: set<nat>)

  const INITIAL := State(false, map[], [], multiset{}, multiset{}, {})

  /** What launching a process comes to, should it be needed. */
  datatype Launch = Works | FailsEarly | FailsSpawned

  datatype Event =
    | Acquire(uuid: string, launch: Launch)
    | Release(id: nat)      // a holder leaves
    | Abandon(id: nat)      // a holder is cancelled while it waits for the lock to leave
    | Exit(id: nat)         // the process ends by itself
    | Close(reached: set<string>)   // the links it gets to: all, or those up to an interrupted stop

  ghost predicate Enabled(s: State, e: Event) {
    match e
    case Release(id) => id in s.held && id < |s.store|
    case Abandon(id) => id in s.held
    case Exit(id) => id < |s.store|
    case Close(reached) => s.entries == map[] || reached * s.entries.Keys != {}
    case _ => true
  }

  function Acquired(s: State, id: nat): State
    requires id < |s.store|
  {
    s.(store := s.store[id := s.store[id].(refs := s.store[id].refs + 1)], held := s.held + multiset{id})
  }

  function Launched(s: State, uuid: string): State {
    Acquired(s.(store := s.store + [Entry(uuid, 0, false, 0)], entries := s.entries[uuid := |s.store|]), |s.store|)
  }

  predicate WellFormed(s: State) {
    && (forall u :: u in s.entries ==> s.entries[u] < |s.store| && s.store[s.entries[u]].uuid == u)
  }

  /** A caller asks for the entry of its link. */
  function Entered(s: State, uuid: string, launch: Launch, maxRuntimes: int): State
    requires WellFormed(s)
  {
    if s.closed then s
    else if uuid in s.entries then
      if s.store[s.entries[uuid]].exited then s else Acquired(s, s.entries[uuid])
    else if |s.entries| >= maxRuntimes then s
    else if launch == FailsEarly then s
    else if launch == FailsSpawned then s.(store := s.store + [Entry(uuid, 0, true, 1)])
    else Launched(s, uuid)
  }

  /** One holder less. */
  function Unheld(s: State, id: nat): State
    requires id < |s.store|
  {
    s.(held := s.held - multiset{id}, store := s.store[id := s.store[id].(refs := s.store[id].refs - 1)])
  }

  /** The entry leaves the map and is stopped. */
  function Retired(s: State, id: nat): State
    requires id < |s.store|
  {
    s.(entries := s.entries - {s.store[id].uuid}, store := s.store[id := Stopped(s.store[id])])
  }

  /** A holder gives its entry back. */
  function Left(s: State, id: nat): State
    requires id < |s.store|
  {
    var left := Unheld(s, id);
    if left.store[id].refs == 0 && Mapped(left, id) then Retired(left, id) else left
  }

  function Next(s: State, e: Event, maxRuntimes: int): State
    requires WellFormed(s) && Enabled(s, e)
  {
    match e
    case Acquire(uuid, launch) => Entered(s, uuid, launch, maxRuntimes)
    case Release(id) => Left(s, id)
    case Abandon(id) => s.(held := s.held - multiset{id}, leaked := s.leaked + multiset{id})
    case Exit(id) => s.(store := s.store[id := s.store[id].(exited := true)])
    case Close(reached) =>
      s.(closed := true, entries := map[], store := Swept(s.store, s.entries, reached),
         stranded := s.stranded + Missed(s, reached))
  }

  /** The entries that a map holds for the given links stopped. */
  function Swept(store: seq<Entry>, entries: map<string, nat>, reached: set<string>): (swept: seq<Entry>)
    ensures |swept| == |store|
  {
    seq(|store|, i requires 0 <= i < |store| =>
      if store[i].uuid in reached && store[i].uuid in entries && entries[store[i].uuid] == i
      then Stopped(store[i]) else store[i])
  }

  lemma SweptNone(store: seq<Entry>, entries: map<string, nat>)
    ensures Swept(store, entries, {}) == store
  {
  }

  lemma SizeOfRest(all: set<string>, some: set<string>)
    requires some <= all
    ensures |all - some| == |all| - |some|
  {
    assert all == (all - some) + some;
  }

  lemma SweptOne(store: seq<Entry>, entries: map<string, nat>, reached: set<string>, uuid: string, id: nat)
    requires uuid in entries && uuid !in reached && entries[uuid] == id < |store| && store[id].uuid == uuid
    ensures Swept(store, entries, reached)[id] == store[id]
    ensures Swept(store, entries, reached + {uuid}) == Swept(store, entries, reached)[id := Stopped(store[id])]
  {
  }

  /** The mapped entries of other links. */
  function Missed(s: State, reached: set<string>): set<nat>
    requires WellFormed(s)
  {
    set i: nat | i < |s.store| && Mapped(s, i) && s.store[i].uuid !in reached
  }

  function Stopped(e: Entry): Entry {
    e.(stops := e.stops + 1, exited := true)
  }

  predicate Mapped(s: State, id: nat)
    requires id < |s.store|
  {
    s.store[id].uuid in s.entries && s.entries[s.store[id].uuid] == id
  }

  // ----- the runtime object -----

  class XrayRuntime {
    const maxRuntimes: int
    var closed: bool
    var entries: map<string, nat>
    var store: seq<Entry>
    ghost var held: multiset<nat>
    ghost var leaked: multiset<nat>
    ghost var stranded: set<nat>

    constructor (maxRuntimes: int)
      ensures Current() == INITIAL && this.maxRuntimes == maxRuntimes
    {
      this.maxRuntimes := maxRuntimes;
      closed, entries, store := false, map[], [];
      held, leaked, stranded := multiset{}, multiset{}, {};
    }

    ghost function Current(): State
      reads this
    {
      State(closed, entries, store, held, leaked, stranded)
    }

    /** Up to the yield: the entry held, or None where the source raises. */
    method Acquire(uuid: string, launch: Launch) returns (id: Option<nat>)
      requires WellFormed(Current())
      modifies this
      ensures Current() == Next(old(Current()), Event.Acquire(uuid, launch), maxRuntimes)
      ensures held == old(held) + if id.Some? then multiset{id.value} else multiset{}
    {
      hide Left, Swept, Missed;
      if closed {
        return None;
      }
      var entry: nat;
      if uuid !in entries {
        if |entries| >= maxRuntimes {
          return None;
        }
        if launch != Works {
          if launch == FailsSpawned {
            store := store + [Entry(uuid, 0, true, 1)];
          }
          return None;
        }
        entry := |store|;
        store := store + [Entry(uuid, 0, false, 0)];
        entries := entries[uuid := entry];
      } else {
        entry := entries[uuid];
        if store[entry].exited {
          return None;
        }
      }
      HoldEntry(entry);
      return Some(entry);
    }

    method HoldEntry(id: nat)
      requires id < |store|
      modifies this`store, this`held
      ensures Current() == Acquired(old(Current()), id)
    {
      store := store[id := store[id].(refs := store[id].refs + 1)];
      held := held + multiset{id};
    }

    /** The finally part of acquire. */
    method Release(id: nat)
      requires WellFormed(Current()) && id in held && id < |store|
      modifies this
      ensures Current() == Next(old(Current()), Event.Release(id), maxRuntimes)
    {
      hide Entered, Swept, Missed, WellFormed;
      held := held - multiset{id};
      store := store[id := store[id].(refs := store[id].refs - 1)];
      assert Current() == Unheld(old(Current()), id);
      hide Unheld;
      if store[id].refs == 0 && store[id].uuid in entries && entries[store[id].uuid] == id {
        entries := entries - {store[id].uuid};
        StopEntry(id);
      }
    }

    /** The finally part of acquire, cancelled before it gets the lock. */
    method AbandonRelease(ghost id: nat)
      requires WellFormed(Current()) && id in held
      modifies this`held, this`leaked
      ensures Current() == Next(old(Current()), Abandon(id), maxRuntimes)
    {
      held, leaked := held - multiset{id}, leaked + multiset{id};
    }

    method StopEntry(id: nat)
      requires id < |store|
      modifies this`store
      ensures store == old(store)[id := Stopped(old(store)[id])]
    {
      store := store[id := store[id].(stops := store[id].stops + 1, exited := true)];
    }

    /** patience says in which stop an exception or a cancellation ends the loop,
        if there are that many. */
    method Close(patience: nat) returns (ghost reached: set<string>)
      requires WellFormed(Current()) && patience > 0
      modifies this
      ensures Enabled(old(Current()), Event.Close(reached))
      ensures Current() == Next(old(Current()), Event.Close(reached), maxRuntimes)
      ensures reached <= old(entries).Keys && |reached| == Min(patience, |old(entries).Keys|)
    {
      ghost var before := Current();
      closed := true;
      var taken := entries;
      entries := map[];
      reached := StopSome(taken, patience);
      stranded := stranded + Missed(before, reached);
      assert store == Swept(before.store, before.entries, reached);
      if taken != map[] {
        assert |taken.Keys| > 0 && reached * taken.Keys == reached;
      }
    }

    /** The loop over the entries taken out of the map. */
    method StopSome(taken: map<string, nat>, patience: nat) returns (ghost reached: set<string>)
      requires forall u :: u in taken ==> taken[u] < |store| && store[taken[u]].uuid == u
      modifies this`store
      ensures reached <= taken.Keys && |reached| == Min(patience, |taken.Keys|)
      ensures store == Swept(old(store), taken, reached)
    {
      hide Swept, Stopped;
      reached := {};
      ghost var before := store;
      SweptNone(store, taken);
      var todo, done := taken.Keys, 0;
      while todo != {} && done < patience
        invariant todo == taken.Keys - reached && reached <= taken.Keys
        invariant done == |reached| <= patience && store == Swept(before, taken, reached)
        decreases |todo|
      {
        var uuid :| uuid in todo;
        SweptOne(before, taken, reached, uuid, taken[uuid]);
        StopEntry(taken[uuid]);
        todo, done, reached := todo - {uuid}, done + 1, reached + {uuid};
      }
      SizeOfRest(taken.Keys, reached);
    }
  }

  // ----- every run -----

  /** Reference counts are exact, mapped entries are held and running, unmapped
      ones are stopped, once. */
  ghost predicate Invariant(s: State, maxRuntimes: int) {
    && WellFormed(s)
    && |s.entries| <= Max(0, maxRuntimes)
    && (s.closed ==> s.entries == map[])
    && (forall id :: id in s.held || id in s.leaked || id in s.stranded ==> id < |s.store|)
    && (!s.closed ==> s.stranded == {})
    && (forall id :: 0 <= id < |s.store| ==> EntryInvariant(s, id))
  }

  ghost predicate EntryInvariant(s: State, id: nat)
    requires id < |s.store|
  {
    && s.store[id].refs == s.held[id] + s.leaked[id]
    && s.store[id].stops == (if Mapped(s, id) || id in s.stranded then 0 else 1)
    && !(Mapped(s, id) && id in s.stranded)
    && (Mapped(s, id) ==> s.store[id].refs >= 1)
    && (!s.closed && !Mapped(s, id) ==> s.store[id].refs == 0)
  }

  lemma AcquiredKeeps(s: State, id: nat, maxRuntimes: int)
    requires Invariant(s, maxRuntimes) && !s.closed && id < |s.store| && Mapped(s, id)
    ensures Invariant(Acquired(s, id), maxRuntimes)
  {
    var t := Acquired(s, id);
    forall i | 0 <= i < |t.store|
      ensures EntryInvariant(t, i)
    {
      assert EntryInvariant(s, i);
    }
  }

  lemma LaunchedKeeps(s: State, uuid: string, maxRuntimes: int)
    requires Invariant(s, maxRuntimes) && !s.closed && uuid !in s.entries && |s.entries| < maxRuntimes
    ensures Invariant(Launched(s, uuid), maxRuntimes)
  {
    var t, n := Launched(s, uuid), |s.store|;
    assert n !in s.held && n !in s.leaked;
    assert |t.entries| == |s.entries| + 1;
    forall i | 0 <= i < |t.store|
      ensures EntryInvariant(t, i)
    {
      if i < n {
        assert EntryInvariant(s, i) && t.store[i] == s.store[i];
      }
    }
  }

  lemma LeftItself(s: State, id: nat, maxRuntimes: int)
    requires Invariant(s, maxRuntimes) && Enabled(s, Release(id))
    ensures EntryInvariant(Left(s, id), id) && Left(s, id).store[id].uuid == s.store[id].uuid
  {
    assert EntryInvariant(s, id);
  }

  lemma LeftOther(s: State, id: nat, i: nat, maxRuntimes: int)
    requires Invariant(s, maxRuntimes) && Enabled(s, Release(id))
    requires i < |s.store| && i != id
    ensures EntryInvariant(Left(s, id), i) && Left(s, id).store[i] == s.store[i]
  {
    hide Retired, Stopped;
    var u := Unheld(s, id);
    assert EntryInvariant(s, i);
    assert u.held[i] == s.held[i] && u.store[i] == s.store[i];
    assert Mapped(u, i) <==> Mapped(s, i);
    if Mapped(u, id) {
      RetiredOther(u, id, i);
    }
  }

  lemma RetiredOther(u: State, id: nat, i: nat)
    requires id < |u.store| && i < |u.store| && i != id && EntryInvariant(u, i) && Mapped(u, id)
    ensures EntryInvariant(Retired(u, id), i) && Retired(u, id).store[i] == u.store[i]
  {
    assert Mapped(Retired(u, id), i) <==> Mapped(u, i);
  }

  lemma LeftOutside(s: State, id: nat)
    requires Enabled(s, Release(id))
    ensures var t := Left(s, id);
      && |t.entries| <= |s.entries| && |t.store| == |s.store|
      && t.entries.Keys <= s.entries.Keys && (forall u :: u in t.entries ==> t.entries[u] == s.entries[u])
      && t.closed == s.closed && t.leaked == s.leaked && t.held == s.held - multiset{id} && t.stranded == s.stranded
  {
    var t := Left(s, id);
    Fewer(t.entries.Keys, s.entries.Keys);
    assert |t.entries| == |t.entries.Keys| && |s.entries| == |s.entries.Keys|;
  }

  lemma ReleaseKeeps(s: State, id: nat, maxRuntimes: int)
    requires Invariant(s, maxRuntimes) && Enabled(s, Release(id))
    ensures Invariant(Left(s, id), maxRuntimes)
  {
    hide EntryInvariant, Left;
    var t := Left(s, id);
    LeftOutside(s, id);
    forall i | 0 <= i < |t.store|
      ensures EntryInvariant(t, i) && t.store[i].uuid == s.store[i].uuid
    {
      if i == id {
        LeftItself(s, id, maxRuntimes);
      } else {
        LeftOther(s, id, i, maxRuntimes);
      }
    }
  }

  lemma {:induction false} Fewer<T>(a: set<T>, b: set<T>)
    requires a <= b
    ensures |a| <= |b|
  {
    if a != {} {
      var x :| x in a;
      Fewer(a - {x}, b - {x});
    }
  }

  lemma RefusalKeeps(s: State, uuid: string, maxRuntimes: int)
    requires Invariant(s, maxRuntimes) && uuid !in s.entries
    ensures Invariant(s.(store := s.store + [Entry(uuid, 0, true, 1)]), maxRuntimes)
  {
    var t := s.(store := s.store + [Entry(uuid, 0, true, 1)]);
    assert |s.store| !in s.held && |s.store| !in s.leaked;
    forall i | 0 <= i < |t.store|
      ensures EntryInvariant(t, i)
    {
      if i < |s.store| {
        assert EntryInvariant(s, i) && t.store[i] == s.store[i];
      }
    }
  }

  lemma AcquireKeeps(s: State, uuid: string, launch: Launch, maxRuntimes: int)
    requires Invariant(s, maxRuntimes)
    ensures Invariant(Next(s, Acquire(uuid, launch), maxRuntimes), maxRuntimes)
  {
    hide Invariant, Acquired, Launched;
    if s.closed {
    } else if uuid in s.entries {
      InvariantAt(s, uuid, maxRuntimes);
      AcquiredKeeps(s, s.entries[uuid], maxRuntimes);
    } else if |s.entries| < maxRuntimes {
      LaunchedKeeps(s, uuid, maxRuntimes);
      RefusalKeeps(s, uuid, maxRuntimes);
    }
  }

  lemma InvariantAt(s: State, uuid: string, maxRuntimes: int)
    requires Invariant(s, maxRuntimes) && uuid in s.entries
    ensures s.entries[uuid] < |s.store| && Mapped(s, s.entries[uuid])
  {
  }

  lemma AbandonKeeps(s: State, id: nat, maxRuntimes: int)
    requires Invariant(s, maxRuntimes) && id in s.held
    ensures Invariant(Next(s, Abandon(id), maxRuntimes), maxRuntimes)
  {
    var t := Next(s, Abandon(id), maxRuntimes);
    forall i | 0 <= i < |t.store|
      ensures EntryInvariant(t, i)
    {
      assert EntryInvariant(s, i);
    }
  }

  lemma ExitKeeps(s: State, id: nat, maxRuntimes: int)
    requires Invariant(s, maxRuntimes) && id < |s.store|
    ensures Invariant(Next(s, Exit(id), maxRuntimes), maxRuntimes)
  {
    var t := Next(s, Exit(id), maxRuntimes);
    forall i | 0 <= i < |t.store|
      ensures EntryInvariant(t, i)
    {
      assert EntryInvariant(s, i);
    }
  }

  lemma CloseKeeps(s: State, reached: set<string>, maxRuntimes: int)
    requires Invariant(s, maxRuntimes) && Enabled(s, Close(reached))
    ensures Invariant(Next(s, Close(reached), maxRuntimes), maxRuntimes)
  {
    var t := Next(s, Close(reached), maxRuntimes);
    forall i | 0 <= i < |t.store|
      ensures EntryInvariant(t, i)
    {
      assert EntryInvariant(s, i);
    }
  }

  lemma NextKeepsInvariant(s: State, e: Event, maxRuntimes: int)
    requires Invariant(s, maxRuntimes) && Enabled(s, e)
    ensures WellFormed(s) && Invariant(Next(s, e, maxRuntimes), maxRuntimes)
  {
    hide EntryInvariant, Left, Entered, Swept, Missed;
    match e
    case Acquire(uuid, launch) => AcquireKeeps(s, uuid, launch, maxRuntimes);
    case Release(id) => ReleaseKeeps(s, id, maxRuntimes);
    case Abandon(id) => AbandonKeeps(s, id, maxRuntimes);
    case Exit(id) => ExitKeeps(s, id, maxRuntimes);
    case Close(reached) => CloseKeeps(s, reached, maxRuntimes);
  }

  /** States reachable by a list of events, each possible when it happens. */
  ghost predicate Reaches(events: seq<Event>, s: State, maxRuntimes: int) {
    if events == [] then s == INITIAL
    else
      var n := |events| - 1;
      exists before: State :: Reaches(events[..n], before, maxRuntimes)
        && WellFormed(before) && Enabled(before, events[n]) && s == Next(before, events[n], maxRuntimes)
  }

  lemma {:induction false} RunsKeepInvariant(events: seq<Event>, s: State, maxRuntimes: int)
    requires Reaches(events, s, maxRuntimes)
    ensures Invariant(s, maxRuntimes)
    decreases |events|
  {
    if events != [] {
      var n := |events| - 1;
      var before: State :| Reaches(events[..n], before, maxRuntimes)
        && WellFormed(before) && Enabled(before, events[n]) && s == Next(before, events[n], maxRuntimes);
      RunsKeepInvariant(events[..n], before, maxRuntimes);
      NextKeepsInvariant(before, events[n], maxRuntimes);
    }
  }

  /** In every run: a reference count is the number of holders and of releases that
      were cancelled, the map stays within its cap, before close no process still
      counted is stopped, none is ever stopped twice, and each is stopped once its
      holders have left, none of them cancelled in leaving, or close has reached it. */
  lemma OwnershipHolds(events: seq<Event>, s: State, maxRuntimes: int, id: nat)
    requires Reaches(events, s, maxRuntimes) && id < |s.store|
    ensures s.store[id].refs == s.held[id] + s.leaked[id] && |s.entries| <= Max(0, maxRuntimes)
    ensures s.store[id].stops
         == if (!s.closed && (id in s.held || id in s.leaked)) || id in s.stranded then 0 else 1
    ensures !s.closed ==> s.stranded == {}
  {
    RunsKeepInvariant(events, s, maxRuntimes);
    assert EntryInvariant(s, id);
  }

  /** A cancelled release leaves a process running that nobody holds. */
  lemma LeakedRuns(uuid: string, maxRuntimes: int) returns (s: State)
    requires maxRuntimes > 0
    ensures Reaches([Acquire(uuid, Works), Abandon(0)], s, maxRuntimes)
    ensures !s.closed && s.held == multiset{} && uuid in s.entries && s.store[0].stops == 0 && !s.store[0].exited
  {
    var mid := OneHeld(uuid, maxRuntimes);
    s := Step([Acquire(uuid, Works)], mid, Abandon(0), [Acquire(uuid, Works), Abandon(0)], maxRuntimes);
  }

  /** A close interrupted in its first stop leaves a second process running that
      is out of the map, and its last holder does not stop it either. */
  lemma StrandedRuns(uuid: string, other: string, maxRuntimes: int) returns (s: State)
    requires maxRuntimes > 1 && uuid != other
    ensures Reaches([Acquire(uuid, Works), Acquire(other, Works), Close({uuid}), Release(1)], s, maxRuntimes)
    ensures s.closed && s.entries == map[] && |s.store| == 2
    ensures 1 !in s.held && s.store[1].refs == 0 && s.store[1].stops == 0 && !s.store[1].exited
  {
    hide Reaches;
    var a, b, c, d := Acquire(uuid, Works), Acquire(other, Works), Close({uuid}), Release(1);
    var s1 := OneHeld(uuid, maxRuntimes);
    var s2 := Step([a], s1, b, [a, b], maxRuntimes);
    TwoHeld(uuid, other, maxRuntimes, s1, s2);
    var s3 := Step([a, b], s2, c, [a, b, c], maxRuntimes);
    OneReached(uuid, other, maxRuntimes, s2, s3);
    s := Step([a, b, c], s3, d, [a, b, c, d], maxRuntimes);
  }

  lemma TwoHeld(uuid: string, other: string, maxRuntimes: int, s1: State, s2: State)
    requires maxRuntimes > 1 && uuid != other
    requires s1 == State(false, map[uuid := 0], [Entry(uuid, 1, false, 0)], multiset{0}, multiset{}, {})
    requires s2 == Next(s1, Acquire(other, Works), maxRuntimes)
    ensures s2 == State(false, map[uuid := 0, other := 1], [Entry(uuid, 1, false, 0), Entry(other, 1, false, 0)],
                        multiset{0, 1}, multiset{}, {})
    ensures WellFormed(s2) && Enabled(s2, Close({uuid}))
  {
    assert s1.entries.Keys == {uuid};
    assert {uuid} * s2.entries.Keys == {uuid};
  }

  lemma OneReached(uuid: string, other: string, maxRuntimes: int, s2: State, s3: State)
    requires uuid != other
    requires s2 == State(false, map[uuid := 0, other := 1], [Entry(uuid, 1, false, 0), Entry(other, 1, false, 0)],
                         multiset{0, 1}, multiset{}, {})
    requires WellFormed(s2) && Enabled(s2, Close({uuid})) && s3 == Next(s2, Close({uuid}), maxRuntimes)
    ensures s3.closed && s3.entries == map[] && s3.held == multiset{0, 1} && |s3.store| == 2
    ensures s3.store[1] == Entry(other, 1, false, 0) && WellFormed(s3)
  {
  }

  lemma Step(before: seq<Event>, s: State, e: Event, all: seq<Event>, maxRuntimes: int) returns (t: State)
    requires Reaches(before, s, maxRuntimes) && WellFormed(s) && Enabled(s, e) && all == before + [e]
    ensures t == Next(s, e, maxRuntimes) && Reaches(all, t, maxRuntimes)
  {
    hide Next, WellFormed, Enabled;
    t := Next(s, e, maxRuntimes);
    assert all[..|all| - 1] == before && all[|all| - 1] == e;
  }

  lemma OneHeld(uuid: string, maxRuntimes: int) returns (s: State)
    requires maxRuntimes > 0
    ensures s == State(false, map[uuid := 0], [Entry(uuid, 1, false, 0)], multiset{0}, multiset{}, {})
    ensures Reaches([Acquire(uuid, Works)], s, maxRuntimes)
  {
    s := Step([], INITIAL, Acquire(uuid, Works), [Acquire(uuid, Works)], maxRuntimes);
  }

  // ----- when an acquire succeeds -----

  /** Links with a process that somebody still counts. */
  ghost function LinksInUse(s: State): set<string> {
    set id: nat | id < |s.store| && (id in s.held || id in s.leaked) :: s.store[id].uuid
  }

  /** No process of the link that somebody counts has exited. */
  ghost predicate NoneExited(s: State, uuid: string) {
    forall id :: 0 <= id < |s.store| && (id in s.held || id in s.leaked) && s.store[id].uuid == uuid ==> !s.store[id].exited
  }

  /** The process that a link is mapped to, while it is counted. */
  lemma InUseIsMapped(s: State, maxRuntimes: int)
    requires Invariant(s, maxRuntimes) && !s.closed
    ensures s.entries.Keys == LinksInUse(s)
  {
    forall u | u in s.entries.Keys
      ensures u in LinksInUse(s)
    {
      assert EntryInvariant(s, s.entries[u]);
    }
    forall id: nat | id < |s.store| && (id in s.held || id in s.leaked)
      ensures s.store[id].uuid in s.entries.Keys
    {
      assert EntryInvariant(s, id);
    }
  }

  /** In every run an acquire is given a process exactly if the runtime is open and
      the link's process is in use and has not exited, or the link has none in use,
      fewer links than the cap have, and launching works; it is then given one of
      its own link that is not stopped. */
  lemma GivenIff(events: seq<Event>, s: State, maxRuntimes: int, uuid: string, launch: Launch, t: State)
    requires Reaches(events, s, maxRuntimes) && WellFormed(s) && t == Entered(s, uuid, launch, maxRuntimes)
    ensures t.held != s.held <==>
      && !s.closed
      && (if uuid in LinksInUse(s) then NoneExited(s, uuid) else |LinksInUse(s)| < maxRuntimes && launch == Works)
    ensures t.held != s.held ==> exists id: nat ::
      id < |t.store| && t.held == s.held + multiset{id} && t.store[id].uuid == uuid && t.store[id].stops == 0
  {
    hide Reaches, Invariant, LinksInUse, NoneExited, Left, Swept, Missed, WellFormed;
    RunsKeepInvariant(events, s, maxRuntimes);
    if !s.closed {
      InUseIsMapped(s, maxRuntimes);
      assert |s.entries| == |s.entries.Keys|;
      if uuid in s.entries {
        OnlyOneInUse(s, uuid, maxRuntimes);
        HeldGrows(s.held, s.entries[uuid]);
      } else {
        HeldGrows(s.held, |s.store|);
      }
    }
  }

  lemma HeldGrows(held: multiset<nat>, id: nat)
    ensures held + multiset{id} != held
  {
    assert (held + multiset{id})[id] == held[id] + 1;
  }

  lemma OnlyOneInUse(s: State, uuid: string, maxRuntimes: int)
    requires Invariant(s, maxRuntimes) && !s.closed && uuid in s.entries
    ensures s.entries[uuid] < |s.store| && s.store[s.entries[uuid]].stops == 0
    ensures s.store[s.entries[uuid]].uuid == uuid
    ensures s.entries[uuid] in s.held || s.entries[uuid] in s.leaked
    ensures NoneExited(s, uuid) <==> !s.store[s.entries[uuid]].exited
  {
    assert EntryInvariant(s, s.entries[uuid]);
    forall id | 0 <= id < |s.store| && (id in s.held || id in s.leaked) && s.store[id].uuid == uuid
      ensures id == s.entries[uuid]
    {
      assert EntryInvariant(s, id);
    }
  }
}
