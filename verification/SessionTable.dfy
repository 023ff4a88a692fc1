/** The session table of core/emunel_core/relay/xhttp.py: creation under the lock
    with its two caps, connections that come up, and teardown. */
module SessionTable {
  import opened Prelude

  const MAX_SESSIONS_GLOBAL := 2048
  const MAX_SESSIONS_PER_LINK := 64

  /** Sessions are keyed by link and session id. */
  datatype Key = Key(uuid: string, sid: string)

  /** A session with its key: how often it was closed, how many connections came
      up on it, how many of them after it was closed, how often its downlink task
      was cancelled and its writer closed; ending says that a teardown waits for
      the cancelled task before it closes the writer. */
  datatype Session = Session(
    key: Key, closes: nat, opens: nat, late: nat, cancels: nat, writerCloses: nat, ending: bool)

  /** A session without a connection. */
  function Fresh(key: Key): Session {
    Session(key, 0, 0, 0, 0, 0, false)
  }

  /** table maps a key to the session's number in order of creation. */
  datatype State = State(table: map<Key, nat>, made: seq<Session>)

  const INITIAL := State(map[], [])

  function OfLink(table: map<Key, nat>, uuid: string): set<Key> {
    set k | k in table && k.uuid == uuid
  }

  datatype Event =
    | GetOrCreate(key: Key, ipAllowed: bool)
    | Connect(id: nat)        // an open of this session succeeds: writer and downlink task are set
    | Teardown(key: Key)      // by a client, an error or the reaper, up to the wait for the task
    | TeardownEnd(id: nat)    // the rest of it

  function Next(s: State, e: Event): State {
    match e
    case GetOrCreate(key, ipAllowed) =>
      if key in s.table || |s.table| >= MAX_SESSIONS_GLOBAL || |OfLink(s.table, key.uuid)| >= MAX_SESSIONS_PER_LINK then s
      else if !ipAllowed then s
      else State(s.table[key := |s.made|], s.made + [Fresh(key)])
    case Connect(id) =>
      if id >= |s.made| then s else s.(made := s.made[id := Connected(s.made[id])])
    case Teardown(key) =>
      if key !in s.table || s.table[key] >= |s.made| then s
      else State(s.table - {key}, s.made[s.table[key] := Closed(s.made[s.table[key]])])
    case TeardownEnd(id) =>
      if id >= |s.made| || !s.made[id].ending then s else s.(made := s.made[id := Ended(s.made[id])])
  }

  function Connected(x: Session): Session {
    x.(opens := x.opens + 1, late := if x.closes > 0 then x.late + 1 else x.late)
  }

  /** The task is cancelled if there is one. */
  function Closed(x: Session): Session {
    if x.opens > 0 then x.(closes := x.closes + 1, cancels := x.cancels + 1, ending := true)
    else x.(closes := x.closes + 1)
  }

  /** The writer that the session has by then is closed. */
  function Ended(x: Session): Session {
    x.(writerCloses := x.writerCloses + 1, ending := false)
  }

  class XHttpEngine {
    var table: map<Key, nat>
    var made: seq<Session>

    constructor ()
      ensures Current() == INITIAL
    {
      table, made := map[], [];
    }

    function Current(): State
      reads this
    {
      State(table, made)
    }

    /** The session, or None where the source answers 429 or 403. */
    method GetOrCreateSession(key: Key, ipAllowed: bool) returns (session: Option<nat>)
      modifies this
      ensures Current() == Next(old(Current()), GetOrCreate(key, ipAllowed))
      ensures session.Some? <==> key in table
      ensures session.Some? ==> session.value == table[key]
    {
      if key in table {
        return Some(table[key]);
      }
      if |table| >= MAX_SESSIONS_GLOBAL || |OfLink(table, key.uuid)| >= MAX_SESSIONS_PER_LINK {
        return None;
      }
      if !ipAllowed {
        return None;
      }
      table := table[key := |made|];
      made := made + [Fresh(key)];
      return Some(table[key]);
    }

    /** The end of _open_tcp_for_session. */
    method SetConnection(id: nat)
      requires id < |made|
      modifies this`made
      ensures Current() == Next(old(Current()), Connect(id))
    {
      var x := made[id];
      made := made[id := x.(opens := x.opens + 1, late := if x.closes > 0 then x.late + 1 else x.late)];
    }

    /** teardown up to the wait for the cancelled task; without a task there is no
        writer either, and nothing is left to do. */
    method TearDown(key: Key) returns (waiting: Option<nat>)
      requires key in table ==> table[key] < |made|
      modifies this
      ensures Current() == Next(old(Current()), Teardown(key))
      ensures waiting == if key in old(table) && old(made)[old(table)[key]].opens > 0 then Some(old(table)[key]) else None
    {
      if key !in table {
        return None;
      }
      var id := table[key];
      table := table - {key};
      made := made[id := made[id].(closes := made[id].closes + 1)];
      if made[id].opens == 0 {
        return None;
      }
      made := made[id := made[id].(cancels := made[id].cancels + 1, ending := true)];
      return Some(id);
    }

    method EndTearDown(id: nat)
      requires id < |made| && made[id].ending
      modifies this`made
      ensures Current() == Next(old(Current()), TeardownEnd(id))
    {
      made := made[id := made[id].(writerCloses := made[id].writerCloses + 1, ending := false)];
    }
  }

  function Run(events: seq<Event>): State {
    if events == [] then INITIAL else Next(Run(events[..|events| - 1]), events[|events| - 1])
  }

  /** The caps hold, a key leads to a session of its own, and each session created
      so far is either in the table or closed, once. */
  ghost predicate Invariant(s: State) {
    && |s.table| <= 2048
    && (forall u: string :: |OfLink(s.table, u)| <= 64)
    && (forall k :: k in s.table ==> s.table[k] < |s.made| && s.made[s.table[k]].key == k)
    && (forall id :: 0 <= id < |s.made| ==> Accounted(s.made[id], Listed(s, id)))
  }

  /** A listed session is untouched; any other was closed once, and its task and
      its writer once if it then had a connection. */
  predicate Accounted(x: Session, listed: bool) {
    && x.closes == (if listed then 0 else 1)
    && x.late <= x.opens && (listed ==> x.late == 0)
    && x.cancels == (if !listed && x.opens > x.late then 1 else 0)
    && x.cancels == x.writerCloses + (if x.ending then 1 else 0)
  }

  predicate Listed(s: State, id: nat)
    requires id < |s.made|
  {
    s.made[id].key in s.table && s.table[s.made[id].key] == id
  }

  lemma LinkGrows(table: map<Key, nat>, grown: map<Key, nat>, key: Key, id: nat, u: string)
    requires key !in table && grown == table[key := id]
    ensures |OfLink(grown, u)| <= |OfLink(table, u)| + if u == key.uuid then 1 else 0
  {
    if u == key.uuid {
      assert OfLink(grown, u) == OfLink(table, u) + {key};
    } else {
      assert OfLink(grown, u) == OfLink(table, u);
    }
  }

  lemma LinkShrinks(table: map<Key, nat>, rest: map<Key, nat>, key: Key, u: string)
    requires rest == table - {key}
    ensures |OfLink(rest, u)| <= |OfLink(table, u)|
  {
    assert OfLink(rest, u) == OfLink(table, u) - {key};
  }

  lemma CreateKeepsInvariant(s: State, key: Key)
    requires Invariant(s) && key !in s.table
    requires |s.table| < MAX_SESSIONS_GLOBAL && |OfLink(s.table, key.uuid)| < MAX_SESSIONS_PER_LINK
    ensures Invariant(Next(s, GetOrCreate(key, true)))
  {
    var t := Next(s, GetOrCreate(key, true));
    hide OfLink;
    forall u: string
      ensures |OfLink(t.table, u)| <= MAX_SESSIONS_PER_LINK
    {
      LinkGrows(s.table, t.table, key, |s.made|, u);
    }
    forall id | 0 <= id < |t.made|
      ensures Accounted(t.made[id], Listed(t, id))
    {
      hide Accounted;
      if id < |s.made| {
        assert t.made[id] == s.made[id] && (Listed(t, id) <==> Listed(s, id));
      }
    }
  }

  lemma TeardownKeepsInvariant(s: State, key: Key)
    requires Invariant(s) && key in s.table
    ensures Invariant(Next(s, Teardown(key)))
  {
    hide OfLink;
    var t := Next(s, Teardown(key));
    assert t.table.Keys == s.table.Keys - {key};
    assert |t.table| == |t.table.Keys| && |s.table| == |s.table.Keys|;
    forall u: string
      ensures |OfLink(t.table, u)| <= MAX_SESSIONS_PER_LINK
    {
      LinkShrinks(s.table, t.table, key, u);
    }
  }

  lemma SessionChanges(s: State, id: nat, x: Session)
    requires Invariant(s) && id < |s.made| && x.key == s.made[id].key && Accounted(x, Listed(s, id))
    ensures Invariant(s.(made := s.made[id := x]))
  {
    hide OfLink, Accounted;
    var t := s.(made := s.made[id := x]);
    forall i | 0 <= i < |t.made|
      ensures Accounted(t.made[i], Listed(t, i))
    {
      assert Listed(t, i) <==> Listed(s, i);
      assert Accounted(s.made[i], Listed(s, i));
    }
  }

  /** Over every run the table stays within its caps, a link is only ever given
      its own sessions, and every session created is in the table or was closed
      exactly once. */
  lemma {:induction false} TableIsSound(events: seq<Event>)
    ensures Invariant(Run(events))
  {
    if events == [] {
      assert forall u: string :: OfLink(map[], u) == {};
    } else {
      var s, e := Run(events[..|events| - 1]), events[|events| - 1];
      TableIsSound(events[..|events| - 1]);
      if Next(s, e) != s {
        match e
        case GetOrCreate(key, ipAllowed) => CreateKeepsInvariant(s, key);
        case Connect(id) =>
          assert Accounted(s.made[id], Listed(s, id));
          SessionChanges(s, id, Connected(s.made[id]));
        case Teardown(key) => TeardownKeepsInvariant(s, key);
        case TeardownEnd(id) =>
          assert Accounted(s.made[id], Listed(s, id));
          SessionChanges(s, id, Ended(s.made[id]));
      }
    }
  }

  /** Once a session is torn down, each of its connections was closed exactly if
      there was at most one and it came up before. */
  lemma ConnectionsClosedIff(events: seq<Event>, id: nat)
    requires var s := Run(events); id < |s.made| && !Listed(s, id) && !s.made[id].ending
    ensures var x := Run(events).made[id];
            && x.closes == 1 && x.cancels == x.writerCloses <= 1
            && (x.writerCloses == x.opens <==> x.opens <= 1 && x.late == 0)
  {
    TableIsSound(events);
    assert Accounted(Run(events).made[id], false);
  }

  /** When a session is given: an existing one always, a new one exactly if fewer
      than 2048 sessions are open, fewer than 64 of them of the link, and the
      address is allowed; a new one is listed under its key and untouched. */
  lemma GivenIff(events: seq<Event>, key: Key, ipAllowed: bool)
    ensures var s, t := Run(events), Next(Run(events), GetOrCreate(key, ipAllowed));
      && (key in s.table ==> t == s)
      && (key !in s.table ==>
            (key in t.table <==>
               |s.table| < 2048 && |set k | k in s.table && k.uuid == key.uuid| < 64 && ipAllowed))
      && (key !in s.table && key in t.table ==>
            t.table == s.table[key := |s.made|] && |t.made| == |s.made| + 1 && t.made[..|s.made|] == s.made
            && t.made[|s.made|] == Session(key, 0, 0, 0, 0, 0, false))
  {
    var s := Run(events);
    assert OfLink(s.table, key.uuid) == set k | k in s.table && k.uuid == key.uuid;
  }
}
