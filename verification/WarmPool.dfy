/** The warm connection pool of engines/engines/preconnect.py (_WarmPool): per
    destination a queue of connections, oldest first, in an ordered dictionary. */
module WarmPools {
  import opened Prelude

  /** A pooled connection and the time it was put in. */
  datatype Conn = Conn(id: nat, at: real)

  datatype Bucket = Bucket(key: string, conns: seq<Conn>)

  /** The pool in insertion order of its keys, and what became of connections. */
  datatype State = State(pool: seq<Bucket>, handed: multiset<nat>, closed: multiset<nat>)

  const INITIAL := State([], multiset{}, multiset{})

  datatype Limits = Limits(perHost: nat, maxHosts: nat, ttl: real)

  function Ids(conns: seq<Conn>): (m: multiset<nat>) {
    if conns == [] then multiset{} else multiset{conns[0].id} + Ids(conns[1..])
  }

  function Pooled(pool: seq<Bucket>): (m: multiset<nat>) {
    if pool == [] then multiset{} else Ids(pool[0].conns) + Pooled(pool[1..])
  }

  function Find(pool: seq<Bucket>, key: string): (i: Option<nat>)
    ensures i.Some? ==> i.value < |pool| && pool[i.value].key == key
    ensures i.None? ==> forall k :: 0 <= k < |pool| ==> pool[k].key != key
  {
    if pool == [] then None
    else if pool[0].key == key then Some(0)
    else
      var i := Find(pool[1..], key);
      if i.Some? then Some(i.value + 1) else None
  }

  /** Usable: not older than the time to live, and not closing. */
  predicate Live(c: Conn, now: real, ttl: real, closing: set<nat>) {
    now - c.at <= ttl && c.id !in closing
  }

  /** Successive readings of the clock. */
  type Clock = nat -> real

  /** Number of unusable connections at the front of a queue, each looked at with
      a clock reading of its own, the first of them the k-th. */
  function Stale(conns: seq<Conn>, k: nat, clock: Clock, ttl: real, closing: set<nat>): (n: nat)
    ensures n <= |conns| && forall i :: 0 <= i < n ==> !Live(conns[i], clock(k + i), ttl, closing)
    ensures n < |conns| ==> Live(conns[n], clock(k + n), ttl, closing)
  {
    if conns == [] || Live(conns[0], clock(k), ttl, closing) then 0
    else 1 + Stale(conns[1..], k + 1, clock, ttl, closing)
  }

  // ----- take, put, close_all as state changes -----

  function Took(s: State, key: string, k: nat, clock: Clock, ttl: real, closing: set<nat>): (State, Option<Conn>) {
    var i := Find(s.pool, key);
    if i.None? then (s, None)
    else
      var conns := s.pool[i.value].conns;
      var n := Stale(conns, k, clock, ttl, closing);
      var closed := s.closed + Ids(conns[..n]);
      if n < |conns| then
        (State(s.pool[i.value := Bucket(key, conns[n + 1..])], s.handed + multiset{conns[n].id}, closed), Some(conns[n]))
      else (State(s.pool[..i.value] + s.pool[i.value + 1..], s.handed, closed), None)
  }

  /** Where the bucket of a key is, or will be once created at the end. */
  function Slot(pool: seq<Bucket>, key: string): (i: nat)
    ensures i <= |pool| && (i < |pool| ==> pool[i].key == key)
  {
    var i := Find(pool, key);
    if i.Some? then i.value else |pool|
  }

  /** One more connection in the bucket of a key. */
  function Appended(pool: seq<Bucket>, key: string, c: Conn): (r: seq<Bucket>)
    ensures Slot(pool, key) < |r|
  {
    var i := Slot(pool, key);
    if i == |pool| then pool + [Bucket(key, [c])] else pool[i := Bucket(key, pool[i].conns + [c])]
  }

  /** Oldest connections of a bucket beyond the limit are closed. */
  function Trimmed(s: State, i: nat, perHost: nat): (t: State)
    requires i < |s.pool|
    ensures |t.pool| == |s.pool|
  {
    var conns := s.pool[i].conns;
    var n := Max(0, |conns| - perHost);
    State(s.pool[i := Bucket(s.pool[i].key, conns[n..])], s.handed, s.closed + Ids(conns[..n]))
  }

  /** Oldest buckets beyond the limit are closed. */
  function Evicted(s: State, maxHosts: nat): State {
    var n := Max(0, |s.pool| - maxHosts);
    State(s.pool[n..], s.handed, s.closed + Pooled(s.pool[..n]))
  }

  function Put(s: State, key: string, c: Conn, limits: Limits): State {
    Evicted(Trimmed(s.(pool := Appended(s.pool, key, c)), Slot(s.pool, key), limits.perHost), limits.maxHosts)
  }

  function ClosedAll(s: State): State {
    State([], s.handed, s.closed + Pooled(s.pool))
  }

  // ----- the pool object; handed and closed are observations -----

  class WarmPool {
    const limits: Limits
    var pool: seq<Bucket>
    ghost var handed: multiset<nat>
    ghost var closed: multiset<nat>

    constructor (limits: Limits)
      ensures Current() == INITIAL && this.limits == limits
    {
      this.limits := limits;
      pool, handed, closed := [], multiset{}, multiset{};
    }

    ghost function Current(): State
      reads this
    {
      State(pool, handed, closed)
    }

    method Take(key: string, clock: Clock, closing: set<nat>) returns (c: Option<Conn>)
      modifies this
      ensures Current() == Took(old(Current()), key, 0, clock, limits.ttl, closing).0
      ensures c == Took(old(Current()), key, 0, clock, limits.ttl, closing).1
    {
      var i := Find(pool, key);
      if i.None? {
        return None;
      }
      var at := i.value;
      ghost var before := old(Current());
      var k := 0;
      while pool[at].conns != []
        invariant Find(pool, key) == Some(at)
        invariant Took(Current(), key, k, clock, limits.ttl, closing) == Took(before, key, 0, clock, limits.ttl, closing)
        decreases |pool[at].conns|
      {
        hide Took;
        ghost var s := Current();
        var entry, rest := pool[at].conns[0], pool[at].conns[1..];
        FindAfterUpdate(pool, key, at, rest);
        pool := pool[at := Bucket(key, rest)];
        if clock(k) - entry.at > limits.ttl || entry.id in closing {
          closed := closed + multiset{entry.id};
          StaleStep(s, Current(), key, at, k, clock, limits.ttl, closing);
          k := k + 1;
          continue;
        }
        handed := handed + multiset{entry.id};
        LiveStep(s, Current(), key, at, k, clock, limits.ttl, closing);
        return Some(entry);
      }
      pool := pool[..at] + pool[at + 1..];
      return None;
    }

    method Add(key: string, c: Conn)
      modifies this
      ensures Current() == Put(old(Current()), key, c, limits)
    {
      var i := Slot(pool, key);
      pool := Appended(pool, key, c);
      TrimBucket(i);
      ghost var t := Current();
      while |pool| > limits.maxHosts
        invariant Evicted(Current(), limits.maxHosts) == Evicted(t, limits.maxHosts)
        decreases |pool|
      {
        EvictStep(Current(), limits.maxHosts);
        closed := closed + Ids(pool[0].conns);
        pool := pool[1..];
      }
    }

    /** while len(bucket) > per_host */
    method TrimBucket(i: nat)
      requires i < |pool|
      modifies this
      ensures Current() == Trimmed(old(Current()), i, limits.perHost)
    {
      ghost var before := Current();
      while |pool[i].conns| > limits.perHost
        invariant i < |pool| && Trimmed(Current(), i, limits.perHost) == Trimmed(before, i, limits.perHost)
        decreases |pool[i].conns|
      {
        TrimStep(Current(), i, limits.perHost);
        closed := closed + multiset{pool[i].conns[0].id};
        pool := pool[i := Bucket(pool[i].key, pool[i].conns[1..])];
      }
    }

    method CloseAll()
      modifies this
      ensures Current() == ClosedAll(old(Current()))
    {
      assert pool[0..] == pool;
      for b := 0 to |pool|
        invariant pool == old(pool) && handed == old(handed)
        invariant closed + Pooled(pool[b..]) == old(closed) + Pooled(pool)
      {
        assert pool[b..][1..] == pool[b + 1..];
        AppendedSum(closed, multiset{}, Ids(pool[b].conns), Pooled(pool[b + 1..]));
        CloseBucket(pool[b].conns);
      }
      assert pool[|pool|..] == [];
      pool := [];
    }

    method CloseBucket(conns: seq<Conn>)
      modifies this`closed
      ensures closed == old(closed) + Ids(conns)
    {
      assert conns[0..] == conns;
      for i := 0 to |conns|
        invariant closed + Ids(conns[i..]) == old(closed) + Ids(conns)
      {
        assert conns[i..][1..] == conns[i + 1..];
        AppendedSum(closed, multiset{}, multiset{conns[i].id}, Ids(conns[i + 1..]));
        closed := closed + multiset{conns[i].id};
      }
      assert conns[|conns|..] == [];
    }
  }

  lemma {:induction false} FindAfterUpdate(pool: seq<Bucket>, key: string, at: nat, conns: seq<Conn>)
    requires Find(pool, key) == Some(at)
    ensures at < |pool| && Find(pool[at := Bucket(key, conns)], key) == Some(at)
    decreases |pool|
  {
    if pool[0].key != key {
      FindAfterUpdate(pool[1..], key, at - 1, conns);
      assert pool[at := Bucket(key, conns)][1..] == pool[1..][at - 1 := Bucket(key, conns)];
    }
  }

  /** Dropping an unusable connection leads to the same outcome. */
  lemma StaleStep(s: State, t: State, key: string, at: nat, k: nat, clock: Clock, ttl: real, closing: set<nat>)
    requires Find(s.pool, key) == Some(at) && Find(t.pool, key) == Some(at) && s.pool[at].conns != []
    requires !Live(s.pool[at].conns[0], clock(k), ttl, closing)
    requires var c := s.pool[at].conns;
      t == State(s.pool[at := Bucket(key, c[1..])], s.handed, s.closed + multiset{c[0].id})
    ensures Took(s, key, k, clock, ttl, closing) == Took(t, key, k + 1, clock, ttl, closing)
  {
    var c := s.pool[at].conns;
    var n := Stale(c, k, clock, ttl, closing);
    assert c[..n][1..] == c[1..][..n - 1];
    assert s.closed + Ids(c[..n]) == t.closed + Ids(c[1..][..n - 1]);
    if n < |c| {
      assert c[n + 1..] == c[1..][n..];
      assert s.pool[at := Bucket(key, c[n + 1..])] == t.pool[at := Bucket(key, c[n + 1..])];
    } else {
      assert s.pool[..at] + s.pool[at + 1..] == t.pool[..at] + t.pool[at + 1..];
    }
  }

  lemma LiveStep(s: State, t: State, key: string, at: nat, k: nat, clock: Clock, ttl: real, closing: set<nat>)
    requires Find(s.pool, key) == Some(at) && s.pool[at].conns != []
    requires Live(s.pool[at].conns[0], clock(k), ttl, closing)
    requires var c := s.pool[at].conns;
      t == State(s.pool[at := Bucket(key, c[1..])], s.handed + multiset{c[0].id}, s.closed)
    ensures Took(s, key, k, clock, ttl, closing) == (t, Some(s.pool[at].conns[0]))
  {
    var c := s.pool[at].conns;
    assert Stale(c, k, clock, ttl, closing) == 0 && c[..0] == [];
    assert s.closed + Ids(c[..0]) == s.closed;
  }

  lemma TrimStep(s: State, i: nat, perHost: nat)
    requires i < |s.pool| && |s.pool[i].conns| > perHost
    ensures var c := s.pool[i].conns;
            var t := State(s.pool[i := Bucket(s.pool[i].key, c[1..])], s.handed, s.closed + multiset{c[0].id});
            Trimmed(s, i, perHost) == Trimmed(t, i, perHost)
  {
    var c := s.pool[i].conns;
    var n := |c| - perHost;
    assert c[..n][1..] == c[1..][..n - 1];
    assert c[n..] == c[1..][n - 1..];
    AppendedSum(multiset{}, s.closed, multiset{c[0].id}, Ids(c[1..][..n - 1]));
  }

  lemma EvictStep(s: State, maxHosts: nat)
    requires |s.pool| > maxHosts
    ensures var t := State(s.pool[1..], s.handed, s.closed + Ids(s.pool[0].conns));
            Evicted(s, maxHosts) == Evicted(t, maxHosts)
  {
    var p, n := s.pool, |s.pool| - maxHosts;
    assert p[..n][1..] == p[1..][..n - 1];
    assert p[n..] == p[1..][n - 1..];
    AppendedSum(multiset{}, s.closed, Ids(p[0].conns), Pooled(p[1..][..n - 1]));
  }

  // ----- every run -----

  datatype Event =
    | TakeOne(key: string, clock: Clock, closing: set<nat>)
    | PutOne(key: string, conn: Conn)
    | CloseEvery

  function Next(s: State, e: Event, limits: Limits): State {
    match e
    case TakeOne(key, clock, closing) => Took(s, key, 0, clock, limits.ttl, closing).0
    case PutOne(key, conn) => Put(s, key, conn, limits)
    case CloseEvery => ClosedAll(s)
  }

  function Run(events: seq<Event>, limits: Limits): State {
    if events == [] then INITIAL else Next(Run(events[..|events| - 1], limits), events[|events| - 1], limits)
  }

  /** Every connection that was ever put in. */
  function Given(events: seq<Event>): multiset<nat> {
    if events == [] then multiset{}
    else
      var e := events[|events| - 1];
      Given(events[..|events| - 1]) + if e.PutOne? then multiset{e.conn.id} else multiset{}
  }

  /** Where connections are: pooled, handed out or closed. */
  function Ledger(s: State): multiset<nat> {
    Pooled(s.pool) + s.handed + s.closed
  }

  lemma {:induction false} IdsJoin(a: seq<Conn>, b: seq<Conn>)
    ensures Ids(a + b) == Ids(a) + Ids(b)
  {
    if a == [] {
      assert a + b == b;
    } else {
      assert (a + b)[0] == a[0] && (a + b)[1..] == a[1..] + b;
      IdsJoin(a[1..], b);
    }
  }

  lemma IdsSplit(conns: seq<Conn>, n: nat)
    requires n <= |conns|
    ensures Ids(conns) == Ids(conns[..n]) + Ids(conns[n..])
  {
    assert conns == conns[..n] + conns[n..];
    IdsJoin(conns[..n], conns[n..]);
  }

  lemma {:induction false} PooledJoin(a: seq<Bucket>, b: seq<Bucket>)
    ensures Pooled(a + b) == Pooled(a) + Pooled(b)
  {
    if a == [] {
      assert a + b == b;
    } else {
      assert (a + b)[0] == a[0] && (a + b)[1..] == a[1..] + b;
      PooledJoin(a[1..], b);
    }
  }

  lemma PooledSplit(pool: seq<Bucket>, n: nat)
    requires n <= |pool|
    ensures Pooled(pool) == Pooled(pool[..n]) + Pooled(pool[n..])
  {
    assert pool == pool[..n] + pool[n..];
    PooledJoin(pool[..n], pool[n..]);
  }

  lemma PooledAt(pool: seq<Bucket>, i: nat, b: Bucket)
    requires i < |pool|
    ensures Pooled(pool) == Pooled(pool[..i]) + Ids(pool[i].conns) + Pooled(pool[i + 1..])
    ensures Pooled(pool[i := b]) == Pooled(pool[..i]) + Ids(b.conns) + Pooled(pool[i + 1..])
  {
    PooledSplit(pool, i);
    assert pool[i..][1..] == pool[i + 1..];
    var q := pool[i := b];
    PooledSplit(q, i);
    assert q[..i] == pool[..i] && q[i..][1..] == pool[i + 1..];
  }

  lemma MovedSum(front: multiset<nat>, stale: multiset<nat>, taken: multiset<nat>, kept: multiset<nat>, back: multiset<nat>,
                 handed: multiset<nat>, closed: multiset<nat>)
    ensures front + (stale + (taken + kept)) + back + handed + closed
            == front + kept + back + (handed + taken) + (closed + stale)
  {
  }

  lemma TakeBalances(s: State, key: string, clock: Clock, ttl: real, closing: set<nat>)
    ensures Ledger(Took(s, key, 0, clock, ttl, closing).0) == Ledger(s)
  {
    hide Live, Pooled;
    var i := Find(s.pool, key);
    if i.Some? {
      var at, conns := i.value, s.pool[i.value].conns;
      var n := Stale(conns, 0, clock, ttl, closing);
      var front, stale, back := Pooled(s.pool[..at]), Ids(conns[..n]), Pooled(s.pool[at + 1..]);
      IdsSplit(conns, n);
      if n < |conns| {
        var kept := conns[n + 1..];
        assert conns[n..][1..] == kept;
        PooledAt(s.pool, at, Bucket(key, kept));
        assert Pooled(s.pool) == front + (stale + (multiset{conns[n].id} + Ids(kept))) + back;
        MovedSum(front, stale, multiset{conns[n].id}, Ids(kept), back, s.handed, s.closed);
      } else {
        assert conns[..n] == conns;
        PooledAt(s.pool, at, s.pool[at]);
        BucketRemoved(s.pool, at);
        MovedSum(front, stale, multiset{}, multiset{}, back, s.handed, s.closed);
        assert Pooled(s.pool) == front + (stale + (multiset{} + multiset{})) + back;
      }
    }
  }

  lemma BucketRemoved(pool: seq<Bucket>, at: nat)
    requires at < |pool|
    ensures Pooled(pool[..at] + pool[at + 1..]) == Pooled(pool[..at]) + multiset{} + Pooled(pool[at + 1..])
  {
    var rest := pool[..at] + pool[at + 1..];
    PooledSplit(rest, at);
    assert rest[..at] == pool[..at] && rest[at..] == pool[at + 1..];
  }

  lemma IdsAppend(conns: seq<Conn>, c: Conn)
    ensures Ids(conns + [c]) == Ids(conns) + multiset{c.id}
  {
    IdsSplit(conns + [c], |conns|);
    assert (conns + [c])[..|conns|] == conns && (conns + [c])[|conns|..] == [c];
    assert [c][1..] == [];
  }

  lemma AppendedSum(front: multiset<nat>, mid: multiset<nat>, extra: multiset<nat>, back: multiset<nat>)
    ensures front + (mid + extra) + back == front + mid + back + extra
    ensures front + mid + (extra + back) == front + mid + extra + back
    ensures mid + extra == extra + mid && (mid == multiset{} ==> front + mid == front)
    ensures mid + (extra + back) == mid + extra + back
  {
  }

  lemma OneBucket(b: Bucket, c: Conn)
    requires b.conns == [c]
    ensures Pooled([b]) == multiset{c.id}
  {
    assert [b][1..] == [];
    assert [c][1..] == [];
    assert Ids([c]) == multiset{c.id};
  }

  lemma AppendAdds(pool: seq<Bucket>, key: string, c: Conn)
    ensures Pooled(Appended(pool, key, c)) == Pooled(pool) + multiset{c.id}
  {
    var i := Slot(pool, key);
    if i == |pool| {
      var last := Bucket(key, [c]);
      var r := pool + [last];
      PooledSplit(r, i);
      assert r[..i] == pool && r[i..] == [last];
      OneBucket(last, c);
    } else {
      hide Pooled, Ids;
      PooledAt(pool, i, Bucket(key, pool[i].conns + [c]));
      IdsAppend(pool[i].conns, c);
      AppendedSum(Pooled(pool[..i]), Ids(pool[i].conns), multiset{c.id}, Pooled(pool[i + 1..]));
    }
  }

  lemma TrimBalances(s: State, i: nat, perHost: nat)
    requires i < |s.pool|
    ensures Ledger(Trimmed(s, i, perHost)) == Ledger(s)
  {
    hide Pooled, Ids;
    var conns := s.pool[i].conns;
    var n := Max(0, |conns| - perHost);
    var front, back := Pooled(s.pool[..i]), Pooled(s.pool[i + 1..]);
    IdsSplit(conns, n);
    PooledAt(s.pool, i, Bucket(s.pool[i].key, conns[n..]));
    MovedSum(front, Ids(conns[..n]), multiset{}, Ids(conns[n..]), back, s.handed, s.closed);
    assert multiset{} + Ids(conns[n..]) == Ids(conns[n..]);
    assert s.handed + multiset{} == s.handed;
  }

  lemma EvictBalances(s: State, maxHosts: nat)
    ensures Ledger(Evicted(s, maxHosts)) == Ledger(s)
  {
    hide Pooled;
    var n := Max(0, |s.pool| - maxHosts);
    PooledSplit(s.pool, n);
  }

  lemma PutBalances(s: State, key: string, c: Conn, limits: Limits)
    ensures Ledger(Put(s, key, c, limits)) == Ledger(s) + multiset{c.id}
  {
    hide Pooled, Appended, Trimmed, Evicted;
    var t := s.(pool := Appended(s.pool, key, c));
    AppendAdds(s.pool, key, c);
    AppendedSum(Pooled(s.pool), multiset{}, multiset{c.id}, s.handed + s.closed);
    TrimBalances(t, Slot(s.pool, key), limits.perHost);
    EvictBalances(Trimmed(t, Slot(s.pool, key), limits.perHost), limits.maxHosts);
  }

  /** At most perHost connections per key, at most maxHosts keys, all different. */
  ghost predicate Bounded(s: State, limits: Limits) {
    && |s.pool| <= limits.maxHosts
    && (forall i :: 0 <= i < |s.pool| ==> |s.pool[i].conns| <= limits.perHost)
    && Distinct(s.pool)
  }

  /** Buckets of different keys. */
  ghost predicate Distinct(pool: seq<Bucket>) {
    forall i, j :: 0 <= i < j < |pool| ==> pool[i].key != pool[j].key
  }

  lemma TakeStaysBounded(s: State, key: string, clock: Clock, limits: Limits, closing: set<nat>)
    requires Bounded(s, limits)
    ensures Bounded(Took(s, key, 0, clock, limits.ttl, closing).0, limits)
  {
    hide Ids, Pooled, Live, Stale;
  }

  lemma AppendedIsDistinct(pool: seq<Bucket>, key: string, c: Conn)
    requires Distinct(pool)
    ensures Distinct(Appended(pool, key, c)) && |Appended(pool, key, c)| <= |pool| + 1
    ensures forall i :: 0 <= i < |Appended(pool, key, c)| && i != Slot(pool, key) ==>
      i < |pool| && Appended(pool, key, c)[i] == pool[i]
  {
  }

  lemma PutStaysBounded(s: State, key: string, c: Conn, limits: Limits)
    requires Bounded(s, limits)
    ensures Bounded(Put(s, key, c, limits), limits)
  {
    hide Ids, Pooled, Slot, Appended;
    AppendedIsDistinct(s.pool, key, c);
    var i, t := Slot(s.pool, key), s.(pool := Appended(s.pool, key, c));
    var u := Trimmed(t, i, limits.perHost);
    assert Distinct(u.pool) && forall k :: 0 <= k < |u.pool| ==> |u.pool[k].conns| <= limits.perHost;
  }

  lemma NextStaysBounded(s: State, e: Event, limits: Limits)
    requires Bounded(s, limits)
    ensures Bounded(Next(s, e, limits), limits)
  {
    hide Took, Put;
    match e
    case TakeOne(key, clock, closing) => TakeStaysBounded(s, key, clock, limits, closing);
    case PutOne(key, conn) => PutStaysBounded(s, key, conn, limits);
    case CloseEvery =>
  }

  /** Conservation over every run: what was put in is what is pooled, handed out
      or closed, with the same multiplicity, and the bounds hold. */
  lemma {:induction false} Conservation(events: seq<Event>, limits: Limits)
    ensures Ledger(Run(events, limits)) == Given(events) && Bounded(Run(events, limits), limits)
  {
    hide Next, Bounded, Ledger;
    if events == [] {
      NothingYet(limits);
    } else {
      var before, e := events[..|events| - 1], events[|events| - 1];
      Conservation(before, limits);
      NextBalances(Run(before, limits), e, limits);
      NextStaysBounded(Run(before, limits), e, limits);
    }
  }

  lemma NothingYet(limits: Limits)
    ensures Ledger(INITIAL) == multiset{} && Bounded(INITIAL, limits)
  {
  }

  lemma NextBalances(s: State, e: Event, limits: Limits)
    ensures Ledger(Next(s, e, limits)) == Ledger(s) + if e.PutOne? then multiset{e.conn.id} else multiset{}
  {
    hide Took, Put;
    match e
    case TakeOne(key, clock, closing) => TakeBalances(s, key, clock, limits.ttl, closing);
    case PutOne(key, conn) => PutBalances(s, key, conn, limits);
    case CloseEvery =>
  }

  /** A connection put in once is in exactly one of the three places. */
  lemma ExactlyOneFate(events: seq<Event>, limits: Limits, id: nat)
    requires Given(events)[id] == 1
    ensures var s := Run(events, limits); Pooled(s.pool)[id] + s.handed[id] + s.closed[id] == 1
  {
    Conservation(events, limits);
    assert Ledger(Run(events, limits))[id] == 1;
  }

  /** What take hands out was live, and came from the bucket asked for, behind
      unusable connections only. */
  lemma TakenIsLive(s: State, key: string, clock: Clock, ttl: real, closing: set<nat>, c: Conn)
    requires Took(s, key, 0, clock, ttl, closing).1 == Some(c)
    ensures exists i, n :: (
      && 0 <= i < |s.pool| && s.pool[i].key == key && 0 <= n < |s.pool[i].conns| && s.pool[i].conns[n] == c
      && clock(n) - c.at <= ttl && c.id !in closing
      && forall k :: 0 <= k < n ==> clock(k) - s.pool[i].conns[k].at > ttl || s.pool[i].conns[k].id in closing)
  {
    var i := Find(s.pool, key).value;
    var n := Stale(s.pool[i].conns, 0, clock, ttl, closing);
    assert s.pool[i].conns[n] == c;
  }

  // ----- eviction order against the order of use -----

  function Keys(pool: seq<Bucket>): (keys: seq<string>)
    ensures |keys| == |pool| && forall i :: 0 <= i < |pool| ==> keys[i] == pool[i].key
  {
    seq(|pool|, i requires 0 <= i < |pool| => pool[i].key)
  }

  predicate Uses(e: Event, key: string) {
    !e.CloseEvery? && e.key == key
  }

  /** When a key was last asked for or put, counted in events; 0 for never. */
  function LastUse(events: seq<Event>, key: string): (n: nat)
    ensures n <= |events|
  {
    if events == [] then 0
    else if Uses(events[|events| - 1], key) then |events|
    else LastUse(events[..|events| - 1], key)
  }

  ghost predicate Ascending(keys: seq<string>, events: seq<Event>) {
    forall i, j :: 0 <= i < j < |keys| ==> LastUse(events, keys[i]) < LastUse(events, keys[j])
  }

  /** The pool is in LRU order: its buckets stand in the order of their last use. */
  ghost predicate InUseOrder(events: seq<Event>, limits: Limits) {
    Ascending(Keys(Run(events, limits).pool), events)
  }

  /** A bucket with others behind it is put into, or taken from with success. */
  predicate Overtakes(s: State, e: Event, limits: Limits) {
    match e
    case TakeOne(key, clock, closing) =>
      Slot(s.pool, key) < |s.pool| - 1 && Took(s, key, 0, clock, limits.ttl, closing).1.Some?
    case PutOne(key, _) => Slot(s.pool, key) < |s.pool| - 1
    case CloseEvery => false
  }

  /** A new key goes to the end, and what is too much leaves at the front; the
      place of a key that is there does not change. */
  lemma PutKeys(s: State, key: string, c: Conn, limits: Limits)
    requires Bounded(s, limits)
    ensures var i, keys, after := Slot(s.pool, key), Keys(s.pool), Keys(Put(s, key, c, limits).pool);
            if i < |s.pool| then after == keys
            else after == (keys + [key])[Max(0, |keys| + 1 - limits.maxHosts)..]
  {
    hide Ids, Pooled;
  }

  lemma TakeKeys(s: State, key: string, clock: Clock, ttl: real, closing: set<nat>)
    ensures var i, keys, t := Slot(s.pool, key), Keys(s.pool), Took(s, key, 0, clock, ttl, closing);
            Keys(t.0.pool) == if i == |keys| || t.1.Some? then keys else keys[..i] + keys[i + 1..]
  {
    hide Ids, Live, Stale;
  }

  lemma LastUseStep(events: seq<Event>, e: Event, all: seq<Event>, key: string)
    requires all == events + [e]
    ensures LastUse(all, key) == if Uses(e, key) then |all| else LastUse(events, key)
  {
    assert all[..|all| - 1] == events;
  }

  /** A use of a key that is not among them leaves the order of keys as it is. */
  lemma UntouchedOrder(keys: seq<string>, events: seq<Event>, e: Event, all: seq<Event>)
    requires all == events + [e] && Ascending(keys, events) && forall i :: 0 <= i < |keys| ==> !Uses(e, keys[i])
    ensures Ascending(keys, all)
  {
    forall i | 0 <= i < |keys|
      ensures LastUse(all, keys[i]) == LastUse(events, keys[i])
    {
      LastUseStep(events, e, all, keys[i]);
    }
  }

  /** A use of key number at keeps different keys in order only if it is the last. */
  lemma TouchedOrder(keys: seq<string>, events: seq<Event>, e: Event, all: seq<Event>, at: nat)
    requires all == events + [e] && Ascending(keys, events) && at < |keys| && Uses(e, keys[at])
    requires forall i, j :: 0 <= i < j < |keys| ==> keys[i] != keys[j]
    ensures Ascending(keys, all) <==> at == |keys| - 1
  {
    forall i | 0 <= i < |keys|
      ensures LastUse(all, keys[i]) == if i == at then |all| else LastUse(events, keys[i])
    {
      LastUseStep(events, e, all, keys[i]);
    }
    hide LastUse;
    var last := |keys| - 1;
    if at < last {
      assert LastUse(all, keys[last]) <= |events| < LastUse(all, keys[at]);
    }
  }

  lemma SlotIsUnique(pool: seq<Bucket>, key: string)
    ensures Slot(pool, key) < |pool| ==> Keys(pool)[Slot(pool, key)] == key
    ensures Slot(pool, key) == |pool| ==> key !in Keys(pool)
  {
  }

  /** One step keeps the LRU order exactly if it overtakes nothing. */
  lemma UseStepIff(events: seq<Event>, e: Event, all: seq<Event>, limits: Limits)
    requires all == events + [e] && InUseOrder(events, limits)
    ensures InUseOrder(all, limits) <==> !Overtakes(Run(events, limits), e, limits)
  {
    hide Took, Put, Slot, Ascending, Bounded, Keys;
    var s := Run(events, limits);
    assert all[..|all| - 1] == events && Run(all, limits) == Next(s, e, limits);
    Conservation(events, limits);
    match e
    case CloseEvery => NoKeys(all);
    case PutOne(key, c) => PutStepIff(s, events, e, all, limits);
    case TakeOne(key, clock, closing) => TakeStepIff(s, events, e, all, limits);
  }

  lemma PutStepIff(s: State, events: seq<Event>, e: Event, all: seq<Event>, limits: Limits)
    requires all == events + [e] && e.PutOne? && Bounded(s, limits) && Ascending(Keys(s.pool), events)
    ensures Ascending(Keys(Put(s, e.key, e.conn, limits).pool), all) <==> !(Slot(s.pool, e.key) < |s.pool| - 1)
  {
    hide Put, Slot, LastUse, Ascending, Bounded;
    var keys, key := Keys(s.pool), e.key;
    KeysDiffer(s, limits);
    SlotIsUnique(s.pool, key);
    PutKeys(s, key, e.conn, limits);
    if Slot(s.pool, key) < |keys| {
      TouchedOrder(keys, events, e, all, Slot(s.pool, key));
    } else {
      UntouchedOrder(keys, events, e, all);
      NewestLast(keys, key, events, e, all, Max(0, |keys| + 1 - limits.maxHosts));
    }
  }

  lemma TakeStepIff(s: State, events: seq<Event>, e: Event, all: seq<Event>, limits: Limits)
    requires all == events + [e] && e.TakeOne? && Bounded(s, limits) && Ascending(Keys(s.pool), events)
    ensures var t := Took(s, e.key, 0, e.clock, limits.ttl, e.closing);
            Ascending(Keys(t.0.pool), all) <==> !(Slot(s.pool, e.key) < |s.pool| - 1 && t.1.Some?)
  {
    hide Took, Slot, LastUse, Ascending, Bounded;
    var keys, i := Keys(s.pool), Slot(s.pool, e.key);
    KeysDiffer(s, limits);
    SlotIsUnique(s.pool, e.key);
    TakeKeys(s, e.key, e.clock, limits.ttl, e.closing);
    if i == |keys| {
      UntouchedOrder(keys, events, e, all);
    } else if Took(s, e.key, 0, e.clock, limits.ttl, e.closing).1.Some? {
      TouchedOrder(keys, events, e, all, i);
    } else {
      WithoutOne(keys, events, i);
      UntouchedOrder(keys[..i] + keys[i + 1..], events, e, all);
    }
  }

  lemma KeysDiffer(s: State, limits: Limits)
    requires Bounded(s, limits)
    ensures forall i, j :: 0 <= i < j < |s.pool| ==> Keys(s.pool)[i] != Keys(s.pool)[j]
  {
  }

  lemma NoKeys(events: seq<Event>)
    ensures Ascending(Keys([]), events)
  {
  }

  lemma NewestLast(keys: seq<string>, key: string, events: seq<Event>, e: Event, all: seq<Event>, n: nat)
    requires all == events + [e] && Uses(e, key) && Ascending(keys, all) && n <= |keys| + 1
    requires forall i :: 0 <= i < |keys| ==> keys[i] != key
    ensures Ascending((keys + [key])[n..], all)
  {
    LastUseStep(events, e, all, key);
    forall i | 0 <= i < |keys|
      ensures LastUse(all, keys[i]) < |all|
    {
      LastUseStep(events, e, all, keys[i]);
    }
  }

  lemma WithoutOne(keys: seq<string>, events: seq<Event>, i: nat)
    requires Ascending(keys, events) && i < |keys|
    ensures Ascending(keys[..i] + keys[i + 1..], events)
  {
  }

  ghost predicate AlwaysInUseOrder(events: seq<Event>, limits: Limits) {
    forall n :: 0 <= n <= |events| ==> InUseOrder(events[..n], limits)
  }

  ghost predicate NeverOvertakes(events: seq<Event>, limits: Limits) {
    forall n :: 0 <= n < |events| ==> !Overtakes(Run(events[..n], limits), events[n], limits)
  }

  lemma OneMoreEvent(events: seq<Event>, e: Event, all: seq<Event>, limits: Limits)
    requires all == events + [e]
    ensures AlwaysInUseOrder(all, limits) <==> AlwaysInUseOrder(events, limits) && InUseOrder(all, limits)
    ensures NeverOvertakes(all, limits) <==>
      NeverOvertakes(events, limits) && !Overtakes(Run(events, limits), e, limits)
  {
    hide InUseOrder, Overtakes, Run;
    assert all[..|events|] == events && all[..|all|] == all;
    assert forall n :: 0 <= n <= |events| ==> all[..n] == events[..n];
  }

  /** The pool is in LRU order all through a run exactly if no event of the run
      uses a key with other keys behind it. */
  lemma {:induction false} AlwaysLruIff(events: seq<Event>, limits: Limits)
    ensures AlwaysInUseOrder(events, limits) <==> NeverOvertakes(events, limits)
  {
    hide InUseOrder, Overtakes, AlwaysInUseOrder, NeverOvertakes, Run;
    if events == [] {
      NothingUsed(limits);
    } else {
      var m := |events| - 1;
      var before := events[..m];
      assert events == before + [events[m]];
      AlwaysLruIff(before, limits);
      OneMoreEvent(before, events[m], events, limits);
      if AlwaysInUseOrder(before, limits) {
        AtTheEnd(before, limits);
        UseStepIff(before, events[m], events, limits);
      }
    }
  }

  lemma NothingUsed(limits: Limits)
    ensures AlwaysInUseOrder([], limits) && NeverOvertakes([], limits)
  {
    NoKeys([]);
  }

  lemma AtTheEnd(events: seq<Event>, limits: Limits)
    requires AlwaysInUseOrder(events, limits)
    ensures InUseOrder(events, limits)
  {
    hide InUseOrder;
    assert events[..|events|] == events;
  }

  /** In LRU order, the keys that a put evicts were used before all that stay. */
  lemma EvictsLeastRecentlyUsed(
    events: seq<Event>, key: string, c: Conn, limits: Limits, gone: string, stays: string)
    requires InUseOrder(events, limits)
    requires var before, after := Run(events, limits).pool, Put(Run(events, limits), key, c, limits).pool;
      gone in Keys(before) && gone !in Keys(after) && stays in Keys(after)
    ensures LastUse(events, gone) < LastUse(events + [PutOne(key, c)], stays)
  {
    hide Put, LastUse, Slot, Ascending, Run, Bounded, Keys;
    var s := Run(events, limits);
    var keys, n := Keys(s.pool), Max(0, |s.pool| + 1 - limits.maxHosts);
    Conservation(events, limits);
    PutKeys(s, key, c, limits);
    assert Slot(s.pool, key) == |keys|;
    DroppedAreOlder(keys, key, c, events, n, gone, stays);
  }

  lemma DroppedAreOlder(
    keys: seq<string>, key: string, c: Conn, events: seq<Event>, n: nat, gone: string, stays: string)
    requires Ascending(keys, events) && n <= |keys| + 1
    requires gone in keys && gone !in (keys + [key])[n..] && stays in (keys + [key])[n..]
    ensures LastUse(events, gone) < LastUse(events + [PutOne(key, c)], stays)
  {
    hide LastUse;
    var e := PutOne(key, c);
    LastUseStep(events, e, events + [e], stays);
    var i :| 0 <= i < |keys| && keys[i] == gone;
    forall k | n <= k < |keys|
      ensures keys[k] in (keys + [key])[n..]
    {
      assert (keys + [key])[n..][k - n] == keys[k];
    }
    if stays != key {
      var j :| 0 <= j < |(keys + [key])[n..]| && (keys + [key])[n..][j] == stays;
      assert keys[n + j] == stays;
    }
  }

  /** Otherwise the most recently used key can be the one that goes: with room for
      two, put into a, b and a again, then into c. */
  lemma EvictsMostRecentlyUsed(perHost: nat, ttl: real)
    ensures var limits := Limits(perHost, 2, ttl);
            var events := [PutOne("a", Conn(0, 0.0)), PutOne("b", Conn(1, 0.0)), PutOne("a", Conn(2, 0.0))];
            && LastUse(events, "b") < LastUse(events, "a")
            && Keys(Run(events, limits).pool) == ["a", "b"]
            && Keys(Run(events + [PutOne("c", Conn(3, 0.0))], limits).pool) == ["b", "c"]
  {
    hide Run, Keys, LastUse;
    var limits := Limits(perHost, 2, ttl);
    var a, b, again := PutOne("a", Conn(0, 0.0)), PutOne("b", Conn(1, 0.0)), PutOne("a", Conn(2, 0.0));
    var c := PutOne("c", Conn(3, 0.0));
    var e1, e2, e3 := [a], [a, b], [a, b, again];
    EmptyKeys(limits);
    PutRun([], a, e1, limits);
    PutRun(e1, b, e2, limits);
    PutRun(e2, again, e3, limits);
    PutRun(e3, c, e3 + [c], limits);
    LastUseStep(e2, again, e3, "a");
    LastUseStep(e2, again, e3, "b");
  }

  lemma EmptyKeys(limits: Limits)
    ensures Keys(Run([], limits).pool) == []
  {
  }

  lemma PutRun(events: seq<Event>, e: Event, all: seq<Event>, limits: Limits)
    requires all == events + [e] && e.PutOne?
    ensures var keys, after := Keys(Run(events, limits).pool), Keys(Run(all, limits).pool);
            if e.key in keys then after == keys
            else after == (keys + [e.key])[Max(0, |keys| + 1 - limits.maxHosts)..]
  {
    hide Put, Slot, Bounded, Ledger, Given, Keys;
    var s := Run(events, limits);
    assert all[..|all| - 1] == events && Run(all, limits) == Put(s, e.key, e.conn, limits);
    hide Run;
    Conservation(events, limits);
    SlotIsUnique(s.pool, e.key);
    PutKeys(s, e.key, e.conn, limits);
  }

  // ----- what the pool keeps -----

  /** A put within the limits closes nothing: it only appends the connection to
      the bucket of its key. */
  lemma PutKeepsAll(s: State, key: string, c: Conn, limits: Limits)
    requires Distinct(s.pool)
    requires if key in Keys(s.pool) then |ConnsOf(s.pool, key)| < limits.perHost && |s.pool| <= limits.maxHosts
             else limits.perHost > 0 && |s.pool| < limits.maxHosts
    ensures var t := Put(s, key, c, limits);
      && t.closed == s.closed && t.handed == s.handed
      && ConnsOf(t.pool, key) == ConnsOf(s.pool, key) + [c]
      && forall other :: other != key ==> ConnsOf(t.pool, other) == ConnsOf(s.pool, other)
  {
    hide Trimmed, Evicted, Slot;
    SlotIsUnique(s.pool, key);
    ConnsAt(s.pool, key);
    AppendedLength(s.pool, key, c);
    var grown := s.(pool := Appended(s.pool, key, c));
    TrimsNothing(grown, Slot(s.pool, key), limits.perHost);
    EvictsNothing(grown, limits.maxHosts);
    ConnsAfterAppend(s.pool, key, c);
  }

  lemma AppendedLength(pool: seq<Bucket>, key: string, c: Conn)
    ensures var i, after := Slot(pool, key), Appended(pool, key, c);
      && |after| == (if i < |pool| then |pool| else |pool| + 1)
      && |after[i].conns| == if i < |pool| then |pool[i].conns| + 1 else 1
  {
  }

  lemma TrimsNothing(s: State, i: nat, perHost: nat)
    requires i < |s.pool| && |s.pool[i].conns| <= perHost
    ensures Trimmed(s, i, perHost) == s
  {
    var conns := s.pool[i].conns;
    assert conns[0..] == conns && conns[..0] == [] && s.closed + Ids([]) == s.closed;
    assert s.pool[i := Bucket(s.pool[i].key, conns)] == s.pool;
  }

  lemma EvictsNothing(s: State, maxHosts: nat)
    requires |s.pool| <= maxHosts
    ensures Evicted(s, maxHosts) == s
  {
    assert s.pool[0..] == s.pool && s.pool[..0] == [] && s.closed + Pooled([]) == s.closed;
  }

  /** The queue of a key; empty when there is no bucket. */
  function ConnsOf(pool: seq<Bucket>, key: string): seq<Conn> {
    if pool == [] then [] else if pool[0].key == key then pool[0].conns else ConnsOf(pool[1..], key)
  }

  lemma {:induction false} ConnsAt(pool: seq<Bucket>, key: string)
    ensures ConnsOf(pool, key) == if Slot(pool, key) < |pool| then pool[Slot(pool, key)].conns else []
    decreases |pool|
  {
    if pool != [] && pool[0].key != key {
      ConnsAt(pool[1..], key);
    }
  }

  lemma {:induction false} ConnsAfterAppend(pool: seq<Bucket>, key: string, c: Conn)
    ensures ConnsOf(Appended(pool, key, c), key) == ConnsOf(pool, key) + [c]
    ensures forall other :: other != key ==> ConnsOf(Appended(pool, key, c), other) == ConnsOf(pool, other)
    decreases |pool|
  {
    var after := Appended(pool, key, c);
    if pool != [] {
      if pool[0].key == key {
        assert after[1..] == pool[1..];
      } else {
        ConnsAfterAppend(pool[1..], key, c);
        assert after[0] == pool[0] && after[1..] == Appended(pool[1..], key, c);
      }
    } else {
      assert after[1..] == [];
    }
  }

  /** Taking from a key hands out the oldest connection, if it is not older than
      the time to live and not closing, and closes nothing. */
  lemma TakesOldest(s: State, key: string, clock: Clock, ttl: real, closing: set<nat>)
    requires var conns := ConnsOf(s.pool, key);
      conns != [] && clock(0) - conns[0].at <= ttl && conns[0].id !in closing
    ensures var conns, t := ConnsOf(s.pool, key), Took(s, key, 0, clock, ttl, closing);
      && t.1 == Some(conns[0]) && t.0.closed == s.closed && t.0.handed == s.handed + multiset{conns[0].id}
      && ConnsOf(t.0.pool, key) == conns[1..]
  {
    ConnsAt(s.pool, key);
    var i, conns := Slot(s.pool, key), ConnsOf(s.pool, key);
    assert Stale(conns, 0, clock, ttl, closing) == 0 && conns[..0] == [] && Ids([]) == multiset{};
    FindAfterUpdate(s.pool, key, i, conns[1..]);
    ConnsAt(s.pool[i := Bucket(key, conns[1..])], key);
  }
}
