/** Batched quota accounting of core/emunel_core/relay/base.py (QuotaGate) over
    the counters of core/emunel_core/state.py: many connections of many links,
    each with its own gate, interleave at every throttle pause. */
module QuotaGates {
  import opened Prelude

  const MIN_BATCH := 32 * 1024
  const MAX_BATCH := 2 * 1024 * 1024
  const START_BATCH := 128 * 1024
  const CHECK_INTERVAL := 0.25

  // ----- the shared counters -----

  /** What a gate sees: the counters of its link and those of the instance; a limit
      of 0 means none. */
  datatype Accounts = Accounts(used: nat, limit: nat, total: nat, cap: nat, capHits: nat)

  predicate CapReached(a: Accounts) {
    a.cap > 0 && a.total >= a.cap
  }

  /** LinkStore.use: usable says that the link exists, is active and unexpired, and
      that the store did not raise, which closes a gate in the same way. */
  function Use(a: Accounts, n: nat, usable: bool): (Accounts, bool) {
    if !usable || (a.limit > 0 && a.used >= a.limit) then (a, false)
    else (a.(used := a.used + n), true)
  }

  /** _account: the cap, then the traffic counter, then the link. */
  function Account(a: Accounts, n: nat, usable: bool): (Accounts, bool) {
    if CapReached(a) then (a.(capHits := a.capHits + 1), false)
    else Use(a.(total := a.total + n), n, usable)
  }

  // ----- one gate -----

  /** An add between its accounting and its return; settled says it flushed. */
  datatype Waiting = Waiting(bytes: nat, settled: bool)

  /** A gate, with what can be observed of it: admitted are the bytes of adds not
      denied at once, accounted those charged to the link, relayed those whose
      add returned True. */
  datatype Gate = Gate(
    pending: nat, batch: nat, ok: bool, lastCheck: real, ewma: real,
    admitted: nat, accounted: nat, relayed: nat, waiting: seq<Waiting>)

  function NewGate(now: real): Gate {
    Gate(0, START_BATCH, true, now, 0.0, 0, 0, 0, [])
  }

  function Trunc(x: real): int {
    if x >= 0.0 then x.Floor else -((-x).Floor)
  }

  function Rate(n: nat, elapsed: real): real
    requires elapsed > 0.0
  {
    n as real / elapsed
  }

  function Smoothed(ewma: real, rate: real): real {
    if ewma == 0.0 then rate else 0.7 * ewma + 0.3 * rate
  }

  function BatchFor(ewma: real): (b: nat)
    ensures MIN_BATCH <= b <= MAX_BATCH
  {
    var target := Trunc(ewma * CHECK_INTERVAL);
    Max(MIN_BATCH, Min(MAX_BATCH, if target == 0 then MIN_BATCH else target))
  }

  /** The batch size and rate after flushing n bytes at time now. */
  function Retuned(g: Gate, n: nat, now: real): Gate {
    var elapsed := now - g.lastCheck;
    if elapsed > 0.0 then
      var ewma := Smoothed(g.ewma, Rate(n, elapsed));
      g.(ewma := ewma, batch := BatchFor(ewma), lastCheck := now)
    else g.(lastCheck := now)
  }

  predicate FlushDue(g: Gate, n: nat, now: real) {
    g.pending + n >= g.batch || now - g.lastCheck >= CHECK_INTERVAL
  }

  /** add up to its throttle pause. */
  function BeginAdd(g: Gate, a: Accounts, n: nat, now: real, usable: bool): (Gate, Accounts) {
    if !g.ok then (g, a)
    else if CapReached(a) then (g.(ok := false), a.(capHits := a.capHits + 1))
    else if FlushDue(g, n, now) then
      var flush := g.pending + n;
      var (a', ok) := Account(a, flush, usable);
      var tuned := Retuned(g, flush, now).(pending := 0, ok := ok);
      if ok then
        (tuned.(admitted := g.admitted + n, accounted := g.accounted + flush,
                waiting := g.waiting + [Waiting(n, true)]), a')
      else (tuned, a')
    else
      (g.(pending := g.pending + n, admitted := g.admitted + n,
          waiting := g.waiting + [Waiting(n, false)]), a)
  }

  /** What an add returns after its pause: one that flushed reads the gate again. */
  function Verdict(g: Gate, w: Waiting): bool {
    if w.settled then g.ok else true
  }

  function EndAdd(g: Gate, k: nat): Gate
    requires k < |g.waiting|
  {
    var w := g.waiting[k];
    g.(waiting := g.waiting[..k] + g.waiting[k + 1..],
       relayed := g.relayed + (if Verdict(g, w) then w.bytes else 0))
  }

  function FlushGate(g: Gate, a: Accounts, usable: bool): (Gate, Accounts) {
    if g.pending == 0 then (g, a)
    else if !g.ok then (g.(pending := 0), a)
    else
      var (a', ok) := Account(a, g.pending, usable);
      (g.(pending := 0, ok := ok, accounted := g.accounted + (if ok then g.pending else 0)), a')
  }

  // ----- the objects -----

  class Stats {
    const cap: nat
    var total: nat
    var capHits: nat

    constructor (total: nat, cap: nat)
      ensures this.total == total && this.cap == cap && capHits == 0
    {
      this.cap, this.total, capHits := cap, total, 0;
    }
  }

  class Link {
    const limit: nat
    var used: nat

    constructor (used: nat, limit: nat)
      ensures this.used == used && this.limit == limit
    {
      this.limit, this.used := limit, used;
    }
  }

  class QuotaGate {
    const stats: Stats
    const link: Link
    var pending: nat
    var batch: nat
    var ok: bool
    var lastCheck: real
    var ewma: real
    ghost var admitted: nat
    ghost var accounted: nat
    ghost var relayed: nat
    ghost var waiting: seq<Waiting>

    constructor (stats: Stats, link: Link, now: real)
      ensures Current() == NewGate(now) && this.stats == stats && this.link == link
      ensures ok && pending == 0 && batch == 131072 && lastCheck == now && ewma == 0.0
    {
      this.stats, this.link := stats, link;
      pending, batch, ok, lastCheck, ewma := 0, START_BATCH, true, now, 0.0;
      admitted, accounted, relayed, waiting := 0, 0, 0, [];
    }

    ghost function Current(): Gate
      reads this
    {
      Gate(pending, batch, ok, lastCheck, ewma, admitted, accounted, relayed, waiting)
    }

    function Seen(): Accounts
      reads this, stats, link
    {
      Accounts(link.used, link.limit, stats.total, stats.cap, stats.capHits)
    }

    /** _account and the link store's use. */
    method AccountFor(n: nat, usable: bool) returns (ok: bool)
      modifies stats, link
      ensures (Seen(), ok) == Account(old(Seen()), n, usable)
    {
      if stats.cap > 0 && stats.total >= stats.cap {
        stats.capHits := stats.capHits + 1;
        return false;
      }
      stats.total := stats.total + n;
      if !usable || (link.limit > 0 && link.used >= link.limit) {
        return false;
      }
      link.used := link.used + n;
      return true;
    }

    /** Rate estimate and batch size after a flush. */
    method Retune(flush: nat, now: real)
      modifies this
      ensures Current() == Retuned(old(Current()), flush, now)
    {
      var elapsed := now - lastCheck;
      if elapsed > 0.0 {
        ewma := Smoothed(ewma, Rate(flush, elapsed));
        batch := BatchFor(ewma);
      }
      lastCheck := now;
    }

    /** add(n) up to its pause; denied means it returned False already. */
    method Begin(n: nat, now: real, usable: bool) returns (denied: bool)
      modifies this, stats, link
      ensures (Current(), Seen()) == BeginAdd(old(Current()), old(Seen()), n, now, usable)
      ensures denied <==> !ok
    {
      hide Smoothed, BatchFor, Rate;
      if !ok {
        return true;
      }
      if stats.cap > 0 && stats.total >= stats.cap {
        stats.capHits := stats.capHits + 1;
        ok := false;
        return true;
      }
      ghost var before := Current();
      pending := pending + n;
      var elapsed := now - lastCheck;
      if pending >= batch || elapsed >= CHECK_INTERVAL {
        var flush := pending;
        pending := 0;
        Retune(flush, now);
        ok := AccountFor(flush, usable);
        if ok {
          admitted, accounted := admitted + n, accounted + flush;
          waiting := waiting + [Waiting(n, true)];
        }
        return !ok;
      }
      admitted := admitted + n;
      waiting := waiting + [Waiting(n, false)];
      return false;
    }

    /** The return of the k-th waiting add; settled is what that add remembers. */
    method End(ghost k: nat, settled: bool) returns (answer: bool)
      requires k < |waiting| && waiting[k].settled == settled
      modifies this
      ensures Current() == EndAdd(old(Current()), k) && answer == Verdict(old(Current()), old(waiting[k]))
    {
      answer := if settled then ok else true;
      relayed := relayed + (if answer then waiting[k].bytes else 0);
      waiting := waiting[..k] + waiting[k + 1..];
    }

    method Flush(usable: bool) returns (answer: bool)
      modifies this, stats, link
      ensures (Current(), Seen()) == FlushGate(old(Current()), old(Seen()), usable)
      ensures answer == ok
    {
      if pending != 0 {
        var flush := pending;
        pending := 0;
        if ok {
          ok := AccountFor(flush, usable);
          accounted := accounted + (if ok then flush else 0);
        }
      }
      return ok;
    }
  }

  // ----- all gates of all links -----

  datatype Quota = Quota(used: nat, limit: nat)

  datatype Instance = Instance(total: nat, cap: nat, capHits: nat)

  /** A connection: its link and its gate. */
  datatype Conn = Conn(link: nat, gate: Gate)

  datatype State = State(links: seq<Quota>, instance: Instance, conns: seq<Conn>)

  function View(s: State, l: nat): Accounts
    requires l < |s.links|
  {
    Accounts(s.links[l].used, s.links[l].limit, s.instance.total, s.instance.cap, s.instance.capHits)
  }

  /** Connection i has become g, and left its link and the instance as a says. */
  function Updated(s: State, i: nat, g: Gate, a: Accounts): State
    requires i < |s.conns| && s.conns[i].link < |s.links|
  {
    var l := s.conns[i].link;
    State(s.links[l := Quota(a.used, a.limit)], Instance(a.total, a.cap, a.capHits), s.conns[i := Conn(l, g)])
  }

  datatype Event =
    | Connect(link: nat, now: real)
    | Begin(conn: nat, bytes: nat, now: real, usable: bool)
    | End(conn: nat, index: nat)
    | Flush(conn: nat, usable: bool)

  predicate Possible(s: State, e: Event) {
    match e
    case Connect(l, _) => l < |s.links|
    case Begin(i, _, _, _) => i < |s.conns| && s.conns[i].link < |s.links|
    case End(i, k) => i < |s.conns| && k < |s.conns[i].gate.waiting|
    case Flush(i, _) => i < |s.conns| && s.conns[i].link < |s.links|
  }

  function Next(s: State, e: Event): State {
    if !Possible(s, e) then s
    else match e
    case Connect(l, now) => s.(conns := s.conns + [Conn(l, NewGate(now))])
    case Begin(i, n, now, usable) =>
      var (gate, a) := BeginAdd(s.conns[i].gate, View(s, s.conns[i].link), n, now, usable);
      Updated(s, i, gate, a)
    case End(i, k) => s.(conns := s.conns[i := Conn(s.conns[i].link, EndAdd(s.conns[i].gate, k))])
    case Flush(i, usable) =>
      var (gate, a) := FlushGate(s.conns[i].gate, View(s, s.conns[i].link), usable);
      Updated(s, i, gate, a)
  }

  /** All connections, started from the counters of s0. */
  function Run(s0: State, events: seq<Event>): State {
    if events == [] then s0 else Next(Run(s0, events[..|events| - 1]), events[|events| - 1])
  }

  ghost predicate FramesAtMost(frame: nat, events: seq<Event>) {
    forall i :: 0 <= i < |events| && events[i].Begin? ==> events[i].bytes <= frame
  }

  function SumWaiting(ws: seq<Waiting>): nat {
    if ws == [] then 0 else ws[0].bytes + SumWaiting(ws[1..])
  }

  /** Bytes charged by the connections of a link. */
  function Accounted(conns: seq<Conn>, l: nat): nat {
    if conns == [] then 0
    else (if conns[0].link == l then conns[0].gate.accounted else 0) + Accounted(conns[1..], l)
  }

  /** Bytes charged by all connections. */
  function AccountedByAll(conns: seq<Conn>): nat {
    if conns == [] then 0 else conns[0].gate.accounted + AccountedByAll(conns[1..])
  }

  /** Bytes let through by the connections of a link. */
  function Relayed(conns: seq<Conn>, l: nat): nat {
    if conns == [] then 0
    else (if conns[0].link == l then conns[0].gate.relayed else 0) + Relayed(conns[1..], l)
  }

  function Gates(conns: seq<Conn>, l: nat): nat {
    if conns == [] then 0 else (if conns[0].link == l then 1 else 0) + Gates(conns[1..], l)
  }

  ghost predicate GoodGate(g: Gate) {
    && g.pending < g.batch && MIN_BATCH <= g.batch <= MAX_BATCH
    && (g.ok ==> g.admitted == g.accounted + g.pending)
    && g.admitted <= g.accounted + MAX_BATCH
    && g.relayed + SumWaiting(g.waiting) <= g.admitted
  }

  /** A link is charged what its gates count, and passes its limit by little. */
  ghost predicate GoodLink(q0: Quota, q: Quota, accounted: nat, frame: nat) {
    && q.limit == q0.limit && q.used == q0.used + accounted
    && (q0.limit > 0 ==> q.used <= Max(q0.used, q0.limit + MAX_BATCH + frame))
  }

  ghost predicate GoodInstance(i0: Instance, i: Instance, accounted: nat, frame: nat) {
    && i.cap == i0.cap && accounted <= i.total - i0.total
    && (i0.cap > 0 ==> i.total <= Max(i0.total, i0.cap + MAX_BATCH + frame))
  }

  ghost predicate Good(s0: State, frame: nat, s: State) {
    && |s.links| == |s0.links|
    && (forall i :: 0 <= i < |s.conns| ==> GoodGate(s.conns[i].gate) && s.conns[i].link < |s.links|)
    && (forall l :: 0 <= l < |s.links| ==> GoodLink(s0.links[l], s.links[l], Accounted(s.conns, l), frame))
    && GoodInstance(s0.instance, s.instance, AccountedByAll(s.conns), frame)
  }

  lemma {:induction false} SumWaitingSnoc(ws: seq<Waiting>, w: Waiting)
    ensures SumWaiting(ws + [w]) == SumWaiting(ws) + w.bytes
  {
    if ws == [] {
      assert [w][1..] == [];
    } else {
      assert (ws + [w])[1..] == ws[1..] + [w];
      SumWaitingSnoc(ws[1..], w);
    }
  }

  lemma {:induction false} SumWaitingRemove(ws: seq<Waiting>, k: nat)
    requires k < |ws|
    ensures SumWaiting(ws[..k] + ws[k + 1..]) + ws[k].bytes == SumWaiting(ws)
  {
    if k == 0 {
      assert ws[..0] + ws[1..] == ws[1..];
    } else {
      assert (ws[..k] + ws[k + 1..])[1..] == ws[1..][..k - 1] + ws[1..][k..];
      SumWaitingRemove(ws[1..], k - 1);
    }
  }

  lemma {:induction false} SumsUpdate(conns: seq<Conn>, i: nat, c: Conn, l: nat)
    requires i < |conns| && c.link == conns[i].link
    ensures Accounted(conns[i := c], l) - Accounted(conns, l)
         == if c.link == l then c.gate.accounted - conns[i].gate.accounted else 0
    ensures AccountedByAll(conns[i := c]) - AccountedByAll(conns) == c.gate.accounted - conns[i].gate.accounted
  {
    if i > 0 {
      assert conns[i := c][1..] == conns[1..][i - 1 := c];
      SumsUpdate(conns[1..], i - 1, c, l);
    }
  }

  lemma {:induction false} SumsSnoc(conns: seq<Conn>, c: Conn, l: nat)
    requires c.gate.accounted == 0
    ensures Accounted(conns + [c], l) == Accounted(conns, l) && AccountedByAll(conns + [c]) == AccountedByAll(conns)
  {
    if conns == [] {
      assert [c][1..] == [];
    } else {
      assert (conns + [c])[1..] == conns[1..] + [c];
      SumsSnoc(conns[1..], c, l);
    }
  }

  lemma {:induction false} LinkWithinAll(conns: seq<Conn>, l: nat)
    ensures Accounted(conns, l) <= AccountedByAll(conns)
  {
    if conns != [] {
      LinkWithinAll(conns[1..], l);
    }
  }

  lemma BeginKeepsGate(g: Gate, a: Accounts, n: nat, now: real, usable: bool)
    requires GoodGate(g)
    ensures GoodGate(BeginAdd(g, a, n, now, usable).0)
  {
    SumWaitingSnoc(g.waiting, Waiting(n, true));
    SumWaitingSnoc(g.waiting, Waiting(n, false));
  }

  lemma EndKeepsGate(g: Gate, k: nat)
    requires GoodGate(g) && k < |g.waiting|
    ensures GoodGate(EndAdd(g, k)) && EndAdd(g, k).accounted == g.accounted
  {
    SumWaitingRemove(g.waiting, k);
  }

  /** An accounting step charges the link what the gate counts as accounted, the
      instance at least as much, and starts only below the limit and the cap. */
  ghost predicate Charges(a: Accounts, a': Accounts, g: Gate, g': Gate, most: nat) {
    && a'.limit == a.limit && a'.cap == a.cap
    && a'.used - a.used == g'.accounted - g.accounted
    && 0 <= a'.used - a.used <= a'.total - a.total <= most
    && (a.limit > 0 && a'.used != a.used ==> a.used < a.limit)
    && (a.cap > 0 && a'.total != a.total ==> a.total < a.cap)
  }

  lemma BeginCharges(g: Gate, a: Accounts, n: nat, now: real, usable: bool)
    requires GoodGate(g)
    ensures var (g', a') := BeginAdd(g, a, n, now, usable); Charges(a, a', g, g', MAX_BATCH + n)
  {
  }

  lemma FlushCharges(g: Gate, a: Accounts, usable: bool)
    requires GoodGate(g)
    ensures var (g', a') := FlushGate(g, a, usable); Charges(a, a', g, g', MAX_BATCH) && GoodGate(g')
  {
  }

  lemma ChargeKeepsGood(s0: State, frame: nat, s: State, i: nat, g': Gate, a': Accounts, most: nat)
    requires Good(s0, frame, s) && i < |s.conns| && GoodGate(g')
    requires Charges(View(s, s.conns[i].link), a', s.conns[i].gate, g', most) && most <= MAX_BATCH + frame
    ensures Good(s0, frame, Updated(s, i, g', a'))
  {
    hide GoodGate;
    var t := Updated(s, i, g', a');
    forall l | 0 <= l < |s.links|
      ensures GoodLink(s0.links[l], t.links[l], Accounted(t.conns, l), frame)
    {
      SumsUpdate(s.conns, i, t.conns[i], l);
    }
    SumsUpdate(s.conns, i, t.conns[i], 0);
  }

  lemma EndKeepsGood(s0: State, frame: nat, s: State, i: nat, k: nat)
    requires Good(s0, frame, s) && Possible(s, End(i, k))
    ensures Good(s0, frame, Next(s, End(i, k)))
  {
    hide GoodGate;
    var t := Next(s, End(i, k));
    EndKeepsGate(s.conns[i].gate, k);
    forall l | 0 <= l < |s.links|
      ensures Accounted(t.conns, l) == Accounted(s.conns, l)
    {
      SumsUpdate(s.conns, i, t.conns[i], l);
    }
    SumsUpdate(s.conns, i, t.conns[i], 0);
  }

  lemma ConnectKeepsGood(s0: State, frame: nat, s: State, l: nat, now: real)
    requires Good(s0, frame, s) && Possible(s, Connect(l, now))
    ensures Good(s0, frame, Next(s, Connect(l, now)))
  {
    forall k: nat
      ensures Accounted(s.conns + [Conn(l, NewGate(now))], k) == Accounted(s.conns, k)
    {
      SumsSnoc(s.conns, Conn(l, NewGate(now)), k);
    }
    SumsSnoc(s.conns, Conn(l, NewGate(now)), 0);
  }

  lemma NextKeepsGood(s0: State, frame: nat, s: State, e: Event)
    requires Good(s0, frame, s) && (e.Begin? ==> e.bytes <= frame)
    ensures Good(s0, frame, Next(s, e))
  {
    hide GoodGate, BeginAdd, FlushGate;
    if !Possible(s, e) {
      return;
    }
    match e
    case Connect(l, now) => ConnectKeepsGood(s0, frame, s, l, now);
    case Begin(i, n, now, usable) =>
      var g, a := s.conns[i].gate, View(s, s.conns[i].link);
      BeginKeepsGate(g, a, n, now, usable);
      BeginCharges(g, a, n, now, usable);
      ChargeKeepsGood(s0, frame, s, i, BeginAdd(g, a, n, now, usable).0, BeginAdd(g, a, n, now, usable).1, MAX_BATCH + n);
    case End(i, k) => EndKeepsGood(s0, frame, s, i, k);
    case Flush(i, usable) =>
      var g, a := s.conns[i].gate, View(s, s.conns[i].link);
      FlushCharges(g, a, usable);
      ChargeKeepsGood(s0, frame, s, i, FlushGate(g, a, usable).0, FlushGate(g, a, usable).1, MAX_BATCH);
  }

  lemma {:induction false} AlwaysGood(s0: State, frame: nat, events: seq<Event>)
    requires s0.conns == [] && FramesAtMost(frame, events)
    ensures Good(s0, frame, Run(s0, events))
  {
    hide Good, Next;
    if events == [] {
      StartsGood(s0, frame);
    } else {
      AlwaysGood(s0, frame, events[..|events| - 1]);
      NextKeepsGood(s0, frame, Run(s0, events[..|events| - 1]), events[|events| - 1]);
    }
  }

  lemma StartsGood(s0: State, frame: nat)
    requires s0.conns == []
    ensures Good(s0, frame, s0)
  {
  }

  lemma {:induction false} RelayedBound(conns: seq<Conn>, l: nat)
    requires forall i :: 0 <= i < |conns| ==> GoodGate(conns[i].gate)
    ensures Relayed(conns, l) <= Accounted(conns, l) + Gates(conns, l) * MAX_BATCH
  {
    if conns != [] {
      assert GoodGate(conns[0].gate);
      RelayedBound(conns[1..], l);
    }
  }

  /** The overshoot of every interleaving of any number of gates on any number of
      links: each link passes its limit by at most a batch and a frame, the
      instance total passes its cap by no more, the bytes a link lets through
      exceed the bytes it is charged by at most one batch for each of its gates,
      and no link is charged more than the instance. */
  lemma OvershootBound(s0: State, frame: nat, events: seq<Event>, l: nat)
    requires s0.conns == [] && l < |s0.links| && FramesAtMost(frame, events)
    ensures |Run(s0, events).links| == |s0.links|
    ensures var s := Run(s0, events); var q0, q := s0.links[l], s.links[l];
      && q0.used <= q.used
      && (q0.limit > 0 && q0.used <= q0.limit ==> q.used <= q0.limit + 2097152 + frame)
      && Relayed(s.conns, l) <= (q.used - q0.used) + Gates(s.conns, l) * 2097152
      && q.used - q0.used <= s.instance.total - s0.instance.total
    ensures var i0, i := s0.instance, Run(s0, events).instance;
      i0.cap > 0 && i0.total <= i0.cap ==> i.total <= i0.cap + 2097152 + frame
    ensures forall i :: 0 <= i < |Run(s0, events).conns| ==>
      Run(s0, events).conns[i].gate.pending < Run(s0, events).conns[i].gate.batch <= 2097152
  {
    AlwaysGood(s0, frame, events);
    var s := Run(s0, events);
    assert GoodLink(s0.links[l], s.links[l], Accounted(s.conns, l), frame);
    RelayedBound(s.conns, l);
    LinkWithinAll(s.conns, l);
    forall i | 0 <= i < |s.conns|
      ensures s.conns[i].gate.pending < s.conns[i].gate.batch <= MAX_BATCH
    {
      assert GoodGate(s.conns[i].gate);
    }
  }

  // ----- denial -----

  /** The gate of connection i is closed, and has admitted and charged this much. */
  ghost predicate Denied(s: State, i: nat, admitted: nat, accounted: nat) {
    i < |s.conns| && !s.conns[i].gate.ok && s.conns[i].gate.admitted == admitted && s.conns[i].gate.accounted == accounted
  }

  lemma NextStaysDenied(s: State, e: Event, i: nat, admitted: nat, accounted: nat)
    requires Denied(s, i, admitted, accounted)
    ensures Denied(Next(s, e), i, admitted, accounted)
  {
  }

  /** A denial is final: whatever happens afterwards, the gate admits nothing more,
      charges nothing more, and answers no to every add. */
  lemma {:induction false} DenialIsFinal(s: State, events: seq<Event>, i: nat, admitted: nat, accounted: nat)
    requires Denied(s, i, admitted, accounted)
    ensures Denied(Run(s, events), i, admitted, accounted)
    ensures forall a: Accounts, n: nat, now: real, usable: bool ::
      var g := Run(s, events).conns[i].gate; BeginAdd(g, a, n, now, usable) == (g, a)
  {
    if events != [] {
      DenialIsFinal(s, events[..|events| - 1], i, admitted, accounted);
      NextStaysDenied(Run(s, events[..|events| - 1]), events[|events| - 1], i, admitted, accounted);
    }
  }

  // ----- admission -----

  /** Whenever connection i accounts or asks for the cap, its link is usable, the
      link's limit is 0 or not yet used up, and the instance cap is 0 or not yet
      reached. */
  ghost predicate Unhindered(s0: State, events: seq<Event>, i: nat) {
    events == [] ||
    var n := |events| - 1;
    var s, e := Run(s0, events[..n]), events[n];
    && Unhindered(s0, events[..n], i)
    && ((e.Begin? || e.Flush?) && e.conn == i && i < |s.conns| && s.conns[i].link < |s.links| ==>
          && e.usable
          && (s.links[s.conns[i].link].limit == 0 || s.links[s.conns[i].link].used < s.links[s.conns[i].link].limit)
          && (s.instance.cap == 0 || s.instance.total < s.instance.cap))
  }

  /** Bytes of the adds begun on connection i since it is there. */
  function Begun(s0: State, events: seq<Event>, i: nat): nat {
    if events == [] then 0
    else
      var n := |events| - 1;
      Begun(s0, events[..n], i)
        + (if events[n].Begin? && events[n].conn == i && i < |Run(s0, events[..n]).conns| then events[n].bytes else 0)
  }

  /** The gate is open and has let through every byte of every add. */
  ghost predicate AllThrough(g: Gate, begun: nat) {
    g.ok && g.admitted == begun && g.relayed + SumWaiting(g.waiting) == begun && g.accounted + g.pending == begun
  }

  lemma BeginLetsThrough(g: Gate, a: Accounts, n: nat, now: real, begun: nat)
    requires AllThrough(g, begun)
    requires (a.limit == 0 || a.used < a.limit) && (a.cap == 0 || a.total < a.cap)
    ensures AllThrough(BeginAdd(g, a, n, now, true).0, begun + n)
  {
    SumWaitingSnoc(g.waiting, Waiting(n, true));
    SumWaitingSnoc(g.waiting, Waiting(n, false));
  }

  lemma EndLetsThrough(g: Gate, k: nat, begun: nat)
    requires AllThrough(g, begun) && k < |g.waiting|
    ensures AllThrough(EndAdd(g, k), begun) && Verdict(g, g.waiting[k])
  {
    SumWaitingRemove(g.waiting, k);
  }

  /** A connection is there from its Connect on, with a link. */
  lemma {:induction false} LinksStay(s0: State, events: seq<Event>)
    requires s0.conns == []
    ensures var s := Run(s0, events);
            |s.links| == |s0.links| && forall i :: 0 <= i < |s.conns| ==> s.conns[i].link < |s.links|
  {
    hide BeginAdd, FlushGate, EndAdd;
    if events != [] {
      LinksStay(s0, events[..|events| - 1]);
    }
  }

  /** Traffic within the limits is never denied, over any interleaving with other
      connections: while connection i is unhindered, its gate stays open, every add
      answers yes, and the bytes let through are exactly those of its adds; they are
      all charged but for those pending. */
  lemma {:induction false} AdmissionHolds(s0: State, events: seq<Event>, i: nat)
    requires s0.conns == [] && Unhindered(s0, events, i)
    ensures var s := Run(s0, events);
            if i < |s.conns| then AllThrough(s.conns[i].gate, Begun(s0, events, i)) else Begun(s0, events, i) == 0
  {
    if events != [] {
      var n := |events| - 1;
      var s, e := Run(s0, events[..n]), events[n];
      AdmissionHolds(s0, events[..n], i);
      LinksStay(s0, events[..n]);
      hide AllThrough, BeginAdd, FlushGate, EndAdd, Unhindered, Run;
      StepLetsThrough(s0, events, s, e, n, i);
    }
  }

  lemma StepLetsThrough(s0: State, events: seq<Event>, s: State, e: Event, n: nat, i: nat)
    requires n == |events| - 1 && s == Run(s0, events[..n]) && e == events[n] && Unhindered(s0, events, i)
    requires forall k :: 0 <= k < |s.conns| ==> s.conns[k].link < |s.links|
    requires if i < |s.conns| then AllThrough(s.conns[i].gate, Begun(s0, events[..n], i))
             else Begun(s0, events[..n], i) == 0
    ensures if i < |Next(s, e).conns| then AllThrough(Next(s, e).conns[i].gate, Begun(s0, events, i))
            else Begun(s0, events, i) == 0
  {
    hide BeginAdd, EndAdd;
    match e
    case Connect(_, _) =>
    case Begin(j, bytes, now, usable) =>
      if j == i && i < |s.conns| {
        BeginLetsThrough(s.conns[i].gate, View(s, s.conns[i].link), bytes, now, Begun(s0, events[..n], i));
      }
    case End(j, k) =>
      if j == i && Possible(s, e) {
        EndLetsThrough(s.conns[i].gate, k, Begun(s0, events[..n], i));
      }
    case Flush(_, _) =>
  }

  // ----- when a gate charges, and how much at a time -----

  /** An add charges nothing while the batch is not full and a quarter of a second
      has not passed; otherwise it charges all that is pending. */
  lemma ChargesInBatches(g: Gate, a: Accounts, n: nat, now: real)
    requires g.ok && (a.limit == 0 || a.used < a.limit) && (a.cap == 0 || a.total < a.cap)
    ensures var (g', a') := BeginAdd(g, a, n, now, true);
            if g.pending + n < g.batch && now < g.lastCheck + 0.25
            then a' == a && g'.pending == g.pending + n && g'.batch == g.batch
            else a' == a.(used := a.used + g.pending + n, total := a.total + g.pending + n) && g'.pending == 0
  {
  }

  /** A flush measures the bytes flushed over the time since the last one; the
      first measurement is the estimate, any later one counts for three tenths. */
  lemma FlushMeasures(g: Gate, n: nat, now: real, rate: real)
    requires now > g.lastCheck && rate * (now - g.lastCheck) == n as real
    ensures var t := Retuned(g, n, now);
            && t.ewma == (if g.ewma == 0.0 then rate else 0.7 * g.ewma + 0.3 * rate)
            && t.batch == BatchFor(t.ewma) && t.lastCheck == now
  {
    Quotient(n as real, now - g.lastCheck, rate);
  }

  lemma Quotient(n: real, d: real, q: real)
    requires d > 0.0 && q * d == n
    ensures n / d == q
  {
  }

  /** The rate estimate after flushes measured at these rates. */
  function Ewma(rates: seq<real>): real {
    if rates == [] then 0.0 else Smoothed(Ewma(rates[..|rates| - 1]), rates[|rates| - 1])
  }

  lemma {:induction false} EwmaWithin(rates: seq<real>, lo: real, hi: real)
    requires rates != [] && 0.0 < lo && forall i :: 0 <= i < |rates| ==> lo <= rates[i] <= hi
    ensures lo <= Ewma(rates) <= hi
  {
    if |rates| > 1 {
      EwmaWithin(rates[..|rates| - 1], lo, hi);
    }
  }

  /** The batch tracks the rate: after flushes measured between lo and hi bytes a
      second it is between a quarter of a second of lo and one of hi, within 32 KiB
      and 2 MiB. */
  lemma BatchTracksRate(rates: seq<real>, lo: real, hi: real)
    requires rates != [] && 0.0 < lo && forall i :: 0 <= i < |rates| ==> lo <= rates[i] <= hi
    ensures var b := BatchFor(Ewma(rates)) as real;
            && (if lo / 4.0 <= 32768.0 then 32768.0 else if lo / 4.0 >= 2097152.0 then 2097152.0 else lo / 4.0 - 1.0) <= b
            && b <= (if hi / 4.0 <= 32768.0 then 32768.0 else if hi / 4.0 >= 2097152.0 then 2097152.0 else hi / 4.0)
  {
    EwmaWithin(rates, lo, hi);
  }
}
