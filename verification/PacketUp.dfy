/** Packet-up upload of core/emunel_core/relay/xhttp.py: packets of one session
    arrive in any order, also while the TCP connection is still being opened,
    and are written upstream in order. */
module PacketUp {
  import opened Prelude

  const MAX_SEQ := 10_000_000
  const MAX_SEQ_BUF_ENTRIES := 256
  const MAX_SEQ_BUF_BYTES := 4 * 1024 * 1024
  const MAX_PACKET_BODY := 8 * 1024 * 1024

  /** One session.  upstream collects the bytes written to the TCP connection,
      opening counts the packets 0 that wait for a connection, and checks counts
      the calls of is_closing so far. */
  datatype State = State(
    hasWriter: bool,
    writerClosed: bool,
    opening: nat,
    buf: map<nat, bytes>,
    bufBytes: nat,
    nextSeq: nat,
    closed: bool,
    checks: nat,
    upstream: bytes)

  const INITIAL := State(false, false, 0, map[], 0, 0, false, 0, [])

  datatype Event =
    | Packet(number: nat, body: bytes, admitted: bool)   // past the quota gate, admitted or not
    | Opened(payload: bytes)                          // the connection is up, body 0 carried payload
    | OpenFailed
    | Teardown                                        // reaper, downlink end or another handler

  /** What the transport answers to the k-th call of is_closing. */
  type Transport = nat -> bool

  // ----- one event -----

  function TornDown(s: State): State {
    s.(closed := true, writerClosed := s.writerClosed || s.hasWriter)
  }

  function Closing(s: State, closing: Transport): bool {
    s.writerClosed || closing(s.checks)
  }

  predicate Overflows(s: State, body: bytes) {
    |s.buf| >= MAX_SEQ_BUF_ENTRIES || s.bufBytes + |body| > MAX_SEQ_BUF_BYTES
  }

  function Hold(s: State, number: nat, body: bytes): State {
    if Overflows(s, body) then TornDown(s)
    else s.(buf := s.buf[number := body], bufBytes := s.bufBytes + |body|)
  }

  /** State of the drain loop: nxt is the next sequence number looked for. */
  datatype Drain = Drain(s: State, nxt: nat, ok: bool)

  /** Packet nxt has left the buffer and is_closing is asked. */
  function Popped(s: State, nxt: nat): State {
    s.(buf := s.buf - {nxt}, checks := s.checks + 1)
  }

  function Forwarded(s: State, nxt: nat): State
    requires nxt in s.buf
  {
    s.(buf := s.buf - {nxt}, checks := s.checks + 1, upstream := s.upstream + s.buf[nxt])
  }

  lemma PopShrinks(buf: map<nat, bytes>, nxt: nat)
    requires nxt in buf
    ensures |buf - {nxt}| < |buf|
  {
    assert buf.Keys == (buf - {nxt}).Keys + {nxt};
    assert |buf.Keys| == |(buf - {nxt}).Keys| + 1;
  }

  function Drained(s: State, nxt: nat, closing: Transport): Drain
    decreases |s.buf|
  {
    if nxt !in s.buf then Drain(s, nxt, true)
    else
      PopShrinks(s.buf, nxt);
      if Closing(s, closing) then Drain(Popped(s, nxt), nxt, false)
      else Drained(Forwarded(s, nxt), nxt + 1, closing)
  }

  function Written(s: State, body: bytes): State {
    s.(checks := s.checks + 1, upstream := s.upstream + body)
  }

  function Write(s: State, body: bytes, closing: Transport): State {
    if Closing(s, closing) then TornDown(s.(checks := s.checks + 1))
    else
      var d := Drained(Written(s, body), s.nextSeq + 1, closing);
      var moved := d.s.(nextSeq := d.nxt);
      if d.ok then moved else TornDown(moved)
  }

  function Fewer(n: nat): nat {
    if n > 0 then n - 1 else 0
  }

  /** The connection is new: nothing was written to it before. */
  function Connected(s: State, payload: bytes): State {
    s.(hasWriter := true, writerClosed := false, opening := Fewer(s.opening), upstream := payload)
  }

  function Open(s: State, payload: bytes, closing: Transport): State {
    var d := Drained(Connected(s, payload), 1, closing);
    if d.ok then d.s.(nextSeq := d.nxt) else TornDown(d.s)
  }

  function Next(s: State, e: Event, closing: Transport): State {
    match e
    case Packet(number, body, admitted) =>
      if number > MAX_SEQ || body == [] then s
      else if |body| > MAX_PACKET_BODY || !admitted then TornDown(s)
      else if !s.hasWriter then
        if number != 0 then Hold(s, number, body) else s.(opening := s.opening + 1)
      else if number == s.nextSeq then Write(s, body, closing)
      else Hold(s, number, body)
    case Opened(payload) => Open(s, payload, closing)
    case OpenFailed => TornDown(s.(opening := Fewer(s.opening)))
    case Teardown => TornDown(s)
  }

  /** Connection results need an open under way.  A second packet 0 during the
      first open starts a second connection; the order theorems are about senders
      that do not do this. */
  predicate Possible(s: State, e: Event) {
    match e
    case Packet(number, _, _) => number == 0 ==> s.opening == 0
    case Opened(_) => s.opening > 0
    case OpenFailed => s.opening > 0
    case Teardown => true
  }

  // ----- the session object -----

  class Session {
    const closing: Transport
    var hasWriter: bool
    var writerClosed: bool
    var opening: nat
    var buf: map<nat, bytes>
    var bufBytes: nat
    var nextSeq: nat
    var closed: bool
    var checks: nat
    ghost var upstream: bytes

    constructor (closing: Transport)
      ensures Current() == INITIAL && this.closing == closing
    {
      this.closing := closing;
      hasWriter, writerClosed, opening, closed := false, false, 0, false;
      buf, bufBytes, nextSeq, checks := map[], 0, 0, 0;
      upstream := [];
    }

    ghost function Current(): State
      reads this
    {
      State(hasWriter, writerClosed, opening, buf, bufBytes, nextSeq, closed, checks, upstream)
    }

    method TearDown()
      modifies this
      ensures Current() == TornDown(old(Current()))
    {
      closed := true;
      if hasWriter {
        writerClosed := true;
      }
    }

    method IsClosing() returns (yes: bool)
      modifies this`checks
      ensures yes == Closing(old(Current()), closing) && checks == old(checks) + 1
    {
      yes := writerClosed || closing(checks);
      checks := checks + 1;
    }

    method HoldPacket(number: nat, body: bytes)
      modifies this
      ensures Current() == Hold(old(Current()), number, body)
    {
      if |buf| >= MAX_SEQ_BUF_ENTRIES || bufBytes + |body| > MAX_SEQ_BUF_BYTES {
        TearDown();
        return;
      }
      buf := buf[number := body];
      bufBytes := bufBytes + |body|;
    }

    /** The loop after the open: next_seq is set only when it completes. */
    method DrainFrom(first: nat) returns (nxt: nat, ok: bool)
      modifies this
      ensures Drain(Current(), nxt, ok) == Drained(old(Current()), first, closing)
    {
      nxt := first;
      while nxt in buf
        invariant Drained(Current(), nxt, closing) == Drained(old(Current()), first, closing)
        decreases |buf|
      {
        ghost var before := Current();
        PopShrinks(buf, nxt);
        var pending := buf[nxt];
        buf := buf - {nxt};
        var stop := IsClosing();
        assert Current() == Popped(before, nxt);
        if stop {
          return nxt, false;
        }
        upstream := upstream + pending;
        assert Current() == Forwarded(before, nxt);
        nxt := nxt + 1;
      }
      return nxt, true;
    }

    /** packet_up_upload after the quota gate's answer. */
    method Upload(number: nat, body: bytes, admitted: bool)
      modifies this
      ensures Current() == Next(old(Current()), Packet(number, body, admitted), closing)
    {
      hide Write, Hold;
      if number > MAX_SEQ || body == [] {
        return;
      }
      if |body| > MAX_PACKET_BODY || !admitted {
        TearDown();
        return;
      }
      if !hasWriter {
        if number != 0 {
          HoldPacket(number, body);
        } else {
          opening := opening + 1;
        }
        return;
      }
      if number == nextSeq {
        WriteInOrder(body);
      } else {
        HoldPacket(number, body);
      }
    }

    /** The packet that is due, and what waited behind it. */
    method WriteInOrder(body: bytes)
      modifies this
      ensures Current() == Write(old(Current()), body, closing)
    {
      hide Drained;
      var stop := IsClosing();
      if stop {
        TearDown();
        return;
      }
      upstream := upstream + body;
      var nxt, ok := DrainFrom(nextSeq + 1);
      nextSeq := nxt;
      if !ok {
        TearDown();
      }
    }

    /** The rest of the packet-0 handler once the connection is up. */
    method FinishOpen(payload: bytes)
      requires opening > 0
      modifies this
      ensures Current() == Next(old(Current()), Opened(payload), closing)
    {
      hide Drained;
      upstream := payload;
      hasWriter, writerClosed := true, false;
      opening := opening - 1;
      var nxt, ok := DrainFrom(1);
      if ok {
        nextSeq := nxt;
      } else {
        TearDown();
      }
    }
  }

  // ----- runs -----

  function Run(events: seq<Event>, closing: Transport): State {
    if events == [] then INITIAL
    else Next(Run(events[..|events| - 1], closing), events[|events| - 1], closing)
  }

  ghost predicate Feasible(events: seq<Event>, closing: Transport) {
    events == [] ||
    var before := events[..|events| - 1];
    Feasible(before, closing) && Possible(Run(before, closing), events[|events| - 1])
  }

  // ----- the buffer caps, for every run whatsoever -----

  /** Size of the buffered packets with a number below n. */
  function Buffered(buf: map<nat, bytes>, n: nat): nat {
    if n == 0 then 0 else Buffered(buf, n - 1) + (if n - 1 in buf then |buf[n - 1]| else 0)
  }

  ghost predicate WithinCaps(s: State) {
    && |s.buf| <= 256
    && s.bufBytes <= 4 * 1024 * 1024
    && forall n: nat :: Buffered(s.buf, n) <= s.bufBytes
  }

  lemma {:induction false} BufferedGrows(buf: map<nat, bytes>, k: nat, v: bytes, n: nat)
    ensures Buffered(buf[k := v], n) <= Buffered(buf, n) + |v|
    ensures k >= n ==> Buffered(buf[k := v], n) == Buffered(buf, n)
  {
    if n > 0 {
      BufferedGrows(buf, k, v, n - 1);
    }
  }

  lemma {:induction false} BufferedShrinks(buf: map<nat, bytes>, k: nat, n: nat)
    ensures Buffered(buf - {k}, n) <= Buffered(buf, n)
  {
    if n > 0 {
      BufferedShrinks(buf, k, n - 1);
    }
  }

  lemma PoppingKeepsBound(buf: map<nat, bytes>, rest: map<nat, bytes>, k: nat, bound: nat)
    requires rest == buf - {k} && forall n: nat :: Buffered(buf, n) <= bound
    ensures forall n: nat :: Buffered(rest, n) <= bound
  {
    forall n: nat
      ensures Buffered(rest, n) <= bound
    {
      BufferedShrinks(buf, k, n);
    }
  }

  lemma AddingKeepsBound(buf: map<nat, bytes>, grown: map<nat, bytes>, k: nat, v: bytes, bound: nat)
    requires grown == buf[k := v] && forall n: nat :: Buffered(buf, n) <= bound
    ensures forall n: nat :: Buffered(grown, n) <= bound + |v|
  {
    forall n: nat
      ensures Buffered(grown, n) <= bound + |v|
    {
      BufferedGrows(buf, k, v, n);
    }
  }

  lemma HoldKeepsCaps(s: State, number: nat, body: bytes)
    requires WithinCaps(s)
    ensures WithinCaps(Hold(s, number, body))
  {
    if !Overflows(s, body) {
      AddingKeepsBound(s.buf, s.buf[number := body], number, body, s.bufBytes);
      assert s.buf[number := body].Keys == s.buf.Keys + {number};
    }
  }

  lemma {:induction false} DrainKeepsCaps(s: State, nxt: nat, closing: Transport)
    requires WithinCaps(s)
    ensures WithinCaps(Drained(s, nxt, closing).s)
    decreases |s.buf|
  {
    if nxt in s.buf {
      PopShrinks(s.buf, nxt);
      PoppingKeepsBound(s.buf, Popped(s, nxt).buf, nxt, s.bufBytes);
      if !Closing(s, closing) {
        DrainKeepsCaps(Forwarded(s, nxt), nxt + 1, closing);
      }
    }
  }

  lemma NextKeepsCaps(s: State, e: Event, closing: Transport)
    requires WithinCaps(s)
    ensures WithinCaps(Next(s, e, closing))
  {
    match e
    case Packet(number, body, admitted) =>
      HoldKeepsCaps(s, number, body);
      WriteKeepsCaps(s, body, closing);
    case Opened(payload) => OpenKeepsCaps(s, payload, closing);
    case _ =>
  }

  lemma WriteKeepsCaps(s: State, body: bytes, closing: Transport)
    requires WithinCaps(s)
    ensures WithinCaps(Write(s, body, closing))
  {
    DrainKeepsCaps(Written(s, body), s.nextSeq + 1, closing);
  }

  lemma OpenKeepsCaps(s: State, payload: bytes, closing: Transport)
    requires WithinCaps(s)
    ensures WithinCaps(Open(s, payload, closing))
  {
    DrainKeepsCaps(Connected(s, payload), 1, closing);
  }

  /** At most 256 buffered packets, and at most 4 MiB of them: seq_buf_bytes,
      which is never decreased, stays an upper bound of what is buffered. */
  lemma {:induction false} CapsHold(events: seq<Event>, closing: Transport)
    ensures WithinCaps(Run(events, closing))
  {
    if events == [] {
      forall n: nat
        ensures Buffered(INITIAL.buf, n) == 0
      {
        EmptyBuffered(n);
      }
    } else {
      CapsHold(events[..|events| - 1], closing);
      NextKeepsCaps(Run(events[..|events| - 1], closing), events[|events| - 1], closing);
    }
  }

  lemma {:induction false} EmptyBuffered(n: nat)
    ensures Buffered(map[], n) == 0
  {
    if n > 0 {
      EmptyBuffered(n - 1);
    }
  }

  // ----- order, for every feasible run of one sender -----

  /** What the sender means: the payload of body 0, then bodies 1, 2, ... */
  datatype Sender = Sender(first: bytes, bodies: nat -> bytes)

  function Stream(x: Sender, k: nat): bytes {
    if k <= 1 then x.first else Stream(x, k - 1) + x.bodies(k - 1)
  }

  /** Packets carry the sender's bodies; repeats are allowed. */
  ghost predicate SentBy(x: Sender, events: seq<Event>) {
    forall i :: 0 <= i < |events| ==>
      && (events[i].Packet? ==> events[i].body == x.bodies(events[i].number))
      && (events[i].Opened? ==> events[i].payload == x.first)
  }

  ghost predicate Faithful(x: Sender, s: State) {
    && (forall k :: k in s.buf ==> s.buf[k] == x.bodies(k))
    && (!s.hasWriter ==> s.upstream == [] && s.nextSeq == 0 && !s.writerClosed && 0 !in s.buf)
    && s.opening <= 1 && (s.hasWriter ==> s.opening == 0)
    && (s.hasWriter && !s.writerClosed ==>
          s.nextSeq >= 1 && s.upstream == Stream(x, s.nextSeq) && s.nextSeq !in s.buf)
    && (s.writerClosed ==> s.hasWriter && s.closed && exists k: nat :: k >= 1 && s.upstream == Stream(x, k))
  }

  lemma {:induction false} DrainFollows(x: Sender, s: State, nxt: nat, closing: Transport)
    requires nxt >= 1 && s.upstream == Stream(x, nxt)
    requires forall k :: k in s.buf ==> s.buf[k] == x.bodies(k)
    ensures var d := Drained(s, nxt, closing);
            && d.nxt >= nxt && d.s.upstream == Stream(x, d.nxt)
            && (forall k :: k in d.s.buf ==> k in s.buf && d.s.buf[k] == x.bodies(k))
            && (d.ok ==> d.nxt !in d.s.buf)
            && d.s == s.(buf := d.s.buf, checks := d.s.checks, upstream := d.s.upstream)
    decreases |s.buf|
  {
    if nxt in s.buf {
      PopShrinks(s.buf, nxt);
      if !Closing(s, closing) {
        hide Closing;
        var f, next := Forwarded(s, nxt), nxt + 1;
        assert f.upstream == Stream(x, next);
        DrainFollows(x, f, next, closing);
      }
    }
  }

  lemma NextFaithful(x: Sender, s: State, e: Event, closing: Transport)
    requires Faithful(x, s) && Possible(s, e)
    requires e.Packet? ==> e.body == x.bodies(e.number)
    requires e.Opened? ==> e.payload == x.first
    ensures Faithful(x, Next(s, e, closing))
  {
    match e
    case Packet(number, body, admitted) =>
      if s.hasWriter && number == s.nextSeq {
        WriteFaithful(x, s, body, closing);
      }
    case Opened(payload) => OpenFaithful(x, s, payload, closing);
    case _ =>
  }

  lemma WriteFaithful(x: Sender, s: State, body: bytes, closing: Transport)
    requires Faithful(x, s) && s.hasWriter && body == x.bodies(s.nextSeq)
    ensures Faithful(x, Write(s, body, closing))
  {
    if !s.writerClosed {
      assert Stream(x, s.nextSeq + 1) == s.upstream + body;
      DrainFollows(x, Written(s, body), s.nextSeq + 1, closing);
    }
  }

  lemma OpenFaithful(x: Sender, s: State, payload: bytes, closing: Transport)
    requires Faithful(x, s) && s.opening == 1 && payload == x.first
    ensures Faithful(x, Open(s, payload, closing))
  {
    DrainFollows(x, Connected(s, payload), 1, closing);
  }

  /** In every reachable state of an open session the connection has received
      exactly the sender's stream up to next_seq - 1, and next_seq itself is not
      waiting in the buffer; after a failure it has still received a prefix. */
  lemma {:induction false} UploadInOrder(x: Sender, events: seq<Event>, closing: Transport)
    requires SentBy(x, events) && Feasible(events, closing)
    ensures Faithful(x, Run(events, closing))
  {
    if events != [] {
      var n := |events| - 1;
      UploadInOrder(x, events[..n], closing);
      NextFaithful(x, Run(events[..n], closing), events[n], closing);
    }
  }

  // ----- completeness: any order of arrival delivers the whole stream -----

  function Arrived(events: seq<Event>): set<nat> {
    set i | 0 <= i < |events| && events[i].Packet? :: events[i].number
  }

  /** Every packet is sent once, is not empty, and is let through by the gate. */
  ghost predicate SentOnce(events: seq<Event>) {
    && (forall i, j :: 0 <= i < j < |events| && events[i].Packet? && events[j].Packet?
          ==> events[i].number != events[j].number)
    && (forall i :: 0 <= i < |events| && events[i].Packet?
          ==> events[i].admitted && events[i].body != [] && events[i].number <= 10_000_000)
  }

  /** Nothing that arrived at an open session is lost or kept twice. */
  ghost predicate Accounted(s: State, arrived: set<nat>) {
    && (s.hasWriter ==> forall k: nat :: k in arrived <==> k in s.buf || k < s.nextSeq)
    && (s.hasWriter ==> forall k: nat :: k in s.buf ==> k > s.nextSeq)
    && (!s.hasWriter ==> forall k: nat :: k in arrived <==> k in s.buf || (k == 0 && s.opening > 0))
    && (!s.hasWriter ==> 0 !in s.buf)
  }

  /** Between two moments of draining, packets only move from the buffer a to the
      numbers below m. */
  ghost predicate Kept(a: map<nat, bytes>, n: nat, b: map<nat, bytes>, m: nat) {
    && m >= n
    && (forall k: nat :: (k in a || k < n) <==> (k in b || k < m))
    && (forall k: nat :: k in b ==> k > m)
  }

  lemma KeptStep(a: map<nat, bytes>, rest: map<nat, bytes>, n: nat, next: nat, b: map<nat, bytes>, m: nat)
    requires n in a && rest == a - {n} && next == n + 1 && Kept(rest, next, b, m)
    ensures Kept(a, n, b, m)
  {
    assert forall k: nat :: k in a <==> k in rest || k == n;
  }

  lemma KeptNow(a: map<nat, bytes>, n: nat)
    requires n !in a && forall k: nat :: k in a ==> k >= n
    ensures Kept(a, n, a, n)
  {
  }

  lemma {:induction false} DrainAccounts(s: State, nxt: nat, closing: Transport)
    requires forall k: nat :: k in s.buf ==> k >= nxt
    ensures var d := Drained(s, nxt, closing); d.ok ==> Kept(s.buf, nxt, d.s.buf, d.nxt)
    decreases |s.buf|
  {
    hide Kept, Closing;
    if nxt !in s.buf {
      KeptNow(s.buf, nxt);
    } else {
      PopShrinks(s.buf, nxt);
      if !Closing(s, closing) {
        var f, next := Forwarded(s, nxt), nxt + 1;
        var d := Drained(f, next, closing);
        DrainAccounts(f, next, closing);
        if d.ok {
          KeptStep(s.buf, f.buf, nxt, next, d.s.buf, d.nxt);
        }
      }
    }
  }

  lemma {:induction false} DrainKeepsOpen(s: State, nxt: nat, closing: Transport)
    ensures var d := Drained(s, nxt, closing);
            d.s == s.(buf := d.s.buf, checks := d.s.checks, upstream := d.s.upstream)
    decreases |s.buf|
  {
    if nxt in s.buf {
      PopShrinks(s.buf, nxt);
      if !Closing(s, closing) {
        DrainKeepsOpen(Forwarded(s, nxt), nxt + 1, closing);
      }
    }
  }

  lemma NextAccounts(s: State, e: Event, arrived: set<nat>, closing: Transport)
    requires Possible(s, e) && Accounted(s, arrived) && s.opening <= 1 && (s.hasWriter ==> s.opening == 0)
    requires e.Packet? ==> e.number !in arrived && e.admitted && e.body != [] && e.number <= MAX_SEQ
    requires !s.closed && !Next(s, e, closing).closed
    ensures Accounted(Next(s, e, closing), arrived + (if e.Packet? then {e.number} else {}))
  {
    match e
    case Packet(number, body, admitted) =>
      if s.hasWriter && number == s.nextSeq {
        WriteAccounts(s, body, arrived, closing);
      }
    case Opened(payload) =>
      OpenAccounts(s, payload, arrived, closing);
    case _ =>
  }

  lemma WriteAccounts(s: State, body: bytes, arrived: set<nat>, closing: Transport)
    requires Accounted(s, arrived) && s.hasWriter
    requires !Write(s, body, closing).closed
    ensures Accounted(Write(s, body, closing), arrived + {s.nextSeq})
  {
    var w := Written(s, body);
    DrainAccounts(w, s.nextSeq + 1, closing);
    DrainKeepsOpen(w, s.nextSeq + 1, closing);
    assert forall k: nat :: k in arrived + {s.nextSeq} <==> k in w.buf || k < s.nextSeq + 1;
  }

  lemma OpenAccounts(s: State, payload: bytes, arrived: set<nat>, closing: Transport)
    requires Accounted(s, arrived) && s.opening == 1 && !s.hasWriter
    requires !Open(s, payload, closing).closed
    ensures Accounted(Open(s, payload, closing), arrived)
  {
    var w := Connected(s, payload);
    DrainAccounts(w, 1, closing);
    DrainKeepsOpen(w, 1, closing);
    assert forall k: nat :: k in arrived <==> k in w.buf || k < 1;
  }

  lemma ClosedForever(s: State, e: Event, closing: Transport)
    requires s.closed
    ensures Next(s, e, closing).closed
  {
    match e
    case Packet(number, body, admitted) =>
      DrainKeepsOpen(Written(s, body), s.nextSeq + 1, closing);
    case Opened(payload) =>
      DrainKeepsOpen(Connected(s, payload), 1, closing);
    case _ =>
  }

  lemma {:induction false} RunAccounts(x: Sender, events: seq<Event>, closing: Transport)
    requires SentBy(x, events) && SentOnce(events) && Feasible(events, closing)
    requires !Run(events, closing).closed
    ensures Accounted(Run(events, closing), Arrived(events))
  {
    if events != [] {
      var n := |events| - 1;
      var before, e := events[..n], events[n];
      var s := Run(before, closing);
      if s.closed {
        ClosedForever(s, e, closing);
      }
      RunAccounts(x, before, closing);
      UploadInOrder(x, before, closing);
      ArrivedStep(events);
      NextAccounts(s, e, Arrived(before), closing);
    }
  }

  lemma ArrivedStep(events: seq<Event>)
    requires events != []
    ensures var n := |events| - 1;
            && Arrived(events) == Arrived(events[..n]) + (if events[n].Packet? then {events[n].number} else {})
            && (SentOnce(events) && events[n].Packet? ==> events[n].number !in Arrived(events[..n]))
  {
  }

  /** Order independence: once packets 0..n-1 have all arrived, each once, in any
      order and before or after the connection came up, and the session is still
      open, the whole stream is upstream and nothing is buffered. */
  lemma OrderIndependence(x: Sender, events: seq<Event>, n: nat, closing: Transport)
    requires SentBy(x, events) && SentOnce(events) && Feasible(events, closing)
    requires forall k: nat :: k in Arrived(events) <==> k < n
    requires var s := Run(events, closing); !s.closed && s.hasWriter
    ensures var s := Run(events, closing);
            s.nextSeq == n && s.buf == map[] && s.upstream == Stream(x, n)
  {
    RunAccounts(x, events, closing);
    UploadInOrder(x, events, closing);
    var s := Run(events, closing);
    assert n !in Arrived(events) && s.nextSeq !in s.buf;
    assert s.nextSeq == n;
    assert s.buf.Keys == {};
  }

  // ----- when a session stays open -----

  function SizeOf(e: Event): nat {
    if e.Packet? then |e.body| else 0
  }

  function TotalSize(events: seq<Event>): nat {
    if events == [] then 0 else TotalSize(events[..|events| - 1]) + SizeOf(events[|events| - 1])
  }

  ghost predicate Harmless(events: seq<Event>) {
    forall i :: 0 <= i < |events| ==> events[i].Packet? || events[i].Opened?
  }

  lemma {:induction false} DrainSucceeds(s: State, nxt: nat, closing: Transport)
    requires !s.writerClosed && forall k: nat :: !closing(k)
    ensures Drained(s, nxt, closing).ok
    decreases |s.buf|
  {
    if nxt in s.buf {
      PopShrinks(s.buf, nxt);
      DrainSucceeds(Forwarded(s, nxt), nxt + 1, closing);
    }
  }

  /** At most 257 packets of at most 4 MiB together over a working transport
      never close the session, whatever their order. */
  lemma {:induction false} StaysOpen(x: Sender, events: seq<Event>, closing: Transport)
    requires SentBy(x, events) && SentOnce(events) && Feasible(events, closing) && Harmless(events)
    requires forall k: nat :: !closing(k)
    requires TotalSize(events) <= MAX_SEQ_BUF_BYTES && forall k :: k in Arrived(events) ==> k < 257
    ensures !Run(events, closing).closed
    ensures Run(events, closing).bufBytes <= TotalSize(events)
  {
    if events != [] {
      var n := |events| - 1;
      var before, e := events[..n], events[n];
      ArrivedStep(events);
      StaysOpen(x, before, closing);
      UploadInOrder(x, before, closing);
      RunAccounts(x, before, closing);
      var s := Run(before, closing);
      if e.Packet? {
        BufferSmall(s, Arrived(before), e.number);
      }
      StepStaysOpen(s, e, closing);
    }
  }

  lemma StepStaysOpen(s: State, e: Event, closing: Transport)
    requires !s.closed && !s.writerClosed && forall k: nat :: !closing(k)
    requires e.Packet? || e.Opened?
    requires e.Packet? ==> e.admitted && s.bufBytes + |e.body| <= MAX_SEQ_BUF_BYTES
    requires e.Packet? && e.number != 0 ==> |s.buf| < MAX_SEQ_BUF_ENTRIES
    requires s.hasWriter && e.Packet? && e.number == 0 ==> |s.buf| < MAX_SEQ_BUF_ENTRIES
    ensures !Next(s, e, closing).closed
    ensures Next(s, e, closing).bufBytes <= s.bufBytes + SizeOf(e)
  {
    match e
    case Packet(number, body, admitted) =>
      DrainSucceeds(Written(s, body), s.nextSeq + 1, closing);
      DrainKeepsOpen(Written(s, body), s.nextSeq + 1, closing);
    case Opened(payload) =>
      DrainSucceeds(Connected(s, payload), 1, closing);
      DrainKeepsOpen(Connected(s, payload), 1, closing);
  }

  /** Buffered packets are not number 0 and not the packet just arriving. */
  lemma BufferSmall(s: State, arrived: set<nat>, number: nat)
    requires Accounted(s, arrived) && number !in arrived && number < 257
    requires forall k :: k in arrived ==> k < 257
    requires s.hasWriter ==> s.nextSeq >= 1
    ensures number != 0 ==> |s.buf| < MAX_SEQ_BUF_ENTRIES
    ensures s.hasWriter ==> number != 0
  {
    if number != 0 {
      BoundedSize(s.buf.Keys + {0, number}, 257);
      assert |s.buf.Keys + {0, number}| == |s.buf.Keys| + 2;
    }
  }

  lemma {:induction false} BoundedSize(s: set<nat>, n: nat)
    requires forall k :: k in s ==> k < n
    ensures |s| <= n
  {
    if n > 0 {
      BoundedSize(s - {n - 1}, n - 1);
    } else {
      assert s == {};
    }
  }

  // ----- from the order of arrival alone -----

  ghost predicate Connects(events: seq<Event>) {
    exists i :: 0 <= i < |events| && events[i].Opened?
  }

  /** The connection comes up at most once, and after packet 0. */
  ghost predicate OpensOnce(events: seq<Event>) {
    && (forall i, j :: 0 <= i < j < |events| ==> !(events[i].Opened? && events[j].Opened?))
    && (forall i :: 0 <= i < |events| && events[i].Opened? ==> 0 in Arrived(events[..i]))
  }

  lemma OpensOnceStep(events: seq<Event>)
    requires events != [] && OpensOnce(events)
    ensures var n := |events| - 1;
            && OpensOnce(events[..n])
            && (events[n].Opened? ==> !Connects(events[..n]) && 0 in Arrived(events[..n]))
            && (Connects(events) <==> Connects(events[..n]) || events[n].Opened?)
  {
    hide Arrived;
    var n := |events| - 1;
    assert forall i :: 0 <= i < n ==> events[..n][..i] == events[..i] && events[..n][i] == events[i];
  }

  /** Whether the session has a connection, and how many opens are under way. */
  ghost predicate Counted(s: State, events: seq<Event>) {
    && (s.hasWriter <==> Connects(events))
    && s.opening == (if 0 in Arrived(events) && !Connects(events) then 1 else 0)
  }

  lemma NextCounts(s: State, e: Event, before: seq<Event>, events: seq<Event>, closing: Transport)
    requires events == before + [e] && OpensOnce(events) && SentOnce(events) && Harmless(events)
    requires e.Packet? ==> |e.body| <= MAX_PACKET_BODY
    requires Counted(s, before)
    ensures Possible(s, e) && Counted(Next(s, e, closing), events)
  {
    hide Arrived, Connects, OpensOnce;
    assert events[..|events| - 1] == before && events[|events| - 1] == e;
    OpensOnceStep(events);
    ArrivedStep(events);
    match e
    case Packet(number, body, admitted) =>
      DrainKeepsOpen(Written(s, body), s.nextSeq + 1, closing);
    case Opened(payload) =>
      DrainKeepsOpen(Connected(s, payload), 1, closing);
    case _ =>
  }

  /** No body is larger than a packet may be. */
  ghost predicate Sized(events: seq<Event>) {
    forall i :: 0 <= i < |events| && events[i].Packet? ==> |events[i].body| <= 8 * 1024 * 1024
  }

  lemma NothingCounted()
    ensures Counted(INITIAL, [])
  {
  }

  lemma FrontHolds(events: seq<Event>)
    requires events != [] && SentOnce(events) && Harmless(events) && Sized(events)
    ensures var n := |events| - 1;
      && SentOnce(events[..n]) && Harmless(events[..n]) && Sized(events[..n])
      && (events[n].Packet? ==> |events[n].body| <= MAX_PACKET_BODY)
  {
  }

  lemma {:induction false} RunCounts(events: seq<Event>, closing: Transport)
    requires OpensOnce(events) && SentOnce(events) && Harmless(events) && Sized(events)
    ensures Feasible(events, closing) && Counted(Run(events, closing), events)
  {
    hide Counted, OpensOnce, SentOnce, Harmless, Sized, Next, Possible, Arrived, Connects;
    if events == [] {
      NothingCounted();
    } else {
      var n := |events| - 1;
      var before, e := events[..n], events[n];
      OpensOnceStep(events);
      FrontHolds(events);
      RunCounts(before, closing);
      assert events == before + [e];
      NextCounts(Run(before, closing), e, before, events, closing);
    }
  }

  // ----- packets due are never refused -----

  /** Packets that have arrived before their turn: before the connection all but
      number 0, then those with one missing before them. */
  ghost function Early(events: seq<Event>): set<nat> {
    if Connects(events) then set k | k in Arrived(events) && MissingBelow(events, k) else Arrived(events) - {0}
  }

  ghost predicate MissingBelow(events: seq<Event>, k: nat) {
    exists q: nat :: q < k && q !in Arrived(events)
  }

  /** The last packet came before its turn. */
  ghost predicate CameEarly(events: seq<Event>)
    requires events != []
  {
    var e := events[|events| - 1];
    e.Packet? && e.number in Early(events)
  }

  /** Bytes of all packets that came before their turn. */
  ghost function EarlyBytes(events: seq<Event>): nat {
    if events == [] then 0
    else EarlyBytes(events[..|events| - 1]) + (if CameEarly(events) then |events[|events| - 1].body| else 0)
  }

  /** Each packet that came before its turn found fewer than 256 others waiting,
      and with it such packets were 4 MiB together at most. */
  ghost predicate Roomy(events: seq<Event>) {
    events == [] ||
    var before := events[..|events| - 1];
    Roomy(before) && (CameEarly(events) ==> |Early(before)| < 256 && EarlyBytes(events) <= 4 * 1024 * 1024)
  }

  lemma BufferIsEarly(s: State, events: seq<Event>)
    requires Accounted(s, Arrived(events)) && Counted(s, events)
    ensures s.buf.Keys == Early(events)
  {
    hide Arrived, Connects;
    if s.hasWriter {
      forall k: nat
        ensures k in s.buf <==> k in Early(events)
      {
        if k in s.buf {
          assert s.nextSeq < k && s.nextSeq !in Arrived(events);
        }
      }
    }
  }

  /** A packet that arrives at an open session comes early exactly if it is not due. */
  lemma EarlyIff(s: State, before: seq<Event>, e: Event, events: seq<Event>)
    requires Accounted(s, Arrived(before)) && Counted(s, before)
    requires events == before + [e] && e.Packet? && e.number !in Arrived(before)
    requires Arrived(events) == Arrived(before) + {e.number} && (Connects(events) <==> Connects(before))
    ensures CameEarly(events) <==> if s.hasWriter then e.number != s.nextSeq else e.number != 0
  {
    hide Arrived, Connects;
    assert events[|events| - 1] == e;
    if s.hasWriter {
      if e.number != s.nextSeq {
        assert s.nextSeq < e.number && s.nextSeq !in Arrived(events);
      } else {
        assert forall q: nat :: q < e.number ==> q in Arrived(events);
      }
    }
  }

  /** A due packet is written, and nothing else about an open session changes. */
  lemma WriteStaysOpen(s: State, body: bytes, closing: Transport)
    requires !s.closed && !s.writerClosed && forall k: nat :: !closing(k)
    ensures !Write(s, body, closing).closed && Write(s, body, closing).bufBytes == s.bufBytes
  {
    hide Drained;
    DrainSucceeds(Written(s, body), s.nextSeq + 1, closing);
    DrainKeepsOpen(Written(s, body), s.nextSeq + 1, closing);
  }

  lemma ConnectStaysOpen(s: State, payload: bytes, closing: Transport)
    requires !s.closed && forall k: nat :: !closing(k)
    ensures !Open(s, payload, closing).closed && Open(s, payload, closing).bufBytes == s.bufBytes
  {
    hide Drained;
    DrainSucceeds(Connected(s, payload), 1, closing);
    DrainKeepsOpen(Connected(s, payload), 1, closing);
  }

  /** One more packet at an open session: held if it comes early, else taken. */
  lemma PacketStaysOpenIff(s: State, number: nat, body: bytes, early: bool, closing: Transport)
    requires !s.closed && !s.writerClosed && forall k: nat :: !closing(k)
    requires body != [] && |body| <= 8 * 1024 * 1024 && number <= 10_000_000
    requires early <==> if s.hasWriter then number != s.nextSeq else number != 0
    ensures var t := Next(s, Packet(number, body, true), closing);
      && (!t.closed <==> (early ==> |s.buf| < 256 && s.bufBytes + |body| <= 4 * 1024 * 1024))
      && (!t.closed ==> t.bufBytes == s.bufBytes + (if early then |body| else 0))
  {
    hide Write;
    WriteStaysOpen(s, body, closing);
  }

  /** What an open session comes to with one more event. */
  lemma OpenStep(s: State, e: Event, before: seq<Event>, events: seq<Event>, closing: Transport)
    requires events == before + [e] && OpensOnce(events) && SentOnce(events) && Harmless(events) && Sized(events)
    requires !s.closed && !s.writerClosed && forall k: nat :: !closing(k)
    requires Accounted(s, Arrived(before)) && Counted(s, before) && s.bufBytes == EarlyBytes(before) && Roomy(before)
    ensures !Next(s, e, closing).closed <==> Roomy(events)
    ensures !Next(s, e, closing).closed ==> Next(s, e, closing).bufBytes == EarlyBytes(events)
  {
    hide Arrived, Connects, OpensOnce, Accounted, Counted, CameEarly, Early, Next;
    var n := |events| - 1;
    assert events[..n] == before && events[n] == e;
    OpensOnceStep(events);
    ArrivedStep(events);
    BufferIsEarly(s, before);
    assert |s.buf| == |s.buf.Keys|;
    match e
    case Packet(number, body, admitted) =>
      assert admitted && body != [] && number <= 10_000_000 && |body| <= 8 * 1024 * 1024;
      EarlyIff(s, before, e, events);
      PacketStaysOpenIff(s, number, body, CameEarly(events), closing);
    case Opened(payload) =>
      NotAPacket(events);
      ConnectStaysOpen(s, payload, closing);
      NextOpens(s, payload, closing);
    case _ =>
  }

  lemma NextOpens(s: State, payload: bytes, closing: Transport)
    ensures Next(s, Opened(payload), closing) == Open(s, payload, closing)
  {
  }

  lemma NotAPacket(events: seq<Event>)
    requires events != [] && !events[|events| - 1].Packet?
    ensures !CameEarly(events)
  {
  }

  /** Over a working transport and an admitting gate, with bodies of at most 8 MiB,
      a session stays open exactly as long as the packets before their turn have
      room; packets that arrive in turn may be any number and any size together. */
  lemma {:induction false} OpenIff(x: Sender, events: seq<Event>, closing: Transport)
    requires SentBy(x, events) && SentOnce(events) && Harmless(events) && OpensOnce(events) && Sized(events)
    requires forall k: nat :: !closing(k)
    ensures !Run(events, closing).closed <==> Roomy(events)
    ensures !Run(events, closing).closed ==> Run(events, closing).bufBytes == EarlyBytes(events)
  {
    if events != [] {
      hide OpensOnce, Roomy, EarlyBytes, Arrived, Connects, CameEarly, Early, Next, Accounted, Counted;
      hide SentOnce, Harmless, Sized, Feasible;
      FrontHolds(events);
      var n := |events| - 1;
      var before, e := events[..n], events[n];
      var s := Run(before, closing);
      assert events == before + [e];
      OpensOnceStep(events);
      OpenIff(x, before, closing);
      RunCounts(before, closing);
      if s.closed {
        ClosedForever(s, e, closing);
        NeverRoomyAgain(events);
      } else {
        UploadInOrder(x, before, closing);
        RunAccounts(x, before, closing);
        OpenStep(s, e, before, events, closing);
      }
    }
  }

  lemma NeverRoomyAgain(events: seq<Event>)
    requires events != [] && !Roomy(events[..|events| - 1])
    ensures !Roomy(events)
  {
  }

  /** At most 257 packets of at most 4 MiB together always have room. */
  lemma SmallIsRoomy(x: Sender, events: seq<Event>, closing: Transport)
    requires SentBy(x, events) && SentOnce(events) && Harmless(events) && OpensOnce(events) && Sized(events)
    requires forall k: nat :: !closing(k)
    requires TotalSize(events) <= 4 * 1024 * 1024 && forall k :: k in Arrived(events) ==> k < 257
    ensures Roomy(events)
  {
    hide OpensOnce, Roomy, Arrived;
    RunCounts(events, closing);
    StaysOpen(x, events, closing);
    OpenIff(x, events, closing);
  }

  /** Delivery, from the order of arrival alone: packets 0..n-1, each once, with the
      connection coming up at any moment after packet 0, and room for those before
      their turn, however large the transmission: then the session is open, the
      whole stream is upstream and nothing is buffered. */
  lemma Delivered(x: Sender, events: seq<Event>, n: nat, closing: Transport)
    requires SentBy(x, events) && SentOnce(events) && Harmless(events) && OpensOnce(events) && Connects(events)
    requires forall k: nat :: k in Arrived(events) <==> k < n
    requires Sized(events) && Roomy(events)
    requires forall k: nat :: !closing(k)
    ensures var s := Run(events, closing);
            !s.closed && s.hasWriter && s.nextSeq == n && s.buf == map[] && s.upstream == Stream(x, n)
  {
    hide Run, OpensOnce, Arrived, Roomy, Connects;
    RunCounts(events, closing);
    OpenIff(x, events, closing);
    OrderIndependence(x, events, n, closing);
  }

  /** What is refused: a number over ten million or an empty body changes nothing; a
      body over 8 MiB, or one the quota gate does not admit, closes the session and
      its connection. */
  lemma Refused(s: State, number: nat, body: bytes, admitted: bool, closing: Transport)
    ensures var t := Next(s, Packet(number, body, admitted), closing);
      if number > 10_000_000 || body == [] then t == s
      else |body| > 8 * 1024 * 1024 || !admitted ==>
        t.closed && (s.hasWriter ==> t.writerClosed) && t.upstream == s.upstream && t.buf == s.buf
  {
  }
}
