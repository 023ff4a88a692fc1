/** Downlink batching of one WebSocket (_WSConnection in engines/middleware.py).
    Each method is the code between two suspension points; senders, flusher
    wake-ups and transport failures interleave arbitrarily. */
module Downlink {
  import opened Prelude
  import opened EngineContexts
  import Pipeline

  /** Connection state.  transforming says that the running flush is inside
      run_pipeline; inFlight holds the frames of that flush not yet sent; sent
      and accepted are the streams seen from outside; failed and dropped say that
      a batch was given up because a send failed or its flush was cancelled;
      disconnected says that the client's disconnect has been received. */
  datatype State = State(
    buffer: seq<bytes>,
    pending: nat,
    flushing: bool,
    closed: bool,
    disconnected: bool,
    failed: bool,
    dropped: bool,
    transforming: bool,
    inFlight: seq<bytes>,
    sent: bytes,
    accepted: bytes)

  const INITIAL := State([], 0, false, false, false, false, false, false, [], [], [])

  datatype Event =
    | Add(data: bytes)                       // a sender whose wait, if any, is over
    | BackpressureTimeout                    // a sender gave up waiting
    | FlushStart(final: bool)                // flusher, close or disconnect
    | Transformed(engines: seq<Pipeline.Engine>)   // run_pipeline came back; [] when limited
    | SendNext(ok: bool)                     // real_send of the next frame
    | FlushEnd(final: bool)
    | Disconnected                           // the handler that received it flushes next
    | Cancelled                              // the task inside flush: flusher or disconnect handler

  ghost predicate ValidEvent(e: Event) {
    e.Transformed? ==> forall x :: x in e.engines ==> Pipeline.ValidEngine(x)
  }

  /** Frames put on the wire for a batch: empty ones are filtered out, and a
      pipeline that returns nothing is overruled by the raw batch. */
  function Outgoing(batch: seq<bytes>, engines: seq<Pipeline.Engine>): seq<bytes>
    requires forall x :: x in engines ==> Pipeline.ValidEngine(x)
  {
    var out := NonEmpty(Pipeline.Through(engines, Down, batch));
    if out == [] then batch else out
  }

  function Next(s: State, e: Event, hardCap: nat): State
    requires ValidEvent(e)
  {
    match e
    case Add(data) =>
      if s.closed || data == [] || (s.pending >= hardCap && s.flushing) then s
      else s.(buffer := s.buffer + [data], pending := s.pending + |data|, accepted := s.accepted + data)
    case BackpressureTimeout => s.(closed := true)
    case FlushStart(final) =>
      if s.flushing || s.buffer == [] then s.(closed := s.closed || final)
      else s.(flushing := true, transforming := true, inFlight := s.buffer, buffer := [], pending := 0)
    case Transformed(engines) =>
      if !s.transforming then s
      else s.(transforming := false, inFlight := Outgoing(s.inFlight, engines))
    case SendNext(ok) =>
      if s.transforming || s.inFlight == [] then s
      else if ok then s.(sent := s.sent + s.inFlight[0], inFlight := s.inFlight[1..])
      else s.(inFlight := [], failed := true)
    case FlushEnd(final) =>
      if s.transforming || s.inFlight != [] then s
      else s.(flushing := false, closed := s.closed || final)
    case Disconnected => s.(disconnected := true)
    case Cancelled =>
      if !(s.closed || s.disconnected) || !s.flushing then s
      else s.(flushing := false, transforming := false, inFlight := [], dropped := s.dropped || s.inFlight != [])
  }

  /** The connection object; the ghost fields are observations. */
  class WSConnection {
    const hardCap: nat
    var buffer: seq<bytes>
    var pending: nat
    var flushing: bool
    var closed: bool
    var inFlight: seq<bytes>
    ghost var disconnected: bool
    ghost var failed: bool
    ghost var dropped: bool
    ghost var transforming: bool
    ghost var sent: bytes
    ghost var accepted: bytes

    constructor (hardCap: nat)
      ensures Current() == INITIAL && this.hardCap == hardCap
    {
      this.hardCap := hardCap;
      buffer, pending, flushing, closed, inFlight := [], 0, false, false, [];
      disconnected, failed, dropped, transforming, sent, accepted := false, false, false, false, [], [];
    }

    ghost function Current(): State
      reads this
    {
      State(buffer, pending, flushing, closed, disconnected, failed, dropped, transforming, inFlight, sent, accepted)
    }

    /** The part of _add after its wait; waiting says the wait must go on. */
    method AddData(data: bytes) returns (waiting: bool)
      modifies this
      ensures Current() == Next(old(Current()), Add(data), hardCap)
      ensures waiting <==> !old(closed) && data != [] && old(pending) >= hardCap && old(flushing)
    {
      if closed || data == [] {
        return false;
      }
      if pending >= hardCap && flushing {
        return true;
      }
      buffer := buffer + [data];
      pending := pending + |data|;
      accepted := accepted + data;
      return false;
    }

    method GiveUp()
      modifies this
      ensures Current() == Next(old(Current()), BackpressureTimeout, hardCap)
    {
      closed := true;
    }

    /** flush up to run_pipeline: the batch is detached from the buffer. */
    method StartFlush(final: bool) returns (started: bool)
      modifies this
      ensures Current() == Next(old(Current()), FlushStart(final), hardCap)
      ensures started <==> !old(flushing) && old(buffer) != []
    {
      if flushing {
        if final {
          closed := true;
        }
        return false;
      }
      if buffer == [] {
        if final {
          closed := true;
        }
        return false;
      }
      flushing, transforming := true, true;
      inFlight, buffer := buffer, [];
      pending := 0;
      return true;
    }

    /** The frames that came out of the pipeline replace the raw batch. */
    method TakeTransformed(frames: seq<bytes>, ghost engines: seq<Pipeline.Engine>)
      requires forall x :: x in engines ==> Pipeline.ValidEngine(x)
      requires transforming && frames == Pipeline.Through(engines, Down, inFlight)
      modifies this
      ensures Current() == Next(old(Current()), Transformed(engines), hardCap)
    {
      var out := NonEmpty(frames);
      if out == [] {
        out := inFlight;
      }
      inFlight := out;
      transforming := false;
    }

    method SendOne(ok: bool)
      requires !transforming
      modifies this
      ensures Current() == Next(old(Current()), SendNext(ok), hardCap)
    {
      if inFlight != [] {
        if ok {
          sent := sent + inFlight[0];
          inFlight := inFlight[1..];
        } else {
          inFlight := [];
          failed := true;
        }
      }
    }

    method EndFlush(final: bool)
      requires !transforming
      modifies this
      ensures Current() == Next(old(Current()), FlushEnd(final), hardCap)
    {
      if inFlight == [] {
        flushing := false;
        if final {
          closed := true;
        }
      }
    }

    /** websocket.disconnect arrives: flush() is called next. */
    method Disconnect()
      modifies this`disconnected
      ensures Current() == Next(old(Current()), Disconnected, hardCap)
    {
      disconnected := true;
    }

    /** The task inside flush is cancelled: the flusher by _stop_flusher once the
        connection is closed, or the task that handles a disconnect.  The batch
        is lost and the finally clause ends the flush. */
    method CancelFlush()
      requires closed || disconnected
      modifies this
      ensures Current() == Next(old(Current()), Cancelled, hardCap)
    {
      if flushing {
        dropped := dropped || inFlight != [];
        inFlight, flushing, transforming := [], false, false;
      }
    }
  }

  // ----- every interleaving -----

  /** Bytes sent, then the batch in flight, then the buffer, are exactly the
      bytes accepted so far, until a send fails or a flush is cancelled, which
      takes a close or a disconnect. */
  ghost predicate Ordered(s: State) {
    && (!s.failed && !s.dropped ==> s.sent + Join(s.inFlight) + Join(s.buffer) == s.accepted)
    && (s.failed || s.dropped ==> |s.sent| + |Join(s.inFlight)| + |Join(s.buffer)| < |s.accepted|)
    && (s.dropped ==> s.closed || s.disconnected)
    && s.pending == |Join(s.buffer)|
    && (!s.flushing ==> s.inFlight == [] && !s.transforming)
    && (forall f :: f in s.buffer || f in s.inFlight ==> f != [])
  }

  lemma OutgoingKeepsStream(batch: seq<bytes>, engines: seq<Pipeline.Engine>)
    requires forall x :: x in engines ==> Pipeline.ValidEngine(x)
    requires forall f :: f in batch ==> f != []
    ensures Join(Outgoing(batch, engines)) == Join(batch)
    ensures forall f :: f in Outgoing(batch, engines) ==> f != []
  {
    Pipeline.ThroughKeepsStream(engines, Down, batch);
    JoinNonEmpty(Pipeline.Through(engines, Down, batch));
  }

  lemma AddKeepsOrder(s: State, data: bytes, hardCap: nat)
    requires Ordered(s)
    ensures Ordered(Next(s, Add(data), hardCap))
  {
    JoinSnoc(s.buffer, data);
    Regroup(s.sent, Join(s.inFlight), Join(s.buffer), data);
  }

  lemma FlushKeepsOrder(s: State, final: bool, hardCap: nat)
    requires Ordered(s)
    ensures Ordered(Next(s, FlushStart(final), hardCap))
  {
    var t := Next(s, FlushStart(final), hardCap);
    if !s.flushing && s.buffer != [] {
      assert t.inFlight == s.buffer && t.buffer == [] && Join(t.buffer) == [] && Join(s.inFlight) == [];
      assert s.sent + [] + Join(s.buffer) == s.sent + Join(s.buffer) + [];
      assert forall f :: f in t.buffer || f in t.inFlight ==> f in s.buffer;
    } else {
      assert t == s.(closed := s.closed || final);
    }
  }

  /** What is on its way was accepted, and a batch in flight is not empty. */
  lemma OnItsWay(s: State)
    requires Ordered(s)
    ensures |s.sent| + |Join(s.inFlight)| + |Join(s.buffer)| <= |s.accepted|
    ensures s.inFlight != [] ==> |Join(s.inFlight)| > 0
  {
    assert |s.sent + Join(s.inFlight) + Join(s.buffer)| == |s.sent| + |Join(s.inFlight)| + |Join(s.buffer)|;
    if s.inFlight != [] {
      assert s.inFlight[0] in s.inFlight;
      assert |Join(s.inFlight)| == |s.inFlight[0]| + |Join(s.inFlight[1..])|;
    }
  }

  lemma CancelKeepsOrder(s: State, hardCap: nat)
    requires Ordered(s)
    ensures Ordered(Next(s, Cancelled, hardCap))
  {
    OnItsWay(s);
    assert s.sent + [] + Join(s.buffer) == s.sent + Join([]) + Join(s.buffer);
  }

  lemma SendKeepsOrder(s: State, ok: bool, hardCap: nat)
    requires ValidEvent(SendNext(ok)) && Ordered(s)
    ensures Ordered(Next(s, SendNext(ok), hardCap))
  {
    if !s.transforming && s.inFlight != [] {
      var first, rest, t := s.inFlight[0], s.inFlight[1..], Next(s, SendNext(ok), hardCap);
      OnItsWay(s);
      assert Join(s.inFlight) == first + Join(rest);
      Regroup(s.sent, first, Join(rest), Join(s.buffer));
      assert ok ==> t.sent == s.sent + first && t.inFlight == rest;
      assert forall f :: f in t.buffer || f in t.inFlight ==> f in s.buffer || f in s.inFlight;
    }
  }

  lemma NextKeepsOrder(s: State, e: Event, hardCap: nat)
    requires ValidEvent(e) && Ordered(s)
    ensures Ordered(Next(s, e, hardCap))
  {
    match e
    case Add(data) => AddKeepsOrder(s, data, hardCap);
    case Transformed(engines) => OutgoingKeepsStream(s.inFlight, engines);
    case SendNext(ok) => SendKeepsOrder(s, ok, hardCap);
    case FlushStart(final) => FlushKeepsOrder(s, final, hardCap);
    case Cancelled => CancelKeepsOrder(s, hardCap);
    case _ =>
  }

  lemma Regroup(a: bytes, b: bytes, c: bytes, d: bytes)
    ensures a + b + (c + d) == a + b + c + d
    ensures a + (b + c) + d == a + b + c + d
    ensures a + [] + b == a + b + []
  {
  }

  function Run(events: seq<Event>, hardCap: nat): State
    requires forall e :: e in events ==> ValidEvent(e)
  {
    if events == [] then INITIAL
    else Next(Run(events[..|events| - 1], hardCap), events[|events| - 1], hardCap)
  }

  /** Downlink order: over all interleavings, up to the first failed send or
      cancelled flush, no byte is lost, repeated or moved. */
  lemma {:induction false} DownlinkOrder(events: seq<Event>, hardCap: nat)
    requires forall e :: e in events ==> ValidEvent(e)
    ensures Ordered(Run(events, hardCap))
  {
    if events != [] {
      DownlinkOrder(events[..|events| - 1], hardCap);
      NextKeepsOrder(Run(events[..|events| - 1], hardCap), events[|events| - 1], hardCap);
    }
  }

  /** A quiet connection has delivered everything it accepted exactly if no send
      failed and no cancelled flush dropped a batch; before a close or a
      disconnect only a send can fail. */
  lemma QuietMeansDelivered(events: seq<Event>, hardCap: nat)
    requires forall e :: e in events ==> ValidEvent(e)
    requires var s := Run(events, hardCap); !s.flushing && s.pending == 0
    ensures var s := Run(events, hardCap); s.sent == s.accepted <==> !s.failed && !s.dropped
    ensures var s := Run(events, hardCap); !s.closed && !s.disconnected ==> !s.dropped
  {
    DownlinkOrder(events, hardCap);
  }

  /** Closing during a flush can drop a batch without any failed send. */
  lemma CloseDropsBatch()
    ensures var events := [Add([65]), FlushStart(false), FlushStart(true), Cancelled];
            && (forall e :: e in events ==> ValidEvent(e))
            && var s := Run(events, 1); !s.failed && !s.flushing && s.pending == 0 && s.sent != s.accepted
  {
    var e1, e2 := [Add([65])], [Add([65]), FlushStart(false)];
    var e3 := [Add([65]), FlushStart(false), FlushStart(true)];
    var e4 := [Add([65]), FlushStart(false), FlushStart(true), Cancelled];
    assert e1[..0] == [] && e2[..1] == e1 && e3[..2] == e2 && e4[..3] == e3;
    RunSnoc([], Add([65]), e1);
    RunSnoc(e1, FlushStart(false), e2);
    RunSnoc(e2, FlushStart(true), e3);
    RunSnoc(e3, Cancelled, e4);
    assert Run(e1, 1).accepted == [65] && Run(e1, 1).buffer == [[65]];
  }

  /** So can a disconnect whose handler is cancelled, and then the connection is
      not even closed. */
  lemma DisconnectDropsBatch()
    ensures var events := [Add([65]), Disconnected, FlushStart(false), Cancelled];
            && (forall e :: e in events ==> ValidEvent(e))
            && var s := Run(events, 1); !s.closed && !s.failed && !s.flushing && s.pending == 0 && s.sent != s.accepted
  {
    var e1, e2 := [Add([65])], [Add([65]), Disconnected];
    var e3 := [Add([65]), Disconnected, FlushStart(false)];
    var e4 := [Add([65]), Disconnected, FlushStart(false), Cancelled];
    assert e1[..0] == [] && e2[..1] == e1 && e3[..2] == e2 && e4[..3] == e3;
    RunSnoc([], Add([65]), e1);
    RunSnoc(e1, Disconnected, e2);
    RunSnoc(e2, FlushStart(false), e3);
    RunSnoc(e3, Cancelled, e4);
    assert Run(e1, 1).accepted == [65] && Run(e1, 1).buffer == [[65]];
  }

  lemma RunSnoc(before: seq<Event>, e: Event, events: seq<Event>)
    requires events == before + [e] && forall x :: x in events ==> ValidEvent(x)
    ensures (forall x :: x in before ==> ValidEvent(x)) && Run(events, 1) == Next(Run(before, 1), e, 1)
  {
    assert events[..|events| - 1] == before;
  }

  // ----- what gets through -----

  /** Data is taken exactly if there is some, the connection is open, and it is not
      full while a flush is under way; then it joins the end of the buffer. */
  lemma TakenIff(s: State, data: bytes, hardCap: nat)
    ensures var t := Next(s, Add(data), hardCap);
      if data != [] && !s.closed && (s.pending < hardCap || !s.flushing)
      then t.accepted == s.accepted + data && t.buffer == s.buffer + [data] && t.pending == s.pending + |data|
      else t == s
  {
  }

  /** The rest of a flush whose sends all succeed. */
  function SentAll(s: State): State {
    s.(sent := s.sent + Join(s.inFlight), inFlight := [])
  }

  lemma {:induction false} SendsInOrder(s: State, events: seq<Event>, hardCap: nat)
    requires !s.transforming && |events| == |s.inFlight| && forall i :: 0 <= i < |events| ==> events[i] == SendNext(true)
    ensures forall e :: e in events ==> ValidEvent(e)
    ensures Continue(s, events, hardCap) == SentAll(s)
    decreases |events|
  {
    if events == [] {
      assert s.sent + Join(s.inFlight) == s.sent;
    } else {
      var t := Next(s, events[0], hardCap);
      SendsInOrder(t, events[1..], hardCap);
      assert s.sent + s.inFlight[0] + Join(s.inFlight[1..]) == s.sent + (s.inFlight[0] + Join(s.inFlight[1..]));
    }
  }

  /** Events one after the other, from a state on. */
  function Continue(s: State, events: seq<Event>, hardCap: nat): State
    requires forall e :: e in events ==> ValidEvent(e)
    decreases |events|
  {
    if events == [] then s else Continue(Next(s, events[0], hardCap), events[1..], hardCap)
  }

  /** An undisturbed flush delivers: in any reachable state in which none is under
      way, starting one, coming back from the pipeline, sending every frame and
      ending puts exactly the buffered bytes on the wire, and empties the buffer;
      the frames are those of the pipeline, and it stays open unless it was final. */
  lemma FlushDelivers(events: seq<Event>, engines: seq<Pipeline.Engine>, sends: seq<Event>, final: bool, hardCap: nat)
    requires forall e :: e in events ==> ValidEvent(e)
    requires forall x :: x in engines ==> Pipeline.ValidEngine(x)
    requires var s := Run(events, hardCap);
      !s.flushing && s.buffer != [] && |sends| == |Outgoing(s.buffer, engines)|
    requires forall i :: 0 <= i < |sends| ==> sends[i] == SendNext(true)
    ensures (forall e :: e in sends ==> ValidEvent(e))
    ensures var s := Run(events, hardCap);
      var u := Next(Next(s, FlushStart(final), hardCap), Transformed(engines), hardCap);
      var v := Next(Continue(u, sends, hardCap), FlushEnd(final), hardCap);
      && (NonEmpty(Pipeline.Through(engines, Down, s.buffer)) != [] ==>
            u.inFlight == NonEmpty(Pipeline.Through(engines, Down, s.buffer)))
      && v.sent == s.sent + Join(s.buffer) && v.buffer == [] && v.pending == 0 && !v.flushing
      && v.accepted == s.accepted && v.closed == (s.closed || final) && v.failed == s.failed && v.dropped == s.dropped
  {
    var s := Run(events, hardCap);
    DownlinkOrder(events, hardCap);
    var u := Next(Next(s, FlushStart(final), hardCap), Transformed(engines), hardCap);
    OutgoingKeepsStream(s.buffer, engines);
    SendsInOrder(u, sends, hardCap);
  }
}
