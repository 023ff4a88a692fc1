/** The per-connection decoder of engines/chaos/chaos_protocol.py (ChaosSession):
    it buffers received bytes, finds record boundaries, and decodes each record
    with the current window or else the previous one. */
module ChaosSessions {
  import opened Prelude
  import opened Cuts
  import opened ChaosCodecs
  import ChaosSchedule

  /** What both ends derive from the secret: a seed for every bucket and padding
      filler for every seed. */
  datatype Secret = Secret(seeds: int -> Seed, fillers: Seed -> Filler)

  type Tick = t: nat | t >= 100 witness 100

  function RawOf(secret: Secret): ChaosSchedule.Raw {
    (b: int) => secret.seeds(b)[0] % ChaosSchedule.FRAMES
  }

  function WindowOf(secret: Secret, bucket: int): Window {
    Window(ChaosSchedule.FrameIndex(RawOf(secret), bucket), secret.seeds(bucket), secret.fillers(secret.seeds(bucket)))
  }

  // ----- finding a record -----

  /** Index of the first header at or after from, or None (bytes.find). */
  function Find(buf: bytes, from: nat): (i: Option<nat>)
    ensures i.Some? ==> from <= i.value && i.value + 3 <= |buf|
    decreases |buf| - from
  {
    if from + 3 > |buf| then None
    else if buf[from..from + 3] == HEADER then Some(from)
    else Find(buf, from + 1)
  }

  datatype Scanned = Wait(rest: bytes) | Record(record: bytes, rest: bytes)

  /** The loop of decode up to a complete record: resynchronise on headers, keep
      an incomplete record, drop bytes that hold no header. */
  function Scan(buf: bytes): (r: Scanned)
    ensures r.Record? ==> |r.rest| < |buf|
    decreases |buf|
  {
    if |buf| < 5 then Wait(buf)
    else if buf[..3] != HEADER then
      var i := Find(buf, 1);
      if i.None? then Wait([]) else Scan(buf[i.value..])
    else
      var n := FromBigEndian(buf[3..5]);
      if |buf| - 5 < n then Wait(buf) else Record(buf[..5 + n], buf[5 + n..])
  }

  // ----- decoding -----

  datatype Session = Session(buffer: bytes, packetsIn: nat, errors: nat)

  datatype Result = Incomplete | Payload(payload: bytes) | Failed

  /** A record at a moment: the current window first, then the previous one. */
  function DecodeAt(secret: Secret, tick: Tick, record: bytes, now: int): Option<bytes> {
    var current := DecodePacket(record, WindowOf(secret, now / tick));
    if current.Some? then current else DecodePacket(record, WindowOf(secret, (now - tick) / tick))
  }

  /** What the windows of a secret make of a record at a moment. */
  type Decoder = (bytes, int) -> Option<bytes>

  function DecoderOf(secret: Secret, tick: Tick): Decoder {
    (record: bytes, now: int) => DecodeAt(secret, tick, record, now)
  }

  function Decode(decoder: Decoder, s: Session, data: bytes, now: int): (Session, Result) {
    match Scan(s.buffer + data)
    case Wait(rest) => (s.(buffer := rest), Incomplete)
    case Record(record, rest) =>
      var p := decoder(record, now);
      if p.Some? then (Session(rest, s.packetsIn + 1, s.errors), Payload(p.value))
      else (Session(rest, s.packetsIn + 1, s.errors + 1), Failed)
  }

  class ChaosSession {
    const secret: Secret
    const tick: Tick
    var buffer: bytes
    var packetsIn: nat
    var errors: nat
    var bucket: int
    var window: Option<Window>

    constructor (secret: Secret, tick: Tick)
      ensures Valid() && Current() == Session([], 0, 0)
      ensures this.secret == secret && this.tick == tick
    {
      this.secret, this.tick := secret, tick;
      buffer, packetsIn, errors, bucket, window := [], 0, 0, -1, None;
    }

    /** The cached window is the one the schedule gives for its bucket. */
    ghost predicate Valid()
      reads this
    {
      window.Some? ==> window.value == WindowOf(secret, bucket)
    }

    function Current(): Session
      reads this
    {
      Session(buffer, packetsIn, errors)
    }

    method CurrentWindow(now: int) returns (w: Window)
      requires Valid()
      modifies this`bucket, this`window
      ensures Valid() && w == WindowOf(secret, now / tick)
    {
      if window.None? || bucket != now / tick {
        bucket := now / tick;
        window := Some(WindowOf(secret, bucket));
      }
      w := window.value;
    }

    method DecodeNext(data: bytes, now: int) returns (r: Result)
      requires Valid()
      modifies this
      ensures Valid() && Current() == Decode(DecoderOf(secret, tick), old(Current()), data, now).0
      ensures r == Decode(DecoderOf(secret, tick), old(Current()), data, now).1
    {
      buffer := buffer + data;
      var record := NextRecord();
      if record.None? {
        return Incomplete;
      }
      packetsIn := packetsIn + 1;
      var p := DecodeRecord(record.value, now);
      if p.None? {
        errors := errors + 1;
        return Failed;
      }
      return Payload(p.value);
    }

    /** The loop: it ends because every resynchronisation shortens the buffer. */
    method NextRecord() returns (record: Option<bytes>)
      modifies this`buffer
      ensures record.Some? ==> Scan(old(buffer)) == Record(record.value, buffer)
      ensures record.None? ==> Scan(old(buffer)) == Wait(buffer)
    {
      while true
        invariant Scan(buffer) == Scan(old(buffer))
        decreases |buffer|
      {
        if |buffer| < 5 {
          return None;
        }
        if buffer[..3] != HEADER {
          var i := Find(buffer, 1);
          if i.None? {
            buffer := [];
            return None;
          }
          buffer := buffer[i.value..];
          continue;
        }
        var n := FromBigEndian(buffer[3..5]);
        if |buffer| - 5 < n {
          return None;
        }
        record := Some(buffer[..5 + n]);
        buffer := buffer[5 + n..];
        return record;
      }
    }

    /** The current window is tried first, then the previous one. */
    method DecodeRecord(record: bytes, now: int) returns (p: Option<bytes>)
      requires Valid()
      modifies this`bucket, this`window
      ensures Valid() && p == DecoderOf(secret, tick)(record, now)
    {
      var w := CurrentWindow(now);
      p := DecodePacket(record, w);
      if p.None? {
        p := DecodePacket(record, WindowOf(secret, (now - tick) / tick));
      }
    }
  }

  // ----- draining: decode is called until it has nothing more -----

  datatype Drain = Drain(payloads: seq<bytes>, end: Session, ok: bool)

  function Drained(decoder: Decoder, s: Session, data: bytes, now: int): Drain
    decreases |s.buffer| + |data|
  {
    var (s', r) := Decode(decoder, s, data, now);
    match r
    case Incomplete => Drain([], s', true)
    case Failed => Drain([], s', false)
    case Payload(p) => Resumed([p], Drained(decoder, s', [], now))
  }

  function Resumed(before: seq<bytes>, d: Drain): Drain {
    d.(payloads := before + d.payloads)
  }

  /** One piece of the byte stream and the time at which it is decoded. */
  datatype Feed = Feed(data: bytes, now: int)

  function DrainAll(decoder: Decoder, feeds: seq<Feed>): Drain {
    if feeds == [] then Drain([], Session([], 0, 0), true)
    else
      var n := |feeds| - 1;
      var d := DrainAll(decoder, feeds[..n]);
      if !d.ok then d else Resumed(d.payloads, Drained(decoder, d.end, feeds[n].data, feeds[n].now))
  }

  function Received(feeds: seq<Feed>): bytes {
    if feeds == [] then [] else Received(feeds[..|feeds| - 1]) + feeds[|feeds| - 1].data
  }

  // ----- reassembly -----

  ghost predicate IsRecord(w: bytes) {
    |w| >= 5 && w[..3] == HEADER && FromBigEndian(w[3..5]) == |w| - 5
  }

  lemma ScanComplete(w: bytes, more: bytes)
    requires IsRecord(w)
    ensures Scan(w + more) == Record(w, more)
  {
    var buf := w + more;
    assert buf[..3] == w[..3] && buf[3..5] == w[3..5];
    assert buf[..|w|] == w && buf[|w|..] == more;
  }

  lemma ScanPartial(w: bytes, m: nat)
    requires IsRecord(w) && m < |w|
    ensures Scan(w[..m]) == Wait(w[..m])
  {
    if m >= 5 {
      assert w[..m][..3] == w[..3] && w[..m][3..5] == w[3..5];
    }
  }

  /** Records k, k + 1, ... up to end decode to their payloads at time now. */
  ghost predicate Decodable(decoder: Decoder, payloads: seq<bytes>, ws: seq<bytes>, now: int, k: nat, end: nat)
    requires |payloads| == |ws| && k <= end <= |ws|
    decreases end - k
  {
    k < end ==> decoder(ws[k], now) == Some(payloads[k]) && Decodable(decoder, payloads, ws, now, k + 1, end)
  }

  lemma {:induction false} AllDecodable(decoder: Decoder, payloads: seq<bytes>, ws: seq<bytes>, now: int, k: nat, end: nat)
    requires |payloads| == |ws| && k <= end <= |ws|
    requires forall i :: k <= i < end ==> decoder(ws[i], now) == Some(payloads[i])
    ensures Decodable(decoder, payloads, ws, now, k, end)
    decreases end - k
  {
    if k < end {
      AllDecodable(decoder, payloads, ws, now, k + 1, end);
    }
  }

  /** From k on there are only records. */
  ghost predicate Records(ws: seq<bytes>, k: nat)
    requires k <= |ws|
    decreases |ws| - k
  {
    k < |ws| ==> IsRecord(ws[k]) && Records(ws, k + 1)
  }

  lemma {:induction false} AllRecords(ws: seq<bytes>, k: nat)
    requires k <= |ws| && forall i :: 0 <= i < |ws| ==> IsRecord(ws[i])
    ensures Records(ws, k)
    decreases |ws| - k
  {
    if k < |ws| {
      AllRecords(ws, k + 1);
    }
  }

  /** The session r bytes into record k. */
  function At(ws: seq<bytes>, k: nat, r: nat): Session
    requires k <= |ws|
  {
    Session(Prefix(Tail(ws, k), r), k, 0)
  }

  function Outcome(payloads: seq<bytes>, ws: seq<bytes>, k: nat, k': nat, r: nat): Drain
    requires k <= k' <= |payloads| == |ws|
  {
    Drain(payloads[k..k'], At(ws, k', r), true)
  }

  lemma DrainPayload(decoder: Decoder, s: Session, data: bytes, now: int, w: bytes, more: bytes, p: bytes, s': Session)
    requires IsRecord(w) && s.buffer + data == w + more && decoder(w, now) == Some(p)
    requires s' == Session(more, s.packetsIn + 1, s.errors)
    ensures Drained(decoder, s, data, now) == Resumed([p], Drained(decoder, s', [], now))
  {
    ScanComplete(w, more);
  }

  lemma DrainWait(decoder: Decoder, s: Session, data: bytes, now: int, buf: bytes)
    requires s.buffer + data == buf && Scan(buf) == Wait(buf)
    ensures Drained(decoder, s, data, now) == Drain([], s.(buffer := buf), true)
  {
  }

  /** Draining the first m bytes from record k on hands out the complete records
      and keeps the rest. */
  lemma {:induction false} DrainPrefix(decoder: Decoder, payloads: seq<bytes>, ws: seq<bytes>, sizes: seq<nat>,
                                       s: Session, data: bytes, now: int, k: nat, m: nat)
    requires |payloads| == |ws| && Fits(ws, sizes) && k <= |ws| && Records(ws, k)
    requires Decodable(decoder, payloads, ws, now, k, Reach(sizes, k, m))
    requires m <= |Tail(ws, k)|
    requires s.buffer + data == Prefix(Tail(ws, k), m) && s.packetsIn == k && s.errors == 0
    ensures Drained(decoder, s, data, now) == Outcome(payloads, ws, k, Reach(sizes, k, m), Rest(sizes, k, m))
    decreases |ws| - k
  {
    if k == |ws| {
      DrainWait(decoder, s, data, now, []);
      assert payloads[k..k] == [];
    } else if m < sizes[k] {
      HeadOf(ws[k], Tail(ws, k + 1), m);
      ScanPartial(ws[k], m);
      DrainWait(decoder, s, data, now, ws[k][..m]);
      assert payloads[k..k] == [];
    } else {
      var next, left := k + 1, m - sizes[k];
      var more := Prefix(Tail(ws, next), left);
      assert Prefix(Tail(ws, k), m) == ws[k] + more;
      var s' := Session(more, next, 0);
      DrainPayload(decoder, s, data, now, ws[k], more, payloads[k], s');
      assert more + [] == more;
      DrainPrefix(decoder, payloads, ws, sizes, s', [], now, next, left);
      OneMore(payloads, k, next, Reach(sizes, next, left));
    }
  }

  /** The first record not complete after these pieces. */
  function Reached(sizes: seq<nat>, feeds: seq<Feed>): (k: nat)
    ensures k <= |sizes|
  {
    Reach(sizes, 0, |Received(feeds)|)
  }

  /** Every record decodes at the time of the piece that completes it. */
  ghost predicate InTime(decoder: Decoder, payloads: seq<bytes>, ws: seq<bytes>, sizes: seq<nat>, feeds: seq<Feed>)
    requires |payloads| == |ws| == |sizes|
  {
    forall j, i :: 0 <= j < |feeds| && Reached(sizes, feeds[..j]) <= i < Reached(sizes, feeds[..j + 1]) ==>
      decoder(ws[i], feeds[j].now) == Some(payloads[i])
  }

  lemma InTimeBefore(decoder: Decoder, payloads: seq<bytes>, ws: seq<bytes>, sizes: seq<nat>, feeds: seq<Feed>, n: nat)
    requires |payloads| == |ws| == |sizes| && InTime(decoder, payloads, ws, sizes, feeds) && |feeds| == n + 1
    ensures InTime(decoder, payloads, ws, sizes, feeds[..n])
    ensures forall i :: Reached(sizes, feeds[..n]) <= i < Reached(sizes, feeds) ==>
      decoder(ws[i], feeds[n].now) == Some(payloads[i])
  {
    hide Reached;
    assert feeds[..n + 1] == feeds;
    forall j, i | 0 <= j < n && Reached(sizes, feeds[..n][..j]) <= i < Reached(sizes, feeds[..n][..j + 1])
      ensures decoder(ws[i], feeds[..n][j].now) == Some(payloads[i])
    {
      assert feeds[..n][..j] == feeds[..j] && feeds[..n][..j + 1] == feeds[..j + 1];
    }
  }

  /** One more piece, drained: k and r say where the session is, k' and r' where
      it gets. */
  lemma FeedInStep(decoder: Decoder, payloads: seq<bytes>, ws: seq<bytes>, sizes: seq<nat>,
                   feed: Feed, m: nat, end: nat, k: nat, r: nat, k': nat, r': nat)
    requires |payloads| == |ws| && Fits(ws, sizes) && Records(ws, 0)
    requires m <= |Tail(ws, 0)| && feed.data <= Tail(ws, 0)[m..] && end == m + |feed.data|
    requires k == Reach(sizes, 0, m) && r == Rest(sizes, 0, m)
    requires k' == Reach(sizes, 0, end) && r' == Rest(sizes, 0, end) && k <= k'
    requires Decodable(decoder, payloads, ws, feed.now, k, k')
    ensures Drained(decoder, At(ws, k, r), feed.data, feed.now) == Outcome(payloads, ws, k, k', r')
  {
    var more := r + |feed.data|;
    RestBytes(ws, sizes, 0, m);
    MoreOf(Tail(ws, 0), Tail(ws, k), m, r, feed.data, more);
    RecordsFrom(ws, 0, k);
    CutsCompose(sizes, 0, m, end, more);
    DrainPrefix(decoder, payloads, ws, sizes, At(ws, k, r), feed.data, feed.now, k, more);
  }

  lemma {:induction false} RecordsFrom(ws: seq<bytes>, k: nat, k': nat)
    requires k <= k' <= |ws| && Records(ws, k)
    ensures Records(ws, k')
    decreases k' - k
  {
    if k < k' {
      RecordsFrom(ws, k + 1, k');
    }
  }

  lemma {:induction false} DrainInStep(decoder: Decoder, payloads: seq<bytes>, ws: seq<bytes>, sizes: seq<nat>,
                                       feeds: seq<Feed>, end: nat)
    requires |payloads| == |ws| && Fits(ws, sizes) && forall i :: 0 <= i < |ws| ==> IsRecord(ws[i])
    requires InTime(decoder, payloads, ws, sizes, feeds)
    requires Received(feeds) <= Tail(ws, 0) && end == |Received(feeds)|
    ensures DrainAll(decoder, feeds) == Outcome(payloads, ws, 0, Reach(sizes, 0, end), Rest(sizes, 0, end))
    decreases |feeds|
  {
    if feeds == [] {
      EmptyCut(payloads, ws, sizes);
    } else {
      var n := |feeds| - 1;
      var before, feed := feeds[..n], feeds[n];
      var m := |Received(before)|;
      PrefixStep(Received(before), feed.data, Tail(ws, 0));
      InTimeBefore(decoder, payloads, ws, sizes, feeds, n);
      DrainInStep(decoder, payloads, ws, sizes, before, m);
      var k, r, k', r' := Reach(sizes, 0, m), Rest(sizes, 0, m), Reach(sizes, 0, end), Rest(sizes, 0, end);
      ReachGrows(sizes, 0, m, end);
      AllRecords(ws, 0);
      AllDecodable(decoder, payloads, ws, feed.now, k, k');
      FeedInStep(decoder, payloads, ws, sizes, feed, m, end, k, r, k', r');
      OutcomesJoin(payloads, ws, k, k', r');
    }
  }

  lemma OutcomesJoin(payloads: seq<bytes>, ws: seq<bytes>, k: nat, k': nat, r': nat)
    requires k <= k' <= |payloads| == |ws|
    ensures Resumed(payloads[0..k], Outcome(payloads, ws, k, k', r')) == Outcome(payloads, ws, 0, k', r')
  {
    assert payloads[0..k] + payloads[k..k'] == payloads[0..k'];
  }

  lemma PrefixStep(a: bytes, b: bytes, all: bytes)
    requires a + b <= all
    ensures a <= all && b <= all[|a|..]
  {
    assert a + b == all[..|a| + |b|];
    assert a == (a + b)[..|a|] && b == (a + b)[|a|..];
  }

  lemma EmptyCut(payloads: seq<bytes>, ws: seq<bytes>, sizes: seq<nat>)
    requires |payloads| == |ws| && Fits(ws, sizes) && forall i :: 0 <= i < |ws| ==> |ws[i]| >= 5
    ensures Outcome(payloads, ws, 0, Reach(sizes, 0, 0), Rest(sizes, 0, 0)) == Drain([], Session([], 0, 0), true)
  {
    assert payloads[0..0] == [];
  }

  function SizesOf(ws: seq<bytes>): seq<nat> {
    seq(|ws|, i requires 0 <= i < |ws| => |ws[i]|)
  }

  /** Reassembly: a stream of records cut into arbitrary pieces is handed out as
      exactly the payloads, in order, nothing stays buffered and no error is
      counted, provided each record decodes when the piece that completes it
      arrives. */
  lemma Reassembly(decoder: Decoder, payloads: seq<bytes>, ws: seq<bytes>, feeds: seq<Feed>)
    requires |payloads| == |ws| && forall i :: 0 <= i < |ws| ==> IsRecord(ws[i])
    requires InTime(decoder, payloads, ws, SizesOf(ws), feeds)
    requires Received(feeds) == Join(ws)
    ensures DrainAll(decoder, feeds) == Drain(payloads, Session([], |ws|, 0), true)
  {
    var sizes, m := SizesOf(ws), |Join(ws)|;
    TailIsJoin(ws, 0);
    assert ws[0..] == ws;
    DrainInStep(decoder, payloads, ws, sizes, feeds, m);
    AllComplete(ws, sizes, 0);
    assert payloads[0..|payloads|] == payloads;
  }

  // ----- when a record decodes -----

  lemma PreviousBucket(tick: Tick, now: int)
    ensures (now - tick) / tick == now / tick - 1
  {
    var q, r := now / tick, now % tick;
    assert now == q * tick + r;
    assert now - tick == (q - 1) * tick + r by {
      assert (q - 1) * tick == q * tick - tick;
    }
    ModOf(q - 1, r, tick);
  }

  lemma EncodedIsRecord(p: bytes, w: Window)
    requires EncodePacket(p, w).Some?
    ensures IsRecord(EncodePacket(p, w).value)
  {
    WrapHeader(Padding(w) + EncodeFrame(w.frame, p));
  }

  /** In its own bucket a record decodes to what was encoded. */
  lemma DecodesInBucket(secret: Secret, tick: Tick, p: bytes, record: bytes, now: int, w: Window)
    requires w == WindowOf(secret, now / tick) && EncodePacket(p, w) == Some(record)
    ensures DecodeAt(secret, tick, record, now) == Some(p)
  {
    PacketRoundTrip(p, w);
  }

  /** The newer window v does not mistake a record of w for its own. */
  predicate Tolerated(p: bytes, w: Window, v: Window) {
    || !Accepts(v, Padding(w) + EncodeFrame(w.frame, p))
    || (v.frame == w.frame && PadLength(v.seed) == PadLength(w.seed) && PadOffset(v.seed) == PadOffset(w.seed))
  }

  lemma NewerWindow(p: bytes, w: Window, v: Window)
    requires EncodePacket(p, w).Some?
    requires Tolerated(p, w, v)
    ensures DecodePacket(EncodePacket(p, w).value, v) in {None, Some(p)}
  {
    var inner := Padding(w) + EncodeFrame(w.frame, p);
    if Accepts(v, inner) {
      SamePlanDecodes(p, w, v);
    } else {
      Unwraps(inner, v);
    }
  }

  /** One bucket later it still decodes when the newer window rejects it, by its
      control frame or its padding length, or shares shape and padding plan. */
  lemma DecodesInNextBucket(secret: Secret, tick: Tick, p: bytes, record: bytes, now: int, w: Window, v: Window)
    requires w == WindowOf(secret, now / tick - 1) && v == WindowOf(secret, now / tick)
    requires EncodePacket(p, w) == Some(record) && Tolerated(p, w, v)
    ensures DecodeAt(secret, tick, record, now) == Some(p)
  {
    PreviousBucket(tick, now);
    PacketRoundTrip(p, w);
    NewerWindow(p, w, v);
    DecodesAsEither(secret, tick, p, record, now, w, v);
  }

  lemma DecodesAsEither(secret: Secret, tick: Tick, p: bytes, record: bytes, now: int, w: Window, v: Window)
    requires w == WindowOf(secret, (now - tick) / tick) && v == WindowOf(secret, now / tick)
    requires DecodePacket(record, w) == Some(p) && DecodePacket(record, v) in {None, Some(p)}
    ensures DecodeAt(secret, tick, record, now) == Some(p)
  {
  }

  // ----- reassembly over the windows of the schedule -----

  /** Record i was encoded in bucket buckets[i]. */
  ghost predicate EncodedIn(secret: Secret, payloads: seq<bytes>, ws: seq<bytes>, buckets: seq<int>)
    requires |payloads| == |ws| == |buckets|
  {
    forall i :: 0 <= i < |ws| ==> EncodePacket(payloads[i], WindowOf(secret, buckets[i])) == Some(ws[i])
  }

  /** A moment at which a record of a bucket is still understood: in the bucket, or
      one bucket later if the newer window does not take it for its own. */
  ghost predicate Timely(secret: Secret, tick: Tick, p: bytes, bucket: int, now: int) {
    || now / tick == bucket
    || (now / tick == bucket + 1 && Tolerated(p, WindowOf(secret, bucket), WindowOf(secret, bucket + 1)))
  }

  lemma TimelyDecodes(secret: Secret, tick: Tick, p: bytes, record: bytes, bucket: int, w: Window, v: Window, now: int)
    requires w == WindowOf(secret, bucket) && v == WindowOf(secret, bucket + 1) && EncodePacket(p, w) == Some(record)
    requires now / tick == bucket || (now / tick == bucket + 1 && Tolerated(p, w, v))
    ensures DecodeAt(secret, tick, record, now) == Some(p)
  {
    hide Tolerated, WindowOf, DecodeAt, EncodePacket;
    if now / tick == bucket {
      DecodesInBucket(secret, tick, p, record, now, w);
    } else {
      DecodesInNextBucket(secret, tick, p, record, now, w, v);
    }
  }

  /** Every record is completed at a timely moment. */
  ghost predicate CompletedTimely(secret: Secret, tick: Tick, payloads: seq<bytes>, buckets: seq<int>, sizes: seq<nat>,
                                  feeds: seq<Feed>)
    requires |payloads| == |buckets| == |sizes|
  {
    forall j, i :: 0 <= j < |feeds| && Reached(sizes, feeds[..j]) <= i < Reached(sizes, feeds[..j + 1]) ==>
      Timely(secret, tick, payloads[i], buckets[i], feeds[j].now)
  }

  /** Records encoded each in the window of its own bucket come back whole, in
      order, over any stretch of the schedule and however the stream is cut, when
      each is completed in its bucket or, if the next window does not mistake it
      for its own, in the next one. */
  lemma WindowReassembly(
    secret: Secret, tick: Tick, payloads: seq<bytes>, ws: seq<bytes>, buckets: seq<int>, feeds: seq<Feed>)
    requires |payloads| == |ws| == |buckets| && EncodedIn(secret, payloads, ws, buckets)
    requires CompletedTimely(secret, tick, payloads, buckets, SizesOf(ws), feeds)
    requires Received(feeds) == Join(ws)
    ensures DrainAll(DecoderOf(secret, tick), feeds) == Drain(payloads, Session([], |ws|, 0), true)
  {
    hide Tolerated, WindowOf, DecodeAt, EncodePacket, Reached, IsRecord;
    var decoder, sizes := DecoderOf(secret, tick), SizesOf(ws);
    forall j, i | 0 <= j < |feeds| && Reached(sizes, feeds[..j]) <= i < Reached(sizes, feeds[..j + 1])
      ensures decoder(ws[i], feeds[j].now) == Some(payloads[i])
    {
      var b := buckets[i];
      TimelyDecodes(secret, tick, payloads[i], ws[i], b, WindowOf(secret, b), WindowOf(secret, b + 1), feeds[j].now);
    }
    forall i | 0 <= i < |ws|
      ensures IsRecord(ws[i])
    {
      EncodedIsRecord(payloads[i], WindowOf(secret, buckets[i]));
    }
    Reassembly(decoder, payloads, ws, feeds);
  }

  // ----- what is not a record -----

  predicate HeaderAt(buf: bytes, i: nat) {
    i + 3 <= |buf| && buf[i] == 0x17 && buf[i + 1] == 0x03 && buf[i + 2] == 0x03
  }

  lemma HeaderIs(buf: bytes, i: nat)
    requires i + 3 <= |buf|
    ensures buf[i..i + 3] == HEADER <==> HeaderAt(buf, i)
  {
    var h := buf[i..i + 3];
    assert h[0] == buf[i] && h[1] == buf[i + 1] && h[2] == buf[i + 2];
  }

  lemma {:induction false} FindSkips(buf: bytes, from: nat, at: nat)
    requires from <= at && HeaderAt(buf, at) && forall i :: from <= i < at ==> !HeaderAt(buf, i)
    ensures Find(buf, from) == Some(at)
    decreases at - from
  {
    HeaderIs(buf, from);
    if from < at {
      FindSkips(buf, from + 1, at);
    }
  }

  lemma ScanSkips(buf: bytes, at: nat)
    requires |buf| >= 5 && !HeaderAt(buf, 0) && Find(buf, 1) == Some(at)
    ensures Scan(buf) == Scan(buf[at..])
  {
    HeaderIs(buf, 0);
    assert buf[..3] == buf[0..3];
  }

  lemma HeaderMoves(a: bytes, b: bytes, i: nat)
    ensures HeaderAt(b, i) ==> HeaderAt(a + b, |a| + i)
    ensures i + 3 <= |a| ==> (HeaderAt(a + b, i) <==> HeaderAt(a, i))
  {
  }

  /** Bytes in front of a record in which no header starts are skipped, and the
      record behind them is found whole. */
  lemma ResyncFinds(noise: bytes, w: bytes, more: bytes)
    requires IsRecord(w) && forall i :: 0 <= i < |noise| ==> !HeaderAt(noise + w, i)
    ensures Scan(noise + w + more) == Record(w, more)
  {
    hide IsRecord, Find, HeaderAt, Scan;
    var buf, n := noise + w + more, |noise|;
    NoHeaderBefore(noise, w, more, buf);
    ScanComplete(w, more);
    if n > 0 {
      FindSkips(buf, 1, n);
      ScanSkips(buf, n);
    }
  }

  lemma NoHeaderBefore(noise: bytes, w: bytes, more: bytes, buf: bytes)
    requires IsRecord(w) && buf == noise + w + more && forall i :: 0 <= i < |noise| ==> !HeaderAt(noise + w, i)
    ensures |buf| >= |noise| + 5 && buf[|noise|..] == w + more && HeaderAt(buf, |noise|)
    ensures forall i :: 0 <= i < |noise| ==> !HeaderAt(buf, i)
    ensures noise == [] ==> buf == w + more
  {
    hide IsRecord, HeaderAt;
    StartsWithHeader(w);
    HeaderMoves(noise, w, 0);
    HeaderMoves(noise + w, more, |noise|);
    forall i | 0 <= i < |noise|
      ensures !HeaderAt(buf, i)
    {
      HeaderMoves(noise + w, more, i);
    }
  }

  lemma StartsWithHeader(w: bytes)
    requires IsRecord(w)
    ensures |w| >= 5 && HeaderAt(w, 0)
  {
    HeaderIs(w, 0);
    assert w[0..3] == w[..3];
  }

  /** A complete record that neither window decodes is taken off the buffer, counted
      as received and as an error, and handed out to nobody. */
  lemma BadRecordCounted(secret: Secret, tick: Tick, s: Session, data: bytes, w: bytes, more: bytes, now: int)
    requires IsRecord(w) && s.buffer + data == w + more
    requires DecodePacket(w, WindowOf(secret, now / tick)) == None
    requires DecodePacket(w, WindowOf(secret, now / tick - 1)) == None
    ensures Decode(DecoderOf(secret, tick), s, data, now) == (Session(more, s.packetsIn + 1, s.errors + 1), Failed)
  {
    hide DecodePacket, WindowOf, IsRecord, Scan;
    ScanComplete(w, more);
    PreviousBucket(tick, now);
  }
}
