/** The four frame shapes of engines/chaos/chaos_protocol.py and the record layer
    that wraps a frame behind seed-derived padding with a hidden control frame. */
module ChaosCodecs {
  import opened Prelude
  import ChaosSchedule

  const MAX_PACKET := 262_144
  const MAX_INNER := 65535

  type Index = ChaosSchedule.Index

  // ----- frame shapes; decoding returns None where the source raises -----

  function EncodeHttp2(p: bytes): bytes {
    BigEndian(|p|, 3) + [0, 0] + [0, 0, 0, 1] + p
  }

  function DecodeHttp2(f: bytes): Option<bytes> {
    if |f| < 9 || f[3] != 0 then None else Cut(f, 9, FromBigEndian(f[0..3]))
  }

  function EncodeWs(p: bytes): bytes {
    if |p| < 126 then [0x82, |p|] + p
    else if |p| < 65536 then [0x82, 126] + BigEndian(|p|, 2) + p
    else [0x82, 127] + BigEndian(|p|, 8) + p
  }

  function DecodeWs(f: bytes): Option<bytes> {
    if |f| < 2 || f[0] != 0x82 then None
    else if f[1] == 126 then
      if |f| < 4 then None else Cut(f, 4, FromBigEndian(f[2..4]))
    else if f[1] == 127 then
      if |f| < 10 then None else Cut(f, 10, FromBigEndian(f[2..10]))
    else Cut(f, 2, f[1])
  }

  function EncodeGrpc(p: bytes): bytes {
    [0] + BigEndian(|p|, 4) + p
  }

  function DecodeGrpc(f: bytes): Option<bytes> {
    if |f| < 5 || f[0] != 0 then None else Cut(f, 5, FromBigEndian(f[1..5]))
  }

  function EncodeQuic(p: bytes): bytes {
    [0x40] + BigEndian(Min(|p|, 65535), 2) + p
  }

  function DecodeQuic(f: bytes): Option<bytes> {
    if |f| < 3 || f[0] != 0x40 then None else Cut(f, 3, FromBigEndian(f[1..3]))
  }

  /** The n payload bytes behind a header of size h. */
  function Cut(f: bytes, h: nat, n: nat): Option<bytes>
    requires h <= |f|
  {
    if |f| - h < n then None else Some(f[h..h + n])
  }

  function EncodeFrame(i: Index, p: bytes): bytes {
    if i == 0 then EncodeHttp2(p) else if i == 1 then EncodeWs(p) else if i == 2 then EncodeGrpc(p) else EncodeQuic(p)
  }

  function DecodeFrame(i: Index, f: bytes): Option<bytes> {
    if i == 0 then DecodeHttp2(f) else if i == 1 then DecodeWs(f) else if i == 2 then DecodeGrpc(f) else DecodeQuic(f)
  }

  lemma Http2RoundTrip(p: bytes, x: bytes)
    requires |p| <= MAX_PACKET
    ensures DecodeHttp2(EncodeHttp2(p) + x) == Some(p)
  {
    var f := EncodeHttp2(p) + x;
    Pow256Values();
    BigEndianRoundTrip(|p|, 3);
    assert f[0..3] == BigEndian(|p|, 3);
    assert f[9..9 + |p|] == p;
  }

  lemma WsRoundTrip(p: bytes, x: bytes)
    requires |p| <= MAX_PACKET
    ensures DecodeWs(EncodeWs(p) + x) == Some(p)
  {
    var f := EncodeWs(p) + x;
    Pow256Values();
    if |p| < 126 {
      assert f[2..2 + |p|] == p;
    } else if |p| < 65536 {
      BigEndianRoundTrip(|p|, 2);
      assert f[2..4] == BigEndian(|p|, 2) && f[4..4 + |p|] == p;
    } else {
      BigEndianRoundTrip(|p|, 8);
      assert f[2..10] == BigEndian(|p|, 8) && f[10..10 + |p|] == p;
    }
  }

  lemma GrpcRoundTrip(p: bytes, x: bytes)
    requires |p| <= MAX_PACKET
    ensures DecodeGrpc(EncodeGrpc(p) + x) == Some(p)
  {
    var f := EncodeGrpc(p) + x;
    Pow256Values();
    BigEndianRoundTrip(|p|, 4);
    assert f[1..5] == BigEndian(|p|, 4) && f[5..5 + |p|] == p;
  }

  lemma QuicRoundTrip(p: bytes, x: bytes)
    ensures DecodeQuic(EncodeQuic(p) + x) == Some(p[..Min(|p|, 65535)])
  {
    var f, n := EncodeQuic(p) + x, Min(|p|, 65535);
    Pow256Values();
    BigEndianRoundTrip(n, 2);
    assert f[1..3] == BigEndian(n, 2) && f[3..3 + n] == p[..n];
  }

  /** Every shape is self-delimiting: decoding undoes encoding whatever follows,
      for every payload within the packet cap, except that the QUIC-like shape
      loses what exceeds its 16-bit length field. */
  lemma FrameRoundTripIff(i: Index, p: bytes, x: bytes)
    requires |p| <= 262144
    ensures DecodeFrame(i, EncodeFrame(i, p) + x) == Some(p) <==> !(i == 3 && |p| > 65535)
  {
    Http2RoundTrip(p, x);
    WsRoundTrip(p, x);
    GrpcRoundTrip(p, x);
    QuicRoundTrip(p, x);
    assert |p| <= 65535 ==> p[..Min(|p|, 65535)] == p;
  }

  /** Nine bytes of HTTP/2 data framing on stream 1: a three-byte length, type and
      flags, the stream. */
  lemma Http2Format(p: bytes)
    requires |p| <= 262144
    ensures EncodeFrame(0, p) == [|p| / 65536, |p| / 256 % 256, |p| % 256, 0, 0, 0, 0, 0, 1] + p
  {
    hide BigEndian;
    ThreeBytes(|p|);
  }

  /** A final binary WebSocket message with a length of one, two or eight bytes. */
  lemma WsFormat(p: bytes)
    requires |p| <= 262144
    ensures |p| <= 125 ==> EncodeFrame(1, p) == [0x82, |p|] + p
    ensures 126 <= |p| <= 65535 ==> EncodeFrame(1, p) == [0x82, 126, |p| / 256, |p| % 256] + p
    ensures |p| > 65535 ==>
      EncodeFrame(1, p) == [0x82, 127, 0, 0, 0, 0, 0, |p| / 65536, |p| / 256 % 256, |p| % 256] + p
  {
    hide BigEndian;
    if |p| > 65535 {
      BigEndianBytes(|p|);
    } else if |p| > 125 {
      TwoBytes(|p|);
    }
  }

  /** An uncompressed gRPC message with a four-byte length. */
  lemma GrpcFormat(p: bytes)
    requires |p| <= 262144
    ensures EncodeFrame(2, p) == [0, 0, |p| / 65536, |p| / 256 % 256, |p| % 256] + p
  {
    hide BigEndian;
    FourBytes(|p|);
  }

  /** A QUIC-like short header with a two-byte length that saturates. */
  lemma QuicFormat(p: bytes)
    ensures |p| <= 65535 ==> EncodeFrame(3, p) == [0x40, |p| / 256, |p| % 256] + p
    ensures |p| > 65535 ==> EncodeFrame(3, p) == [0x40, 255, 255] + p
  {
    hide BigEndian;
    TwoBytes(Min(|p|, 65535));
  }

  lemma FrameGrows(i: Index, p: bytes)
    ensures |EncodeFrame(i, p)| > |p|
  {
  }

  // ----- records -----

  type Seed = s: bytes | |s| == 32 witness seq(32, _ => 0)

  /** Padding bytes hashed from a seed; at most 16 of them are ever used. */
  type Filler = s: bytes | |s| >= 16 witness seq(16, _ => 0)

  /** What a window means for records: its shape, its seed and the seed's filler. */
  datatype Window = Window(frame: Index, seed: Seed, filler: Filler)

  function PadLength(seed: Seed): (n: nat)
    ensures 8 <= n <= 16
  {
    8 + seed[3] % 9
  }

  /** The control frame fits behind its offset. */
  function PadOffset(seed: Seed): (o: nat)
    ensures o + 4 <= PadLength(seed)
  {
    seed[4] % (PadLength(seed) - 3)
  }

  function ControlCheck(i: Index): byte {
    ((0xE1 as bv8) ^ 0x17 ^ (i as bv8) ^ 0xC7) as int
  }

  function Control(i: Index): (c: bytes)
    ensures |c| == 4 && c[2] == i
  {
    [0xE1, 0x17, i, ControlCheck(i)]
  }

  function Padding(w: Window): (p: bytes)
    ensures |p| == PadLength(w.seed)
  {
    var o := PadOffset(w.seed);
    w.filler[..o] + Control(w.frame) + w.filler[o + 4..PadLength(w.seed)]
  }

  const HEADER: bytes := [0x17, 0x03, 0x03]

  function Wrap(inner: bytes): bytes {
    HEADER + BigEndian(|inner|, 2) + inner
  }

  /** encode_packet; None where the source raises. */
  function EncodePacket(p: bytes, w: Window): Option<bytes> {
    if |p| > MAX_PACKET then None
    else
      var inner := Padding(w) + EncodeFrame(w.frame, p);
      if |inner| > MAX_INNER then None else Some(Wrap(inner))
  }

  /** The checks on the unwrapped record: enough bytes, then the control frame. */
  predicate Accepts(w: Window, inner: bytes) {
    && PadLength(w.seed) + 1 <= |inner|
    && inner[PadOffset(w.seed)..PadOffset(w.seed) + 4] == Control(w.frame)
  }

  function DecodeInner(inner: bytes, w: Window): Option<bytes> {
    if !Accepts(w, inner) then None else DecodeFrame(w.frame, inner[PadLength(w.seed)..])
  }

  /** decode_packet; None where the source raises. */
  function DecodePacket(record: bytes, w: Window): Option<bytes> {
    if |record| < 5 || record[..3] != HEADER then None
    else
      var n := FromBigEndian(record[3..5]);
      if |record| - 5 < n then None else DecodeInner(record[5..5 + n], w)
  }

  // ----- the round trip -----

  lemma WrapHeader(inner: bytes)
    requires |inner| <= MAX_INNER
    ensures var r := Wrap(inner);
            && |r| == 5 + |inner| && r[..3] == HEADER && r[5..] == inner
            && FromBigEndian(r[3..5]) == |inner|
  {
    var r := Wrap(inner);
    Pow256Values();
    BigEndianRoundTrip(|inner|, 2);
    assert r[3..5] == BigEndian(|inner|, 2);
  }

  /** Unwrapping undoes wrapping. */
  lemma Unwraps(inner: bytes, w: Window)
    requires |inner| <= MAX_INNER
    ensures DecodePacket(Wrap(inner), w) == DecodeInner(inner, w)
  {
    WrapHeader(inner);
    assert Wrap(inner)[5..5 + |inner|] == inner;
  }

  lemma OwnControl(p: bytes, w: Window)
    ensures var inner := Padding(w) + EncodeFrame(w.frame, p);
            Accepts(w, inner) && inner[PadLength(w.seed)..] == EncodeFrame(w.frame, p)
  {
    var inner := Padding(w) + EncodeFrame(w.frame, p);
    FrameGrows(w.frame, p);
    var o := PadOffset(w.seed);
    assert inner[o..o + 4] == Padding(w)[o..o + 4] == Control(w.frame);
  }

  /** Whatever a window encodes, the same window decodes. */
  lemma PacketRoundTrip(p: bytes, w: Window)
    requires EncodePacket(p, w).Some?
    ensures DecodePacket(EncodePacket(p, w).value, w) == Some(p)
  {
    var framed := EncodeFrame(w.frame, p);
    var inner := Padding(w) + framed;
    Unwraps(inner, w);
    OwnControl(p, w);
    FrameGrows(w.frame, p);
    FrameRoundTripIff(w.frame, p, []);
    assert framed + [] == framed;
  }

  /** A window with the same shape and padding plan decodes it too. */
  lemma SamePlanDecodes(p: bytes, w: Window, v: Window)
    requires EncodePacket(p, w).Some?
    requires v.frame == w.frame && PadLength(v.seed) == PadLength(w.seed) && PadOffset(v.seed) == PadOffset(w.seed)
    ensures DecodePacket(EncodePacket(p, w).value, v) == Some(p)
  {
    PacketRoundTrip(p, w);
  }

  /** The padding of a window: eight to sixteen filler bytes as its seed says, four
      of them replaced by the control bytes. */
  lemma PaddingFormat(w: Window)
    ensures var padding, length := Padding(w), 8 + w.seed[3] % 9;
      var o := w.seed[4] % (length - 3);
      && |padding| == length && o + 4 <= length
      && padding[o] == 0xE1 && padding[o + 1] == 0x17 && padding[o + 2] == w.frame
      && padding[o + 3] == ((0xE1 as bv8) ^ (0x17 as bv8) ^ (w.frame as bv8) ^ (0xC7 as bv8)) as int
      && forall i :: 0 <= i < o || o + 4 <= i < length ==> padding[i] == w.filler[i]
  {
  }

  /** A record: a TLS application data header with the length, the padding, the
      frame. */
  lemma RecordFormat(p: bytes, w: Window)
    requires EncodePacket(p, w).Some?
    ensures var inner := Padding(w) + EncodeFrame(w.frame, p);
      && |inner| < 65536 && EncodePacket(p, w).value == [0x17, 0x03, 0x03, |inner| / 256, |inner| % 256] + inner
  {
    hide EncodeFrame, BigEndian, Padding;
    TwoBytes(|Padding(w) + EncodeFrame(w.frame, p)|);
  }

  /** A record whose hidden control bytes are not those of the window is refused. */
  lemma ForeignRefused(record: bytes, w: Window)
    requires DecodePacket(record, w).Some?
    ensures |record| >= 5 && record[..3] == [0x17, 0x03, 0x03]
    ensures var length := 8 + w.seed[3] % 9; var at := 5 + w.seed[4] % (length - 3);
      && 5 + length < |record| && record[at] == 0xE1 && record[at + 1] == 0x17 && record[at + 2] == w.frame
  {
    var n, o := FromBigEndian(record[3..5]), PadOffset(w.seed);
    var inner := record[5..5 + n];
    assert inner[o..o + 4] == Control(w.frame);
    assert inner[o] == Control(w.frame)[0] && inner[o + 1] == Control(w.frame)[1] && inner[o + 2] == Control(w.frame)[2];
  }

  /** When encoding succeeds: exactly when padding and frame fit the record. */
  lemma EncodeIff(p: bytes, w: Window)
    ensures EncodePacket(p, w).Some? <==> 8 + w.seed[3] % 9 + |EncodeFrame(w.frame, p)| <= 65535
  {
    FrameGrows(w.frame, p);
  }
}
