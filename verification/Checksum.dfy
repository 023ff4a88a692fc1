/** The internet checksum of engines/sni_enhanced/state_confusion.py and the
    packets built around it (RFC 1071, section 3.1 of RFC 791). */
module Checksum {
  import opened Prelude

  // ----- the arithmetic -----

  /** Sum of the big-endian 16-bit words; an odd last byte is padded with zero. */
  function WordSum(data: bytes): nat {
    if data == [] then 0
    else if |data| == 1 then Word(data[0], 0)
    else Word(data[0], data[1]) + WordSum(data[2..])
  }

  /** End-around carry: one round folds the high bits back onto the low 16. */
  function Fold(total: nat): (r: nat)
    ensures r < 65536
    ensures r % 65535 == total % 65535
    ensures total > 0 ==> r > 0
    decreases total
  {
    if total / 65536 == 0 then total
    else
      var next := total % 65536 + total / 65536;
      FoldRound(total);
      Fold(next)
  }

  lemma FoldRound(total: nat)
    ensures (total % 65536 + total / 65536) % 65535 == total % 65535
    ensures total >= 65536 ==> 0 < total % 65536 + total / 65536 < total
  {
    var hi, lo := total / 65536, total % 65536;
    assert total == (lo + hi) + 65535 * hi;
    ModShift(lo + hi, hi);
  }

  lemma ModShift(a: nat, k: nat)
    ensures (a + 65535 * k) % 65535 == a % 65535
  {
  }

  function ChecksumOf(data: bytes): (c: nat) {
    65535 - Fold(WordSum(data))
  }

  method Checksum(data: bytes) returns (c: nat)
    ensures c == ChecksumOf(data)
    ensures c < 65536
  {
    hide WordSum;
    var padded := data;
    if |data| % 2 == 1 {
      padded := data + [0];
    }
    PaddingKeepsSum(data);
    var total := SumWords(padded);
    while total / 65536 != 0
      invariant total >= 0
      invariant Fold(total) == Fold(WordSum(data))
      decreases total
    {
      FoldRound(total);
      total := total % 65536 + total / 65536;
    }
    c := 65535 - total;
  }

  /** The loop over the words of padded data. */
  method SumWords(padded: bytes) returns (total: nat)
    requires |padded| % 2 == 0
    ensures total == WordSum(padded)
  {
    hide Fold;
    total := 0;
    var i := 0;
    assert padded[0..] == padded;
    while i < |padded|
      invariant 0 <= i <= |padded| && i % 2 == 0
      invariant total + WordSum(padded[i..]) == WordSum(padded)
    {
      assert padded[i..][2..] == padded[i + 2..];
      total := total + Word(padded[i], padded[i + 1]);
      i := i + 2;
    }
  }

  lemma {:induction false} PaddingKeepsSum(data: bytes)
    ensures |data| % 2 == 1 ==> WordSum(data + [0]) == WordSum(data)
  {
    if |data| > 1 {
      PaddingKeepsSum(data[2..]);
      assert (data + [0])[2..] == data[2..] + [0];
    } else if |data| == 1 {
      assert (data + [0])[2..] == [];
    }
  }

  // ----- self-verification -----

  lemma {:induction false} WordSumSplit(a: bytes, b: bytes)
    requires |a| % 2 == 0
    ensures WordSum(a + b) == WordSum(a) + WordSum(b)
  {
    if a == [] {
      assert a + b == b;
    } else {
      assert (a + b)[2..] == a[2..] + b;
      WordSumSplit(a[2..], b);
    }
  }

  /** Writing v into a zero field at an even offset raises the sum by v. */
  lemma FieldAdds(before: bytes, after: bytes, v: nat)
    requires |before| % 2 == 0 && v < 65536
    ensures WordSum(before + BigEndian(v, 2) + after) == WordSum(before + [0, 0] + after) + v
  {
    var f := BigEndian(v, 2);
    Pow256Values();
    BigEndianRoundTrip(v, 2);
    TwoByteValue(f);
    assert f[2..] == [] && [0, 0][2..] == [];
    assert before + f + after == before + (f + after);
    assert before + [0, 0] + after == before + ([0, 0] + after);
    WordSumSplit(before, f + after);
    WordSumSplit(f, after);
    WordSumSplit(before, [0, 0] + after);
    WordSumSplit([0, 0], after);
  }

  /** The one's complement sum of anything plus its own complement is all ones,
      so a receiver that sums the finished packet gets a zero checksum. */
  lemma InsertedChecksumVerifies(before: bytes, after: bytes)
    requires |before| % 2 == 0
    ensures var c := ChecksumOf(before + [0, 0] + after);
            ChecksumOf(before + BigEndian(c, 2) + after) == 0
  {
    var t := WordSum(before + [0, 0] + after);
    FieldAdds(before, after, 65535 - Fold(t));
    ComplementFoldsToOnes(t);
  }

  lemma ComplementFoldsToOnes(t: nat)
    ensures Fold(t + (65535 - Fold(t))) == 65535
  {
    var c := 65535 - Fold(t);
    assert (t - Fold(t)) % 65535 == 0;
    var q := (t - Fold(t)) / 65535;
    assert t + c == 65535 * (q + 1);
    MultipleFoldsToOnes(q + 1);
  }

  lemma MultipleFoldsToOnes(k: nat)
    requires k > 0
    ensures Fold(65535 * k) == 65535
  {
    ModShift(0, k);
    assert Fold(65535 * k) % 65535 == 0;
  }

  // ----- packets -----

  function Clamp(ttl: int): byte {
    Max(1, Min(255, ttl))
  }

  function HeaderHead(totalLength: nat, ttl: int, protocol: nat): (h: bytes)
    ensures |h| == 10
  {
    [0x45, 0x00] + BigEndian(totalLength, 2) + [0, 0, 0, 0] + [Clamp(ttl), protocol % 256]
  }

  /** build_ipv4_packet: None stands for the exceptions the source raises
      (an address that is not four bytes, a total length over 16 bits). */
  function Ipv4Packet(segment: bytes, src: bytes, dst: bytes, ttl: int, protocol: nat): Option<bytes> {
    if |src| != 4 || |dst| != 4 || 20 + |segment| >= 65536 then None
    else
      var head := HeaderHead(20 + |segment|, ttl, protocol);
      var c := ChecksumOf(head + [0, 0] + (src + dst));
      Some(head + BigEndian(c, 2) + (src + dst) + segment)
  }

  /** Every built packet passes the receiver's test of section 3.1 of RFC 791,
      carries the segment behind a 20-byte header and states its own length. */
  lemma Ipv4HeaderVerifies(segment: bytes, src: bytes, dst: bytes, ttl: int, protocol: nat)
    ensures var p := Ipv4Packet(segment, src, dst, ttl, protocol);
            && (p.Some? <==> |src| == 4 && |dst| == 4 && |segment| <= 65515)
            && (p.Some? ==>
                  && |p.value| == 20 + |segment|
                  && ChecksumOf(p.value[..20]) == 0
                  && p.value[0] == 0x45 && p.value[1] == 0 && p.value[4..8] == [0, 0, 0, 0]
                  && p.value[2..4] == [|p.value| / 256, |p.value| % 256]
                  && p.value[8] == (if ttl <= 1 then 1 else if ttl >= 255 then 255 else ttl)
                  && p.value[9] == protocol % 256
                  && p.value[12..16] == src && p.value[16..20] == dst
                  && p.value[20..] == segment)
  {
    var p := Ipv4Packet(segment, src, dst, ttl, protocol);
    if p.Some? {
      var head := HeaderHead(20 + |segment|, ttl, protocol);
      var c := ChecksumOf(head + [0, 0] + (src + dst));
      InsertedChecksumVerifies(head, src + dst);
      assert p.value[..20] == head + BigEndian(c, 2) + (src + dst);
      TwoBytes(20 + |segment|);
      assert p.value[2..4] == BigEndian(20 + |segment|, 2);
    }
  }

  /** The arguments of build_tcp_segment. */
  datatype TcpFields = TcpFields(
    srcPort: int, dstPort: int, seqno: int, ackno: int, flags: int, window: int, urgent: int, md5sig: bool)

  /** n cut to its k low-order bytes, as a field. */
  function Field(n: int, k: nat): (f: bytes)
    ensures |f| == k
  {
    BigEndian(n % Pow256(k), k)
  }

  function Options(f: TcpFields): (o: bytes)
    ensures |o| == (if f.md5sig then 18 else 0) + (if f.urgent != 0 then 2 else 0)
  {
    (if f.md5sig then [19, 18] + seq(16, _ => 0) else []) + (if f.urgent != 0 then [0, 0] else [])
  }

  /** The header up to the checksum field. */
  function TcpHead(f: TcpFields): (h: bytes)
    ensures |h| == 16
  {
    var offset := (20 + |Options(f)| + 3) / 4;
    Field(f.srcPort, 2) + Field(f.dstPort, 2) + Field(f.seqno, 4) + Field(f.ackno, 4)
      + [(offset * 16) % 256, f.flags % 256] + Field(f.window, 2)
  }

  /** What follows the checksum field. */
  function TcpRest(f: TcpFields, payload: bytes): (r: bytes)
    ensures |r| == 2 + |Options(f)| + |payload|
  {
    Field(f.urgent, 2) + Options(f) + payload
  }

  /** build_tcp_segment: its checksum is taken over the segment alone. */
  function TcpSegment(f: TcpFields, payload: bytes): (s: bytes)
    ensures |s| == 20 + |Options(f)| + |payload|
  {
    var c := ChecksumOf(TcpHead(f) + [0, 0] + TcpRest(f, payload));
    TcpHead(f) + BigEndian(c, 2) + TcpRest(f, payload)
  }

  /** The pseudo header of a packet (section 3.1 of RFC 9293): its addresses, a
      zero byte, its protocol and the length of its segment. */
  function PseudoHeader(packet: bytes): (h: bytes)
    requires 20 <= |packet| < 65556
    ensures |h| == 12
  {
    packet[12..20] + [0, packet[9]] + BigEndian(|packet| - 20, 2)
  }

  /** What a TCP receiver tests. */
  predicate Accepted(packet: bytes)
    requires 20 <= |packet| < 65556
  {
    ChecksumOf(PseudoHeader(packet) + packet[20..]) == 0
  }

  lemma FoldIsOnesIff(t: nat)
    ensures Fold(t) == 65535 <==> t > 0 && t % 65535 == 0
  {
  }

  /** A segment that sums to zero by itself also does behind a pseudo header
      exactly when the pseudo header's words sum to a multiple of 65535. */
  lemma PseudoHeaderIff(pseudo: bytes, segment: bytes)
    requires |pseudo| % 2 == 0 && ChecksumOf(segment) == 0
    ensures ChecksumOf(pseudo + segment) == 0 <==> WordSum(pseudo) % 65535 == 0
  {
    var p, s := WordSum(pseudo), WordSum(segment);
    WordSumSplit(pseudo, segment);
    FoldIsOnesIff(s);
    FoldIsOnesIff(p + s);
    ModShift(p, s / 65535);
    assert s == 65535 * (s / 65535);
  }

  lemma PairSum(b: bytes)
    requires |b| == 2
    ensures WordSum(b) == Word(b[0], b[1])
  {
    assert b[2..] == [];
  }

  /** The words of a pseudo header: both addresses, the protocol, the length. */
  lemma PseudoHeaderSum(src: bytes, dst: bytes, protocol: byte, length: nat)
    requires |src| == |dst| == 4 && length < 65536
    ensures WordSum(src + dst + [0, protocol] + BigEndian(length, 2))
         == WordSum(src) + WordSum(dst) + protocol + length
  {
    var p, l := [0, protocol], BigEndian(length, 2);
    assert src + dst + p + l == src + (dst + (p + l));
    WordSumSplit(src, dst + (p + l));
    WordSumSplit(dst, p + l);
    WordSumSplit(p, l);
    PairSum(p);
    PairSum(l);
    Pow256Values();
    BigEndianRoundTrip(length, 2);
    TwoByteValue(l);
  }

  /** A segment as built sums to zero without any pseudo header. */
  lemma TcpSegmentSumsToZero(f: TcpFields, payload: bytes)
    ensures ChecksumOf(TcpSegment(f, payload)) == 0
  {
    InsertedChecksumVerifies(TcpHead(f), TcpRest(f, payload));
  }

  /** A TCP receiver accepts a built segment in a built packet exactly when the
      words of both addresses, the protocol and the segment's length sum to a
      multiple of 65535. */
  lemma TcpAcceptedIff(f: TcpFields, payload: bytes, src: bytes, dst: bytes, ttl: int, protocol: nat)
    requires Ipv4Packet(TcpSegment(f, payload), src, dst, ttl, protocol).Some?
    ensures var segment := TcpSegment(f, payload);
            var packet := Ipv4Packet(segment, src, dst, ttl, protocol).value;
            && |src| == |dst| == 4 && |packet| < 65556
            && (Accepted(packet)
                <==> (Word(src[0], src[1]) + Word(src[2], src[3]) + Word(dst[0], dst[1]) + Word(dst[2], dst[3])
                      + protocol % 256 + |segment|) % 65535 == 0)
  {
    hide WordSum, ChecksumOf, TcpSegment;
    var segment := TcpSegment(f, payload);
    var packet := Ipv4Packet(segment, src, dst, ttl, protocol).value;
    Ipv4HeaderVerifies(segment, src, dst, ttl, protocol);
    assert packet[12..20] == packet[12..16] + packet[16..20];
    assert packet[9] == protocol % 256;
    TcpSegmentSumsToZero(f, payload);
    PseudoHeaderIff(PseudoHeader(packet), segment);
    PseudoHeaderSum(src, dst, protocol % 256, |segment|);
    FourSum(src);
    FourSum(dst);
  }

  lemma FourSum(b: bytes)
    requires |b| == 4
    ensures WordSum(b) == Word(b[0], b[1]) + Word(b[2], b[3])
  {
    PairSum(b[2..]);
  }

  /** No segment without options and payload is accepted from 10.0.0.1 to
      10.0.0.2: the pseudo header's words sum to 5149. */
  lemma BareSegmentRefused(f: TcpFields, ttl: int)
    requires !f.md5sig && f.urgent == 0
    ensures var p := Ipv4Packet(TcpSegment(f, []), [10, 0, 0, 1], [10, 0, 0, 2], ttl, 6);
            p.Some? && |p.value| == 40 && !Accepted(p.value)
  {
    hide ChecksumOf, TcpSegment, Accepted, WordSum, Ipv4Packet;
    var src, dst: bytes := [10, 0, 0, 1], [10, 0, 0, 2];
    AddressSum(1);
    AddressSum(2);
    Ipv4HeaderVerifies(TcpSegment(f, []), src, dst, ttl, 6);
    TcpAcceptedIff(f, [], src, dst, ttl, 6);
  }

  lemma AddressSum(last: byte)
    ensures WordSum([10, 0, 0, last]) == 2560 + last
  {
    assert [10, 0, 0, last][2..] == [0, last];
    PairSum([0, last]);
  }

  /** The layout of a built segment (section 3.1 of RFC 9293): ports, numbers,
      data offset in words, flags, window, the urgent pointer, options, payload. */
  lemma TcpLayout(f: TcpFields, payload: bytes)
    ensures var s, o := TcpSegment(f, payload), |Options(f)|;
      && s[0..2] == [f.srcPort % 65536 / 256, f.srcPort % 65536 % 256]
      && s[2..4] == [f.dstPort % 65536 / 256, f.dstPort % 65536 % 256]
      && FromBigEndian(s[4..8]) == f.seqno % 4294967296 && FromBigEndian(s[8..12]) == f.ackno % 4294967296
      && s[12] == (20 + o + 3) / 4 * 16 && s[13] == f.flags % 256
      && s[14..16] == [f.window % 65536 / 256, f.window % 65536 % 256]
      && s[18..20] == [f.urgent % 65536 / 256, f.urgent % 65536 % 256]
      && s[20..20 + o] == (if f.md5sig then [19, 18] + seq(16, _ => 0) else []) + (if f.urgent != 0 then [0, 0] else [])
      && s[20 + o..] == payload
  {
    hide BigEndian, ChecksumOf;
    var s, o := TcpSegment(f, payload), |Options(f)|;
    Pow256Values();
    FieldOfTwo(f.srcPort);
    FieldOfTwo(f.dstPort);
    FieldOfTwo(f.window);
    FieldOfTwo(f.urgent);
    BigEndianRoundTrip(f.seqno % Pow256(4), 4);
    BigEndianRoundTrip(f.ackno % Pow256(4), 4);
    assert s[0..2] == Field(f.srcPort, 2) && s[2..4] == Field(f.dstPort, 2);
    assert s[4..8] == Field(f.seqno, 4) && s[8..12] == Field(f.ackno, 4);
    assert s[14..16] == Field(f.window, 2) && s[18..20] == Field(f.urgent, 2);
    assert s[18..] == TcpRest(f, payload);
    assert s[20..20 + o] == TcpRest(f, payload)[2..2 + o] && s[20 + o..] == TcpRest(f, payload)[2 + o..];
  }

  lemma FieldOfTwo(n: int)
    ensures Field(n, 2) == [n % 65536 / 256, n % 65536 % 256]
  {
    hide BigEndian;
    Pow256Values();
    TwoBytes(n % 65536);
  }
}
