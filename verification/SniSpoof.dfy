/** ClientHello fragment plans and the builders of synthetic ClientHellos
    (engines/engines/sni_spoofing.py, engines/sni_enhanced/handshake_builder.py),
    against the scanner. */
module SniSpoof {
  import opened Prelude
  import opened ClientHello

  // ----- fragment plans; None where the source raises -----

  const MULTI_CHUNK := 24

  function Halves(data: bytes): seq<bytes> {
    [data[..|data| / 2], data[|data| / 2..]]
  }

  function Pieces(data: bytes, size: nat): seq<bytes>
    requires size > 0
  {
    if |data| <= size then [data] else [data[..size]] + Pieces(data[size..], size)
  }

  /** Where the handshake message is cut: at the host name, else in the middle. */
  function RecordCut(data: bytes): (cut: nat)
    requires |data| >= 12
    ensures 0 < cut < |data| - 5
  {
    var span := SniSpan(data);
    var anchor := (if span.None? then 0 else span.value.start) - 5;
    if 0 < anchor < |data| - 5 then anchor else (|data| - 5) / 2
  }

  function TlsRecord(data: bytes, content: bytes): bytes
    requires |data| >= 3
  {
    data[..3] + BigEndian(|content|, 2) + content
  }

  function RecordFragments(data: bytes): Option<seq<bytes>> {
    if |data| < 12 then Some([data])
    else
      var content, cut := data[5..], RecordCut(data);
      if cut >= 65536 || |content| - cut >= 65536 then None
      else Some([TlsRecord(data, content[..cut]), TlsRecord(data, content[cut..])])
  }

  function SplitAtName(data: bytes): seq<bytes> {
    var span := SniSpan(data);
    if span.None? || span.value.end <= span.value.start + 1 then Halves(data)
    else
      var cut := span.value.start + (span.value.end - span.value.start) / 2;
      [data[..Min(cut, |data|)], data[Min(cut, |data|)..]]
  }

  /** The strategy name is already stripped and in lower case; any unknown name
      means the default.  The jitter is the random size variation of "multi". */
  function PlanFragments(data: bytes, strategy: string, jitter: int): Option<seq<bytes>> {
    if data == [] then Some([data])
    else if strategy == "multi" then Some(Pieces(data, Max(8, MULTI_CHUNK + jitter)))
    else if strategy == "half" then Some(Halves(data))
    else if strategy == "tls_record_frag" then RecordFragments(data)
    else Some(SplitAtName(data))
  }

  lemma {:induction false} PiecesJoin(data: bytes, size: nat)
    requires size > 0
    ensures Join(Pieces(data, size)) == data
    decreases |data|
  {
    if |data| <= size {
      assert Pieces(data, size)[1..] == [];
    } else {
      PiecesJoin(data[size..], size);
      assert Pieces(data, size)[1..] == Pieces(data[size..], size);
    }
  }

  /** No piece is empty or too large, and only the last may be short. */
  lemma {:induction false} PieceSizes(data: bytes, size: nat, i: nat)
    requires size > 0 && data != [] && i < |Pieces(data, size)|
    ensures 0 < |Pieces(data, size)[i]| <= size
    ensures i < |Pieces(data, size)| - 1 ==> |Pieces(data, size)[i]| == size
    decreases |data|
  {
    if |data| > size && i > 0 {
      PieceSizes(data[size..], size, i - 1);
    }
  }

  lemma PairJoins(a: bytes, b: bytes)
    ensures Join([a, b]) == a + b
  {
    assert [a, b][1..] == [b];
    assert [b][1..] == [];
    assert Join([b]) == b;
  }

  lemma CutJoins(data: bytes, cut: nat)
    requires cut <= |data|
    ensures Join([data[..cut], data[cut..]]) == data
  {
    PairJoins(data[..cut], data[cut..]);
  }

  /** The two records: a right length field each, no empty fragment, and contents
      that concatenate to the original content (section 5.1 of RFC 8446). */
  lemma RecordSplit(data: bytes)
    requires |data| >= 12 && RecordFragments(data).Some?
    ensures var parts := RecordFragments(data).value;
            && |parts| == 2 && |parts[0]| > 5 && |parts[1]| > 5
            && parts[0][..3] == parts[1][..3] == data[..3]
            && FromBigEndian(parts[0][3..5]) == |parts[0]| - 5 && FromBigEndian(parts[1][3..5]) == |parts[1]| - 5
            && parts[0][5..] + parts[1][5..] == data[5..]
  {
    var content, cut := data[5..], RecordCut(data);
    RecordFields(data, content[..cut]);
    RecordFields(data, content[cut..]);
    assert content[..cut] + content[cut..] == content;
  }

  lemma RecordFields(data: bytes, c: bytes)
    requires |data| >= 3 && |c| < 65536
    ensures var r := TlsRecord(data, c);
            |r| == 5 + |c| && r[..3] == data[..3] && FromBigEndian(r[3..5]) == |c| && r[5..] == c
  {
    Pow256Values();
    BigEndianRoundTrip(|c|, 2);
    assert TlsRecord(data, c)[3..5] == BigEndian(|c|, 2);
  }

  /** Fragmenting one complete record never overflows a length field, and nothing
      longer than two full records behind a header can be fragmented. */
  lemma RecordFragmentsFit(data: bytes)
    requires |data| >= 12
    ensures |data| == 5 + U16(data, 3) ==> RecordFragments(data).Some?
    ensures RecordFragments(data).Some? ==> |data| <= 5 + 2 * 65535
  {
    hide SniSpan;
    assert |data[5..]| == |data| - 5;
  }

  lemma SplitAtNameJoins(data: bytes)
    ensures Join(SplitAtName(data)) == data
  {
    hide SniSpan;
    var span := SniSpan(data);
    if span.None? || span.value.end <= span.value.start + 1 {
      CutJoins(data, |data| / 2);
    } else {
      CutJoins(data, Min(span.value.start + (span.value.end - span.value.start) / 2, |data|));
    }
  }

  lemma RecordFragmentsGrow(data: bytes)
    requires |data| >= 12 && RecordFragments(data).Some?
    ensures |Join(RecordFragments(data).value)| == |data| + 5
  {
    RecordSplit(data);
    var parts := RecordFragments(data).value;
    var a, b := parts[0], parts[1];
    assert parts == [a, b];
    PairJoins(a, b);
    assert |a[5..] + b[5..]| == |data[5..]|;
  }

  lemma OnePartJoins(data: bytes)
    ensures Join([data]) == data
  {
    assert [data][1..] == [];
  }

  /** The parts concatenate to the input for every strategy but record
      fragmentation, which adds a record header from twelve bytes on. */
  lemma PlanKeepsStreamIff(data: bytes, strategy: string, jitter: int, plan: Option<seq<bytes>>)
    requires plan == PlanFragments(data, strategy, jitter)
    ensures plan.Some? && Join(plan.value) == data <==> !(strategy == "tls_record_frag" && |data| >= 12)
  {
    if data == [] || (strategy == "tls_record_frag" && |data| < 12) {
      OnePartJoins(data);
    } else if strategy == "multi" {
      PiecesJoin(data, Max(8, MULTI_CHUNK + jitter));
    } else if strategy == "half" {
      CutJoins(data, |data| / 2);
    } else if strategy == "tls_record_frag" {
      if plan.Some? {
        RecordFragmentsGrow(data);
      }
    } else {
      SplitAtNameJoins(data);
    }
  }

  /** The multi plan cuts pieces of about 24 bytes, at least 8. */
  lemma MultiPieces(data: bytes, jitter: int, i: nat)
    requires data != [] && -6 <= jitter <= 6
    ensures var plan := PlanFragments(data, "multi", jitter);
      plan.Some? && (i < |plan.value| - 1 ==> 18 <= |plan.value[i]| == 24 + jitter <= 30)
  {
    if i < |Pieces(data, 24 + jitter)| - 1 {
      PieceSizes(data, 24 + jitter, i);
    }
  }

  /** The half plan cuts in the middle. */
  lemma HalfPieces(data: bytes, jitter: int)
    requires data != []
    ensures PlanFragments(data, "half", jitter) == Some([data[..|data| / 2], data[|data| / 2..]])
  {
  }

  /** The default plan cuts strictly inside a host name of two bytes or more; the
      record plan cuts right before it. */
  lemma CutsHitTheName(data: bytes, span: Span, jitter: int)
    requires SniSpan(data) == Some(span) && span.start + 1 < span.end <= |data|
    ensures PlanFragments(data, "sni_split", jitter).Some?
    ensures span.start < |PlanFragments(data, "sni_split", jitter).value[0]| < span.end
    ensures RecordCut(data) == span.start - 5
  {
    NameStart(data, span);
  }

  lemma NameStart(data: bytes, span: Span)
    requires SniSpan(data) == Some(span)
    ensures span.start >= 58 && |data| >= 58
  {
  }

  // ----- building -----

  /** The characters that survive encoding to ASCII with errors ignored. */
  function AsciiOnly(s: string): (r: string)
    ensures |r| <= |s|
  {
    if s == "" then "" else AsciiOnly(s[..|s| - 1]) + if s[|s| - 1] as int < 128 then [s[|s| - 1]] else []
  }

  function AsciiBytes(s: string): (b: bytes)
    ensures |b| <= |s|
  {
    if s == "" then [] else AsciiBytes(s[..|s| - 1]) + if s[|s| - 1] as int < 128 then [s[|s| - 1] as int] else []
  }

  /** Decoding undoes encoding on what survives it. */
  lemma {:induction false} TextOfAscii(s: string)
    ensures Text(AsciiBytes(s)) == AsciiOnly(s)
  {
    if s != "" {
      TextOfAscii(s[..|s| - 1]);
      var b, front := AsciiBytes(s), AsciiBytes(s[..|s| - 1]);
      if s[|s| - 1] as int < 128 {
        assert b[..|b| - 1] == front;
      } else {
        assert b == front;
      }
    }
  }

  lemma {:induction false} TextOfPrefix(b: bytes, n: nat)
    requires n <= |b|
    ensures Text(b[..n]) == Text(b)[..n]
  {
    if n < |b| {
      TextOfPrefix(b[..|b| - 1], n);
      assert b[..|b| - 1][..n] == b[..n];
      assert Text(b)[..n] == Text(b[..|b| - 1])[..n];
    } else {
      assert b[..n] == b;
    }
  }

  /** The host a builder puts into its hello. */
  function HostBytes(sni: string, fallback: string): bytes {
    var b := AsciiBytes(sni);
    var cut := b[..Min(253, |b|)];
    if cut == [] then AsciiBytes(fallback) else cut
  }

  /** The ASCII part of the name, cut to 253 characters, or the default. */
  function HostText(sni: string, fallback: string): string {
    var t := AsciiOnly(sni);
    var cut := t[..Min(253, |t|)];
    if cut == "" then AsciiOnly(fallback) else cut
  }

  lemma HostReadsBack(sni: string, fallback: string)
    ensures Text(HostBytes(sni, fallback)) == HostText(sni, fallback)
  {
    TextOfAscii(sni);
    TextOfAscii(fallback);
    var b := AsciiBytes(sni);
    TextOfPrefix(b, Min(253, |b|));
  }

  datatype Extension = Extension(kind: nat, payload: bytes)

  predicate Encodable(es: seq<Extension>) {
    forall i :: 0 <= i < |es| ==> es[i].kind < 65536 && |es[i].payload| < 65536
  }

  function EncodeExtension(e: Extension): bytes {
    BigEndian(e.kind, 2) + BigEndian(|e.payload|, 2) + e.payload
  }

  function EncodeExtensions(es: seq<Extension>): bytes {
    if es == [] then [] else EncodeExtension(es[0]) + EncodeExtensions(es[1..])
  }

  function ServerName(host: bytes): Extension {
    Extension(0, BigEndian(|host| + 3, 2) + [0] + BigEndian(|host|, 2) + host)
  }

  /** Random, session id, cipher suites and extensions of a hello. */
  datatype Hello = Hello(rand: bytes, sid: bytes, ciphers: bytes, exts: bytes)

  /** The lengths fit their fields; otherwise the source's to_bytes raises. */
  predicate Buildable(h: Hello) {
    && |h.rand| == 32 && |h.sid| < 256
    && |h.ciphers| + |h.sid| + |h.exts| + 45 < 65536
  }

  function HelloBody(h: Hello): bytes
    requires Buildable(h)
  {
    [3, 3] + h.rand + [|h.sid|] + h.sid + BigEndian(|h.ciphers|, 2) + h.ciphers + [1, 0] + BigEndian(|h.exts|, 2) + h.exts
  }

  function EncodeHello(h: Hello): bytes
    requires Buildable(h)
  {
    var body := HelloBody(h);
    var handshake := [1] + BigEndian(|body|, 3) + body;
    [0x16, 3, 1] + BigEndian(|handshake|, 2) + handshake
  }

  const FAKE_CIPHERS: bytes :=
    [0x13, 0x01, 0x13, 0x02, 0x13, 0x03, 0xc0, 0x2b, 0xc0, 0x2f, 0xc0, 0x2c,
     0xc0, 0x30, 0x00, 0x9f, 0x00, 0x9e, 0xcc, 0xa9, 0xcc, 0xa8]

  /** sni_spoofing.build_fake_client_hello; random and session id are inputs. */
  function FakeHello(sni: string, rand: bytes, sid: bytes): Hello {
    Hello(rand, sid, FAKE_CIPHERS, EncodeExtensions([
      ServerName(HostBytes(sni, "www.microsoft.com")),
      Extension(10, [0x00, 0x1d, 0x00, 0x17, 0x00, 0x18]),
      Extension(11, [1, 2, 1, 0])]))
  }

  /** handshake_builder.build_fake_client_hello: every fingerprint sends the
      server name first; the other extensions and the padding follow. */
  function BrowserHello(sni: string, rand: bytes, sid: bytes, ciphers: bytes, others: seq<Extension>): Hello {
    Hello(rand, sid, ciphers, EncodeExtensions([ServerName(HostBytes(sni, "www.varzesh3.com"))] + others))
  }

  // ----- parsing undoes building -----

  lemma WordAt(d: bytes, pos: nat, n: nat)
    requires pos + 2 <= |d| && d[pos..pos + 2] == BigEndian(n, 2) && n < 65536
    ensures U16(d, pos) == n
  {
    Pow256Values();
    BigEndianRoundTrip(n, 2);
    TwoByteValue(d[pos..pos + 2]);
    assert d[pos..pos + 2][0] == d[pos] && d[pos..pos + 2][1] == d[pos + 1];
  }

  /** A length field at i of a part p of the data. */
  lemma WordInPart(d: bytes, from: nat, to: nat, p: bytes, i: nat, pos: nat, n: nat)
    requires from <= to <= |d| && d[from..to] == p && i + 2 <= |p| && pos == from + i
    requires p[i..i + 2] == BigEndian(n, 2) && n < 65536
    ensures U16(d, pos) == n
  {
    assert d[pos..pos + 2] == p[i..i + 2];
    WordAt(d, pos, n);
  }

  lemma RestOfPart(d: bytes, from: nat, p: bytes, i: nat, pos: nat)
    requires from <= |d| && d[from..] == p && i <= |p| && pos == from + i
    ensures pos <= |d| && d[pos..] == p[i..]
  {
  }

  /** The part of a hello behind version and random. */
  function HelloRest(h: Hello): bytes
    requires Buildable(h)
  {
    [|h.sid|] + h.sid + BigEndian(|h.ciphers|, 2) + h.ciphers + [1, 0] + BigEndian(|h.exts|, 2) + h.exts
  }

  lemma BodySplits(h: Hello)
    requires Buildable(h)
    ensures HelloBody(h) == ([3, 3] + h.rand) + HelloRest(h) && |HelloRest(h)| == 7 + |h.sid| + |h.ciphers| + |h.exts|
  {
  }

  lemma HelloHead(h: Hello, d: bytes)
    requires Buildable(h) && d == EncodeHello(h)
    ensures |d| == 50 + |h.sid| + |h.ciphers| + |h.exts| && d[0] == 0x16 && d[5] == 1 && U16(d, 3) == |d| - 5
    ensures d[43..] == HelloRest(h)
  {
    var body := HelloBody(h);
    BodySplits(h);
    FramedBody(body, [3, 3] + h.rand, HelloRest(h), d);
  }

  lemma FramedBody(body: bytes, head: bytes, rest: bytes, d: bytes)
    requires body == head + rest && |head| == 34 && |body| + 4 < 65536
    requires d == [0x16, 3, 1] + BigEndian(|[1] + BigEndian(|body|, 3) + body|, 2) + ([1] + BigEndian(|body|, 3) + body)
    ensures |d| == 9 + |body| && d[0] == 0x16 && d[5] == 1 && U16(d, 3) == |d| - 5 && d[43..] == rest
  {
    var handshake := [1] + BigEndian(|body|, 3) + body;
    assert d[3..5] == BigEndian(|handshake|, 2);
    WordAt(d, 3, |handshake|);
    assert d[9..] == body;
    assert d[43..] == body[34..];
  }

  /** The layout of a built hello (section 4.1.2 of RFC 8446): record header,
      handshake header, version, random, session id, ciphers, null compression and
      extensions, with lengths that match. */
  lemma HelloLayout(h: Hello)
    requires Buildable(h)
    ensures var d, s, c := EncodeHello(h), |h.sid|, |h.ciphers|;
      && |d| == 50 + s + c + |h.exts|
      && d[..11] == [0x16, 3, 1, (|d| - 5) / 256, (|d| - 5) % 256, 1, 0, (|d| - 9) / 256, (|d| - 9) % 256, 3, 3]
      && d[11..43] == h.rand && d[43] == s && d[44..44 + s] == h.sid
      && d[44 + s..46 + s] == [c / 256, c % 256] && d[46 + s..46 + s + c] == h.ciphers
      && d[46 + s + c..48 + s + c] == [1, 0]
      && d[48 + s + c..50 + s + c] == [|h.exts| / 256, |h.exts| % 256] && d[50 + s + c..] == h.exts
  {
    hide EncodeHello, HelloRest, BigEndian, U16, Buildable;
    var d, s, c := EncodeHello(h), |h.sid|, |h.ciphers|;
    HelloHead(h, d);
    HelloStart(h, d);
    RestLayout(h);
    var t, m := HelloRest(h), 3 + s + c;
    Within(d, t, 0, 1);
    Within(d, t, 1, 1 + s);
    Within(d, t, 1 + s, 3 + s);
    Within(d, t, 3 + s, m);
    Within(d, t, m, m + 2);
    Within(d, t, m + 2, m + 4);
    RestOfPart(d, 43, t, m + 4, 47 + m);
    assert d[43] == d[43..44][0];
  }

  lemma RestLayout(h: Hello)
    requires Buildable(h)
    ensures var t, s, c := HelloRest(h), |h.sid|, |h.ciphers|; var m := 3 + s + c;
      && |t| == m + 4 + |h.exts| && t[0..1] == [s] && t[1..1 + s] == h.sid && c < 65536 && |h.exts| < 65536
      && t[1 + s..3 + s] == [c / 256, c % 256] && t[3 + s..m] == h.ciphers && t[m..m + 2] == [1, 0]
      && t[m + 2..m + 4] == [|h.exts| / 256, |h.exts| % 256] && t[m + 4..] == h.exts
  {
    hide BigEndian;
    var t, s, c := HelloRest(h), |h.sid|, |h.ciphers|;
    TwoBytes(c);
    TwoBytes(|h.exts|);
    var words, count := BigEndian(c, 2), BigEndian(|h.exts|, 2);
    var a := [s] + h.sid;
    var b := a + words + h.ciphers;
    assert t == b + ([1, 0] + count + h.exts) && b == a + (words + h.ciphers);
    assert t[..|a|] == a && t[|a|..|b|] == words + h.ciphers && t[|b|..] == [1, 0] + count + h.exts;
    assert t[1 + s..3 + s] == t[|a|..|b|][..2] && t[3 + s..3 + s + c] == t[|a|..|b|][2..];
    assert t[0..1] == a[0..1] && t[1..1 + s] == a[1..];
  }

  lemma Within(d: bytes, t: bytes, i: nat, j: nat)
    requires |d| >= 43 && d[43..] == t && i <= j <= |t|
    ensures d[43 + i..43 + j] == t[i..j]
  {
  }

  lemma HelloStart(h: Hello, d: bytes)
    requires Buildable(h) && d == EncodeHello(h)
    ensures |d| == 50 + |h.sid| + |h.ciphers| + |h.exts|
    ensures d[..11] == [0x16, 3, 1, (|d| - 5) / 256, (|d| - 5) % 256, 1, 0, (|d| - 9) / 256, (|d| - 9) % 256, 3, 3]
    ensures d[11..43] == h.rand
  {
    hide BigEndian;
    var body := HelloBody(h);
    BodySplits(h);
    ThreeBytes(|body|);
    var handshake := [1] + BigEndian(|body|, 3) + body;
    TwoBytes(|handshake|);
    assert d[9..] == body;
    assert body[..2] == [3, 3] && body[2..34] == h.rand;
    assert d[9..11] == body[..2] && d[11..43] == body[2..34];
    assert d[..9] == [0x16, 3, 1] + BigEndian(|handshake|, 2) + [1] + BigEndian(|body|, 3);
    assert d[..11] == d[..9] + d[9..11];
  }

  /** The layout of the server name extension (section 3 of RFC 6066). */
  lemma ServerNameLayout(host: bytes)
    requires |host| <= 253
    ensures EncodeExtension(ServerName(host))
      == [0, 0, (|host| + 5) / 256, (|host| + 5) % 256, (|host| + 3) / 256, (|host| + 3) % 256, 0, 0, |host|] + host
  {
    hide BigEndian;
    TwoBytes(0);
    TwoBytes(|host| + 5);
    TwoBytes(|host| + 3);
    TwoBytes(|host|);
  }

  lemma HelloTail(t: bytes, h: Hello)
    requires Buildable(h)
    requires t == HelloRest(h)
    ensures var c := 1 + |h.sid|; var m := c + 2 + |h.ciphers|;
            && |t| == m + 4 + |h.exts| && t[0] == |h.sid| && t[c..c + 2] == BigEndian(|h.ciphers|, 2)
            && t[m] == 1 && t[m + 2..m + 4] == BigEndian(|h.exts|, 2) && t[m + 4..] == h.exts
  {
  }

  lemma HelloRange(h: Hello, d: bytes, from: nat)
    requires Buildable(h) && d == EncodeHello(h) && from == 50 + |h.sid| + |h.ciphers|
    ensures ExtensionRange(d) == Some(Range(from, |d|)) && d[from..] == h.exts
  {
    HelloHead(h, d);
    var t, c, m := d[43..], 1 + |h.sid|, 3 + |h.sid| + |h.ciphers|;
    HelloTail(t, h);
    HelloFields(d, t, |h.sid|, |h.ciphers|, |h.exts|, c, m, from);
    RestOfPart(d, 43, t, m + 4, from);
  }

  lemma HelloFields(d: bytes, t: bytes, s: nat, ciphers: nat, exts: nat, c: nat, m: nat, from: nat)
    requires |d| > 43 && d[0] == 0x16 && d[5] == 1 && U16(d, 3) == |d| - 5 && t == d[43..]
    requires c == 1 + s && m == c + 2 + ciphers && |t| == m + 4 + exts && ciphers < 65536 && exts < 65536
    requires t[0] == s && t[c..c + 2] == BigEndian(ciphers, 2) && t[m] == 1 && t[m + 2..m + 4] == BigEndian(exts, 2)
    requires from == 47 + m
    ensures ExtensionRange(d) == Some(Range(from, |d|))
  {
    hide U16, BigEndian, FromBigEndian, ExtensionRange, SniSpan;
    assert d[43] == t[0] && d[43 + m] == t[m];
    WordInPart(d, 43, |d|, t, c, 43 + c, ciphers);
    WordInPart(d, 43, |d|, t, m + 2, 45 + m, exts);
    RangeOf(d, 43 + c, 43 + m, 45 + m, from);
  }

  lemma ExtensionAt(d: bytes, pos: nat, e: Extension, rest: bytes, next: nat)
    requires pos <= |d| && d[pos..] == EncodeExtension(e) + rest
    requires e.kind < 65536 && |e.payload| < 65536 && next == pos + 4 + |e.payload|
    ensures next <= |d| && U16(d, pos) == e.kind && U16(d, pos + 2) == |e.payload|
    ensures d[pos + 4..next] == e.payload && d[next..] == rest
  {
    hide U16;
    var t, n := d[pos..], |e.payload|;
    assert t[0..2] == BigEndian(e.kind, 2) && t[2..4] == BigEndian(n, 2) && t[4..4 + n] == e.payload && t[4 + n..] == rest;
    WordInPart(d, pos, |d|, t, 0, pos, e.kind);
    WordInPart(d, pos, |d|, t, 2, pos + 2, n);
    assert d[pos + 4..next] == t[4..4 + n];
    RestOfPart(d, pos, t, 4 + n, next);
  }

  /** A server_name extension whose first entry is the host. */
  ghost predicate Names(e: Extension, host: bytes) {
    && e.kind == 0 && |e.payload| == 5 + |host| && 0 < |host| <= 253
    && e.payload[2] == 0 && e.payload[3..5] == BigEndian(|host|, 2) && e.payload[5..] == host
  }

  lemma ServerNameNames(host: bytes)
    requires 0 < |host| <= 253
    ensures Names(ServerName(host), host)
  {
    var p := ServerName(host).payload;
    assert p[3..5] == BigEndian(|host|, 2);
    assert p[5..] == host;
  }

  lemma ServerNameAt(d: bytes, pos: nat, e: Extension, host: bytes, rest: bytes)
    requires pos <= |d| && d[pos..] == EncodeExtension(e) + rest && Names(e, host)
    ensures NamesHost(d, pos) && SpanAt(d, pos) == Span(pos + 9, pos + 9 + |host|, Text(host))
    ensures pos + 9 + |host| <= |d| && d[pos + 9..pos + 9 + |host|] == host
  {
    hide EncodeExtension, NamesHost, SpanAt, U16, Text, BigEndian, FromBigEndian, FirstName, SniSpan;
    var p, n, start := e.payload, |host|, pos + 9;
    var next := pos + 4 + |p|;
    ExtensionAt(d, pos, e, rest, next);
    NameInPayload(d, pos, p, host, n, start, next);
  }

  lemma NameInPayload(d: bytes, pos: nat, p: bytes, host: bytes, n: nat, start: nat, next: nat)
    requires n == |host| && 0 < n <= 253 && start == pos + 9 && next == start + n <= |d| && d[pos + 4..next] == p
    requires |p| == 5 + n && p[2] == 0 && p[3..5] == BigEndian(n, 2) && p[5..] == host
    requires U16(d, pos) == 0 && U16(d, pos + 2) == 5 + n
    ensures NamesHost(d, pos) && SpanAt(d, pos) == Span(start, next, Text(host)) && d[start..next] == host
  {
    WordInPart(d, pos + 4, next, p, 3, pos + 7, n);
    assert d[pos + 6] == p[2];
    assert d[start..next] == p[5..];
    NameBytes(d, pos, start, n, n);
  }

  lemma OtherKind(d: bytes, pos: nat)
    requires U16(d, pos) != 0
    ensures !NamesHost(d, pos)
  {
  }

  /** The scanner passes every extension of another kind and finds the name. */
  lemma {:induction false} FindsServerName(d: bytes, pos: nat, before: seq<Extension>, e: Extension,
                                           host: bytes, after: bytes, q: nat)
    requires pos <= |d| && d[pos..] == EncodeExtensions(before) + (EncodeExtension(e) + after)
    requires Encodable(before) && forall i :: 0 <= i < |before| ==> before[i].kind != 0
    requires Names(e, host) && q == pos + |EncodeExtensions(before)|
    ensures FirstName(d, pos, |d|) == Some(q) && SpanAt(d, q) == Span(q + 9, q + 9 + |host|, Text(host))
    ensures q + 9 + |host| <= |d| && d[q + 9..q + 9 + |host|] == host
    decreases |before|
  {
    hide SpanAt, NamesHost, EncodeExtension, U16;
    if before == [] {
      assert d[pos..] == EncodeExtension(e) + after;
      ServerNameAt(d, pos, e, host, after);
      assert q == pos;
    } else {
      var first, rest := before[0], EncodeExtensions(before[1..]) + (EncodeExtension(e) + after);
      var next := pos + 4 + |first.payload|;
      assert d[pos..] == EncodeExtension(first) + rest;
      ExtensionAt(d, pos, first, rest, next);
      OtherKind(d, pos);
      NextExtension(d, pos, next, |d|);
      FindsServerName(d, next, before[1..], e, host, after, q);
    }
  }

  lemma {:induction false} ExtensionsAppend(a: seq<Extension>, b: seq<Extension>)
    ensures EncodeExtensions(a + b) == EncodeExtensions(a) + EncodeExtensions(b)
  {
    if a == [] {
      assert a + b == b;
    } else {
      assert (a + b)[0] == a[0] && (a + b)[1..] == a[1..] + b;
      ExtensionsAppend(a[1..], b);
    }
  }

  /** A hello with the server name behind any extensions of other kinds and in
      front of anything: the scanner reports the host, and its span holds it. */
  lemma HelloParses(
    h: Hello, d: bytes, before: seq<Extension>, e: Extension, host: bytes, after: seq<Extension>, start: nat)
    requires Buildable(h) && d == EncodeHello(h) && h.exts == EncodeExtensions(before + ([e] + after))
    requires Encodable(before) && forall i :: 0 <= i < |before| ==> before[i].kind != 0
    requires Names(e, host) && start == 59 + |h.sid| + |h.ciphers| + |EncodeExtensions(before)|
    ensures SniSpan(d) == Some(Span(start, start + |host|, Text(host)))
    ensures start + |host| <= |d| && d[start..start + |host|] == host
  {
    hide ExtensionRange, NamesHost, SpanAt, Names, SniSpan;
    var from, q := 50 + |h.sid| + |h.ciphers|, start - 9;
    HelloRange(h, d, from);
    ExtensionsAppend(before, [e] + after);
    assert ([e] + after)[1..] == after;
    NameInHello(d, from, before, e, host, EncodeExtensions(after), start, q);
  }

  lemma NameInHello(
    d: bytes, from: nat, before: seq<Extension>, e: Extension, host: bytes, after: bytes, start: nat, q: nat)
    requires from <= |d| && d[from..] == EncodeExtensions(before) + (EncodeExtension(e) + after)
    requires ExtensionRange(d) == Some(Range(from, |d|))
    requires Encodable(before) && forall i :: 0 <= i < |before| ==> before[i].kind != 0
    requires Names(e, host) && q == from + |EncodeExtensions(before)| && start == q + 9
    ensures SniSpan(d) == Some(Span(start, start + |host|, Text(host)))
    ensures start + |host| <= |d| && d[start..start + |host|] == host
  {
    hide ExtensionRange, SpanAt, NamesHost, U16, SniSpan, Names, EncodeExtension, EncodeExtensions;
    FindsServerName(d, from, before, e, host, after, q);
    InRange(d, Range(from, |d|), q, SpanAt(d, q));
  }

  lemma {:induction false} AsciiIsKept(s: string)
    requires forall i :: 0 <= i < |s| ==> s[i] as int < 128
    ensures AsciiOnly(s) == s
  {
    if s != "" {
      AsciiIsKept(s[..|s| - 1]);
      assert s == s[..|s| - 1] + [s[|s| - 1]];
    }
  }

  lemma HostFits(sni: string, fallback: string)
    requires 0 < |fallback| <= 253 && forall i :: 0 <= i < |fallback| ==> fallback[i] as int < 128
    ensures 0 < |HostBytes(sni, fallback)| <= 253 && Text(HostBytes(sni, fallback)) == HostText(sni, fallback)
  {
    HostReadsBack(sni, fallback);
    AsciiIsKept(fallback);
    TextOfAscii(fallback);
  }

  lemma {:induction false} ExtensionsLength(es: seq<Extension>)
    ensures es != [] ==> |EncodeExtensions(es)| == 4 + |es[0].payload| + |EncodeExtensions(es[1..])|
  {
  }

  /** The host that a builder's hello names: an ASCII name as it is, up to 253
      characters of it, and the default for a name without ASCII characters. */
  lemma HostNamed(sni: string, fallback: string)
    requires 0 < |fallback| <= 253 && forall i :: 0 <= i < |fallback| ==> fallback[i] as int < 128
    ensures sni != "" && (forall i :: 0 <= i < |sni| ==> sni[i] as int < 128) ==>
      HostText(sni, fallback) == if |sni| <= 253 then sni else sni[..253]
    ensures (forall i :: 0 <= i < |sni| ==> sni[i] as int >= 128) ==> HostText(sni, fallback) == fallback
  {
    AsciiIsKept(fallback);
    if forall i :: 0 <= i < |sni| ==> sni[i] as int < 128 {
      AsciiIsKept(sni);
    }
    if forall i :: 0 <= i < |sni| ==> sni[i] as int >= 128 {
      NothingIsKept(sni);
    }
  }

  lemma {:induction false} NothingIsKept(s: string)
    requires forall i :: 0 <= i < |s| ==> s[i] as int >= 128
    ensures AsciiOnly(s) == ""
  {
    if s != "" {
      NothingIsKept(s[..|s| - 1]);
    }
  }

  /** Parsing the minimal synthetic hello gives back the ASCII part of the name,
      cut to 253 characters, or the default, with a span at those bytes. */
  lemma FakeHelloParses(sni: string, rand: bytes, sid: bytes, start: nat)
    requires |rand| == 32 && |sid| <= 32 && start == 81 + |sid|
    ensures var h := FakeHello(sni, rand, sid); var host := HostBytes(sni, "www.microsoft.com");
            && Buildable(h)
            && SniSpan(EncodeHello(h)) == Some(Span(start, start + |host|, HostText(sni, "www.microsoft.com")))
            && start + |host| <= |EncodeHello(h)| && EncodeHello(h)[start..start + |host|] == host
  {
    hide SniSpan, Names, EncodeExtension, HostBytes, HostText, EncodeHello;
    var h, host := FakeHello(sni, rand, sid), HostBytes(sni, "www.microsoft.com");
    HostFits(sni, "www.microsoft.com");
    var e := ServerName(host);
    ServerNameNames(host);
    var after := [Extension(10, [0x00, 0x1d, 0x00, 0x17, 0x00, 0x18]), Extension(11, [1, 2, 1, 0])];
    var all := [e] + after;
    assert all == [e, after[0], after[1]] && all[1..] == after && after[1..] == [after[1]] && after[1..][1..] == [];
    ExtensionsLength(all);
    ExtensionsLength(after);
    ExtensionsLength(after[1..]);
    assert [] + all == all;
    HelloParses(h, EncodeHello(h), [], e, host, after, start);
  }

  /** The same for the browser-shaped hello, whatever follows the server name. */
  lemma BrowserHelloParses(sni: string, rand: bytes, sid: bytes, ciphers: bytes, others: seq<Extension>, start: nat)
    requires Buildable(BrowserHello(sni, rand, sid, ciphers, others)) && start == 59 + |sid| + |ciphers|
    ensures var d := EncodeHello(BrowserHello(sni, rand, sid, ciphers, others));
      var host := HostBytes(sni, "www.varzesh3.com");
            && SniSpan(d) == Some(Span(start, start + |host|, HostText(sni, "www.varzesh3.com")))
            && start + |host| <= |d| && d[start..start + |host|] == host
  {
    hide SniSpan, Names, EncodeExtension, HostBytes, HostText, EncodeHello;
    var h, host := BrowserHello(sni, rand, sid, ciphers, others), HostBytes(sni, "www.varzesh3.com");
    HostFits(sni, "www.varzesh3.com");
    var e := ServerName(host);
    ServerNameNames(host);
    var all := [e] + others;
    assert [] + all == all;
    HelloParses(h, EncodeHello(h), [], e, host, others, start);
  }

  /** Every hello the builders make can be fragmented into two records. */
  lemma BuiltHelloIsFragmented(h: Hello)
    requires Buildable(h)
    ensures |EncodeHello(h)| >= 50 && RecordFragments(EncodeHello(h)).Some? && |RecordFragments(EncodeHello(h)).value| == 2
  {
    hide RecordFragments;
    var d := EncodeHello(h);
    HelloHead(h, d);
    RecordFragmentsFit(d);
    RecordSplit(d);
  }
}
