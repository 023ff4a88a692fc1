/** The TLS ClientHello scanner, which the repository holds in two copies
    (engines/sni_enhanced/handshake_builder.py find_sni_span and
    engines/engines/sni_spoofing.py parse_client_hello), and the replacement of
    the host name it finds by another of the same length. */
module ClientHello {
  import opened Prelude

  /** A slice as Python takes it: bounds past the end are clipped. */
  function Slice(s: bytes, from: nat, to: nat): bytes
    requires from <= to
  {
    s[Min(from, |s|)..Min(to, |s|)]
  }

  /** int.from_bytes(s[pos:pos + 2]), which reads fewer bytes near the end. */
  function U16(s: bytes, pos: nat): nat {
    if pos + 2 <= |s| then Word(s[pos], s[pos + 1]) else if pos < |s| then s[pos] else 0
  }

  lemma U16IsBigEndian(s: bytes, pos: nat)
    ensures U16(s, pos) == FromBigEndian(Slice(s, pos, pos + 2))
  {
    var b := Slice(s, pos, pos + 2);
    if |b| == 2 {
      TwoByteValue(b);
    } else if |b| == 1 {
      assert b[..0] == [];
    }
  }

  /** ASCII decoding with replacement of every other byte. */
  function Text(b: bytes): (s: string)
    ensures |s| == |b|
  {
    if b == [] then [] else Text(b[..|b| - 1]) + [if b[|b| - 1] < 128 then b[|b| - 1] as char else '\U{FFFD}']
  }

  datatype Span = Span(start: nat, end: nat, name: string)

  // ----- what the scanner finds -----

  datatype Range = Range(from: nat, to: nat)

  /** The range in which extensions are scanned, or None where the source returns
      or indexes past the end. */
  function ExtensionRange(data: bytes): (r: Option<Range>)
    ensures r.Some? ==> r.value.to <= |data|
  {
    if |data| < 5 || data[0] != 0x16 then None
    else if |data| < 5 + U16(data, 3) || |data| == 5 || data[5] != 0x01 || |data| <= 43 then None
    else
      var ciphers: nat := 44 + (data[43] as nat);
      var comp := ciphers + 2 + U16(data, ciphers);
      if |data| <= comp then None
      else
        var total := comp + 1 + data[comp];
        Some(Range(total + 2, Min(|data|, total + 2 + U16(data, total))))
  }

  /** The extension at pos is a server_name extension with a host name of 1 to
      255 bytes first in its list (section 3 of RFC 6066). */
  predicate NamesHost(data: bytes, pos: nat) {
    && pos + 9 <= |data|
    && U16(data, pos) == 0 && U16(data, pos + 2) >= 5
    && data[pos + 6] == 0 && 0 < U16(data, pos + 7) <= 255
  }

  /** Position of the first extension that names a host. */
  function FirstName(data: bytes, pos: nat, end: nat): (q: Option<nat>)
    ensures q.Some? ==> pos <= q.value && q.value + 9 <= |data| && NamesHost(data, q.value)
    decreases end - pos
  {
    if pos + 4 > end then None
    else if NamesHost(data, pos) then Some(pos)
    else FirstName(data, pos + 4 + U16(data, pos + 2), end)
  }

  /** The name is read as far as its extension and the data reach. */
  function SpanAt(data: bytes, q: nat): Span {
    var n, room := U16(data, q + 7), Max(5, U16(data, q + 2)) - 5;
    Span(q + 9, q + 9 + n, Text(Slice(data, q + 9, q + 9 + Min(n, room))))
  }

  function SniSpan(data: bytes): (span: Option<Span>)
    ensures span.Some? ==> span.value.start < span.value.end && span.value.start <= |data|
  {
    var r := ExtensionRange(data);
    if r.None? then None else SpanIn(data, r.value.from, r.value.to)
  }

  function SpanIn(data: bytes, pos: nat, end: nat): (span: Option<Span>)
    ensures span.Some? ==> span.value.start < span.value.end && span.value.start <= |data|
  {
    var q := FirstName(data, pos, end);
    if q.None? then None else Some(SpanAt(data, q.value))
  }

  lemma NextExtension(data: bytes, pos: nat, next: nat, end: nat)
    requires pos + 4 <= end && !NamesHost(data, pos) && next == pos + 4 + U16(data, pos + 2)
    ensures FirstName(data, pos, end) == FirstName(data, next, end)
    ensures SpanIn(data, pos, end) == SpanIn(data, next, end)
  {
  }

  lemma FoundAt(data: bytes, pos: nat, end: nat, span: Span)
    requires pos + 4 <= end && NamesHost(data, pos) && span == SpanAt(data, pos)
    ensures FirstName(data, pos, end) == Some(pos) && SpanIn(data, pos, end) == Some(span)
  {
  }

  /** The tests on the sliced extension body, in terms of the data. */
  lemma BodyFields(data: bytes, pos: nat, body: bytes)
    requires body == Slice(data, pos + 4, pos + 4 + U16(data, pos + 2))
    ensures |body| >= 5 <==> pos + 9 <= |data| && U16(data, pos + 2) >= 5
    ensures |body| >= 5 ==> body[2] == data[pos + 6] && U16(body, 3) == U16(data, pos + 7)
  {
  }

  lemma BodyName(data: bytes, pos: nat, body: bytes, n: nat)
    requires body == Slice(data, pos + 4, pos + 4 + U16(data, pos + 2)) && |body| >= 5 && n == U16(data, pos + 7)
    ensures Span(pos + 9, pos + 9 + n, Text(Slice(body, 5, 5 + n))) == SpanAt(data, pos)
  {
    var m := Min(pos + 4 + U16(data, pos + 2), |data|);
    assert body == data[pos + 4..m];
    assert Slice(body, 5, 5 + n) == data[pos + 9..Min(pos + 9 + n, m)];
  }

  lemma RangeOf(d: bytes, ciphers: nat, comp: nat, total: nat, from: nat)
    requires |d| > 43 && d[0] == 0x16 && d[5] == 1 && U16(d, 3) <= |d| - 5
    requires ciphers == 44 + (d[43] as nat) && comp == ciphers + 2 + U16(d, ciphers) < |d|
    requires total == comp + 1 + d[comp] && from == total + 2 && from + U16(d, total) == |d|
    ensures ExtensionRange(d) == Some(Range(from, |d|))
  {
  }

  lemma InRange(data: bytes, r: Range, q: nat, span: Span)
    requires ExtensionRange(data) == Some(r) && FirstName(data, r.from, r.to) == Some(q) && SpanAt(data, q) == span
    ensures SniSpan(data) == Some(span)
  {
  }

  /** int.from_bytes of a two-byte slice. */
  method ReadU16(s: bytes, pos: nat) returns (n: nat)
    ensures n == U16(s, pos)
  {
    U16IsBigEndian(s, pos);
    n := FromBigEndian(Slice(s, pos, pos + 2));
  }

  method FindSniSpan(data: bytes) returns (span: Option<Span>)
    ensures span == SniSpan(data)
  {
    if |data| < 5 || data[0] != 0x16 {
      return None;
    }
    var recordLen := ReadU16(data, 3);
    if |data| < 5 + recordLen || |data| <= 5 || data[5] != 0x01 {
      return None;
    }
    var pos: nat := 9;
    pos := pos + 2 + 32;
    if |data| <= pos {
      return None;
    }
    pos := pos + 1 + data[pos];
    var cipherLen := ReadU16(data, pos);
    pos := pos + 2 + cipherLen;
    if |data| <= pos {
      return None;
    }
    pos := pos + 1 + data[pos];
    var extTotal := ReadU16(data, pos);
    pos := pos + 2;
    var end := Min(|data|, pos + extTotal);
    assert ExtensionRange(data) == Some(Range(pos, end));
    span := ScanExtensions(data, pos, end);
  }

  /** The loop over the extensions. */
  method ScanExtensions(data: bytes, from: nat, end: nat) returns (span: Option<Span>)
    ensures span == SpanIn(data, from, end)
  {
    var pos := from;
    while pos + 4 <= end
      invariant SpanIn(data, pos, end) == SpanIn(data, from, end)
      decreases end - pos
    {
      var extType := ReadU16(data, pos);
      var extLen := ReadU16(data, pos + 2);
      var body := Slice(data, pos + 4, pos + 4 + extLen);
      BodyFields(data, pos, body);
      if extType == 0 && |body| >= 5 {
        var nameLen := ReadU16(body, 3);
        var nameStart := pos + 4 + 5;
        if body[2] == 0 && 0 < nameLen <= 255 {
          BodyName(data, pos, body, nameLen);
          span := Some(Span(nameStart, nameStart + nameLen, Text(Slice(body, 5, 5 + nameLen))));
          FoundAt(data, pos, end, span.value);
          return span;
        }
      }
      var next := pos + 4 + extLen;
      NextExtension(data, pos, next, end);
      pos := next;
    }
    return None;
  }

  // ----- the scan depends only on what stands before the name -----

  ghost predicate Agree(a: bytes, b: bytes, n: nat) {
    |a| == |b| && n <= |a| && a[..n] == b[..n]
  }

  lemma SameLength(a: bytes, b: bytes, n: nat)
    requires Agree(a, b, n)
    ensures |a| == |b| && n <= |a|
  {
  }

  lemma FieldAgrees(a: bytes, b: bytes, n: nat, pos: nat)
    requires Agree(a, b, n) && pos + 2 <= n
    ensures U16(a, pos) == U16(b, pos)
  {
    ByteAgrees(a, b, n, pos);
    ByteAgrees(a, b, n, pos + 1);
  }

  lemma ByteAgrees(a: bytes, b: bytes, n: nat, pos: nat)
    requires Agree(a, b, n) && pos < n
    ensures a[pos] == b[pos]
  {
    assert a[pos] == a[..n][pos] == b[..n][pos];
  }

  lemma NamesHostAgrees(a: bytes, b: bytes, n: nat, pos: nat)
    requires Agree(a, b, n) && pos + 4 <= n
    requires U16(a, pos) == 0 && U16(a, pos + 2) >= 5 ==> pos + 9 <= n
    ensures U16(a, pos + 2) == U16(b, pos + 2)
    ensures NamesHost(a, pos) == NamesHost(b, pos)
    ensures NamesHost(a, pos) ==> U16(a, pos + 7) == U16(b, pos + 7)
  {
    FieldAgrees(a, b, n, pos);
    FieldAgrees(a, b, n, pos + 2);
    if U16(a, pos) == 0 && U16(a, pos + 2) >= 5 {
      FieldAgrees(a, b, n, pos + 7);
      ByteAgrees(a, b, n, pos + 6);
    }
  }

  lemma Skipped(data: bytes, pos: nat, end: nat, next: nat, q: nat)
    requires FirstName(data, pos, end) == Some(q) && !NamesHost(data, pos) && next == pos + 4 + U16(data, pos + 2)
    ensures pos + 4 <= end && FirstName(data, next, end) == Some(q) && next <= q
  {
  }

  lemma {:induction false} FirstNameAgrees(a: bytes, b: bytes, pos: nat, end: nat, q: nat)
    requires FirstName(a, pos, end) == Some(q) && Agree(a, b, q + 9)
    ensures FirstName(b, pos, end) == Some(q)
    ensures U16(a, q + 7) == U16(b, q + 7) && U16(a, q + 2) == U16(b, q + 2)
    decreases end - pos
  {
    hide NamesHost, U16, Agree;
    if NamesHost(a, pos) {
      NamesHostAgrees(a, b, q + 9, pos);
    } else {
      var next := pos + 4 + U16(a, pos + 2);
      Skipped(a, pos, end, next, q);
      NamesHostAgrees(a, b, q + 9, pos);
      FirstNameAgrees(a, b, next, end, q);
    }
  }

  lemma RangeAgrees(a: bytes, b: bytes, n: nat, r: Range)
    requires ExtensionRange(a) == Some(r) && Agree(a, b, n) && r.from <= n
    ensures ExtensionRange(b) == Some(r)
  {
    hide U16, Agree;
    assert |a| == |b| by { SameLength(a, b, n); }
    FieldAgrees(a, b, n, 3);
    ByteAgrees(a, b, n, 0);
    ByteAgrees(a, b, n, 5);
    ByteAgrees(a, b, n, 43);
    var ciphers: nat := 44 + (a[43] as nat);
    var comp := ciphers + 2 + U16(a, ciphers);
    var total := comp + 1 + a[comp];
    assert r == Range(total + 2, Min(|a|, total + 2 + U16(a, total)));
    FieldAgrees(a, b, n, ciphers);
    ByteAgrees(a, b, n, comp);
    FieldAgrees(a, b, n, total);
  }

  /** Bytes of the name in the span at q that its extension holds. */
  function NameRoom(data: bytes, q: nat): nat {
    Min(U16(data, q + 7), Max(5, U16(data, q + 2)) - 5)
  }

  /** The reported name: the span, unless its extension ends before the span. */
  lemma NameBytes(data: bytes, q: nat, start: nat, n: nat, k: nat)
    requires NamesHost(data, q) && start == q + 9 && n == U16(data, q + 7) && start + n <= |data|
    requires k == NameRoom(data, q)
    ensures k <= n && SpanAt(data, q) == Span(start, start + n, Text(data[start..start + k]))
  {
  }

  // ----- replacing the name -----

  function Replaced(data: bytes, span: Span, x: bytes): bytes
    requires span.start <= |data| && span.start <= span.end
  {
    data[..span.start] + x + data[Min(span.end, |data|)..]
  }

  lemma ReplacedBytes(data: bytes, span: Span, x: bytes, k: nat)
    requires span.start < span.end <= |data| && |x| == span.end - span.start && k <= |x|
    ensures var b := Replaced(data, span, x);
            Agree(data, b, span.start) && b[span.start..span.start + k] == x[..k] && b[span.end..] == data[span.end..]
  {
  }

  lemma SpanParts(data: bytes, span: Span) returns (r: Range, q: nat)
    requires SniSpan(data) == Some(span)
    ensures ExtensionRange(data) == Some(r) && FirstName(data, r.from, r.to) == Some(q) && SpanAt(data, q) == span
  {
    hide ExtensionRange, SpanAt, NamesHost;
    r := ExtensionRange(data).value;
    q := FirstName(data, r.from, r.to).value;
  }

  /** Where the span lies depends only on the bytes before it. */
  lemma SpanFromHead(a: bytes, b: bytes, span: Span, held: nat)
    requires SniSpan(a) == Some(span) && span.end <= |a| && Agree(a, b, span.start) && held == |span.name|
    ensures span.start + held <= span.end
    ensures SniSpan(b) == Some(Span(span.start, span.end, Text(b[span.start..span.start + held])))
  {
    hide SniSpan, ExtensionRange, NamesHost, U16, NameRoom;
    var r, q := SpanParts(a, span);
    var start, n, k := q + 9, U16(a, q + 7), NameRoom(a, q);
    NameBytes(a, q, start, n, k);
    assert span == Span(start, start + n, Text(a[start..start + k]));
    SameRange(a, b, r, q, start, n, k);
  }

  lemma SameRange(a: bytes, b: bytes, r: Range, q: nat, start: nat, n: nat, k: nat)
    requires ExtensionRange(a) == Some(r) && FirstName(a, r.from, r.to) == Some(q) && Agree(a, b, start)
    requires start == q + 9 && n == U16(a, q + 7) && start + n <= |a| && k == NameRoom(a, q)
    ensures k <= n && SniSpan(b) == Some(Span(start, start + n, Text(b[start..start + k])))
  {
    hide ExtensionRange, SpanAt, SniSpan, U16, NamesHost;
    RangeAgrees(a, b, start, r);
    FirstNameAgrees(a, b, r.from, r.to, q);
    NameBytes(b, q, start, n, k);
    InRange(b, r, q, SpanAt(b, q));
  }

  /** Whatever bytes of the same length replace a span inside the data, the
      scanner finds the same span again and reports the new bytes, exactly as far
      as it had reported the old ones. */
  lemma SubstitutionIsStable(data: bytes, x: bytes, span: Span)
    requires SniSpan(data) == Some(span) && span.end <= |data| && |x| == span.end - span.start
    ensures |span.name| <= |x|
    ensures SniSpan(Replaced(data, span, x)) == Some(Span(span.start, span.end, Text(x[..|span.name|])))
  {
    hide SniSpan;
    var b, k := Replaced(data, span, x), |span.name|;
    ReplacedBytes(data, span, x, 0);
    SpanFromHead(data, b, span, k);
    ReplacedBytes(data, span, x, k);
    assert b[span.start..span.start + k] == x[..k];
  }

  /** The scanner reports the whole span as the name exactly when the name does
      not run past its extension. */
  lemma WholeNameIff(data: bytes, span: Span)
    requires SniSpan(data) == Some(span) && span.end <= |data|
    ensures 9 <= span.start
    ensures span.name == Text(data[span.start..span.end]) <==> span.end <= span.start - 5 + U16(data, span.start - 7)
  {
    var q := span.start - 9;
    NameBytes(data, q, span.start, U16(data, q + 7), NameRoom(data, q));
  }

  // ----- build_hostfakesplit_hello -----

  /** The hello with another host name; the fake host is whatever the random host
      generator returned. */
  function HostFakeSplit(data: bytes, fake: bytes): Option<bytes> {
    var span := SniSpan(data);
    if span.None? || |fake| != span.value.end - span.value.start then None
    else Some(Replaced(data, span.value, fake))
  }

  /** A result keeps the length exactly when the span lies inside the data, and is
      otherwise longer by what the span overruns.  Inside the data, it also keeps
      every byte outside the span and carries the fake name in the same span. */
  lemma FakeKeepsLayoutIff(data: bytes, fake: bytes)
    requires HostFakeSplit(data, fake).Some?
    ensures var span, r := SniSpan(data).value, HostFakeSplit(data, fake).value;
            && (span.end <= |data| <==> |r| == |data|)
            && (span.end > |data| ==> |r| == span.end && r == data[..span.start] + fake)
            && (span.end <= |data| ==>
              && r[..span.start] == data[..span.start] && r[span.start..span.end] == fake
              && r[span.end..] == data[span.end..]
              && SniSpan(r) == Some(Span(span.start, span.end, Text(fake[..Min(|span.name|, |fake|)]))))
  {
    var span, r := SniSpan(data).value, HostFakeSplit(data, fake).value;
    if span.end <= |data| {
      SubstitutionIsStable(data, fake, span);
      ReplacedBytes(data, span, fake, |fake|);
    }
  }

  /** One draw of random_same_length_host: the length left for the first label. */
  function FirstLabel(length: int, tld: int, mid: int): int {
    length - tld - mid - 2
  }

  /** For names of 12 to 70 bytes every draw is taken at once, so the generator
      returns a host of exactly the length asked for. */
  lemma DrawIsTaken(length: int, tld: int, mid: int)
    requires 12 <= length <= 70 && 2 <= tld <= 4 && 3 <= mid <= Max(3, Min(10, length - tld - 5))
    ensures Max(6, Min(253, length)) == length
    ensures 1 <= FirstLabel(length, tld, mid) <= 63 && FirstLabel(length, tld, mid) + 1 + mid + 1 + tld == length
  {
  }

  /** A hello of 58 bytes that announces a host name of twelve bytes behind its end:
      the extensions' length at 47, the only extension at 49, its name length at 56. */
  function TruncatedHello(): (data: bytes)
    ensures |data| == 58
  {
    seq(58, i requires 0 <= i < 58 =>
      if i == 0 then 0x16 else if i == 5 then 1 else if i == 48 then 9
      else if i == 52 then 5 else if i == 57 then 12 else 0)
  }

  /** The length law fails there, for every fake host of the length asked for. */
  lemma TruncatedHelloGrows(fake: bytes)
    requires |fake| == 12
    ensures HostFakeSplit(TruncatedHello(), fake).Some? && |HostFakeSplit(TruncatedHello(), fake).value| == 70
  {
    hide SniSpan;
    var data := TruncatedHello();
    var span := SpanAt(data, 49);
    RangeOf(data, 44, 46, 47, 49);
    FoundAt(data, 49, 58, span);
    InRange(data, Range(49, 58), 49, span);
  }
}
