/** The chunked AEAD codec of core/emunel_core/relay/shadowsocks.py (AEADStream).
    The cipher is a parameter: only its lengths and its laws are used. */
module AeadStreams {
  import opened Prelude
  import opened Cuts

  const TAG := 16
  const LENGTH_BLOCK := 18
  const SALT := 32
  const MAX_CHUNK := 0x3FFF
  const NONCES := 0x1_0000_0000_0000_0000_0000_0000   // counters fit in 12 bytes

  /** A keyed cipher; the nonce is the chunk counter. */
  datatype Cipher = Cipher(seals: (nat, bytes) -> bytes, opens: (nat, bytes) -> Option<bytes>)

  function Seal(c: Cipher, n: nat, p: bytes): bytes {
    c.seals(n, p)
  }

  function Open(c: Cipher, n: nat, x: bytes): Option<bytes> {
    c.opens(n, x)
  }

  /** Sealing adds a tag. */
  ghost predicate AddsTag(c: Cipher) {
    forall n: nat, p: bytes :: n < NONCES ==> |Seal(c, n, p)| == |p| + TAG
  }

  /** Opening undoes sealing under the same nonce. */
  ghost predicate Undoes(c: Cipher) {
    forall n: nat, p: bytes :: n < NONCES ==> Open(c, n, Seal(c, n, p)) == Some(p)
  }

  /** Opening rejects what was sealed under another nonce. */
  ghost predicate Rejects(c: Cipher) {
    forall m: nat, n: nat, p: bytes :: m < NONCES && n < NONCES && m != n ==> Open(c, m, Seal(c, n, p)) == None
  }

  /** What decoding needs. */
  ghost predicate Sound(c: Cipher) {
    AddsTag(c) && Undoes(c)
  }

  ghost predicate Lawful(c: Cipher) {
    Sound(c) && Rejects(c)
  }

  /** A cipher with these laws exists: mark the text with its nonce. */
  lemma LawfulExists() returns (c: Cipher)
    ensures Lawful(c)
  {
    c := Cipher(
      (n: nat, p: bytes) => p + BigEndian(n, TAG),
      (n: nat, x: bytes) =>
        if |x| >= TAG && x[|x| - TAG..] == BigEndian(n, TAG) then Some(x[..|x| - TAG]) else None);
    forall n: nat, p: bytes | n < NONCES
      ensures Open(c, n, Seal(c, n, p)) == Some(p)
    {
      var x := p + BigEndian(n, TAG);
      assert x[|x| - TAG..] == BigEndian(n, TAG) && x[..|x| - TAG] == p;
    }
    forall m: nat, n: nat, p: bytes | m < NONCES && n < NONCES && m != n
      ensures Open(c, m, Seal(c, n, p)) == None
    {
      var x := p + BigEndian(n, TAG);
      assert x[|x| - TAG..] == BigEndian(n, TAG);
      NonceMark(m);
      NonceMark(n);
    }
  }

  lemma NonceMark(n: nat)
    requires n < NONCES
    ensures FromBigEndian(BigEndian(n, TAG)) == n
  {
    Pow256Values();
    assert Pow256(12) == 256 * Pow256(11) && Pow256(10) == 256 * Pow256(9);
    assert Pow256(16) == 256 * Pow256(15) && Pow256(14) == 256 * Pow256(13);
    BigEndianRoundTrip(n, TAG);
  }

  // ----- encoding -----

  function Chunk(c: Cipher, n: nat, payload: bytes): bytes {
    Seal(c, n, BigEndian(|payload|, 2)) + Seal(c, n + 1, payload)
  }

  /** The bytes of a chunk: two sealed length bytes, most significant first, and the
      sealed payload under the next nonce. */
  lemma ChunkFormat(c: Cipher, n: nat, payload: bytes)
    requires |payload| < 65536
    ensures Chunk(c, n, payload) == Seal(c, n, [|payload| / 256, |payload| % 256]) + Seal(c, n + 1, payload)
  {
    hide BigEndian;
    TwoBytes(|payload|);
  }

  /** The wire form of payloads; chunk i uses nonces 2i and 2i + 1. */
  function Wire(c: Cipher, payloads: seq<bytes>): (ws: seq<bytes>)
    ensures |ws| == |payloads|
  {
    seq(|payloads|, i requires 0 <= i < |payloads| => Chunk(c, 2 * i, payloads[i]))
  }

  // ----- decoding -----

  /** Result of draining a buffer; ok is false when the source raises. */
  datatype Drain = Drain(payloads: seq<bytes>, nonce: nat, rest: bytes, ok: bool)

  /** One pass of the loop: it stops with a counter, a buffer and a verdict, or
      hands out a payload and goes on with the bytes behind it. */
  datatype Pass = Stop(nonce: nat, rest: bytes, ok: bool) | Hand(payload: bytes, rest: bytes)

  /** The nonce moves on before the payload is known to be complete, and then the
      length block stays in the buffer. */
  function OnePass(c: Cipher, nonce: nat, buf: bytes): (p: Pass)
    ensures p.Hand? ==> |p.rest| < |buf|
  {
    if |buf| < LENGTH_BLOCK then Stop(nonce, buf, true)
    else
      var head := Open(c, nonce, buf[..LENGTH_BLOCK]);
      if head.None? then Stop(nonce, buf, false)
      else
        var length := FromBigEndian(head.value);
        if length > MAX_CHUNK then Stop(nonce + 1, buf, false)
        else if |buf| < LENGTH_BLOCK + length + TAG then Stop(nonce + 1, buf, true)
        else
          var payload := Open(c, nonce + 1, buf[LENGTH_BLOCK..LENGTH_BLOCK + length + TAG]);
          var after := buf[LENGTH_BLOCK + length + TAG..];
          if payload.None? then Stop(nonce + 1, after, false) else Hand(payload.value, after)
  }

  /** try_decrypt_chunks, iterated to its end. */
  function Drained(c: Cipher, nonce: nat, buf: bytes): Drain
    decreases |buf|
  {
    match OnePass(c, nonce, buf)
    case Stop(n, rest, ok) => Drain([], n, rest, ok)
    case Hand(payload, rest) => Resumed([payload], Drained(c, nonce + 2, rest))
  }

  function Resumed(before: seq<bytes>, d: Drain): Drain {
    d.(payloads := before + d.payloads)
  }

  lemma ResumedTwice(before: seq<bytes>, payload: bytes, d: Drain)
    ensures Resumed(before, Resumed([payload], d)) == Resumed(before + [payload], d)
  {
    assert before + ([payload] + d.payloads) == before + [payload] + d.payloads;
  }

  lemma DrainedHand(c: Cipher, nonce: nat, buf: bytes, payload: bytes, rest: bytes, nonce': nat)
    requires OnePass(c, nonce, buf) == Hand(payload, rest) && nonce' == nonce + 2
    ensures Drained(c, nonce, buf) == Resumed([payload], Drained(c, nonce', rest))
  {
  }

  /** Receiving side: the sender's salt once it is complete, which fixes the
      cipher, then the counter, the buffered bytes, the payloads handed out. */
  datatype Decoder = Decoder(salt: Option<bytes>, nonce: nat, buf: bytes, out: seq<bytes>, failed: bool)

  const FRESH := Decoder(None, 0, [], [], false)

  /** feed(data) and a full iteration of try_decrypt_chunks; derive is the subkey
      derivation from the salt.  After an exception the connection is closed. */
  function Receive(d: Decoder, data: bytes, derive: bytes -> Cipher): Decoder {
    if d.failed then d
    else
      var buf := d.buf + data;
      if d.salt.None? && |buf| < SALT then d.(buf := buf)
      else
        var salt := if d.salt.None? then buf[..SALT] else d.salt.value;
        var r := Drained(derive(salt), d.nonce, if d.salt.None? then buf[SALT..] else buf);
        Decoder(Some(salt), r.nonce, r.rest, d.out + r.payloads, !r.ok)
  }

  function ReceiveAll(feeds: seq<bytes>, derive: bytes -> Cipher): Decoder {
    if feeds == [] then FRESH
    else Receive(ReceiveAll(feeds[..|feeds| - 1], derive), feeds[|feeds| - 1], derive)
  }

  // ----- the object -----

  class AEADStream {
    const derive: bytes -> Cipher
    const encSalt: bytes
    var encNonce: nat
    var encSaltSent: bool
    var decSalt: Option<bytes>
    var decNonce: nat
    var buf: bytes
    ghost var used: seq<nat>
    ghost var out: seq<bytes>
    ghost var failed: bool

    constructor (derive: bytes -> Cipher, salt: bytes)
      ensures NoncesFresh() && used == [] && !encSaltSent && Decoding() == FRESH
      ensures this.derive == derive && encSalt == salt
    {
      this.derive, encSalt := derive, salt;
      encNonce, encSaltSent := 0, false;
      decSalt, decNonce, buf := None, 0, [];
      used, out, failed := [], [], false;
    }

    /** No nonce was ever sealed under twice: the i-th use is nonce i. */
    ghost predicate NoncesFresh()
      reads this
    {
      encNonce == |used| && forall i :: 0 <= i < |used| ==> used[i] == i
    }

    ghost function Decoding(): Decoder
      reads this
    {
      Decoder(decSalt, decNonce, buf, out, failed)
    }

    /** encrypt_chunk; lengths over 16 bits and an exhausted counter make the
        source raise. */
    method EncryptChunk(payload: bytes) returns (data: bytes)
      requires NoncesFresh() && |payload| < 65536 && encNonce + 2 <= NONCES
      modifies this
      ensures NoncesFresh() && used == old(used) + [old(encNonce), old(encNonce) + 1]
      ensures encSaltSent && encNonce == old(encNonce) + 2 && Decoding() == old(Decoding())
      ensures data == (if old(encSaltSent) then [] else encSalt) + Chunk(derive(encSalt), old(encNonce), payload)
    {
      var aead := derive(encSalt);
      data := [];
      if !encSaltSent {
        data := encSalt;
        encSaltSent := true;
      }
      var encLength := Seal(aead, encNonce, BigEndian(|payload|, 2));
      used, encNonce := used + [encNonce], encNonce + 1;
      var encPayload := Seal(aead, encNonce, payload);
      used, encNonce := used + [encNonce], encNonce + 1;
      data := data + (encLength + encPayload);
    }

    /** The body of the loop of try_decrypt_chunks. */
    method DecryptOne(c: Cipher) returns (payload: Option<bytes>, ok: bool)
      modifies this`decNonce, this`buf
      ensures payload.Some? ==> ok && OnePass(c, old(decNonce), old(buf)) == Hand(payload.value, buf)
                                   && decNonce == old(decNonce) + 2
      ensures payload.None? ==> OnePass(c, old(decNonce), old(buf)) == Stop(decNonce, buf, ok)
    {
      if |buf| < LENGTH_BLOCK {
        return None, true;
      }
      var head := Open(c, decNonce, buf[..LENGTH_BLOCK]);
      if head.None? {
        return None, false;
      }
      decNonce := decNonce + 1;
      var length := FromBigEndian(head.value);
      if length > MAX_CHUNK {
        return None, false;
      }
      if |buf| < LENGTH_BLOCK + length + TAG {
        return None, true;
      }
      payload := Open(c, decNonce, buf[LENGTH_BLOCK..LENGTH_BLOCK + length + TAG]);
      buf := buf[LENGTH_BLOCK + length + TAG..];
      if payload.None? {
        return None, false;
      }
      decNonce := decNonce + 1;
      return payload, true;
    }

    /** The loop of try_decrypt_chunks. */
    method DrainBuffer() returns (payloads: seq<bytes>, ok: bool)
      requires decSalt.Some?
      modifies this`decNonce, this`buf
      ensures Drain(payloads, decNonce, buf, ok) == Drained(derive(decSalt.value), old(decNonce), old(buf))
    {
      var c := derive(decSalt.value);
      payloads := [];
      while true
        invariant Resumed(payloads, Drained(c, decNonce, buf)) == Drained(c, old(decNonce), old(buf))
        decreases |buf|
      {
        ghost var nonce, data := decNonce, buf;
        var payload, fine := DecryptOne(c);
        if payload.None? {
          assert payloads + [] == payloads;
          return payloads, fine;
        }
        DrainedHand(c, nonce, data, payload.value, buf, decNonce);
        ResumedTwice(payloads, payload.value, Drained(c, decNonce, buf));
        payloads := payloads + [payload.value];
      }
    }

    /** feed, then list(try_decrypt_chunks()). */
    method FeedAndDecrypt(data: bytes) returns (payloads: seq<bytes>, ok: bool)
      requires !failed
      modifies this
      ensures Decoding() == Receive(old(Decoding()), data, derive)
      ensures used == old(used) && encNonce == old(encNonce)
      ensures out == old(out) + payloads && ok == !failed
    {
      buf := buf + data;
      if decSalt.None? {
        if |buf| < SALT {
          return [], true;
        }
        decSalt := Some(buf[..SALT]);
        buf := buf[SALT..];
      }
      payloads, ok := DrainBuffer();
      out := out + payloads;
      failed := !ok;
    }

    /** pump_encrypt_to_ws on a new stream: every payload is sent on its own, and
        only the first piece carries the salt. */
    method EncryptAll(payloads: seq<bytes>) returns (pieces: seq<bytes>)
      requires NoncesFresh() && used == [] && !encSaltSent
      requires 2 * |payloads| <= NONCES && forall p :: p in payloads ==> |p| < 65536
      modifies this
      ensures NoncesFresh() && |used| == 2 * |payloads| && Decoding() == old(Decoding())
      ensures pieces == Pieces(encSalt, Wire(derive(encSalt), payloads))
    {
      pieces := [];
      for i := 0 to |payloads|
        invariant NoncesFresh() && |used| == 2 * i && (encSaltSent <==> i > 0) && Decoding() == old(Decoding())
        invariant pieces == Pieces(encSalt, Wire(derive(encSalt), payloads))[..i]
      {
        var piece := EncryptChunk(payloads[i]);
        assert piece == Pieces(encSalt, Wire(derive(encSalt), payloads))[i];
        pieces := pieces + [piece];
      }
    }

    /** pump_decrypt_to_tcp: every message is fed and decoded, until one fails. */
    method DecryptAll(feeds: seq<bytes>) returns (ok: bool)
      requires Decoding() == FRESH
      modifies this
      ensures Decoding() == ReceiveAll(feeds, derive)
      ensures ok == !failed && used == old(used) && encNonce == old(encNonce)
    {
      ok := true;
      for i := 0 to |feeds|
        invariant Decoding() == ReceiveAll(feeds[..i], derive)
        invariant ok == !failed && used == old(used) && encNonce == old(encNonce)
      {
        assert feeds[..i + 1][..i] == feeds[..i];
        if ok {
          var payloads;
          payloads, ok := FeedAndDecrypt(feeds[i]);
        }
      }
      assert feeds[..|feeds|] == feeds;
    }
  }

  /** The salt travels in front of the first chunk. */
  function Pieces(salt: bytes, ws: seq<bytes>): (pieces: seq<bytes>)
    ensures |pieces| == |ws|
  {
    seq(|ws|, i requires 0 <= i < |ws| => if i == 0 then salt + ws[i] else ws[i])
  }

  // ----- where a stream may be cut -----

  function ChunkSize(payload: bytes): nat {
    18 + |payload| + 16
  }

  function Sizes(payloads: seq<bytes>): seq<nat> {
    seq(|payloads|, i requires 0 <= i < |payloads| => ChunkSize(payloads[i]))
  }

  /** A cut after the first total bytes is safe when it falls into the salt, or
      leaves less than one length block of the next chunk. */
  predicate SafeCut(sizes: seq<nat>, total: nat) {
    total < 32 || Rest(sizes, 0, total - 32) < 18
  }

  /** Every boundary between two feeds is a safe cut. */
  ghost predicate SafeFeeds(sizes: seq<nat>, feeds: seq<bytes>) {
    forall i :: 0 <= i < |feeds| ==> SafeCut(sizes, |Join(feeds[..i])|)
  }

  // ----- draining a prefix of a chunk stream -----

  /** What the cipher guarantees of one wire chunk. */
  ghost predicate Opens(c: Cipher, n: nat, payload: bytes, w: bytes) {
    && |w| == ChunkSize(payload) && |payload| <= MAX_CHUNK
    && Open(c, n, w[..LENGTH_BLOCK]).Some?
    && FromBigEndian(Open(c, n, w[..LENGTH_BLOCK]).value) == |payload|
    && Open(c, n + 1, w[LENGTH_BLOCK..]) == Some(payload)
  }

  /** Its length block cannot be opened again with the next nonce. */
  ghost predicate OpensOnce(c: Cipher, n: nat, w: bytes) {
    LENGTH_BLOCK <= |w| && Open(c, n + 1, w[..LENGTH_BLOCK]) == None
  }

  lemma ChunkOpens(c: Cipher, n: nat, payload: bytes)
    requires Sound(c) && |payload| <= MAX_CHUNK && n + 2 <= NONCES
    ensures Opens(c, n, payload, Chunk(c, n, payload))
    ensures Rejects(c) ==> OpensOnce(c, n, Chunk(c, n, payload))
  {
    var w, head := Chunk(c, n, payload), BigEndian(|payload|, 2);
    assert w[..LENGTH_BLOCK] == Seal(c, n, head) && w[LENGTH_BLOCK..] == Seal(c, n + 1, payload);
    Pow256Values();
    BigEndianRoundTrip(|payload|, 2);
  }

  /** One complete chunk is handed out and two nonces are used. */
  lemma DrainStep(c: Cipher, n: nat, payload: bytes, w: bytes, more: bytes, n': nat)
    requires Opens(c, n, payload, w) && n' == n + 2
    ensures Drained(c, n, w + more) == Resumed([payload], Drained(c, n', more))
  {
    var buf := w + more;
    assert buf[..LENGTH_BLOCK] == w[..LENGTH_BLOCK];
    assert buf[LENGTH_BLOCK..|w|] == w[LENGTH_BLOCK..] && buf[|w|..] == more;
    DrainedHand(c, n, buf, payload, more, n');
  }

  /** Before a chunk is complete nothing is handed out or removed, but a complete
      length block costs a nonce. */
  lemma DrainIncomplete(c: Cipher, n: nat, payload: bytes, w: bytes, m: nat)
    requires Opens(c, n, payload, w) && m < |w|
    ensures Drained(c, n, w[..m]) == Drain([], n + (if m < LENGTH_BLOCK then 0 else 1), w[..m], true)
  {
    if m >= LENGTH_BLOCK {
      assert w[..m][..LENGTH_BLOCK] == w[..LENGTH_BLOCK];
    }
  }

  /** Trying that length block again, with the next nonce, is fatal. */
  lemma DrainStuck(c: Cipher, n: nat, payload: bytes, w: bytes, m: nat, data: bytes, n': nat)
    requires Opens(c, n, payload, w) && OpensOnce(c, n, w) && LENGTH_BLOCK <= m < |w| && n' == n + 1
    ensures !Drained(c, n', w[..m] + data).ok
  {
    assert (w[..m] + data)[..LENGTH_BLOCK] == w[..LENGTH_BLOCK];
  }

  /** A chunk over the limit is refused as soon as its length block is there. */
  lemma OverlongRefused(c: Cipher, n: nat, payload: bytes, m: nat)
    requires Sound(c) && 0x3FFF < |payload| < 65536 && n + 2 <= NONCES
    requires 18 <= m <= |Chunk(c, n, payload)|
    ensures !Drained(c, n, Chunk(c, n, payload)[..m]).ok
  {
    var w, head := Chunk(c, n, payload), BigEndian(|payload|, 2);
    assert w[..m][..LENGTH_BLOCK] == Seal(c, n, head);
    Pow256Values();
    BigEndianRoundTrip(|payload|, 2);
  }

  /** Nothing of a chunk that does not open is handed out, and decoding ends. */
  lemma ForgedRefused(c: Cipher, n: nat, buf: bytes)
    requires |buf| >= 18
    ensures Open(c, n, buf[..18]).None? ==> Drained(c, n, buf).payloads == [] && !Drained(c, n, buf).ok
    ensures Open(c, n, buf[..18]).Some? ==>
      var length := FromBigEndian(Open(c, n, buf[..18]).value);
      length <= 0x3FFF && |buf| >= 34 + length && Open(c, n + 1, buf[18..34 + length]).None? ==>
        Drained(c, n, buf).payloads == [] && !Drained(c, n, buf).ok
  {
  }

  /** No length block of a transmission can be opened again. */
  ghost predicate AllOpenOnce(c: Cipher, ws: seq<bytes>) {
    forall k :: 0 <= k < |ws| ==> OpensOnce(c, 2 * k, ws[k])
  }

  /** Chunks k, k + 1, ... of a transmission behave. */
  ghost predicate Wired(c: Cipher, payloads: seq<bytes>, ws: seq<bytes>, k: nat)
    requires |payloads| == |ws| && k <= |ws|
    decreases |ws| - k
  {
    k < |ws| ==> Opens(c, 2 * k, payloads[k], ws[k]) && Wired(c, payloads, ws, k + 1)
  }

  lemma {:induction false} WiredFrom(c: Cipher, payloads: seq<bytes>, ws: seq<bytes>, k: nat, k': nat)
    requires |payloads| == |ws| && k <= k' <= |ws| && Wired(c, payloads, ws, k)
    ensures Wired(c, payloads, ws, k')
    decreases k' - k
  {
    if k < k' {
      WiredFrom(c, payloads, ws, k + 1, k');
    }
  }

  /** The outcome of draining from chunk k up to r bytes into chunk k': a rest
      that already holds a length block costs one nonce too many. */
  function Outcome(payloads: seq<bytes>, ws: seq<bytes>, k: nat, k': nat, r: nat): Drain
    requires k <= k' <= |payloads| == |ws|
  {
    Drain(payloads[k..k'], 2 * k' + (if r < LENGTH_BLOCK then 0 else 1), Prefix(Tail(ws, k'), r), true)
  }

  /** Draining the first m bytes from chunk k on hands out the complete chunks
      and keeps the rest. */
  lemma {:induction false} DrainPrefix(c: Cipher, payloads: seq<bytes>, ws: seq<bytes>, sizes: seq<nat>,
                                       k: nat, n: nat, m: nat)
    requires |payloads| == |ws| && Fits(ws, sizes) && k <= |ws| && Wired(c, payloads, ws, k)
      && n == 2 * k && m <= |Tail(ws, k)|
    ensures Drained(c, n, Prefix(Tail(ws, k), m))
         == Outcome(payloads, ws, k, Reach(sizes, k, m), Rest(sizes, k, m))
    decreases |ws| - k
  {
    if k == |ws| {
      assert payloads[k..k] == [];
    } else if m < sizes[k] {
      DrainIncomplete(c, n, payloads[k], ws[k], m);
      assert Prefix(Tail(ws, k), m) == ws[k][..m];
      assert payloads[k..k] == [];
    } else {
      var next, left, n' := k + 1, m - sizes[k], n + 2;
      DrainPrefix(c, payloads, ws, sizes, next, n', left);
      var more := Prefix(Tail(ws, next), left);
      DrainStep(c, n, payloads[k], ws[k], more, n');
      assert Prefix(Tail(ws, k), m) == ws[k] + more;
      OutcomeStep(payloads, ws, k, next, Reach(sizes, next, left), Rest(sizes, next, left));
    }
  }

  lemma OutcomeStep(payloads: seq<bytes>, ws: seq<bytes>, k: nat, next: nat, k': nat, r: nat)
    requires next == k + 1 && next <= k' <= |payloads| == |ws|
    ensures Outcome(payloads, ws, k, k', r) == Resumed([payloads[k]], Outcome(payloads, ws, next, k', r))
  {
    OneMore(payloads, k, next, k');
  }

  // ----- whole transmissions -----

  /** The decoder r bytes into chunk k. */
  function At(salt: bytes, payloads: seq<bytes>, ws: seq<bytes>, k: nat, r: nat): Decoder
    requires k <= |payloads| == |ws|
  {
    var o := Outcome(payloads, ws, 0, k, r);
    Decoder(Some(salt), o.nonce, o.rest, o.payloads, false)
  }

  /** A keyed decoder receives: only the drain matters. */
  lemma ReceiveKeyed(d: Decoder, data: bytes, derive: bytes -> Cipher, r: Drain)
    requires d.salt.Some? && !d.failed && r == Drained(derive(d.salt.value), d.nonce, d.buf + data)
    ensures Receive(d, data, derive) == Decoder(d.salt, r.nonce, r.rest, d.out + r.payloads, !r.ok)
  {
  }

  /** Receiving more bytes r bytes into chunk k, a safe place. */
  lemma ReceiveAt(derive: bytes -> Cipher, salt: bytes, payloads: seq<bytes>, ws: seq<bytes>, sizes: seq<nat>,
                  k: nat, r: nat, data: bytes, more: nat)
    requires |payloads| == |ws| && Fits(ws, sizes) && k <= |ws| && Wired(derive(salt), payloads, ws, k)
    requires r < LENGTH_BLOCK && more <= |Tail(ws, k)|
    requires Prefix(Tail(ws, k), r) + data == Prefix(Tail(ws, k), more)
    ensures Receive(At(salt, payloads, ws, k, r), data, derive)
         == At(salt, payloads, ws, Reach(sizes, k, more), Rest(sizes, k, more))
  {
    hide Receive, Wired, Opens;
    var d, n := At(salt, payloads, ws, k, r), 2 * k;
    assert d.nonce == n && d.buf + data == Prefix(Tail(ws, k), more);
    DrainPrefix(derive(salt), payloads, ws, sizes, k, n, more);
    var k', r' := Reach(sizes, k, more), Rest(sizes, k, more);
    ReceiveKeyed(d, data, derive, Outcome(payloads, ws, k, k', r'));
    assert payloads[0..k] + payloads[k..k'] == payloads[0..k'];
  }

  /** The chunks are being received, and the cut so far is safe. */
  lemma ChunksInStep(derive: bytes -> Cipher, salt: bytes, payloads: seq<bytes>, ws: seq<bytes>, sizes: seq<nat>,
                     m: nat, data: bytes, end: nat)
    requires |payloads| == |ws| && Fits(ws, sizes) && Wired(derive(salt), payloads, ws, 0)
    requires m <= |Tail(ws, 0)| && data <= Tail(ws, 0)[m..] && end == m + |data|
    requires Rest(sizes, 0, m) < LENGTH_BLOCK
    ensures Receive(At(salt, payloads, ws, Reach(sizes, 0, m), Rest(sizes, 0, m)), data, derive)
         == At(salt, payloads, ws, Reach(sizes, 0, end), Rest(sizes, 0, end))
  {
    hide Receive, Wired, At;
    var k, r := Reach(sizes, 0, m), Rest(sizes, 0, m);
    var more := r + |data|;
    RestBytes(ws, sizes, 0, m);
    MoreOf(Tail(ws, 0), Tail(ws, k), m, r, data, more);
    WiredFrom(derive(salt), payloads, ws, 0, k);
    ReceiveAt(derive, salt, payloads, ws, sizes, k, r, data, more);
    CutsCompose(sizes, 0, m, end, more);
  }

  /** After an unsafe cut the next feed, whatever it brings, is fatal. */
  lemma UnsafeCutIsFatal(derive: bytes -> Cipher, salt: bytes, payloads: seq<bytes>, ws: seq<bytes>, sizes: seq<nat>,
                         m: nat, data: bytes)
    requires |payloads| == |ws| && Fits(ws, sizes) && Wired(derive(salt), payloads, ws, 0)
      && m <= |Tail(ws, 0)| && Rest(sizes, 0, m) >= LENGTH_BLOCK && AllOpenOnce(derive(salt), ws)
    ensures Receive(At(salt, payloads, ws, Reach(sizes, 0, m), Rest(sizes, 0, m)), data, derive).failed
  {
    var k, r := Reach(sizes, 0, m), Rest(sizes, 0, m);
    RestBytes(ws, sizes, 0, m);
    WiredFrom(derive(salt), payloads, ws, 0, k);
    var d, n, n' := At(salt, payloads, ws, k, r), 2 * k, 2 * k + 1;
    HeadOf(ws[k], Tail(ws, k + 1), r);
    assert d.nonce == n' && d.buf == ws[k][..r];
    assert Opens(derive(salt), n, payloads[k], ws[k]);
    DrainStuck(derive(salt), n, payloads[k], ws[k], r, data, n');
    ReceiveKeyed(d, data, derive, Drained(derive(salt), n', ws[k][..r] + data));
  }

  /** What the decoder must look like after the first total bytes of a stream. */
  function InStep(salt: bytes, payloads: seq<bytes>, ws: seq<bytes>, sizes: seq<nat>, total: nat): Decoder
    requires |payloads| == |ws| == |sizes|
  {
    if total < SALT then Decoder(None, 0, Prefix(salt, total), [], false)
    else var m := total - SALT; At(salt, payloads, ws, Reach(sizes, 0, m), Rest(sizes, 0, m))
  }

  /** The salt is being received. */
  lemma SaltInStep(derive: bytes -> Cipher, salt: bytes, payloads: seq<bytes>, ws: seq<bytes>, sizes: seq<nat>,
                   total: nat, data: bytes, end: nat)
    requires |salt| == SALT && |payloads| == |ws| && Fits(ws, sizes) && Wired(derive(salt), payloads, ws, 0)
    requires total < SALT && end == total + |data|
    requires salt[..total] + data <= salt + Tail(ws, 0)
    ensures Receive(Decoder(None, 0, salt[..total], [], false), data, derive)
         == InStep(salt, payloads, ws, sizes, end)
  {
    var buf := salt[..total] + data;
    if end < SALT {
      assert buf == (salt + Tail(ws, 0))[..end] == Prefix(salt, end);
    } else {
      var m := end - SALT;
      SaltSplits(salt, Tail(ws, 0), buf, m);
      DrainPrefix(derive(salt), payloads, ws, sizes, 0, 0, m);
      var k, r := Reach(sizes, 0, m), Rest(sizes, 0, m);
      ReceiveSalt(Decoder(None, 0, salt[..total], [], false), data, derive, salt, Outcome(payloads, ws, 0, k, r));
      NothingBefore(payloads[0..k]);
      InStepAt(salt, payloads, ws, sizes, end, m);
    }
  }

  lemma SaltSplits(salt: bytes, tail: bytes, buf: bytes, m: nat)
    requires |salt| == SALT && |buf| == SALT + m && buf <= salt + tail
    ensures buf[..SALT] == salt && buf[SALT..] == Prefix(tail, m)
  {
    assert buf == (salt + tail)[..SALT + m];
  }

  /** The salt is complete: the cipher is fixed and the rest is drained. */
  lemma ReceiveSalt(d: Decoder, data: bytes, derive: bytes -> Cipher, salt: bytes, r: Drain)
    requires d.salt.None? && !d.failed && |d.buf + data| >= SALT && (d.buf + data)[..SALT] == salt
    requires r == Drained(derive(salt), d.nonce, (d.buf + data)[SALT..])
    ensures Receive(d, data, derive) == Decoder(Some(salt), r.nonce, r.rest, d.out + r.payloads, !r.ok)
  {
  }

  /** One more feed after a safe cut behind the salt. */
  lemma FeedInStep(derive: bytes -> Cipher, salt: bytes, payloads: seq<bytes>, ws: seq<bytes>, sizes: seq<nat>,
                   d: Decoder, received: bytes, data: bytes, total: nat, end: nat)
    requires |salt| == SALT && |payloads| == |ws| && Fits(ws, sizes) && Wired(derive(salt), payloads, ws, 0)
    requires SALT <= total == |received| && end == total + |data| && received + data <= salt + Tail(ws, 0)
    requires SafeCut(sizes, total) && d == InStep(salt, payloads, ws, sizes, total)
    ensures Receive(d, data, derive) == InStep(salt, payloads, ws, sizes, end)
  {
    NextPiece(salt, Tail(ws, 0), received, data);
    var m, m' := total - SALT, end - SALT;
    InStepAt(salt, payloads, ws, sizes, total, m);
    ChunksInStep(derive, salt, payloads, ws, sizes, m, data, m');
    InStepAt(salt, payloads, ws, sizes, end, m');
  }

  lemma InStepAt(salt: bytes, payloads: seq<bytes>, ws: seq<bytes>, sizes: seq<nat>, total: nat, m: nat)
    requires |payloads| == |ws| == |sizes| && total == SALT + m
    ensures InStep(salt, payloads, ws, sizes, total) == At(salt, payloads, ws, Reach(sizes, 0, m), Rest(sizes, 0, m))
    ensures SafeCut(sizes, total) <==> Rest(sizes, 0, m) < LENGTH_BLOCK
  {
    assert m == total - SALT;
  }

  /** As long as all cuts so far were safe, the decoder is in step. */
  lemma {:induction false} ReceivingInStep(feeds: seq<bytes>, derive: bytes -> Cipher, salt: bytes,
                                           payloads: seq<bytes>, ws: seq<bytes>, sizes: seq<nat>)
    requires |salt| == SALT && |payloads| == |ws| && Fits(ws, sizes) && Wired(derive(salt), payloads, ws, 0)
    requires SafeFeeds(sizes, feeds) && Join(feeds) <= salt + Tail(ws, 0)
    ensures ReceiveAll(feeds, derive) == InStep(salt, payloads, ws, sizes, |Join(feeds)|)
  {
    if feeds == [] {
      assert Prefix(salt, 0) == [];
    } else {
      var n := |feeds| - 1;
      var before, data := feeds[..n], feeds[n];
      assert feeds == before + [data];
      JoinSnoc(before, data);
      assert forall i :: 0 <= i < n ==> before[..i] == feeds[..i];
      ReceivingInStep(before, derive, salt, payloads, ws, sizes);
      var received := Join(before);
      var total, end := |received|, |Join(feeds)|;
      assert SafeCut(sizes, total);
      if total < SALT {
        assert received == salt[..total] == Prefix(salt, total);
        SaltInStep(derive, salt, payloads, ws, sizes, total, data, end);
      } else {
        FeedInStep(derive, salt, payloads, ws, sizes, ReceiveAll(before, derive), received, data, total, end);
      }
    }
  }

  lemma NextPiece(salt: bytes, chunks: bytes, received: bytes, data: bytes)
    requires |salt| == SALT <= |received| && received + data <= salt + chunks
    ensures |received| - SALT <= |chunks| && data <= chunks[|received| - SALT..]
  {
    var end := |received| + |data|;
    assert data == (received + data)[|received|..];
    assert (salt + chunks)[..end][|received|..] == chunks[|received| - SALT..end - SALT];
  }

  lemma {:induction false} FailureLasts(feeds: seq<bytes>, i: nat, derive: bytes -> Cipher)
    requires i <= |feeds| && ReceiveAll(feeds[..i], derive).failed
    ensures ReceiveAll(feeds, derive).failed
    decreases |feeds| - i
  {
    if i == |feeds| {
      assert feeds[..i] == feeds;
    } else {
      assert feeds[..i + 1][..i] == feeds[..i];
      FailureLasts(feeds, i + 1, derive);
    }
  }

  /** The first unsafe boundary. */
  lemma FirstUnsafe(sizes: seq<nat>, feeds: seq<bytes>) returns (i: nat)
    requires !SafeFeeds(sizes, feeds)
    ensures i < |feeds| && SafeFeeds(sizes, feeds[..i])
    ensures var total := |Join(feeds[..i])|; total >= SALT && Rest(sizes, 0, total - SALT) >= LENGTH_BLOCK
  {
    i := 0;
    while SafeCut(sizes, |Join(feeds[..i])|)
      invariant i < |feeds|
      invariant forall j :: 0 <= j < i ==> SafeCut(sizes, |Join(feeds[..j])|)
      decreases |feeds| - i
    {
      i := i + 1;
    }
    assert forall j :: 0 <= j < i ==> feeds[..i][..j] == feeds[..j];
  }

  /** Chunks within the limit, and not more of them than there are nonces. */
  ghost predicate Sendable(payloads: seq<bytes>) {
    && 2 * |payloads| <= NONCES
    && forall i :: 0 <= i < |payloads| ==> |payloads[i]| <= 0x3FFF
  }

  lemma {:induction false} WireOpens(c: Cipher, payloads: seq<bytes>, ws: seq<bytes>, k: nat)
    requires Sound(c) && Sendable(payloads) && k <= |payloads| == |ws|
    requires forall i :: 0 <= i < |ws| ==> ws[i] == Chunk(c, 2 * i, payloads[i])
    ensures Wired(c, payloads, ws, k)
    decreases |payloads| - k
  {
    if k < |payloads| {
      ChunkOpens(c, 2 * k, payloads[k]);
      WireOpens(c, payloads, ws, k + 1);
    }
  }

  lemma WireFits(c: Cipher, payloads: seq<bytes>)
    requires Sound(c) && Sendable(payloads)
    ensures Fits(Wire(c, payloads), Sizes(payloads))
  {
  }

  lemma WireOpensOnce(c: Cipher, payloads: seq<bytes>)
    requires Lawful(c) && Sendable(payloads)
    ensures AllOpenOnce(c, Wire(c, payloads))
  {
    forall k | 0 <= k < |payloads|
      ensures OpensOnce(c, 2 * k, Wire(c, payloads)[k])
    {
      ChunkOpens(c, 2 * k, payloads[k]);
    }
  }

  /** The round trip, exactly characterised.  A transmission of payloads within
      the chunk limit, cut into feeds anyhow, is decoded to those payloads in
      order, with nothing left over and both counters equal, if every boundary
      between feeds is a safe cut.  If some boundary is not, decoding fails, for a
      cipher that rejects what was sealed under another nonce. */
  lemma RoundTripIff(feeds: seq<bytes>, derive: bytes -> Cipher, salt: bytes, payloads: seq<bytes>)
    requires |salt| == SALT && Sound(derive(salt)) && Sendable(payloads)
    requires Join(feeds) == salt + Join(Wire(derive(salt), payloads))
    ensures var d := ReceiveAll(feeds, derive);
            if SafeFeeds(Sizes(payloads), feeds)
            then d == Decoder(Some(salt), 2 * |payloads|, [], payloads, false)
            else Rejects(derive(salt)) ==> d.failed
  {
    var c, ws, sizes := derive(salt), Wire(derive(salt), payloads), Sizes(payloads);
    WireOpens(c, payloads, ws, 0);
    WireFits(c, payloads);
    TailIsJoin(ws, 0);
    assert ws[0..] == ws;
    if SafeFeeds(sizes, feeds) {
      SafeFeedsDecode(feeds, derive, salt, payloads, ws, sizes);
    } else if Rejects(c) {
      WireOpensOnce(c, payloads);
      UnsafeFeedsFail(feeds, derive, salt, payloads, ws, sizes);
    }
  }

  lemma SafeFeedsDecode(feeds: seq<bytes>, derive: bytes -> Cipher, salt: bytes,
                        payloads: seq<bytes>, ws: seq<bytes>, sizes: seq<nat>)
    requires |salt| == SALT && |payloads| == |ws| && Fits(ws, sizes) && Wired(derive(salt), payloads, ws, 0)
    requires SafeFeeds(sizes, feeds) && Join(feeds) == salt + Tail(ws, 0)
    ensures ReceiveAll(feeds, derive) == Decoder(Some(salt), 2 * |payloads|, [], payloads, false)
  {
    ReceivingInStep(feeds, derive, salt, payloads, ws, sizes);
    var total, m := |Join(feeds)|, |Tail(ws, 0)|;
    InStepAt(salt, payloads, ws, sizes, total, m);
    AllComplete(ws, sizes, 0);
    assert payloads[0..|payloads|] == payloads;
  }

  lemma UnsafeFeedsFail(feeds: seq<bytes>, derive: bytes -> Cipher, salt: bytes,
                        payloads: seq<bytes>, ws: seq<bytes>, sizes: seq<nat>)
    requires |salt| == SALT && |payloads| == |ws| && Fits(ws, sizes) && Wired(derive(salt), payloads, ws, 0)
    requires !SafeFeeds(sizes, feeds) && Join(feeds) == salt + Tail(ws, 0) && AllOpenOnce(derive(salt), ws)
    ensures ReceiveAll(feeds, derive).failed
  {
    hide Wired, AllOpenOnce, SafeFeeds, Fits, ReceiveAll, Tail, Join, Rest, Reach;
    var i := FirstUnsafe(sizes, feeds);
    var before := feeds[..i];
    assert feeds == before + feeds[i..];
    JoinAppend(before, feeds[i..]);
    PrefixOf(Join(before), Join(feeds[i..]), salt, Tail(ws, 0));
    assert feeds[..i + 1] == before + [feeds[i]];
    FailsBehind(before, feeds[i], feeds[..i + 1], derive, salt, payloads, ws, sizes, |Join(before)| - SALT);
    FailureLasts(feeds, i + 1, derive);
  }

  lemma PrefixOf(received: bytes, more: bytes, salt: bytes, chunks: bytes)
    requires received + more == salt + chunks
    ensures received <= salt + chunks && |received| <= |salt| + |chunks|
  {
    assert (received + more)[..|received|] == received;
  }

  /** The feed after the first unsafe cut fails. */
  lemma FailsBehind(before: seq<bytes>, data: bytes, feeds: seq<bytes>, derive: bytes -> Cipher, salt: bytes,
                    payloads: seq<bytes>, ws: seq<bytes>, sizes: seq<nat>, m: nat)
    requires |salt| == SALT && |payloads| == |ws| && Fits(ws, sizes) && Wired(derive(salt), payloads, ws, 0)
    requires SafeFeeds(sizes, before) && Join(before) <= salt + Tail(ws, 0) && |Join(before)| == SALT + m
    requires m <= |Tail(ws, 0)| && Rest(sizes, 0, m) >= LENGTH_BLOCK && AllOpenOnce(derive(salt), ws)
    requires feeds == before + [data]
    ensures ReceiveAll(feeds, derive).failed
  {
    hide Wired, AllOpenOnce, SafeFeeds, Tail, Join, Receive, At, InStep, Rest, Reach;
    ReceivingInStep(before, derive, salt, payloads, ws, sizes);
    InStepAt(salt, payloads, ws, sizes, |Join(before)|, m);
    UnsafeCutIsFatal(derive, salt, payloads, ws, sizes, m, data);
    assert feeds[..|feeds| - 1] == before;
  }

  // ----- two objects -----

  lemma PiecesJoin(salt: bytes, ws: seq<bytes>)
    requires ws != []
    ensures Join(Pieces(salt, ws)) == salt + Join(ws)
  {
    assert Pieces(salt, ws)[1..] == ws[1..];
    assert salt + ws[0] + Join(ws[1..]) == salt + (ws[0] + Join(ws[1..]));
  }

  /** Whole chunks leave nothing behind them. */
  lemma {:induction false} RestOfWhole(ws: seq<bytes>, sizes: seq<nat>, k: nat, i: nat)
    requires Fits(ws, sizes) && k <= i <= |ws| && forall j :: 0 <= j < |sizes| ==> sizes[j] > 0
    ensures Rest(sizes, k, |Join(ws[k..i])|) == 0
    decreases i - k
  {
    if k < i {
      assert ws[k..i][1..] == ws[k + 1..i];
      RestOfWhole(ws, sizes, k + 1, i);
    }
  }

  /** Messages that arrive as they were sent are always cut safely. */
  lemma PiecesAreSafe(c: Cipher, salt: bytes, payloads: seq<bytes>)
    requires |salt| == SALT && Sound(c) && Sendable(payloads)
    ensures SafeFeeds(Sizes(payloads), Pieces(salt, Wire(c, payloads)))
  {
    var ws, sizes := Wire(c, payloads), Sizes(payloads);
    var pieces := Pieces(salt, ws);
    WireFits(c, payloads);
    forall i | 0 <= i < |pieces|
      ensures SafeCut(sizes, |Join(pieces[..i])|)
    {
      if i > 0 {
        assert pieces[..i] == Pieces(salt, ws[..i]) && ws[..i] == ws[0..i];
        PiecesJoin(salt, ws[..i]);
        RestOfWhole(ws, sizes, 0, i);
      }
    }
  }

  lemma {:induction false} NothingReceived(feeds: seq<bytes>, derive: bytes -> Cipher)
    requires Join(feeds) == []
    ensures ReceiveAll(feeds, derive) == FRESH
  {
    if feeds != [] {
      var n := |feeds| - 1;
      assert feeds == feeds[..n] + [feeds[n]];
      JoinSnoc(feeds[..n], feeds[n]);
      NothingReceived(feeds[..n], derive);
    }
  }

  /** A sender and a receiver with the same key.  The network cuts what was sent
      anew, if cut says so; the receiver ends with the payloads in order, exactly
      those nonces used that the sender used, if every cut is safe, and has failed
      otherwise if its cipher rejects foreign nonces. */
  method Transmit(sender: AEADStream, receiver: AEADStream, payloads: seq<bytes>, cut: seq<bytes> -> seq<bytes>)
      returns (ok: bool)
    requires sender != receiver && sender.derive == receiver.derive && |sender.encSalt| == SALT
    requires sender.NoncesFresh() && sender.used == [] && !sender.encSaltSent && receiver.Decoding() == FRESH
    requires Sound(sender.derive(sender.encSalt)) && Sendable(payloads)
    requires forall pieces: seq<bytes> :: Join(cut(pieces)) == Join(pieces)
    modifies sender, receiver
    ensures var c := sender.derive(sender.encSalt);
            var feeds := cut(Pieces(sender.encSalt, Wire(c, payloads)));
            if payloads == [] then receiver.Decoding() == FRESH
            else if SafeFeeds(Sizes(payloads), feeds)
            then receiver.Decoding() == Decoder(Some(sender.encSalt), sender.encNonce, [], payloads, false)
            else Rejects(c) ==> receiver.failed
    ensures ok == !receiver.failed
  {
    hide Sound, Rejects, Wire, Pieces, SafeFeeds, ReceiveAll;
    var pieces := sender.EncryptAll(payloads);
    var feeds := cut(pieces);
    ok := receiver.DecryptAll(feeds);
    Arrived(feeds, sender.derive, sender.encSalt, payloads);
  }

  /** What comes of the pieces of a transmission, cut anew. */
  lemma Arrived(feeds: seq<bytes>, derive: bytes -> Cipher, salt: bytes, payloads: seq<bytes>)
    requires |salt| == SALT && Sound(derive(salt)) && Sendable(payloads)
    requires Join(feeds) == Join(Pieces(salt, Wire(derive(salt), payloads)))
    ensures var d := ReceiveAll(feeds, derive);
            if payloads == [] then d == FRESH
            else if SafeFeeds(Sizes(payloads), feeds)
            then d == Decoder(Some(salt), 2 * |payloads|, [], payloads, false)
            else Rejects(derive(salt)) ==> d.failed
  {
    if payloads == [] {
      NothingReceived(feeds, derive);
    } else {
      PiecesJoin(salt, Wire(derive(salt), payloads));
      RoundTripIff(feeds, derive, salt, payloads);
    }
  }
}
