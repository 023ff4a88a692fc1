/** Values shared by every component of the model: optional values, bytes,
    big-endian integers and the joining of byte chunks. */
module Prelude {

  datatype Option<+T> = None | Some(value: T)

  type byte = x: int | 0 <= x < 256

  type bytes = seq<byte>

  function Min(a: int, b: int): int {
    if a <= b then a else b
  }

  function Max(a: int, b: int): int {
    if a >= b then a else b
  }

  // ----- arithmetic -----

  lemma MulLe(a: int, b: int, m: nat)
    requires a <= b
    ensures a * m <= b * m
  {
  }

  lemma ProductNonNegative(a: real, b: real)
    requires a >= 0.0 && b >= 0.0
    ensures a * b >= 0.0
  {
  }

  lemma ProductMonotone(a: real, b: real, x: real, y: real)
    requires 0.0 <= a <= x && 0.0 <= b <= y
    ensures a * b <= x * y
  {
    ProductNonNegative(x - a, b);
    ProductNonNegative(x, y - b);
    assert x * y - a * b == (x - a) * b + x * (y - b);
  }

  /** Quotient and remainder are unique. */
  lemma ModOf(q: int, r: nat, m: nat)
    requires r < m
    ensures (q * m + r) % m == r && (q * m + r) / m == q
  {
    var n := q * m + r;
    var k := n / m;
    assert n == k * m + n % m;
    if k > q {
      MulLe(q + 1, k, m);
    } else if k < q {
      MulLe(k + 1, q, m);
    }
  }

  // ----- joining chunks (Python's b"".join) -----

  function Join<T>(parts: seq<seq<T>>): seq<T> {
    if parts == [] then [] else parts[0] + Join(parts[1..])
  }

  lemma {:induction false} JoinAppend<T>(a: seq<seq<T>>, b: seq<seq<T>>)
    ensures Join(a + b) == Join(a) + Join(b)
  {
    if a == [] {
      assert a + b == b;
    } else {
      assert (a + b)[0] == a[0] && (a + b)[1..] == a[1..] + b;
      JoinAppend(a[1..], b);
    }
  }

  lemma JoinSnoc<T>(a: seq<seq<T>>, x: seq<T>)
    ensures Join(a + [x]) == Join(a) + x
  {
    JoinAppend(a, [x]);
    assert [x][1..] == [];
  }

  /** Empty chunks contribute nothing to the joined stream. */
  function NonEmpty<T>(parts: seq<seq<T>>): seq<seq<T>> {
    if parts == [] then []
    else if parts[0] == [] then NonEmpty(parts[1..])
    else [parts[0]] + NonEmpty(parts[1..])
  }

  lemma {:induction false} JoinNonEmpty<T>(parts: seq<seq<T>>)
    ensures Join(NonEmpty(parts)) == Join(parts)
    ensures forall p :: p in NonEmpty(parts) ==> p in parts && p != []
  {
    if parts != [] {
      JoinNonEmpty(parts[1..]);
      if parts[0] != [] {
        assert NonEmpty(parts)[1..] == NonEmpty(parts[1..]);
      }
    }
  }

  // ----- big-endian integers (int.to_bytes / int.from_bytes) -----

  function Pow256(k: nat): (p: nat)
    ensures p > 0
  {
    if k == 0 then 1 else 256 * Pow256(k - 1)
  }

  /** The k low-order bytes of n, most significant first. */
  function BigEndian(n: nat, k: nat): (b: bytes)
    ensures |b| == k
  {
    if k == 0 then [] else BigEndian(n / 256, k - 1) + [n % 256]
  }

  function FromBigEndian(b: bytes): nat {
    if b == [] then 0 else 256 * FromBigEndian(b[..|b| - 1]) + b[|b| - 1]
  }

  /** Encoding in k bytes is undone by decoding whenever n fits in k bytes. */
  lemma {:induction false} BigEndianRoundTrip(n: nat, k: nat)
    requires n < Pow256(k)
    ensures FromBigEndian(BigEndian(n, k)) == n
  {
    if k > 0 {
      BigEndianRoundTrip(n / 256, k - 1);
      assert BigEndian(n, k)[..k - 1] == BigEndian(n / 256, k - 1);
    }
  }

  lemma Pow256Values()
    ensures Pow256(1) == 256
    ensures Pow256(2) == 65536
    ensures Pow256(3) == 16777216
    ensures Pow256(4) == 4294967296
    ensures Pow256(8) == 18446744073709551616
  {
    assert Pow256(2) == 256 * Pow256(1);
    assert Pow256(4) == 256 * Pow256(3);
    assert Pow256(6) == 256 * Pow256(5);
  }

  /** Two, three, four and eight bytes of a number, most significant first. */
  lemma BigEndianBytes(n: nat)
    ensures BigEndian(n, 2) == [n / 256 % 256, n % 256]
    ensures BigEndian(n, 3) == [n / 65536 % 256, n / 256 % 256, n % 256]
    ensures BigEndian(n, 4) == [n / 16777216 % 256, n / 65536 % 256, n / 256 % 256, n % 256]
    ensures n < 16777216 ==> BigEndian(n, 8) == [0, 0, 0, 0, 0, n / 65536, n / 256 % 256, n % 256]
  {
    var a, b, c := n / 256, n / 65536, n / 16777216;
    assert a / 256 == b && b / 256 == c;
    assert BigEndian(c, 1) == [c % 256] && BigEndian(b, 1) == [b % 256] && BigEndian(a, 1) == [a % 256];
    assert BigEndian(b, 2) == [c % 256, b % 256] && BigEndian(a, 2) == [b % 256, a % 256];
    assert BigEndian(a, 3) == [c % 256, b % 256, a % 256];
    if n < 16777216 {
      assert c == 0 && BigEndian(0, 5) == [0, 0, 0, 0, 0] by {
        assert BigEndian(0, 1) == [0] && BigEndian(0, 2) == [0, 0] && BigEndian(0, 3) == [0, 0, 0];
        assert BigEndian(0, 4) == [0, 0, 0, 0];
      }
      assert BigEndian(b, 6) == [0, 0, 0, 0, 0, b];
      assert BigEndian(a, 7) == [0, 0, 0, 0, 0, b, a % 256];
    }
  }

  lemma TwoBytes(n: nat)
    requires n < 65536
    ensures BigEndian(n, 2) == [n / 256, n % 256]
  {
    var a := n / 256;
    assert BigEndian(a, 1) == [a % 256] && a % 256 == a;
  }

  lemma ThreeBytes(n: nat)
    requires n < 16777216
    ensures BigEndian(n, 3) == [n / 65536, n / 256 % 256, n % 256]
  {
    hide BigEndian;
    BigEndianBytes(n);
  }

  lemma FourBytes(n: nat)
    requires n < 16777216
    ensures BigEndian(n, 4) == [0, n / 65536, n / 256 % 256, n % 256]
  {
    hide BigEndian;
    BigEndianBytes(n);
  }

  /** The 16-bit value of a high and a low byte. */
  function Word(hi: nat, lo: nat): nat {
    256 * hi + lo
  }

  lemma TwoByteValue(b: bytes)
    requires |b| == 2
    ensures FromBigEndian(b) == Word(b[0], b[1])
  {
    assert b[..1][..0] == [];
    assert FromBigEndian(b[..1]) == b[0];
  }
}
