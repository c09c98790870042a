/** The little-endian byte layout that `paintAsType` uses for integer constants:
    byte `p` of a value holds its bits `8p .. 8p+7`. The shifts and masks of the
    C code are written here as division and remainder by powers of 256, and the
    `|=` that gathers bytes as addition (the bytes never overlap). */
module ByteCodec {
  import opened Platform

  /** 2^64: `dinteger_t` is a 64-bit unsigned integer. */
  const Two64: nat := 0x1_0000_0000_0000_0000

  type uint64 = x: int | 0 <= x < Two64

  /** 256^n, that is 2^(8n). */
  function Pow256(n: nat): (r: nat)
    ensures r > 0
  {
    if n == 0 then 1 else 256 * Pow256(n - 1)
  }

  lemma {:induction false} Pow256Monotone(m: nat, n: nat)
    requires m <= n
    ensures Pow256(m) <= Pow256(n)
  {
    if m < n {
      Pow256Monotone(m, n - 1);
    }
  }

  /** An encoding of at most eight bytes stays within `dinteger_t`. */
  lemma Pow256AtMost8(n: nat)
    requires n <= 8
    ensures Pow256(n) <= Two64
  {
    Pow256Monotone(n, 8);
    assert Pow256(8) == Two64;
  }

  /** The `size` low-order bytes of `value`, least significant first. */
  function Encoded(value: nat, size: nat): (s: seq<uint8>)
    ensures |s| == size
  {
    if size == 0 then [] else [(value % 256) as uint8] + Encoded(value / 256, size - 1)
  }

  /** The value of a little-endian byte sequence; it fits in `|s|` bytes. */
  function Decoded(s: seq<uint8>): (v: nat)
    ensures v < Pow256(|s|)
  {
    if |s| == 0 then 0 else s[0] as nat + 256 * Decoded(s[1..])
  }

  lemma MulLeft(a: nat, b: nat, c: nat)
    requires a <= b
    ensures a * c <= b * c
  {
  }

  /** Quotient and remainder are determined by the defining equation. */
  lemma DivModUnique(x: int, d: int, q: int, r: int)
    requires d > 0 && 0 <= r < d && x == q * d + r
    ensures x / d == q && x % d == r
  {
    var q0, r0 := x / d, x % d;
    assert (q - q0) * d == r0 - r;
    if q > q0 {
      MulLeft(1, q - q0, d);
    } else if q < q0 {
      MulLeft(1, q0 - q, d);
    }
  }

  /** Dividing by a*b is dividing by a and then by b; the remainder by a*b is the
      remainder by a plus the next digit in base b. */
  lemma DivModSplit(v: nat, a: nat, b: nat)
    requires a > 0 && b > 0
    ensures v / (a * b) == (v / a) / b
    ensures v % (a * b) == v % a + ((v / a) % b) * a
  {
    var q, r := v / a, v % a;
    var q2, r2 := q / b, q % b;
    assert v == q2 * (a * b) + (r2 * a + r) by {
      assert v == q * a + r;
      assert q == q2 * b + r2;
      assert q * a == (q2 * b) * a + r2 * a;
    }
    assert r2 * a + r < a * b by {
      MulLeft(r2, b - 1, a);
    }
    DivModUnique(v, a * b, q2, r2 * a + r);
  }

  /** Byte p of an encoding is `(value >> (p * 8)) & 0xFF`. */
  lemma {:induction false} EncodedAt(value: nat, size: nat, p: nat)
    requires p < size
    ensures Encoded(value, size)[p] as int == (value / Pow256(p)) % 256
  {
    if p > 0 {
      EncodedAt(value / 256, size - 1, p - 1);
      DivModSplit(value, 256, Pow256(p - 1));
    }
  }

  /** Appending the most significant byte adds it at weight 256^|s|. */
  lemma {:induction false} DecodedAppend(s: seq<uint8>, b: uint8)
    ensures Decoded(s + [b]) == Decoded(s) + b as nat * Pow256(|s|)
  {
    if |s| > 0 {
      var rest := s[1..];
      var lower := Pow256(|s| - 1);
      assert (s + [b])[0] == s[0] && (s + [b])[1..] == rest + [b];
      DecodedAppend(rest, b);
      assert Pow256(|s|) == 256 * lower;
      ScaleWeight(b as nat, lower);
    }
  }

  lemma ScaleWeight(x: nat, y: nat)
    ensures 256 * (x * y) == x * (256 * y)
  {
  }

  /** Decoding the n-byte encoding of v gives v modulo 2^(8n). */
  lemma {:induction false} DecodeEncode(v: nat, n: nat)
    ensures Decoded(Encoded(v, n)) == v % Pow256(n)
  {
    if n > 0 {
      assert Encoded(v, n)[1..] == Encoded(v / 256, n - 1);
      DecodeEncode(v / 256, n - 1);
      DivModSplit(v, 256, Pow256(n - 1));
    }
  }

  /** A value that fits in n bytes survives encoding and decoding unchanged. */
  lemma DecodeEncodeFits(v: nat, n: nat)
    requires v < Pow256(n)
    ensures Decoded(Encoded(v, n)) == v
  {
    DecodeEncode(v, n);
    DivModUnique(v, Pow256(n), 0, v);
  }

  /** Two byte sequences of one length with the same value are equal. */
  lemma {:induction false} DecodedInjective(s: seq<uint8>, t: seq<uint8>)
    requires |s| == |t| && Decoded(s) == Decoded(t)
    ensures s == t
  {
    if |s| > 0 {
      DecodedInjective(s[1..], t[1..]);
      assert s == [s[0]] + s[1..];
      assert t == [t[0]] + t[1..];
    }
  }

  /** Encoding a decoded byte sequence to its own length gives it back. */
  lemma {:induction false} EncodeDecode(s: seq<uint8>)
    ensures Encoded(Decoded(s), |s|) == s
  {
    if |s| > 0 {
      var v, high := Decoded(s), Decoded(s[1..]);
      assert v % 256 == s[0] as int && v / 256 == high;
      EncodeDecode(s[1..]);
      assert Encoded(v, |s|) == [s[0]] + Encoded(high, |s| - 1);
      assert s == [s[0]] + s[1..];
    }
  }
}
