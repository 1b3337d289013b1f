/** Nonce layout and the authenticated cipher of section 2.8 of RFC 8439 as a matched pair. */
module Aead {
  import opened Basics

  const NONCE_LENGTH: nat := 12
  const PREFIX_LENGTH: nat := 4
  const TAG_LENGTH: nat := 16

  type Key = Bytes

  /** Big-endian digits, most significant byte first, as `to_be_bytes` writes them. */
  function BigEndian(v: nat, width: nat): (s: Bytes)
    ensures |s| == width
  {
    if width == 0 then [] else BigEndian(v / 256, width - 1) + [v % 256]
  }

  function FromBigEndian(s: Bytes): nat {
    if s == [] then 0 else 256 * FromBigEndian(s[..|s| - 1]) + s[|s| - 1]
  }

  function Pow256(width: nat): (p: nat)
    ensures p > 0
  {
    if width == 0 then 1 else 256 * Pow256(width - 1)
  }

  lemma Pow256Values()
    ensures Pow256(4) == U32_MODULUS && Pow256(8) == U64_MODULUS
  {
    assert Pow256(2) == 0x1_0000;
    assert Pow256(4) == 256 * (256 * Pow256(2));
    assert Pow256(6) == 256 * (256 * Pow256(4));
    assert Pow256(8) == 256 * (256 * Pow256(6));
  }

  lemma {:induction false} BigEndianRoundTrip(v: nat, width: nat)
    requires v < Pow256(width)
    ensures FromBigEndian(BigEndian(v, width)) == v
  {
    if width > 0 {
      BigEndianRoundTrip(v / 256, width - 1);
      assert BigEndian(v, width)[..width - 1] == BigEndian(v / 256, width - 1);
    }
  }

  /** The receiver cannot read a length that the field does not hold. */
  lemma {:induction false} FromBigEndianBound(s: Bytes)
    ensures FromBigEndian(s) < Pow256(|s|)
    ensures BigEndian(FromBigEndian(s), |s|) == s
  {
    if s != [] {
      var n := |s| - 1;
      FromBigEndianBound(s[..n]);
      assert FromBigEndian(s) / 256 == FromBigEndian(s[..n]) && FromBigEndian(s) % 256 == s[n];
      assert s == s[..n] + [s[n]];
    }
  }

  function BuildNonce(prefix: Bytes, counter: nat): (nonce: Bytes)
    ensures |nonce| == |prefix| + 8
  {
    prefix + BigEndian(counter, 8)
  }

  /** Within a session, which has one prefix, two nonces agree only when their 64-bit counters do. */
  lemma NonceInjective(prefix: Bytes, i: nat, j: nat)
    requires i < U64_MODULUS && j < U64_MODULUS
    ensures BuildNonce(prefix, i) == BuildNonce(prefix, j) <==> i == j
    ensures |prefix| == PREFIX_LENGTH ==> |BuildNonce(prefix, i)| == NONCE_LENGTH
  {
    Pow256Values();
    BigEndianRoundTrip(i, 8);
    BigEndianRoundTrip(j, 8);
    assert BuildNonce(prefix, i)[|prefix|..] == BigEndian(i, 8);
    assert BuildNonce(prefix, j)[|prefix|..] == BigEndian(j, 8);
  }

  /** A ciphertext is identified by the key, nonce and body that made it. */
  datatype Sealed<T> = Sealed(key: Key, nonce: Bytes, body: T)

  function Encrypt<T>(key: Key, nonce: Bytes, body: T): Sealed<T> {
    Sealed(key, nonce, body)
  }

  /** Opens only under the very key and nonce that sealed. */
  function Decrypt<T>(key: Key, nonce: Bytes, sealed: Sealed<T>): Option<T> {
    if sealed.key == key && sealed.nonce == nonce then Some(sealed.body) else None
  }

  // ---- layouts, byte by byte ----

  /** Digit k from the right. */
  lemma {:induction false} BigEndianDigit(v: nat, width: nat, k: nat)
    requires k < width
    ensures BigEndian(v, width)[width - 1 - k] == v / Pow256(k) % 256
  {
    if k > 0 {
      BigEndianDigit(v / 256, width - 1, k - 1);
      DivideTwice(v, Pow256(k - 1));
    }
  }

  lemma DivideTwice(v: nat, d: nat)
    requires d > 0
    ensures v / 256 / d == v / (256 * d)
  {
    var q := v / 256 / d;
    var r := v / 256 % d;
    assert v / 256 == q * d + r;
    assert v == 256 * (q * d + r) + v % 256;
    assert v == q * (256 * d) + (256 * r + v % 256);
    assert 256 * r + v % 256 < 256 * d;
    QuotientIs(v, 256 * d, q, 256 * r + v % 256);
  }

  lemma QuotientIs(a: nat, d: nat, q: nat, r: nat)
    requires r < d && a == q * d + r
    ensures a / d == q
  {
    var q', r' := a / d, a % d;
    assert a == q' * d + r' && (q - q') * d == q * d - q' * d;
    if q > q' { AtLeastOnce(q - q', d); }
    if q < q' { AtLeastOnce(q' - q, d); }
  }

  lemma AtLeastOnce(k: nat, d: nat)
    requires k >= 1
    ensures k * d >= d
  {
    assert k * d == d + (k - 1) * d;
  }

  /** The nonce: the prefix, then the 64-bit counter with its most significant byte first. */
  lemma NonceLayout(prefix: Bytes, counter: nat, k: nat)
    requires |prefix| == PREFIX_LENGTH && k < 8
    ensures var nonce := BuildNonce(prefix, counter);
            |nonce| == 12 && nonce[..4] == prefix && nonce[11 - k] == counter / Pow256(k) % 256
  {
    BigEndianDigit(counter, 8, k);
    assert BuildNonce(prefix, counter)[11 - k] == BigEndian(counter, 8)[7 - k];
  }
}
