/** Bytes in memory: overwriting a stretch of them, and little-endian numbers. */
module Bytes {
  type Byte = n: nat | n < 256

  // memcpy of `data` to offset `at`.
  function Splice(bytes: seq<Byte>, at: nat, data: seq<Byte>): (r: seq<Byte>)
    requires at + |data| <= |bytes|
    ensures |r| == |bytes|
  {
    bytes[..at] + data + bytes[at + |data|..]
  }

  // The low bytes of a number, the lowest first: what memcpy leaves of it on a little-endian machine.
  function Encode(n: nat, bytes: nat): (s: seq<Byte>)
    ensures |s| == bytes
  {
    if bytes == 0 then [] else [n % 256] + Encode(n / 256, bytes - 1)
  }

  function Decode(s: seq<Byte>): nat {
    if s == [] then 0 else s[0] + 256 * Decode(s[1..])
  }

  function Power(bytes: nat): nat {
    if bytes == 0 then 1 else 256 * Power(bytes - 1)
  }

  lemma {:induction false} DecodeSmall(s: seq<Byte>)
    ensures Decode(s) < Power(|s|)
  {
    if s != [] {
      DecodeSmall(s[1..]);
    }
  }

  // A number survives exactly when it fits.
  lemma {:induction false} CodeRoundTrip(n: nat, bytes: nat)
    ensures Decode(Encode(n, bytes)) == n <==> n < Power(bytes)
  {
    if bytes == 0 {
    } else {
      CodeRoundTrip(n / 256, bytes - 1);
      var s := Encode(n, bytes);
      assert s[1..] == Encode(n / 256, bytes - 1);
      assert Decode(s) == n % 256 + 256 * Decode(s[1..]);
      if Decode(s) != n {
        DecodeSmall(s);
      }
    }
  }

  lemma QuotientOfQuotient(n: nat, d: nat)
    requires d > 0
    ensures n / 256 / d == n / (256 * d)
  {
    var q, r := n / 256 / d, n / 256 % d;
    assert n / 256 == q * d + r;
    assert n == 256 * (q * d + r) + n % 256 == q * (256 * d) + (256 * r + n % 256);
    assert 0 <= 256 * r + n % 256 < 256 * d;
    QuotientIs(n, 256 * d, q, 256 * r + n % 256);
  }

  lemma QuotientIs(n: nat, d: nat, q: nat, r: nat)
    requires r < d && n == q * d + r
    ensures n / d == q
  {
    var p, left := n / d, n % d;
    assert n == p * d + left;
    assert (p - q) * d == r - left && (q - p) * d == left - r;
    NotNegative(p - q, d);
    NotNegative(q - p, d);
  }

  lemma NotNegative(k: int, d: int)
    requires d > 0 && k * d > -d
    ensures k >= 0
  {
  }

  lemma {:induction false} PowerPositive(bytes: nat)
    ensures Power(bytes) > 0
  {
    if bytes > 0 {
      PowerPositive(bytes - 1);
    }
  }

  // The bytes stand in the order of a little-endian machine.
  lemma {:induction false} ByteAt(n: nat, bytes: nat, k: nat)
    requires k < bytes
    ensures Power(k) > 0 && Encode(n, bytes)[k] == n / Power(k) % 256
    decreases k
  {
    PowerPositive(k);
    if k > 0 {
      ByteAt(n / 256, bytes - 1, k - 1);
      QuotientOfQuotient(n, Power(k - 1));
    }
  }

  lemma {:induction false} DecodeAtMost(n: nat, bytes: nat)
    ensures Decode(Encode(n, bytes)) <= n
  {
    if bytes > 0 {
      DecodeAtMost(n / 256, bytes - 1);
      assert Encode(n, bytes)[1..] == Encode(n / 256, bytes - 1);
    }
  }
}
