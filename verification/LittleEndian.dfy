/** Little-endian integers, and cutting a concatenation back into its parts. */
module LittleEndian {
  import opened Types

  function Pow256(k: nat): nat {
    if k == 0 then 1 else 256 * Pow256(k - 1)
  }

  /** The low `k` bytes of `n`, least significant first (`to_le_bytes`). */
  function LE(n: nat, k: nat): (r: Bytes)
    ensures |r| == k
  {
    if k == 0 then [] else [n % 256] + LE(n / 256, k - 1)
  }

  /** `from_le_bytes`. */
  function FromLE(s: Bytes): nat {
    if s == [] then 0 else s[0] + 256 * FromLE(s[1..])
  }

  lemma {:induction false} LERoundTrip(n: nat, k: nat)
    requires n < Pow256(k)
    ensures FromLE(LE(n, k)) == n
  {
    if k > 0 {
      LERoundTrip(n / 256, k - 1);
      assert LE(n, k)[1..] == LE(n / 256, k - 1);
    }
  }

  lemma {:induction false} FromLERoundTrip(s: Bytes)
    ensures FromLE(s) < Pow256(|s|)
    ensures LE(FromLE(s), |s|) == s
  {
    if s != [] {
      FromLERoundTrip(s[1..]);
      assert FromLE(s) / 256 == FromLE(s[1..]);
      assert s == [s[0]] + s[1..];
    }
  }

  /** What the first `n` bytes add up to when byte `k` weighs 256^k. */
  function Weight(s: Bytes, n: nat): nat
    requires n <= |s|
  {
    if n == 0 then 0 else Weight(s, n - 1) + Pow256(n - 1) * (s[n - 1] as nat)
  }

  lemma ScaleBy256(p: nat, x: nat)
    ensures (256 * p) * x == 256 * (p * x)
  {
  }

  lemma Distribute256(a: nat, b: nat)
    ensures 256 * (a + b) == 256 * a + 256 * b
  {
  }

  lemma {:induction false} WeightOfTail(s: Bytes, n: nat)
    requires 0 < n <= |s|
    ensures Weight(s, n) == (s[0] as nat) + 256 * Weight(s[1..], n - 1)
  {
    if n > 1 {
      WeightOfTail(s, n - 1);
      ScaleBy256(Pow256(n - 2), s[n - 1]);
      Distribute256(Weight(s[1..], n - 2), Pow256(n - 2) * (s[1..][n - 2] as nat));
    }
  }

  /** Reading adds up weighed bytes. */
  lemma {:induction false} FromLEWeighs(s: Bytes)
    ensures FromLE(s) == Weight(s, |s|)
  {
    if s != [] {
      FromLEWeighs(s[1..]);
      WeightOfTail(s, |s|);
    }
  }

  lemma {:induction false} DivTwice(n: nat, k: nat)
    ensures Pow256(k) > 0 && n / 256 / Pow256(k) == n / Pow256(k + 1)
  {
    Pow256Positive(k);
    var p := Pow256(k);
    var q, r := n / 256 / p, n / 256 % p;
    assert n == 256 * (q * p + r) + n % 256;
    assert n == q * Pow256(k + 1) + (256 * r + n % 256) by {
      assert 256 * (q * p) == q * (256 * p);
    }
    DivModUnique(n, Pow256(k + 1), q, 256 * r + n % 256);
  }

  lemma {:induction false} Pow256Positive(k: nat)
    ensures Pow256(k) > 0
  {
    if k > 0 {
      Pow256Positive(k - 1);
    }
  }

  lemma MultiplesApart(d: int, n: int)
    requires n > 0
    ensures d >= 1 ==> d * n >= n
    ensures d <= -1 ==> d * n <= 0 - n
  {
    assert d * n - n == (d - 1) * n;
    assert d * n + n == (d + 1) * n;
  }

  lemma DivModUnique(a: nat, n: nat, q: nat, r: nat)
    requires n > 0 && r < n && a == q * n + r
    ensures a / n == q && a % n == r
  {
    var d: int := a / n - q;
    assert a == (a / n) * n + a % n;
    assert d * n == r - a % n by {
      assert (a / n - q) * n == (a / n) * n - q * n;
    }
    MultiplesApart(d, n);
  }

  /** Byte `k` of a written number is its digit of weight 256^k. */
  lemma {:induction false} LEDigit(n: nat, len: nat, k: nat)
    requires k < len
    ensures Pow256(k) > 0 && LE(n, len)[k] == n / Pow256(k) % 256
  {
    if k > 0 {
      LEDigit(n / 256, len - 1, k - 1);
      DivTwice(n, k - 1);
    }
  }

  lemma Pow256Values()
    ensures Pow256(2) == 0x1_0000
    ensures Pow256(4) == 0x1_0000_0000
    ensures Pow256(8) == U64_MAX + 1
    ensures Pow256(16) == U128_MAX + 1
  {
    assert Pow256(3) == 256 * Pow256(2) && Pow256(2) == 256 * Pow256(1);
    assert Pow256(5) == 256 * Pow256(4) && Pow256(6) == 256 * Pow256(5);
    assert Pow256(7) == 256 * Pow256(6) && Pow256(8) == 256 * Pow256(7);
    assert Pow256(9) == 256 * Pow256(8) && Pow256(10) == 256 * Pow256(9);
    assert Pow256(11) == 256 * Pow256(10) && Pow256(12) == 256 * Pow256(11);
    assert Pow256(13) == 256 * Pow256(12) && Pow256(14) == 256 * Pow256(13);
    assert Pow256(15) == 256 * Pow256(14) && Pow256(16) == 256 * Pow256(15);
  }

  function U16Bytes(n: u16): (r: Bytes) ensures |r| == 2 { LE(n, 2) }
  function U32Bytes(n: u32): (r: Bytes) ensures |r| == 4 { LE(n, 4) }
  function U64Bytes(n: u64): (r: Bytes) ensures |r| == 8 { LE(n, 8) }
  function U128Bytes(n: u128): (r: Bytes) ensures |r| == 16 { LE(n, 16) }

  function U16FromBytes(s: Bytes): u16
    requires |s| == 2
  {
    FromLERoundTrip(s); Pow256Values();
    FromLE(s)
  }

  function U32FromBytes(s: Bytes): u32
    requires |s| == 4
  {
    FromLERoundTrip(s); Pow256Values();
    FromLE(s)
  }

  function U64FromBytes(s: Bytes): u64
    requires |s| == 8
  {
    FromLERoundTrip(s); Pow256Values();
    FromLE(s)
  }

  function U128FromBytes(s: Bytes): u128
    requires |s| == 16
  {
    FromLERoundTrip(s); Pow256Values();
    FromLE(s)
  }

  lemma U16RoundTrip(n: u16)
    ensures U16FromBytes(U16Bytes(n)) == n
  {
    Pow256Values();
    LERoundTrip(n, 2);
  }

  lemma U32RoundTrip(n: u32)
    ensures U32FromBytes(U32Bytes(n)) == n
  {
    Pow256Values();
    LERoundTrip(n, 4);
  }

  lemma U64RoundTrip(n: u64)
    ensures U64FromBytes(U64Bytes(n)) == n
  {
    Pow256Values();
    LERoundTrip(n, 8);
  }

  lemma U128RoundTrip(n: u128)
    ensures U128FromBytes(U128Bytes(n)) == n
  {
    Pow256Values();
    LERoundTrip(n, 16);
  }

  lemma U128Injective(m: u128, n: u128)
    requires U128Bytes(m) == U128Bytes(n)
    ensures m == n
  {
    Pow256Values();
    LERoundTrip(m, 16);
    LERoundTrip(n, 16);
  }

  /** Two equal strings whose first parts have the same length agree part by part. */
  lemma Cut(a: Bytes, x: Bytes, b: Bytes, y: Bytes)
    requires |a| == |b| && a + x == b + y
    ensures a == b && x == y
  {
    assert a == (a + x)[..|a|] && b == (b + y)[..|a|];
    assert x == (a + x)[|a|..] && y == (b + y)[|a|..];
  }

  lemma Associate(a: Bytes, b: Bytes, c: Bytes)
    ensures (a + b) + c == a + (b + c)
  {
  }

  /** Cuts a first part of known length off two strings that continue with `x` and `y`. */
  lemma Peel(a: Bytes, r: Bytes, x: Bytes, b: Bytes, q: Bytes, y: Bytes)
    requires |a| == |b| && (a + r) + x == (b + q) + y
    ensures a == b && r + x == q + y
  {
    Associate(a, r, x);
    Associate(b, q, y);
    Cut(a, r + x, b, q + y);
  }
}
