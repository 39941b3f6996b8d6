/** Bytes, Go's fixed-width integers, optional values and big-endian integers. */
module Bytes {

  type byte = x: int | 0 <= x < 0x100
  type uint32 = x: int | 0 <= x < 0x1_0000_0000
  type uint64 = x: int | 0 <= x < 0x1_0000_0000_0000_0000

  const TWO32: nat := 0x1_0000_0000
  const TWO64: nat := 0x1_0000_0000_0000_0000

  datatype Option<+T> = None | Some(value: T) {
    function GetOr(default: T): T {
      if Some? then value else default
    }
  }

  datatype Result<+T, +E> = Ok(value: T) | Err(error: E)

  /** A Go byte slice: nil and the empty slice are different values. */
  datatype Slice = Nil | Data(data: seq<byte>) {
    function Content(): seq<byte> {
      if Nil? then [] else data
    }
  }

  function Pow256(k: nat): (p: nat)
    ensures 0 < p
  {
    if k == 0 then 1 else 256 * Pow256(k - 1)
  }

  /** The k low-order bytes of n, most significant first. */
  function BE(n: nat, k: nat): (s: seq<byte>)
    ensures |s| == k
  {
    if k == 0 then [] else BE(n / 256, k - 1) + [n % 256]
  }

  /** The integer a big-endian byte string stands for. */
  function Nat(s: seq<byte>): nat {
    if s == [] then 0 else Nat(s[..|s| - 1]) * 256 + s[|s| - 1]
  }

  lemma Pow256Values()
    ensures Pow256(4) == TWO32 && Pow256(8) == TWO64
  {
    assert Pow256(2) == 0x1_0000;
    assert Pow256(4) == 256 * 256 * Pow256(2);
    assert Pow256(6) == 256 * 256 * Pow256(4);
    assert Pow256(8) == 256 * 256 * Pow256(6);
  }

  lemma {:induction false} NatBound(s: seq<byte>)
    ensures Nat(s) < Pow256(|s|)
  {
    if s != [] {
      NatBound(s[..|s| - 1]);
    }
  }

  /** Decoding undoes encoding exactly when the integer fits. */
  lemma {:induction false} NatOfBE(n: nat, k: nat)
    ensures Nat(BE(n, k)) == n <==> n < Pow256(k)
  {
    if k > 0 {
      NatOfBE(n / 256, k - 1);
      var s := BE(n, k);
      assert s[..k - 1] == BE(n / 256, k - 1);
      assert n == n / 256 * 256 + n % 256;
      assert n < 256 * Pow256(k - 1) <==> n / 256 < Pow256(k - 1);
      NatBound(s[..k - 1]);
    }
  }

  /** Encoding undoes decoding, so fixed-width encodings are unique. */
  lemma {:induction false} BEOfNat(s: seq<byte>)
    ensures BE(Nat(s), |s|) == s
  {
    if s != [] {
      BEOfNat(s[..|s| - 1]);
      assert Nat(s) / 256 == Nat(s[..|s| - 1]);
      assert Nat(s) % 256 == s[|s| - 1];
      assert s == s[..|s| - 1] + [s[|s| - 1]];
    }
  }

  lemma BEInjective(m: nat, n: nat, k: nat)
    requires m < Pow256(k) && n < Pow256(k) && BE(m, k) == BE(n, k)
    ensures m == n
  {
    NatOfBE(m, k);
    NatOfBE(n, k);
  }

  function Zeros(k: nat): (s: seq<byte>)
    ensures |s| == k
  {
    seq(k, i => 0)
  }

  lemma {:induction false} NatOfZeroPrefix(k: nat, s: seq<byte>)
    ensures Nat(Zeros(k) + s) == Nat(s)
    decreases k + |s|
  {
    var t := Zeros(k) + s;
    if s != [] {
      assert t[..|t| - 1] == Zeros(k) + s[..|s| - 1];
      NatOfZeroPrefix(k, s[..|s| - 1]);
    } else if k > 0 {
      assert t[..|t| - 1] == Zeros(k - 1) + s;
      NatOfZeroPrefix(k - 1, s);
    }
  }

  /** Dropping j low-order bytes is integer division by 256^j. */
  lemma {:induction false} NatOfPrefix(s: seq<byte>, n: nat)
    requires n <= |s|
    ensures Nat(s[..n]) == Nat(s) / Pow256(|s| - n)
  {
    if n == |s| {
      assert s[..n] == s;
    } else {
      var t := s[..|s| - 1];
      NatOfPrefix(t, n);
      assert t[..n] == s[..n];
      assert Nat(s) / 256 == Nat(t);
      DivTwice(Nat(s), Pow256(|t| - n));
    }
  }

  lemma DivTwice(x: nat, p: nat)
    requires 0 < p
    ensures x / 256 / p == x / (256 * p)
  {
    var q, r := x / 256 / p, x / 256 % p;
    assert x / 256 == q * p + r;
    assert x == 256 * (q * p + r) + x % 256;
    var rest := 256 * r + x % 256;
    assert 0 <= rest < 256 * p;
    assert 256 * (q * p) == q * (256 * p);
    DivUnique(x, 256 * p, q, rest);
  }

  lemma DivUnique(x: int, d: int, q: int, r: int)
    requires 0 < d && 0 <= r < d && x == q * d + r
    ensures x / d == q
  {
    var k := x / d - q;
    assert k >= 1 ==> k * d >= d;
    assert k <= -1 ==> k * d <= -d;
    assert x == (x / d) * d + x % d;
    assert k * d == (x / d) * d - q * d;
  }

  /** The number of significant bits, big.Int's BitLen. */
  function BitLen(n: nat): nat {
    if n == 0 then 0 else 1 + BitLen(n / 2)
  }

  function Pow2(k: nat): (p: nat)
    ensures 0 < p
  {
    if k == 0 then 1 else 2 * Pow2(k - 1)
  }

  lemma {:induction false} BitLenBound(n: nat, k: nat)
    ensures BitLen(n) <= k <==> n < Pow2(k)
  {
    if k > 0 && n > 0 {
      BitLenBound(n / 2, k - 1);
    }
  }

  lemma {:induction false} Pow2OfBytes(k: nat)
    ensures Pow2(8 * k) == Pow256(k)
  {
    if k > 0 {
      Pow2OfBytes(k - 1);
      var j := 8 * (k - 1);
      assert Pow2(j + 2) == 4 * Pow2(j);
      assert Pow2(j + 4) == 4 * Pow2(j + 2);
      assert Pow2(j + 6) == 4 * Pow2(j + 4);
      assert Pow2(j + 8) == 4 * Pow2(j + 6);
    }
  }

  /** A magnitude fits k bytes exactly when its bit length is at most 8k. */
  lemma BitLenFits(n: nat, k: nat)
    ensures BitLen(n) <= 8 * k <==> n < Pow256(k)
  {
    BitLenBound(n, 8 * k);
    Pow2OfBytes(k);
  }
}
