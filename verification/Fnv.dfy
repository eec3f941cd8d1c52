/** The 64-bit FNV-1a fold of include/collective_scheduler/deterministic.hpp. */
module Fnv {
  import opened Bytes

  const WORD: nat := 0x1_0000_0000_0000_0000
  const PRIME: nat := 0x100_0000_01b3
  const OFFSET_MIX: nat := 0x9e37_79b9_7f4a_7c15
  /** The inverse of PRIME modulo WORD; PRIME is odd, so it has one. */
  const PRIME_INVERSE: nat := 0xce96_5057_aff6_957b

  /** Bitwise exclusive or on natural numbers. */
  function Xor(x: nat, y: nat): nat
    decreases x + y
  {
    if x == 0 && y == 0 then 0
    else 2 * Xor(x / 2, y / 2) + (x % 2 + y % 2) % 2
  }

  lemma XorHalves(x: nat, y: nat)
    ensures Xor(x, y) / 2 == Xor(x / 2, y / 2)
    ensures Xor(x, y) % 2 == (x % 2 + y % 2) % 2
  {
  }

  lemma ParityCancels(x: nat, y: nat, r: nat, z: nat)
    requires r % 2 == (x % 2 + y % 2) % 2 && z % 2 == (r % 2 + y % 2) % 2
    requires z / 2 == x / 2
    ensures z == x
  {
  }

  lemma {:induction false} XorCancels(x: nat, y: nat)
    ensures Xor(Xor(x, y), y) == x
    decreases x + y
  {
    if x != 0 || y != 0 {
      XorCancels(x / 2, y / 2);
      var r := Xor(x, y);
      XorHalves(x, y);
      XorHalves(r, y);
      ParityCancels(x, y, r, Xor(r, y));
    }
  }

  lemma {:induction false} XorCommutes(x: nat, y: nat)
    ensures Xor(x, y) == Xor(y, x)
    decreases x + y
  {
    if x != 0 || y != 0 { XorCommutes(x / 2, y / 2); }
  }

  function Pow2(n: nat): nat {
    if n == 0 then 1 else 2 * Pow2(n - 1)
  }

  lemma Pow2Word()
    ensures Pow2(64) == WORD
  {
    assert Pow2(10) == 0x400;
    assert Pow2(20) == 0x10_0000;
    assert Pow2(30) == 0x4000_0000;
    assert Pow2(40) == 0x100_0000_0000;
    assert Pow2(50) == 0x4_0000_0000_0000;
    assert Pow2(60) == 0x1000_0000_0000_0000;
  }

  lemma {:induction false} XorBound(x: nat, y: nat, n: nat)
    requires x < Pow2(n) && y < Pow2(n)
    ensures Xor(x, y) < Pow2(n)
  {
    if n > 0 && (x != 0 || y != 0) { XorBound(x / 2, y / 2, n - 1); }
  }

  /** One round: xor the byte in, multiply, keep 64 bits. */
  function Round(h: nat, b: byte): (r: nat)
    ensures r < WORD
  {
    (Xor(h, b) * PRIME) % WORD
  }

  function Fold(h: nat, data: seq<byte>): nat
    decreases |data|
  {
    if data == [] then h else Fold(Round(h, data[0]), data[1..])
  }

  function Hash(data: seq<byte>, seed: nat): nat {
    Fold(Xor(seed, OFFSET_MIX), data)
  }

  /** Multiplication by the prime loses nothing modulo 2^64. */
  lemma MulInvertible(x: nat)
    requires x < WORD
    ensures (((x * PRIME) % WORD) * PRIME_INVERSE) % WORD == x
  {
    var q, r := (x * PRIME) / WORD, (x * PRIME) % WORD;
    var k := 887285111055;
    assert PRIME * PRIME_INVERSE == 1 + k * WORD;
    assert r * PRIME_INVERSE == x + WORD * (k * x - q * PRIME_INVERSE);
    ModUnique(r * PRIME_INVERSE, k * x - q * PRIME_INVERSE, x);
  }

  lemma ModUnique(v: nat, q: int, x: nat)
    requires x < WORD && v == x + WORD * q
    ensures v % WORD == x
  {
  }

  /** Each round is injective in the running state and in the byte. */
  lemma RoundInjective(h1: nat, h2: nat, b1: byte, b2: byte)
    requires h1 < WORD && h2 < WORD
    requires Round(h1, b1) == Round(h2, b2)
    ensures b1 == b2 ==> h1 == h2
    ensures h1 == h2 ==> b1 == b2
  {
    Pow2Word();
    XorBound(h1, b1, 64);
    XorBound(h2, b2, 64);
    MulInvertible(Xor(h1, b1));
    MulInvertible(Xor(h2, b2));
    assert Xor(h1, b1) == Xor(h2, b2);
    XorCancels(h1, b1);
    XorCancels(h2, b2);
    XorCommutes(h1, b1);
    XorCommutes(h2, b2);
    XorCancels(b1, h1);
    XorCancels(b2, h2);
  }

  lemma {:induction false} FoldInjectiveInState(h1: nat, h2: nat, data: seq<byte>)
    requires h1 < WORD && h2 < WORD && h1 != h2
    ensures Fold(h1, data) != Fold(h2, data)
    decreases |data|
  {
    if data != [] {
      if Round(h1, data[0]) == Round(h2, data[0]) {
        RoundInjective(h1, h2, data[0], data[0]);
      }
      FoldInjectiveInState(Round(h1, data[0]), Round(h2, data[0]), data[1..]);
    }
  }

  /** Two buffers that differ in exactly one byte. */
  ghost predicate OneByteApart(a: seq<byte>, b: seq<byte>, i: nat) {
    && |a| == |b| && i < |a| && a[i] != b[i]
    && forall k | 0 <= k < |a| && k != i :: a[k] == b[k]
  }

  lemma {:induction false} FoldCatchesOneByte(h: nat, a: seq<byte>, b: seq<byte>, i: nat)
    requires h < WORD && OneByteApart(a, b, i)
    ensures Fold(h, a) != Fold(h, b)
    decreases |a|
  {
    if i == 0 {
      if Round(h, a[0]) == Round(h, b[0]) { RoundInjective(h, h, a[0], b[0]); }
      assert a[1..] == b[1..];
      FoldInjectiveInState(Round(h, a[0]), Round(h, b[0]), a[1..]);
    } else {
      assert OneByteApart(a[1..], b[1..], i - 1);
      FoldCatchesOneByte(Round(h, a[0]), a[1..], b[1..], i - 1);
    }
  }

  /** A one-byte substitution anywhere always changes the checksum. */
  lemma HashCatchesOneByte(a: seq<byte>, b: seq<byte>, i: nat, seed: nat)
    requires seed < WORD && OneByteApart(a, b, i)
    ensures Hash(a, seed) != Hash(b, seed)
  {
    Pow2Word();
    XorBound(seed, OFFSET_MIX, 64);
    FoldCatchesOneByte(Xor(seed, OFFSET_MIX), a, b, i);
  }

  lemma {:induction false} FoldBound(h: nat, data: seq<byte>)
    requires h < WORD
    ensures Fold(h, data) < WORD
    decreases |data|
  {
    if data != [] { FoldBound(Round(h, data[0]), data[1..]); }
  }

  lemma HashBound(data: seq<byte>, seed: nat)
    requires seed < WORD
    ensures Hash(data, seed) < WORD
  {
    Pow2Word();
    XorBound(seed, OFFSET_MIX, 64);
    FoldBound(Xor(seed, OFFSET_MIX), data);
  }

  /** The hashing loop over the first `len` bytes at `off`. */
  method Fnv1a64(p: seq<byte>, off: nat, len: nat, seed: nat) returns (h: nat)
    requires off + len <= |p|
    ensures h == Hash(p[off..off + len], seed)
  {
    h := Xor(seed, OFFSET_MIX);
    var i := 0;
    while i < len
      invariant 0 <= i <= len
      invariant Fold(h, p[off + i..off + len]) == Hash(p[off..off + len], seed)
    {
      assert p[off + i..off + len][1..] == p[off + i + 1..off + len];
      h := Round(h, p[off + i]);
      i := i + 1;
    }
  }
}
