/** Bytes and little-endian words: the byte-shifting helpers shared by the frame
    protocol (src/protocol.cpp) and the persistence codec (src/persistence.cpp). */
module Bytes {

  type byte = b: nat | b < 256

  function Pow256(n: nat): (p: nat)
    ensures p >= 1
  {
    if n == 0 then 1 else 256 * Pow256(n - 1)
  }

  /** The low `n` bytes of `v`, least significant first. Higher bytes are dropped,
      as a narrowing cast drops them. */
  function Le(v: nat, n: nat): (r: seq<byte>)
    ensures |r| == n
  {
    if n == 0 then [] else [v % 256] + Le(v / 256, n - 1)
  }

  function FromLe(b: seq<byte>): nat {
    if b == [] then 0 else b[0] + 256 * FromLe(b[1..])
  }

  lemma {:induction false} FromLeOfLe(v: nat, n: nat)
    requires v < Pow256(n)
    ensures FromLe(Le(v, n)) == v
  {
    if n > 0 {
      assert v / 256 < Pow256(n - 1);
      FromLeOfLe(v / 256, n - 1);
    }
  }

  /** Every word of `|b|` bytes has exactly one little-endian form. */
  lemma {:induction false} LeOfFromLe(b: seq<byte>)
    ensures FromLe(b) < Pow256(|b|)
    ensures Le(FromLe(b), |b|) == b
  {
    if b != [] {
      LeOfFromLe(b[1..]);
      var v := FromLe(b);
      assert v % 256 == b[0] && v / 256 == FromLe(b[1..]);
    }
  }

  lemma FromLeInjective(a: seq<byte>, b: seq<byte>)
    requires |a| == |b| && FromLe(a) == FromLe(b)
    ensures a == b
  {
    LeOfFromLe(a);
    LeOfFromLe(b);
  }

  lemma Widths()
    ensures Pow256(1) == 0x100
    ensures Pow256(2) == 0x1_0000
    ensures Pow256(4) == 0x1_0000_0000
    ensures Pow256(8) == 0x1_0000_0000_0000_0000
  {
    assert Pow256(2) == 0x1_0000;
    assert Pow256(3) == 0x100_0000;
    assert Pow256(4) == 0x1_0000_0000;
    assert Pow256(5) == 0x100_0000_0000;
    assert Pow256(6) == 0x1_0000_0000_0000;
    assert Pow256(7) == 0x100_0000_0000_0000;
  }

  /** Appends the low `n` bytes of `v`, one shift at a time. */
  method PutLe(buf: seq<byte>, v: nat, n: nat) returns (r: seq<byte>)
    ensures r == buf + Le(v, n)
  {
    r := buf;
    var rest, i := v, 0;
    while i < n
      invariant 0 <= i <= n
      invariant r + Le(rest, n - i) == buf + Le(v, n)
    {
      r := r + [rest % 256];
      rest := rest / 256;
      i := i + 1;
    }
    assert r + Le(rest, 0) == r;
  }

  /** Reads `n` bytes at `off`, or-ing each in at its shift. */
  method GetLe(p: seq<byte>, off: nat, n: nat) returns (v: nat)
    requires off + n <= |p|
    ensures v == FromLe(p[off..off + n])
  {
    v := 0;
    var i := n;
    while i > 0
      invariant 0 <= i <= n
      invariant v == FromLe(p[off + i..off + n])
    {
      i := i - 1;
      assert p[off + i..off + n][1..] == p[off + i + 1..off + n];
      v := p[off + i] + 256 * v;
    }
  }
}
