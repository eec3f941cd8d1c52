/** The persistence codec: a description of the layouts that src/serialize.cpp writes field
    by field, their encoding and decoding, and the writer and reader of
    src/persistence.cpp that carry them out. */
module Codec {
  import opened Bytes
  import opened Types

  /** Little-endian words (with the codes a reader accepts), booleans in a byte, counted
      lists (with the count a reader accepts), optional values behind a presence byte, and
      fields one after the other. */
  datatype Schema =
    | Word(width: nat, limit: nat)
    | Flag
    | Many(elem: Schema, most: nat)
    | Maybe(elem: Schema)
    | Nothing
    | Then(first: Schema, rest: Schema)

  datatype Val = Num(n: nat) | Truth(b: bool) | List(vs: seq<Val>) | Choice(o: Option<Val>)

  predicate Typed(sc: Schema, v: Val)
    decreases sc
  {
    match sc
    case Word(w, limit) => v.Num? && v.n < limit && v.n < Pow256(w)
    case Flag => v.Truth?
    case Many(e, most) => v.List? && |v.vs| <= most && |v.vs| < Pow256(8) && forall x | x in v.vs :: Typed(e, x)
    case Maybe(e) => v.Choice? && (v.o.Some? ==> Typed(e, v.o.value))
    case Nothing => v == List([])
    case Then(a, b) => v.List? && v.vs != [] && Typed(a, v.vs[0]) && Typed(b, List(v.vs[1..]))
  }

  function Enc(sc: Schema, v: Val): seq<byte>
    requires Typed(sc, v)
    decreases sc, 0, 0
  {
    match sc
    case Word(w, _) => Le(v.n, w)
    case Flag => [if v.b then 1 else 0]
    case Many(e, _) => Le(|v.vs|, 8) + EncAll(e, v.vs)
    case Maybe(e) => if v.o.None? then [0] else [1] + Enc(e, v.o.value)
    case Nothing => []
    case Then(a, b) => Enc(a, v.vs[0]) + Enc(b, List(v.vs[1..]))
  }

  function EncAll(e: Schema, vs: seq<Val>): seq<byte>
    requires forall x | x in vs :: Typed(e, x)
    decreases e, 1, |vs|
  {
    if vs == [] then [] else Enc(e, vs[0]) + EncAll(e, vs[1..])
  }

  datatype Parsed = Parsed(v: Val, rest: seq<byte>)
  datatype ParsedAll = ParsedAll(vs: seq<Val>, rest: seq<byte>)

  /** Reading a value off the front of the bytes; None when they are truncated or a code or
      count is out of range. */
  function Dec(sc: Schema, b: seq<byte>): (r: Option<Parsed>)
    ensures r.Some? ==> Typed(sc, r.value.v)
    decreases sc, 0, 0
  {
    match sc
    case Word(w, limit) =>
      if |b| < w then None
      else
        LeOfFromLe(b[..w]);
        var n := FromLe(b[..w]);
        if n < limit then Some(Parsed(Num(n), b[w..])) else None
    case Flag => if b == [] then None else Some(Parsed(Truth(b[0] != 0), b[1..]))
    case Many(e, most) =>
      if |b| < 8 then None
      else
        LeOfFromLe(b[..8]);
        var n := FromLe(b[..8]);
        if n > most then None
        else
          var all := DecAll(e, n, b[8..]);
          if all.None? then None else Some(Parsed(List(all.value.vs), all.value.rest))
    case Maybe(e) =>
      if b == [] then None
      else if b[0] == 0 then Some(Parsed(Choice(None), b[1..]))
      else
        var p := Dec(e, b[1..]);
        if p.None? then None else Some(Parsed(Choice(Some(p.value.v)), p.value.rest))
    case Nothing => Some(Parsed(List([]), b))
    case Then(a, c) =>
      var p := Dec(a, b);
      if p.None? then None
      else
        var q := Dec(c, p.value.rest);
        if q.None? || !q.value.v.List? then None
        else
          var vs := [p.value.v] + q.value.v.vs;
          assert vs[1..] == q.value.v.vs;
          Some(Parsed(List(vs), q.value.rest))
  }

  function DecAll(e: Schema, n: nat, b: seq<byte>): (r: Option<ParsedAll>)
    ensures r.Some? ==> |r.value.vs| == n && forall x | x in r.value.vs :: Typed(e, x)
    decreases e, 1, n
  {
    if n == 0 then Some(ParsedAll([], b))
    else
      var p := Dec(e, b);
      if p.None? then None
      else
        var q := DecAll(e, n - 1, p.value.rest);
        if q.None? then None else Some(ParsedAll([p.value.v] + q.value.vs, q.value.rest))
  }

  // ---- Round trip ----

  /** Decoding inverts encoding, whatever follows. */
  lemma {:induction false} DecOfEnc(sc: Schema, v: Val, tail: seq<byte>)
    requires Typed(sc, v)
    ensures Dec(sc, Enc(sc, v) + tail) == Some(Parsed(v, tail))
    decreases sc, 0, 0
  {
    match sc
    case Word(w, _) =>
      FromLeOfLe(v.n, w);
      assert (Le(v.n, w) + tail)[..w] == Le(v.n, w) && (Le(v.n, w) + tail)[w..] == tail;
    case Flag => assert ([if v.b then 1 else 0] + tail)[1..] == tail;
    case Many(e, _) => ManyOfEnc(sc, v, tail);
    case Maybe(e) =>
      if v.o.Some? {
        DecOfEnc(e, v.o.value, tail);
        assert ([1] + Enc(e, v.o.value) + tail)[1..] == Enc(e, v.o.value) + tail;
      } else {
        assert ([0] + tail)[1..] == tail;
      }
    case Nothing => assert [] + tail == tail;
    case Then(a, c) =>
      DecOfEnc(c, List(v.vs[1..]), tail);
      DecOfEnc(a, v.vs[0], Enc(c, List(v.vs[1..])) + tail);
      ThenOfEnc(sc, v, tail);
  }

  lemma ThenOfEnc(sc: Schema, v: Val, tail: seq<byte>)
    requires sc.Then? && Typed(sc, v)
    requires Dec(sc.rest, Enc(sc.rest, List(v.vs[1..])) + tail) == Some(Parsed(List(v.vs[1..]), tail))
    requires Dec(sc.first, Enc(sc.first, v.vs[0]) + (Enc(sc.rest, List(v.vs[1..])) + tail))
             == Some(Parsed(v.vs[0], Enc(sc.rest, List(v.vs[1..])) + tail))
    ensures Dec(sc, Enc(sc, v) + tail) == Some(Parsed(v, tail))
  {
    Regroup(Enc(sc.first, v.vs[0]), Enc(sc.rest, List(v.vs[1..])), tail);
    FirstAndRest(v.vs);
  }

  lemma {:induction false} ManyOfEnc(sc: Schema, v: Val, tail: seq<byte>)
    requires sc.Many? && Typed(sc, v)
    ensures Dec(sc, Enc(sc, v) + tail) == Some(Parsed(v, tail))
    decreases sc.elem, 2, 0
  {
    var head, body := Le(|v.vs|, 8), EncAll(sc.elem, v.vs);
    FromLeOfLe(|v.vs|, 8);
    AllOfEnc(sc.elem, v.vs, tail);
    HeadAndTail(head, body, tail);
  }

  lemma FirstAndRest(vs: seq<Val>)
    requires vs != []
    ensures [vs[0]] + vs[1..] == vs
  {
  }

  lemma HeadAndTail(a: seq<byte>, b: seq<byte>, c: seq<byte>)
    ensures (a + b + c)[..|a|] == a && (a + b + c)[|a|..] == b + c
  {
  }

  lemma {:induction false} AllOfEnc(e: Schema, vs: seq<Val>, tail: seq<byte>)
    requires forall x | x in vs :: Typed(e, x)
    ensures DecAll(e, |vs|, EncAll(e, vs) + tail) == Some(ParsedAll(vs, tail))
    decreases e, 1, |vs|
  {
    if vs == [] {
      assert [] + tail == tail;
    } else {
      var x, more := vs[0], vs[1..];
      AllOfEnc(e, more, tail);
      DecOfEnc(e, x, EncAll(e, more) + tail);
      OneMoreDecoded(e, vs, tail);
    }
  }

  lemma OneMoreDecoded(e: Schema, vs: seq<Val>, tail: seq<byte>)
    requires vs != [] && forall x | x in vs :: Typed(e, x)
    requires DecAll(e, |vs| - 1, EncAll(e, vs[1..]) + tail) == Some(ParsedAll(vs[1..], tail))
    requires Dec(e, Enc(e, vs[0]) + (EncAll(e, vs[1..]) + tail)) == Some(Parsed(vs[0], EncAll(e, vs[1..]) + tail))
    ensures DecAll(e, |vs|, EncAll(e, vs) + tail) == Some(ParsedAll(vs, tail))
  {
    Regroup(Enc(e, vs[0]), EncAll(e, vs[1..]), tail);
    FirstAndRest(vs);
  }

  // ---- Locality and truncation ----

  /** A successful read never looks past what it consumes. */
  lemma {:induction false} DecExtends(sc: Schema, b: seq<byte>, tail: seq<byte>)
    requires Dec(sc, b).Some?
    ensures Dec(sc, b + tail) == Some(Parsed(Dec(sc, b).value.v, Dec(sc, b).value.rest + tail))
    decreases sc, 0, 0
  {
    match sc
    case Word(w, _) => Beyond(b, w, tail);
    case Flag => Beyond(b, 1, tail);
    case Many(e, _) =>
      Beyond(b, 8, tail);
      AllExtends(e, FromLe(b[..8]), b[8..], tail);
    case Maybe(e) =>
      Beyond(b, 1, tail);
      if b[0] != 0 { DecExtends(e, b[1..], tail); }
    case Nothing =>
    case Then(a, c) =>
      DecExtends(a, b, tail);
      DecExtends(c, Dec(a, b).value.rest, tail);
  }

  lemma Beyond(b: seq<byte>, n: nat, tail: seq<byte>)
    requires n <= |b|
    ensures (b + tail)[..n] == b[..n] && (b + tail)[n..] == b[n..] + tail
  {
  }

  lemma {:induction false} AllExtends(e: Schema, n: nat, b: seq<byte>, tail: seq<byte>)
    requires DecAll(e, n, b).Some?
    ensures DecAll(e, n, b + tail) == Some(ParsedAll(DecAll(e, n, b).value.vs, DecAll(e, n, b).value.rest + tail))
    decreases e, 1, n
  {
    if n > 0 {
      DecExtends(e, b, tail);
      AllExtends(e, n - 1, Dec(e, b).value.rest, tail);
    }
  }

  lemma RestKeepsTail(sc: Schema, b: seq<byte>, tail: seq<byte>)
    ensures Dec(sc, b).Some? ==> Dec(sc, b + tail).Some? && |Dec(sc, b + tail).value.rest| >= |tail|
  {
    if Dec(sc, b).Some? { DecExtends(sc, b, tail); }
  }

  /** Every strict prefix of an encoding is rejected. */
  lemma TruncationIsRejected(sc: Schema, v: Val, n: nat)
    requires Typed(sc, v) && n < |Enc(sc, v)|
    ensures Dec(sc, Enc(sc, v)[..n]).None?
  {
    var whole := Enc(sc, v);
    RestKeepsTail(sc, whole[..n], whole[n..]);
    DecOfEnc(sc, v, []);
    assert whole[..n] + whole[n..] == whole == whole + [];
  }

  /** So two values with the same encoding are the same value. */
  lemma EncInjective(sc: Schema, v: Val, u: Val)
    requires Typed(sc, v) && Typed(sc, u) && Enc(sc, v) == Enc(sc, u)
    ensures v == u
  {
    DecOfEnc(sc, v, []);
    DecOfEnc(sc, u, []);
  }

  // ---- Two parts, one after the other ----

  function Two(a: Schema, b: Schema): Schema { Then(a, Then(b, Nothing)) }

  lemma TwoTyped(a: Schema, b: Schema, x: Val, y: Val)
    ensures Typed(Two(a, b), List([x, y])) <==> Typed(a, x) && Typed(b, y)
    ensures Typed(Two(a, b), List([x, y])) ==> Enc(Two(a, b), List([x, y])) == Enc(a, x) + Enc(b, y)
  {
    assert [x, y][1..] == [y] && [y][1..] == [];
    assert Typed(Then(b, Nothing), List([y])) <==> Typed(b, y);
    if Typed(a, x) && Typed(b, y) {
      assert Enc(Then(b, Nothing), List([y])) == Enc(b, y) + [] == Enc(b, y);
    }
  }

  lemma TwoDecoded(a: Schema, b: Schema, bytes: seq<byte>, p: Parsed)
    requires Dec(a, bytes) == Some(p)
    ensures Dec(b, p.rest).None? ==> Dec(Two(a, b), bytes).None?
    ensures Dec(b, p.rest).Some? ==>
              Dec(Two(a, b), bytes) == Some(Parsed(List([p.v, Dec(b, p.rest).value.v]), Dec(b, p.rest).value.rest))
  {
    if Dec(b, p.rest).Some? {
      var q := Dec(b, p.rest).value;
      assert Dec(Nothing, q.rest) == Some(Parsed(List([]), q.rest));
      assert [q.v] + [] == [q.v] && [p.v] + [q.v] == [p.v, q.v];
      assert Dec(Then(b, Nothing), p.rest) == Some(Parsed(List([q.v]), q.rest));
    }
  }

  // ---- The writer and the reader ----

  class Writer {
    var buf: seq<byte>

    constructor ()
      ensures buf == []
    {
      buf := [];
    }

    /** Byte by byte, least significant first. */
    method PutWord(v: nat, width: nat)
      modifies this
      ensures buf == old(buf) + Le(v, width)
    {
      buf := PutLe(buf, v, width);
    }

    method Put(sc: Schema, v: Val)
      requires Typed(sc, v)
      modifies this
      ensures buf == old(buf) + Enc(sc, v)
      decreases sc, 0
    {
      match sc
      case Word(w, _) => PutWord(v.n, w);
      case Flag => buf := buf + [if v.b then 1 else 0];
      case Many(e, _) => PutMany(e, v.vs);
      case Maybe(e) =>
        if v.o.None? {
          buf := buf + [0];
        } else {
          Regroup(buf, [1], Enc(e, v.o.value));
          buf := buf + [1];
          Put(e, v.o.value);
        }
      case Nothing => assert buf + [] == buf;
      case Then(a, c) =>
        Regroup(buf, Enc(a, v.vs[0]), Enc(c, List(v.vs[1..])));
        Put(a, v.vs[0]);
        Put(c, List(v.vs[1..]));
    }

    /** The count, then the elements in a loop. */
    method PutMany(e: Schema, vs: seq<Val>)
      requires forall x | x in vs :: Typed(e, x)
      modifies this
      ensures buf == old(buf) + (Le(|vs|, 8) + EncAll(e, vs))
      decreases e, 1
    {
      ghost var goal := buf + (Le(|vs|, 8) + EncAll(e, vs));
      Regroup(buf, Le(|vs|, 8), EncAll(e, vs));
      PutWord(|vs|, 8);
      var i := 0;
      assert vs[i..] == vs;
      while i < |vs|
        invariant 0 <= i <= |vs|
        invariant buf + EncAll(e, vs[i..]) == goal
      {
        Regroup(buf, Enc(e, vs[i]), EncAll(e, vs[i + 1..]));
        assert vs[i..][1..] == vs[i + 1..];
        Put(e, vs[i]);
        i := i + 1;
      }
      assert vs[i..] == [];
    }
  }

  class Reader {
    const data: seq<byte>
    var pos: nat

    constructor (bytes: seq<byte>)
      ensures data == bytes && pos == 0
    {
      data := bytes;
      pos := 0;
    }

    /** Reads one value and moves past it; a failed read gives nothing. */
    method Get(sc: Schema) returns (r: Option<Val>)
      requires pos <= |data|
      modifies this
      ensures pos <= |data|
      ensures r.Some? <==> Dec(sc, data[old(pos)..]).Some?
      ensures r.Some? ==> Dec(sc, data[old(pos)..]) == Some(Parsed(r.value, data[pos..]))
      decreases sc, 0
    {
      match sc
      case Word(w, limit) =>
        if pos + w > |data| { return None; }
        var n := GetLe(data, pos, w);
        assert data[pos..][..w] == data[pos..pos + w] && data[pos..][w..] == data[pos + w..];
        if n >= limit { return None; }
        pos := pos + w;
        r := Some(Num(n));
      case Flag =>
        if pos + 1 > |data| { return None; }
        assert data[pos..][1..] == data[pos + 1..];
        r := Some(Truth(data[pos] != 0));
        pos := pos + 1;
      case Many(e, most) =>
        if pos + 8 > |data| { return None; }
        var n := GetLe(data, pos, 8);
        assert data[pos..][..8] == data[pos..pos + 8] && data[pos..][8..] == data[pos + 8..];
        if n > most { return None; }
        pos := pos + 8;
        var vs := GetMany(e, n);
        r := if vs.Some? then Some(List(vs.value)) else None;
      case Maybe(e) =>
        if pos + 1 > |data| { return None; }
        assert data[pos..][1..] == data[pos + 1..];
        pos := pos + 1;
        if data[pos - 1] == 0 {
          r := Some(Choice(None));
        } else {
          var x := Get(e);
          r := if x.Some? then Some(Choice(x)) else None;
        }
      case Nothing => r := Some(List([]));
      case Then(a, c) =>
        var x := Get(a);
        if x.None? { return None; }
        var y := Get(c);
        if y.None? || !y.value.List? { return None; }
        r := Some(List([x.value] + y.value.vs));
    }

    method GetMany(e: Schema, n: nat) returns (r: Option<seq<Val>>)
      requires pos <= |data|
      modifies this
      ensures pos <= |data|
      ensures r.Some? <==> DecAll(e, n, data[old(pos)..]).Some?
      ensures r.Some? ==> DecAll(e, n, data[old(pos)..]) == Some(ParsedAll(r.value, data[pos..]))
      decreases e, 1
    {
      var vs := [];
      var i := 0;
      ghost var all := DecAll(e, n, data[pos..]);
      PrependNone(all);
      while i < n
        invariant 0 <= i <= n && pos <= |data|
        invariant all == Prepend(vs, DecAll(e, n - i, data[pos..]))
      {
        var x := Get(e);
        if x.None? { return None; }
        PrependOne(vs, x.value, DecAll(e, n - i - 1, data[pos..]));
        vs := vs + [x.value];
        i := i + 1;
      }
      assert vs + [] == vs;
      r := Some(vs);
    }
  }

  lemma Regroup(a: seq<byte>, b: seq<byte>, c: seq<byte>)
    ensures a + (b + c) == a + b + c
  {
  }

  ghost function Prepend(vs: seq<Val>, r: Option<ParsedAll>): Option<ParsedAll> {
    if r.None? then None else Some(ParsedAll(vs + r.value.vs, r.value.rest))
  }

  lemma PrependNone(r: Option<ParsedAll>)
    ensures Prepend([], r) == r
  {
    if r.Some? { assert [] + r.value.vs == r.value.vs; }
  }

  lemma PrependOne(vs: seq<Val>, x: Val, r: Option<ParsedAll>)
    ensures Prepend(vs + [x], r) == Prepend(vs, Prepend([x], r))
  {
    if r.Some? { assert vs + [x] + r.value.vs == vs + ([x] + r.value.vs); }
  }
}
