/** The framed wire protocol of src/protocol.cpp: a frame is a 20-byte header
    (magic, version, type, sequence number, payload length), the payload, and an
    8-byte checksum over both. */
module Protocol {
  import opened Bytes
  import opened Fnv

  const HEADER_SIZE: nat := 20
  const CHECKSUM_SIZE: nat := 8
  const PROTOCOL_MAGIC: nat := 0x4353_5052
  const PROTOCOL_VERSION: nat := 1
  const MAX_PAYLOAD: nat := 16 * 1024 * 1024
  const PROTOCOL_SEED: nat := 0x9d6b_3f5a_7c1e_2843
  /** Message types are numbered from HELLO = 0 to ERROR = 24. */
  const LAST_MESSAGE_TYPE: nat := 24

  predicate KnownMessageType(v: nat) { v <= LAST_MESSAGE_TYPE }

  datatype Msg = Msg(kind: nat, seqNo: nat, payload: seq<byte>)

  /** What the C++ types already guarantee of a message handed to the encoder. */
  ghost predicate WellTyped(m: Msg) { KnownMessageType(m.kind) && m.seqNo < WORD }

  /** A message the decoder accepts: its payload also respects the 16 MiB limit. */
  ghost predicate Sendable(m: Msg) { WellTyped(m) && |m.payload| <= MAX_PAYLOAD }

  function Header(kind: nat, seqNo: nat, len: nat): (h: seq<byte>)
    ensures |h| == HEADER_SIZE
  {
    Le(PROTOCOL_MAGIC, 4) + Le(PROTOCOL_VERSION, 2) + Le(kind, 2) + Le(seqNo, 8) + Le(len, 4)
  }

  function Body(m: Msg): (b: seq<byte>)
    ensures |b| == HEADER_SIZE + |m.payload|
  {
    Header(m.kind, m.seqNo, |m.payload|) + m.payload
  }

  function Encode(m: Msg): (b: seq<byte>)
    ensures |b| == HEADER_SIZE + |m.payload| + CHECKSUM_SIZE
  {
    Body(m) + Le(Hash(Body(m), PROTOCOL_SEED), 8)
  }

  method EncodeHeader(kind: nat, seqNo: nat, len: nat) returns (buf: seq<byte>)
    ensures buf == Header(kind, seqNo, len)
  {
    buf := PutLe([], PROTOCOL_MAGIC, 4);
    assert buf == Le(PROTOCOL_MAGIC, 4);
    buf := PutLe(buf, PROTOCOL_VERSION, 2);
    buf := PutLe(buf, kind, 2);
    buf := PutLe(buf, seqNo, 8);
    buf := PutLe(buf, len, 4);
  }

  method EncodeFrame(m: Msg) returns (buf: seq<byte>)
    ensures buf == Encode(m)
  {
    buf := EncodeHeader(m.kind, m.seqNo, |m.payload|);
    buf := buf + m.payload;
    var sum := Fnv1a64(buf, 0, |buf|, PROTOCOL_SEED);
    assert buf[0..|buf|] == buf;
    buf := PutLe(buf, sum, 8);
  }

  /** What the decoder makes of the front of its buffer. */
  datatype Front = Malformed | Partial | Complete(msg: Msg, len: nat)

  function Parse(b: seq<byte>): (f: Front)
    ensures f.Complete? ==> HEADER_SIZE <= f.len <= |b|
  {
    if |b| < HEADER_SIZE then Partial
    else if FromLe(b[0..4]) != PROTOCOL_MAGIC then Malformed
    else if FromLe(b[4..6]) != PROTOCOL_VERSION then Malformed
    else if !KnownMessageType(FromLe(b[6..8])) then Malformed
    else
      var plen := FromLe(b[16..20]);
      if plen > MAX_PAYLOAD then Malformed
      else if |b| < HEADER_SIZE + plen + CHECKSUM_SIZE then Partial
      else if FromLe(b[HEADER_SIZE + plen..HEADER_SIZE + plen + 8]) != Hash(b[..HEADER_SIZE + plen], PROTOCOL_SEED)
      then Malformed
      else Complete(Msg(FromLe(b[6..8]), FromLe(b[8..16]), b[HEADER_SIZE..HEADER_SIZE + plen]),
                    HEADER_SIZE + plen + CHECKSUM_SIZE)
  }

  datatype Outcome = Rejected | Accepted(msgs: seq<Msg>, rest: seq<byte>)

  /** Decoding a whole buffer: every complete frame in turn, then the leftover. */
  function Decode(b: seq<byte>): (r: Outcome)
    decreases |b|
  {
    match Parse(b)
    case Malformed => Rejected
    case Partial => Accepted([], b)
    case Complete(m, n) =>
      match Decode(b[n..])
      case Rejected => Rejected
      case Accepted(ms, rest) => Accepted([m] + ms, rest)
  }

  function EncodeAll(ms: seq<Msg>): seq<byte> {
    if ms == [] then [] else Encode(ms[0]) + EncodeAll(ms[1..])
  }

  // ---- One frame: the parser and the encoder are exact inverses ----

  /** The fields of a header, read back from where the encoder put them. */
  lemma HeaderFields(b: seq<byte>, kind: nat, seqNo: nat, len: nat)
    requires |b| >= HEADER_SIZE && b[..HEADER_SIZE] == Header(kind, seqNo, len)
    ensures b[0..4] == Le(PROTOCOL_MAGIC, 4) && b[4..6] == Le(PROTOCOL_VERSION, 2)
    ensures b[6..8] == Le(kind, 2) && b[8..16] == Le(seqNo, 8) && b[16..20] == Le(len, 4)
  {
    var h := Header(kind, seqNo, len);
    assert b[0..4] == h[0..4] && b[4..6] == h[4..6] && b[6..8] == h[6..8];
    assert b[8..16] == h[8..16] && b[16..20] == h[16..20];
  }

  lemma HeaderValues(kind: nat, seqNo: nat, len: nat)
    requires KnownMessageType(kind) && seqNo < WORD && len <= MAX_PAYLOAD
    ensures FromLe(Le(PROTOCOL_MAGIC, 4)) == PROTOCOL_MAGIC
    ensures FromLe(Le(PROTOCOL_VERSION, 2)) == PROTOCOL_VERSION
    ensures FromLe(Le(kind, 2)) == kind && FromLe(Le(seqNo, 8)) == seqNo && FromLe(Le(len, 4)) == len
  {
    Widths();
    FromLeOfLe(PROTOCOL_MAGIC, 4);
    FromLeOfLe(PROTOCOL_VERSION, 2);
    FromLeOfLe(kind, 2);
    FromLeOfLe(seqNo, 8);
    FromLeOfLe(len, 4);
  }

  /** Whatever follows it, an encoded frame parses back to its message. */
  lemma ParseOfEncode(m: Msg, rest: seq<byte>)
    requires Sendable(m)
    ensures Parse(Encode(m) + rest) == Complete(m, |Encode(m)|)
  {
    var b := Encode(m) + rest;
    var n := |m.payload|;
    assert b[..HEADER_SIZE] == Header(m.kind, m.seqNo, n);
    HeaderFields(b, m.kind, m.seqNo, n);
    HeaderValues(m.kind, m.seqNo, n);
    assert b[..HEADER_SIZE + n] == Body(m);
    assert b[HEADER_SIZE..HEADER_SIZE + n] == m.payload;
    var sum := Hash(Body(m), PROTOCOL_SEED);
    assert b[HEADER_SIZE + n..HEADER_SIZE + n + 8] == Le(sum, 8);
    HashBound(Body(m), PROTOCOL_SEED);
    Widths();
    FromLeOfLe(sum, 8);
  }

  /** Whatever the parser takes off the front is byte for byte an encoded frame. */
  lemma EncodeOfParse(b: seq<byte>)
    requires Parse(b).Complete?
    ensures Sendable(Parse(b).msg)
    ensures b[..Parse(b).len] == Encode(Parse(b).msg)
  {
    var m, n := Parse(b).msg, |Parse(b).msg.payload|;
    LeOfFromLe(b[0..4]);
    LeOfFromLe(b[4..6]);
    LeOfFromLe(b[6..8]);
    LeOfFromLe(b[8..16]);
    LeOfFromLe(b[16..20]);
    Widths();
    assert b[..HEADER_SIZE] == b[0..4] + b[4..6] + b[6..8] + b[8..16] + b[16..20];
    assert b[..HEADER_SIZE] == Header(m.kind, m.seqNo, n);
    assert b[..HEADER_SIZE + n] == b[..HEADER_SIZE] + b[HEADER_SIZE..HEADER_SIZE + n] == Body(m);
    var tail := b[HEADER_SIZE + n..HEADER_SIZE + n + 8];
    LeOfFromLe(tail);
    assert b[..HEADER_SIZE + n + 8] == b[..HEADER_SIZE + n] + tail;
  }

  /** Later bytes never change a verdict already reached on the front. */
  lemma ParseIsStable(b: seq<byte>, more: seq<byte>)
    ensures !Parse(b).Partial? ==> Parse(b + more) == Parse(b)
  {
    if |b| >= HEADER_SIZE {
      var c := b + more;
      assert c[0..4] == b[0..4] && c[4..6] == b[4..6] && c[6..8] == b[6..8];
      assert c[8..16] == b[8..16] && c[16..20] == b[16..20];
      var plen := FromLe(b[16..20]);
      if |b| >= HEADER_SIZE + plen + CHECKSUM_SIZE {
        assert c[..HEADER_SIZE + plen] == b[..HEADER_SIZE + plen];
        assert c[HEADER_SIZE + plen..HEADER_SIZE + plen + 8] == b[HEADER_SIZE + plen..HEADER_SIZE + plen + 8];
        assert c[HEADER_SIZE..HEADER_SIZE + plen] == b[HEADER_SIZE..HEADER_SIZE + plen];
      }
    }
  }

  // ---- Whole buffers ----

  /** The consumed bytes are exactly the concatenated encodings of the delivered
      messages, and the leftover holds no complete frame. */
  lemma {:induction false} DecodeIsExact(b: seq<byte>)
    requires Decode(b).Accepted?
    ensures b == EncodeAll(Decode(b).msgs) + Decode(b).rest
    ensures Parse(Decode(b).rest).Partial?
    ensures forall m | m in Decode(b).msgs :: Sendable(m)
    decreases |b|
  {
    if Parse(b).Complete? {
      var n := Parse(b).len;
      EncodeOfParse(b);
      DecodeIsExact(b[n..]);
      PrependFrame(b, n, Parse(b).msg, Decode(b[n..]).msgs, Decode(b[n..]).rest);
    } else {
      assert EncodeAll([]) + b == b;
    }
  }

  lemma PrependFrame(b: seq<byte>, n: nat, m: Msg, ms: seq<Msg>, rest: seq<byte>)
    requires n <= |b| && b[..n] == Encode(m) && b[n..] == EncodeAll(ms) + rest
    ensures b == EncodeAll([m] + ms) + rest
  {
    assert ([m] + ms)[1..] == ms;
    assert b == b[..n] + b[n..];
    assert Encode(m) + (EncodeAll(ms) + rest) == Encode(m) + EncodeAll(ms) + rest;
  }

  /** And conversely: any sequence of sendable messages decodes to itself. */
  lemma {:induction false} DecodeOfEncodeAll(ms: seq<Msg>, rest: seq<byte>)
    requires forall m | m in ms :: Sendable(m)
    requires Parse(rest).Partial?
    ensures Decode(EncodeAll(ms) + rest) == Accepted(ms, rest)
  {
    if ms == [] {
      assert EncodeAll(ms) + rest == rest;
    } else {
      var tail := EncodeAll(ms[1..]) + rest;
      assert EncodeAll(ms) + rest == Encode(ms[0]) + tail;
      ParseOfEncode(ms[0], tail);
      assert (Encode(ms[0]) + tail)[|Encode(ms[0])|..] == tail;
      DecodeOfEncodeAll(ms[1..], rest);
      assert [ms[0]] + ms[1..] == ms;
    }
  }

  /** A single encoded message survives the trip exactly when its payload is within
      the limit; the encoder itself does not check it. */
  lemma RoundTripIffWithinLimit(m: Msg)
    requires WellTyped(m)
    ensures Decode(Encode(m)) == Accepted([m], []) <==> |m.payload| <= MAX_PAYLOAD
  {
    if |m.payload| <= MAX_PAYLOAD {
      DecodeOfEncodeAll([m], []);
      assert EncodeAll([m][1..]) == [];
      assert EncodeAll([m]) + [] == Encode(m);
    }
    if Decode(Encode(m)) == Accepted([m], []) {
      DecodeIsExact(Encode(m));
      assert m in [m];
    }
  }

  // ---- Chunked reception ----

  /** The receive loop: append a chunk, decode what is complete, keep the rest;
      stop for good at the first malformed frame. */
  function Receive(buffered: seq<byte>, chunks: seq<seq<byte>>): (r: Outcome)
    decreases |chunks|
  {
    if chunks == [] then Accepted([], buffered)
    else
      match Decode(buffered + chunks[0])
      case Rejected => Rejected
      case Accepted(ms, rest) =>
        match Receive(rest, chunks[1..])
        case Rejected => Rejected
        case Accepted(more, last) => Accepted(ms + more, last)
  }

  function Concat(chunks: seq<seq<byte>>): seq<byte> {
    if chunks == [] then [] else chunks[0] + Concat(chunks[1..])
  }

  function Prepend(ms: seq<Msg>, r: Outcome): Outcome {
    match r
    case Rejected => Rejected
    case Accepted(more, rest) => Accepted(ms + more, rest)
  }

  /** Decoding in two goes is decoding in one. */
  lemma {:induction false} DecodeInTwoGoes(b: seq<byte>, more: seq<byte>)
    ensures Decode(b).Rejected? ==> Decode(b + more).Rejected?
    ensures Decode(b).Accepted? ==> Decode(b + more) == Prepend(Decode(b).msgs, Decode(Decode(b).rest + more))
    decreases |b|
  {
    ParseIsStable(b, more);
    match Parse(b)
    case Malformed =>
    case Partial =>
      var d := Decode(b + more);
      assert d.Accepted? ==> [] + d.msgs == d.msgs;
    case Complete(m, n) =>
      assert (b + more)[n..] == b[n..] + more;
      DecodeInTwoGoes(b[n..], more);
      if Decode(b[n..]).Accepted? {
        var d := Decode(Decode(b[n..]).rest + more);
        assert d.Accepted? ==> [m] + (Decode(b[n..]).msgs + d.msgs) == ([m] + Decode(b[n..]).msgs) + d.msgs;
      }
  }

  /** However a byte stream is split into chunks, incremental decoding fails exactly
      when one-shot decoding does, and otherwise gives the same messages and leftover. */
  lemma {:induction false} ChunkingIsInvisible(buffered: seq<byte>, chunks: seq<seq<byte>>)
    requires Parse(buffered).Partial?
    ensures Receive(buffered, chunks) == Decode(buffered + Concat(chunks))
    decreases |chunks|
  {
    if chunks == [] {
      assert buffered + Concat(chunks) == buffered;
    } else {
      var b, more := buffered + chunks[0], Concat(chunks[1..]);
      assert buffered + Concat(chunks) == b + more;
      DecodeInTwoGoes(b, more);
      if Decode(b).Accepted? {
        DecodeIsExact(b);
        ChunkingIsInvisible(Decode(b).rest, chunks[1..]);
      }
    }
  }

  // ---- Corruption ----

  /** Replacing any single byte of a lone frame outside the length field is always
      rejected. */
  lemma OneByteCorruptionIsRejected(m: Msg, bad: seq<byte>, i: nat)
    requires Sendable(m)
    requires OneByteApart(Encode(m), bad, i)
    requires !(16 <= i < 20)
    ensures Decode(bad).Rejected?
  {
    var b, n := Encode(m), |m.payload|;
    assert b + [] == b;
    ParseOfEncode(m, []);
    assert bad[16..20] == b[16..20];
    if i < HEADER_SIZE + n {
      assert OneByteApart(b[..HEADER_SIZE + n], bad[..HEADER_SIZE + n], i);
      HashCatchesOneByte(b[..HEADER_SIZE + n], bad[..HEADER_SIZE + n], i, PROTOCOL_SEED);
      assert bad[HEADER_SIZE + n..HEADER_SIZE + n + 8] == b[HEADER_SIZE + n..HEADER_SIZE + n + 8];
    } else {
      assert bad[..HEADER_SIZE + n] == b[..HEADER_SIZE + n];
      var s, t := b[HEADER_SIZE + n..HEADER_SIZE + n + 8], bad[HEADER_SIZE + n..HEADER_SIZE + n + 8];
      assert s[i - HEADER_SIZE - n] != t[i - HEADER_SIZE - n];
      if FromLe(s) == FromLe(t) { FromLeInjective(s, t); }
    }
  }

  /** Inside the length field the checksum cannot help: a length raised within the
      limit makes the decoder wait for bytes that never come, and only a length
      beyond the limit is rejected outright. */
  lemma LengthCorruption(m: Msg, bad: seq<byte>)
    requires Sendable(m)
    requires |bad| == |Encode(m)| && bad[..16] == Encode(m)[..16]
    requires FromLe(bad[16..20]) > |m.payload|
    ensures Decode(bad) == if FromLe(bad[16..20]) > MAX_PAYLOAD then Rejected else Accepted([], bad)
  {
    var b, n := Encode(m), |m.payload|;
    assert b + [] == b;
    ParseOfEncode(m, []);
    assert bad[0..4] == bad[..16][0..4] == b[0..4];
    assert bad[4..6] == bad[..16][4..6] == b[4..6];
    assert bad[6..8] == bad[..16][6..8] == b[6..8];
  }

  // ---- The decoding loop ----

  /** The messages a decoding pass hands out, also when it ends at a malformed frame. */
  function Delivered(b: seq<byte>): (ms: seq<Msg>)
    ensures Decode(b).Accepted? ==> ms == Decode(b).msgs
    decreases |b|
  {
    match Parse(b)
    case Malformed => []
    case Partial => []
    case Complete(m, n) => [m] + Delivered(b[n..])
  }

  /** Reads the frame at `p`, field by field. */
  method ParseFront(p: seq<byte>) returns (f: Front)
    requires |p| >= HEADER_SIZE
    ensures f == Parse(p)
  {
    var magic := GetLe(p, 0, 4);
    if magic != PROTOCOL_MAGIC { return Malformed; }
    var version := GetLe(p, 4, 2);
    if version != PROTOCOL_VERSION { return Malformed; }
    var kind := GetLe(p, 6, 2);
    if !KnownMessageType(kind) { return Malformed; }
    var seqNo := GetLe(p, 8, 8);
    var plen := GetLe(p, 16, 4);
    if plen > MAX_PAYLOAD { return Malformed; }
    var frameLen := HEADER_SIZE + plen + CHECKSUM_SIZE;
    if |p| < frameLen { return Partial; }
    var stored := GetLe(p, HEADER_SIZE + plen, 8);
    var computed := Fnv1a64(p, 0, HEADER_SIZE + plen, PROTOCOL_SEED);
    if stored != computed { return Malformed; }
    f := Complete(Msg(kind, seqNo, p[HEADER_SIZE..HEADER_SIZE + plen]), frameLen);
  }

  /** With `got` handed out, decoding `rest` completes decoding `b`. */
  ghost predicate Completes(b: seq<byte>, rest: seq<byte>, got: seq<Msg>) {
    && Delivered(b) == got + Delivered(rest) && (Decode(b).Accepted? <==> Decode(rest).Accepted?)
    && (Decode(b).Accepted? ==> Decode(b).rest == Decode(rest).rest)
  }

  lemma NothingTaken(b: seq<byte>)
    ensures Completes(b, b, [])
  {
  }

  lemma OneFrameTaken(b: seq<byte>, rest: seq<byte>, got: seq<Msg>, f: Front)
    requires Completes(b, rest, got) && f.Complete? && f == Parse(rest)
    ensures Completes(b, rest[f.len..], got + [f.msg])
  {
    OneMore(got, f.msg, Delivered(rest[f.len..]));
  }

  lemma OneMore(ms: seq<Msg>, m: Msg, more: seq<Msg>)
    ensures ms + ([m] + more) == (ms + [m]) + more
  {
  }

  lemma DropTwice(b: seq<byte>, off: nat, n: nat)
    requires off + n <= |b|
    ensures b[off..][n..] == b[off + n..]
  {
  }

  lemma NothingLeft(b: seq<byte>, rest: seq<byte>, got: seq<Msg>, f: Front)
    requires Completes(b, rest, got) && !f.Complete? && f == Parse(rest)
    ensures Delivered(b) == got
    ensures Decode(b) == if f.Malformed? then Rejected else Accepted(got, rest)
  {
    assert got + [] == got;
  }

  /** The receive buffer and the message list that `decode_frames` updates. */
  class Decoder {
    var buffer: seq<byte>
    var out: seq<Msg>

    constructor ()
      ensures buffer == [] && out == []
    {
      buffer, out := [], [];
    }

    /** On failure the buffer is left alone, but the messages decoded before the
        malformed frame have already been delivered. */
    method DecodeFrames() returns (ok: bool)
      modifies this
      ensures ok <==> Decode(old(buffer)).Accepted?
      ensures out == old(out) + Delivered(old(buffer))
      ensures buffer == if ok then Decode(old(buffer)).rest else old(buffer)
    {
      var off := 0;
      ghost var got: seq<Msg> := [];
      ghost var all, rest := buffer, buffer;
      NothingTaken(all);
      while |buffer| - off >= HEADER_SIZE
        invariant buffer == all && out == old(out) + got
        invariant off <= |all| && rest == all[off..] && Completes(all, rest, got)
        decreases |buffer| - off
      {
        var front := ParseFront(buffer[off..]);
        if front.Malformed? {
          NothingLeft(all, rest, got, front);
          return false;
        }
        if front.Partial? { break; }
        OneFrameTaken(all, rest, got, front);
        DropTwice(all, off, front.len);
        out := out + [front.msg];
        got := got + [front.msg];
        rest := rest[front.len..];
        off := off + front.len;
      }
      NothingLeft(all, rest, got, Partial);
      if off > 0 { buffer := buffer[off..]; }
      ok := true;
    }
  }
}
