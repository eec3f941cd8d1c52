/** Saving and restoring the scheduler: the image with its header and checksum, and the
    checks `Persistence::restore` makes before and after it replaces the state
    (src/persistence.cpp). */
module Persistence {
  import opened Bytes
  import opened Fnv
  import opened Types
  import opened Lifecycles
  import opened States
  import opened Invariants
  import opened Images
  import opened Codec
  import opened Layout

  const MAGIC: nat := 0x43535058
  const VERSION: nat := 1
  const CHECK_SEED: nat := 0x4b2f_9a8d_1c7e_3f5a

  function Header(): (h: seq<byte>)
    ensures |h| == 6
  {
    Le(MAGIC, 4) + Le(VERSION, 2)
  }

  /** Appends the checksum of everything before it. */
  function Sealed(body: seq<byte>): seq<byte> { body + Le(Hash(body, CHECK_SEED), 8) }

  function StateBytes(f: Doubles, d: Image): seq<byte>
    requires Typed(STATE, ImageVal(f, d))
  {
    Enc(STATE, ImageVal(f, d))
  }

  function Saved(f: Doubles, d: Image): seq<byte>
    requires Typed(STATE, ImageVal(f, d))
  {
    Sealed(Header() + StateBytes(f, d))
  }

  /** Length, magic, version and checksum, in that order. */
  predicate Intact(b: seq<byte>) {
    && |b| >= 14
    && FromLe(b[..4]) == MAGIC && FromLe(b[4..6]) == VERSION
    && FromLe(b[|b| - 8..]) == Hash(b[..|b| - 8], CHECK_SEED)
  }

  /** The state after `restore`, and whether it returned without an error. */
  datatype Outcome = Outcome(state: State, ok: bool)

  /** The state is replaced as soon as the state section has been read; bytes left over
      after it are only noticed then. */
  function RestoreFrom(f: Doubles, s: State, b: seq<byte>): Outcome {
    if !Intact(b) then Outcome(s, false)
    else
      var p := Dec(StateRead(s.policy.bounds.maxHistoryRecords), b[6..|b| - 8]);
      if p.None? then Outcome(s, false)
      else if p.value.rest != [] then Outcome(Load(s, ImageOf(f, p.value.v)), false)
      else Outcome(Restore(s, ImageOf(f, p.value.v)), true)
  }

  // ---- Saved images ----

  lemma SealedIsIntact(state: seq<byte>)
    ensures Intact(Sealed(Header() + state))
    ensures Sealed(Header() + state)[6..|Sealed(Header() + state)| - 8] == state
  {
    var body := Header() + state;
    var b := Sealed(body);
    HashBound(body, CHECK_SEED);
    Widths();
    FromLeOfLe(Hash(body, CHECK_SEED), 8);
    FromLeOfLe(MAGIC, 4);
    FromLeOfLe(VERSION, 2);
    assert b[..4] == Le(MAGIC, 4) && b[4..6] == Le(VERSION, 2);
    assert b[..|b| - 8] == body && b[|b| - 8..] == Le(Hash(body, CHECK_SEED), 8);
  }

  /** A saved image is restored if and only if the restoring scheduler's bound on history
      records admits it; otherwise nothing changes. */
  lemma RestoreOfSaved(f: Doubles, s: State, d: Image)
    requires Storable(f, d)
    ensures RestoreFrom(f, s, Saved(f, d)) ==
            if |d.records| <= s.policy.bounds.maxHistoryRecords then Outcome(Restore(s, d), true) else Outcome(s, false)
  {
    var most := s.policy.bounds.maxHistoryRecords;
    SealedIsIntact(StateBytes(f, d));
    StateReadsBack(f, d, most, []);
    assert StateBytes(f, d) + [] == StateBytes(f, d);
    ImageConverts(f, d);
  }

  /** Saving a scheduler and restoring the bytes: the same counters and the same records
      with their requests, ages and fairness; finished lifecycles are kept, all others
      need revalidation, and no grant and no live evidence survives. */
  lemma SaveThenRestore(f: Doubles, s: State, t: State, d: Image)
    requires Inv(t) && Snapshot(t, d) && Storable(f, d) && |t.records| <= s.policy.bounds.maxHistoryRecords
    ensures var o := RestoreFrom(f, s, Saved(f, d));
            && o.ok && Inv(o.state)
            && o.state.epoch == t.epoch && o.state.counters == t.counters && o.state.policyGen == t.policyGen
            && o.state.records.Keys == t.records.Keys
            && (forall id | id in t.records :: SurvivesAs(t.records[id], o.state.records[id]))
            && NoGrants(o.state) && NoEvidence(o.state)
  {
    RestoreOfSaved(f, s, d);
    SnapshotOk(t, d);
    RestoreKeeps(s, d);
    OwnIds(t);
    RestoreOfSnapshot(s, t, d);
  }

  /** Two images that are saved as the same bytes are the same image. */
  lemma SavedTellsApart(f: Doubles, d: Image, e: Image)
    requires Storable(f, d) && Storable(f, e) && Saved(f, d) == Saved(f, e)
    ensures d == e
  {
    SealedIsIntact(StateBytes(f, d));
    SealedIsIntact(StateBytes(f, e));
    EncInjective(STATE, ImageVal(f, d), ImageVal(f, e));
    ImageConverts(f, d);
    ImageConverts(f, e);
  }

  // ---- Corruption ----

  /** A one-byte substitution anywhere in an intact image makes it not intact. */
  lemma OneByteIsCaught(a: seq<byte>, b: seq<byte>, i: nat)
    requires Intact(a) && OneByteApart(a, b, i)
    ensures !Intact(b)
  {
    var n := |a| - 8;
    if i < n {
      assert OneByteApart(a[..n], b[..n], i);
      HashCatchesOneByte(a[..n], b[..n], i, CHECK_SEED);
      assert a[n..] == b[n..];
    } else {
      assert a[..n] == b[..n];
      assert a[n..][i - n] != b[n..][i - n];
      if FromLe(a[n..]) == FromLe(b[n..]) { FromLeInjective(a[n..], b[n..]); }
    }
  }

  /** So the corrupted image is rejected before any state changes. */
  lemma CorruptionChangesNothing(f: Doubles, s: State, d: Image, b: seq<byte>, i: nat)
    requires Storable(f, d) && OneByteApart(Saved(f, d), b, i)
    ensures RestoreFrom(f, s, b) == Outcome(s, false)
  {
    SealedIsIntact(StateBytes(f, d));
    OneByteIsCaught(Saved(f, d), b, i);
  }

  // ---- Failure ----

  /** The bytes pass the checks, a state can be read from them, and bytes are left over. */
  predicate Torn(b: seq<byte>, most: nat) {
    Intact(b) && var p := Dec(StateRead(most), b[6..|b| - 8]); p.Some? && p.value.rest != []
  }

  /** The image in front of the bytes that are left over. */
  function TornImage(f: Doubles, b: seq<byte>, most: nat): Image
    requires Torn(b, most)
  {
    ImageOf(f, Dec(StateRead(most), b[6..|b| - 8]).value.v)
  }

  /** A restore that fails leaves the state alone unless the bytes are torn; then it has
      loaded the image, and the state is the same only if it already was what was loaded. */
  lemma FailedRestore(f: Doubles, s: State, b: seq<byte>)
    requires !RestoreFrom(f, s, b).ok
    ensures var most := s.policy.bounds.maxHistoryRecords;
            var t := RestoreFrom(f, s, b).state;
            && t == (if Torn(b, most) then Load(s, TornImage(f, b, most)) else s)
            && (t == s <==> Torn(b, most) ==> Load(s, TornImage(f, b, most)) == s)
            && (Torn(b, most) && (s.grants != map[] || s.epoch != TornImage(f, b, most).epoch) ==> t != s)
  {
  }

  /** Failure is not always without effect: an image whose state section is followed by
      further bytes, under a matching checksum, is reported as malformed after the records
      have been replaced and before the evidence has been cleared. */
  lemma TrailingBytesTearTheState(f: Doubles, s: State, d: Image, junk: seq<byte>)
    requires Storable(f, d) && |d.records| <= s.policy.bounds.maxHistoryRecords && junk != []
    ensures RestoreFrom(f, s, Sealed(Header() + (StateBytes(f, d) + junk))) == Outcome(Load(s, d), false)
  {
    SealedIsIntact(StateBytes(f, d) + junk);
    StateReadsBack(f, d, s.policy.bounds.maxHistoryRecords, junk);
    ImageConverts(f, d);
  }

  /** What a torn restore costs: when the image is a snapshot of a scheduler with a grant
      under way, the state is no longer in order, and that is the only case. */
  lemma TornRestoreBreaksOrder(f: Doubles, s: State, t: State, d: Image, junk: seq<byte>)
    requires Inv(s) && Inv(t) && Snapshot(t, d) && Storable(f, d)
    requires |d.records| <= s.policy.bounds.maxHistoryRecords && junk != []
    ensures var o := RestoreFrom(f, s, Sealed(Header() + (StateBytes(f, d) + junk)));
            && !o.ok && o.state == Load(s, d)
            && (Inv(o.state) <==> forall id | id in t.records :: !Holding(t.records[id].lifecycle))
            && o.state.records.Keys == t.records.Keys
            && (forall id | id in t.records ::
                  o.state.records[id].lifecycle == t.records[id].lifecycle && o.state.records[id].current.None?)
  {
    TrailingBytesTearTheState(f, s, d, junk);
    LoadedIsInOrder(s, t, d);
    LoadedLifecycles(s, t, d);
  }

  // ---- The imperative form ----

  /** Header, then the value, then the checksum of both. */
  method WriteSealed(sc: Schema, v: Val) returns (bytes: seq<byte>)
    requires Typed(sc, v)
    ensures bytes == Sealed(Header() + Enc(sc, v))
  {
    var w := new Writer();
    w.PutWord(MAGIC, 4);
    w.PutWord(VERSION, 2);
    w.Put(sc, v);
    assert w.buf == Header() + Enc(sc, v);
    var check := Fnv1a64(w.buf, 0, |w.buf|, CHECK_SEED);
    assert w.buf[0..0 + |w.buf|] == w.buf;
    w.PutWord(check, 8);
    bytes := w.buf;
  }

  method Save(f: Doubles, d: Image) returns (bytes: seq<byte>)
    requires Typed(STATE, ImageVal(f, d))
    ensures bytes == Saved(f, d)
  {
    bytes := WriteSealed(STATE, ImageVal(f, d));
  }

  /** The header and checksum tests, as `restore` makes them. */
  method CheckImage(b: seq<byte>) returns (ok: bool)
    ensures ok == Intact(b)
  {
    if |b| < 14 { return false; }
    var magic := GetLe(b, 0, 4);
    var version := GetLe(b, 4, 2);
    assert b[0..0 + 4] == b[..4];
    if magic != MAGIC || version != VERSION { return false; }
    var n := |b| - 8;
    var stored := GetLe(b, n, 8);
    assert b[n..n + 8] == b[n..];
    var computed := Fnv1a64(b, 0, n, CHECK_SEED);
    assert b[0..0 + n] == b[..n];
    ok := stored == computed;
  }

  /** Reads a value from the front of the bytes; also says whether any are left over. */
  method ReadFront(sc: Schema, b: seq<byte>) returns (v: Option<Val>, leftOver: bool)
    ensures v.Some? <==> Dec(sc, b).Some?
    ensures v.Some? ==> v.value == Dec(sc, b).value.v && leftOver == (Dec(sc, b).value.rest != [])
  {
    var rd := new Reader(b);
    assert rd.data[rd.pos..] == b;
    v := rd.Get(sc);
    leftOver := rd.pos != |rd.data|;
  }

  /** Reads the state section of an intact image: the image, and whether bytes are left over. */
  method ReadImage(f: Doubles, b: seq<byte>, most: nat) returns (r: Option<Image>, leftOver: bool)
    requires Intact(b)
    ensures var p := Dec(StateRead(most), b[6..|b| - 8]);
            && (r.Some? <==> p.Some?)
            && (r.Some? ==> r.value == ImageOf(f, p.value.v) && leftOver == (p.value.rest != []))
  {
    var v;
    v, leftOver := ReadFront(StateRead(most), b[6..|b| - 8]);
    r := if v.None? then None else Some(ImageOf(f, v.value));
  }
}
