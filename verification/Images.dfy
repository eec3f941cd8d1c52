/** The durable part of the state: what `serializeState` writes and what
    `deserializeState` and the recovery after it make of it (src/scheduler.cpp). */
module Images {
  import opened Types
  import opened Lifecycles
  import opened Conflicts
  import opened States
  import opened Steps
  import opened Invariants

  datatype SavedRecord = SavedRecord(request: Request, lifecycle: Lifecycle, seqNo: nat, age: nat, fairness: Fairness)

  /** Records appear in the order in which the map happened to be walked. */
  datatype Image = Image(epoch: Gen, counters: Counters, policyGen: Gen, records: seq<SavedRecord>)

  function SavedForm(r: Record): SavedRecord {
    SavedRecord(r.request, r.lifecycle, r.seqNo, r.age, r.fairness)
  }

  /** `d` is a snapshot of `s`: its counters, and each record exactly once. */
  ghost predicate Snapshot(s: State, d: Image) {
    && d.epoch == s.epoch && d.counters == s.counters && d.policyGen == s.policyGen
    && |d.records| == |s.records|
    && (forall i, j | 0 <= i < j < |d.records| :: d.records[i].request.id != d.records[j].request.id)
    && (forall r | r in d.records :: r.request.id in s.records && r == SavedForm(s.records[r.request.id]))
    && (forall id | id in s.records :: SavedForm(s.records[id]) in d.records)
  }

  function LoadedRecord(r: SavedRecord): Record {
    Record(r.request, r.lifecycle, UnknownReadiness, r.seqNo, r.age, r.fairness, false, NO_FOOTPRINT, None)
  }

  /** Of two records with the same id, the first one read is kept. */
  function LoadedRecords(rs: seq<SavedRecord>): map<Id, Record> {
    if rs == [] then map[] else LoadedRecords(rs[1..])[rs[0].request.id := LoadedRecord(rs[0])]
  }

  function LoadedIndex(rs: seq<SavedRecord>): Index {
    if rs == [] then map[]
    else IndexAdd(LoadedIndex(rs[..|rs| - 1]), rs[|rs| - 1].request.participants, rs[|rs| - 1].request.id)
  }

  /** `deserializeState`: replaces the durable state and forgets all grants; evidence
      published to `s` is still there until recovery clears it. */
  function Load(s: State, d: Image): State {
    s.(epoch := d.epoch, counters := d.counters, policyGen := d.policyGen,
       records := LoadedRecords(d.records), participantRequests := LoadedIndex(d.records),
       grants := map[], activeByParticipant := map[], activeGrants := 0)
  }

  function Restore(s: State, d: Image): State { Recover(Load(s, d)) }

  ghost predicate ImageOk(d: Image) {
    forall r | r in d.records :: WellFormed(r.request) && AtRest(r.lifecycle) && r.request.id < d.counters.request
  }

  lemma SnapshotOk(s: State, d: Image)
    requires Inv(s) && Snapshot(s, d)
    ensures ImageOk(d)
  {
  }

  /** Every loaded record comes from a saved one. */
  lemma {:induction false} LoadedFrom(rs: seq<SavedRecord>, id: Id) returns (r: SavedRecord)
    requires id in LoadedRecords(rs)
    ensures r in rs && r.request.id == id && LoadedRecords(rs)[id] == LoadedRecord(r)
  {
    assert rs == [rs[0]] + rs[1..];
    if id == rs[0].request.id {
      r := rs[0];
    } else {
      r := LoadedFrom(rs[1..], id);
    }
  }

  lemma {:induction false} LoadedAll(rs: seq<SavedRecord>, r: SavedRecord)
    requires r in rs
    ensures r.request.id in LoadedRecords(rs)
  {
    assert rs == [rs[0]] + rs[1..];
    if r != rs[0] { LoadedAll(rs[1..], r); }
  }

  /** Reading one more record: it is kept unless its id has been read before. */
  lemma {:induction false} LoadedOneMore(rs: seq<SavedRecord>, r: SavedRecord)
    ensures LoadedRecords(rs + [r])
              == if r.request.id in LoadedRecords(rs) then LoadedRecords(rs)
                 else LoadedRecords(rs)[r.request.id := LoadedRecord(r)]
  {
    if rs == [] {
      assert [r][1..] == [];
    } else {
      assert (rs + [r])[1..] == rs[1..] + [r] && (rs + [r])[0] == rs[0];
      LoadedOneMore(rs[1..], r);
    }
  }

  /** Whatever scheduler an image is restored into, the result is in order, holds no
      grant and no evidence, and has no record in a state that could run. */
  lemma RestoreKeeps(s: State, d: Image)
    requires ImageOk(d)
    ensures Inv(Restore(s, d))
    ensures Restore(s, d).epoch == d.epoch && Restore(s, d).grants == map[]
  {
    forall id | id in LoadedRecords(d.records) ensures RecordOk(Restore(s, d), id) {
      var r := LoadedFrom(d.records, id);
    }
  }

  /** Loading a snapshot gives back each record's durable part, and no other records. */
  lemma SnapshotLoads(t: State, d: Image)
    requires Snapshot(t, d) && forall id | id in t.records :: t.records[id].request.id == id
    ensures LoadedRecords(d.records) == map id | id in t.records :: LoadedRecord(SavedForm(t.records[id]))
  {
    var loaded := LoadedRecords(d.records);
    forall id | id in t.records ensures id in loaded {
      LoadedAll(d.records, SavedForm(t.records[id]));
    }
    forall id | id in loaded ensures id in t.records && loaded[id] == LoadedRecord(SavedForm(t.records[id])) {
      var r := LoadedFrom(d.records, id);
    }
  }

  lemma OwnIds(t: State)
    requires Inv(t)
    ensures forall id | id in t.records :: t.records[id].request.id == id
  {
    forall id | id in t.records ensures t.records[id].request.id == id { assert RecordOk(t, id); }
  }

  /** What survives of a record. */
  ghost predicate SurvivesAs(r: Record, q: Record) {
    && q.request == r.request && q.seqNo == r.seqNo && q.age == r.age && q.fairness == r.fairness
    && q.lifecycle == (if Terminal(r.lifecycle) then r.lifecycle else RevalidationRequired)
    && q.current.None? && !q.hardEligible
  }

  ghost predicate NoEvidence(s: State) {
    && s.participants == map[] && s.plans == map[] && s.deps == map[] && s.reservations == map[]
    && s.congestion.None? && s.capacity.None?
    && s.congestionGen == 0 && s.capacityGen == 0 && s.reservationGen == 0
  }

  ghost predicate NoGrants(s: State) {
    s.grants == map[] && s.activeByParticipant == map[] && s.participantRequests == map[] && s.activeGrants == 0
  }

  /** Restoring a snapshot: the same counters, and the same records with their requests,
      ages and fairness; finished lifecycles are kept, all others must be revalidated,
      and neither grants nor live evidence survive. */
  lemma RestoreOfSnapshot(s: State, t: State, d: Image)
    requires Snapshot(t, d) && forall id | id in t.records :: t.records[id].request.id == id
    ensures var u := Restore(s, d);
            && u.epoch == t.epoch && u.counters == t.counters && u.policyGen == t.policyGen
            && u.now == s.now && u.policy == s.policy
            && u.records.Keys == t.records.Keys
            && (forall id | id in t.records :: SurvivesAs(t.records[id], u.records[id]))
            && NoGrants(u) && NoEvidence(u)
  {
    RestoredRecords(s, t, d);
    RestoredRest(s, d);
  }

  lemma RestoredRecords(s: State, t: State, d: Image)
    requires Snapshot(t, d) && forall id | id in t.records :: t.records[id].request.id == id
    ensures Restore(s, d).records.Keys == t.records.Keys
    ensures forall id | id in t.records :: SurvivesAs(t.records[id], Restore(s, d).records[id])
  {
    SnapshotLoads(t, d);
    assert Restore(s, d).records.Keys == t.records.Keys;
    forall id | id in t.records ensures SurvivesAs(t.records[id], Restore(s, d).records[id]) {
      LoadedSurvives(t.records[id]);
    }
  }

  lemma LoadedSurvives(r: Record)
    ensures SurvivesAs(r, Recovered(LoadedRecord(SavedForm(r))))
  {
  }

  lemma RestoredRest(s: State, d: Image)
    ensures var u := Restore(s, d);
            && u.epoch == d.epoch && u.counters == d.counters && u.policyGen == d.policyGen
            && u.now == s.now && u.policy == s.policy && NoGrants(u) && NoEvidence(u)
  {
  }

  // ---- A load without the recovery that follows it ----

  lemma {:induction false} LoadedIsListed(rs: seq<SavedRecord>, r: SavedRecord)
    requires r in rs
    ensures ListedForAll(LoadedIndex(rs), r.request.participants, r.request.id)
  {
    var n := |rs| - 1;
    assert rs == rs[..n] + [rs[n]];
    if r != rs[n] { LoadedIsListed(rs[..n], r); }
  }

  lemma LoadedRecordOk(u: State, t: State, d: Image, id: Id)
    requires id in t.records && RecordOk(t, id) && SavedForm(t.records[id]) in d.records
    requires id in u.records && u.records[id] == LoadedRecord(SavedForm(t.records[id]))
    requires u.participantRequests == LoadedIndex(d.records) && u.counters.request == t.counters.request
    ensures RecordOk(u, id) <==> !Holding(t.records[id].lifecycle)
  {
    LoadedIsListed(d.records, SavedForm(t.records[id]));
  }

  /** Each record comes back with its lifecycle but without its grant. */
  lemma LoadedLifecycles(s: State, t: State, d: Image)
    requires Inv(t) && Snapshot(t, d)
    ensures Load(s, d).records.Keys == t.records.Keys
    ensures forall id | id in t.records ::
              && Load(s, d).records[id] == LoadedRecord(SavedForm(t.records[id]))
              && Load(s, d).records[id].lifecycle == t.records[id].lifecycle && Load(s, d).records[id].current.None?
  {
    OwnIds(t);
    SnapshotLoads(t, d);
  }

  /** A snapshot that is loaded but not recovered from leaves a state in order exactly when
      nothing was granted in it: a record loaded as granted, dispatching or active has no grant. */
  lemma LoadedIsInOrder(s: State, t: State, d: Image)
    requires Inv(s) && Inv(t) && Snapshot(t, d)
    ensures Inv(Load(s, d)) <==> forall id | id in t.records :: !Holding(t.records[id].lifecycle)
  {
    var u := Load(s, d);
    LoadedLifecycles(s, t, d);
    LoadedRest(s, d);
    forall id | id in t.records ensures RecordOk(u, id) <==> !Holding(t.records[id].lifecycle) {
      LoadedRecordOk(u, t, d, id);
    }
    LoadedIff(u, t);
  }

  lemma LoadedRest(s: State, d: Image)
    requires Inv(s)
    ensures var u := Load(s, d); u.grants == map[] && IndexSound(u) && CongestionOk(u)
  {
  }

  lemma LoadedIff(u: State, t: State)
    requires u.grants == map[] && IndexSound(u) && CongestionOk(u) && u.records.Keys == t.records.Keys
    requires forall id | id in t.records :: RecordOk(u, id) <==> !Holding(t.records[id].lifecycle)
    ensures Inv(u) <==> forall id | id in t.records :: !Holding(t.records[id].lifecycle)
  {
  }
}
