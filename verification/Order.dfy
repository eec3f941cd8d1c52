/** Order independence: a decision does not depend on the order in which the record map is
    walked, nor, when no two candidates tie, on the ids and sequence numbers that submission
    happened to assign. */
module Order {
  import opened Types
  import opened Rankings
  import opened States
  import opened Steps
  import opened Selection
  import opened Decisions

  // ---- Two states that differ in labels only ----

  /** The same record under another request id and sequence number. */
  ghost predicate Alike(r: Record, q: Record) {
    q == r.(request := r.request.(id := q.request.id), seqNo := q.seqNo, current := q.current)
  }

  ghost predicate Injective(f: map<Id, Id>) {
    forall x, y | x in f && y in f && f[x] == f[y] :: x == y
  }

  /** The grants are the same but for the names of the requests they are for. */
  ghost predicate GrantsRenamed(s: State, t: State, f: map<Id, Id>) {
    && t.grants.Keys == s.grants.Keys
    && (forall x | x in s.grants ::
          && s.grants[x].grant.request in f && t.grants[x].grant.request == f[s.grants[x].grant.request]
          && t.grants[x].Running() == s.grants[x].Running())
  }

  /** `f` renames the records of `s` to those of `t`; everything else agrees. */
  ghost predicate Relabelled(s: State, t: State, f: map<Id, Id>) {
    && Injective(f) && f.Keys == s.records.Keys && f.Values == t.records.Keys
    && (forall id | id in s.records :: f[id] in t.records && Alike(s.records[id], t.records[f[id]]))
    && GrantsRenamed(s, t, f)
    && t == s.(records := t.records, grants := t.grants, counters := t.counters,
               participantRequests := t.participantRequests)
  }

  ghost function Renamed(f: map<Id, Id>, v: seq<Id>): (r: seq<Id>)
    requires forall x | x in v :: x in f
    ensures |r| == |v| && forall i | 0 <= i < |v| :: r[i] == f[v[i]]
  {
    seq(|v|, i requires 0 <= i < |v| => f[v[i]])
  }

  lemma RenamedMember(f: map<Id, Id>, v: seq<Id>, x: Id)
    requires Injective(f) && x in f && forall y | y in v :: y in f
    ensures f[x] in Renamed(f, v) <==> x in v
  {
    if x in v {
      var i :| 0 <= i < |v| && v[i] == x;
      assert Renamed(f, v)[i] == f[x];
    }
    if f[x] in Renamed(f, v) {
      var i :| 0 <= i < |v| && Renamed(f, v)[i] == f[x];
      assert v[i] in v;
    }
  }

  lemma RenamedFirst(f: map<Id, Id>, v: seq<Id>)
    requires v != [] && forall x | x in v :: x in f
    ensures Renamed(f, v)[0] == f[v[0]] && Renamed(f, v)[1..] == Renamed(f, v[1..])
  {
  }

  lemma RenamedLonger(f: map<Id, Id>, v: seq<Id>, x: Id)
    requires x in f && forall y | y in v :: y in f
    ensures Renamed(f, v + [x]) == Renamed(f, v) + [f[x]]
  {
  }

  lemma {:induction false} RenamedWithout(f: map<Id, Id>, ranked: seq<Id>, selected: seq<Id>)
    requires Injective(f) && (forall x | x in ranked :: x in f) && (forall x | x in selected :: x in f)
    ensures forall x | x in Without(ranked, selected) :: x in f
    ensures Without(Renamed(f, ranked), Renamed(f, selected)) == Renamed(f, Without(ranked, selected))
    decreases |ranked|
  {
    if ranked != [] {
      var x, rest := ranked[0], ranked[1..];
      assert ranked == [x] + rest;
      RenamedWithout(f, rest, selected);
      RenamedMember(f, selected, x);
      assert Renamed(f, ranked)[0] == f[x] && Renamed(f, ranked)[1..] == Renamed(f, rest);
      if x in selected {
        assert Without(ranked, selected) == Without(rest, selected);
      } else {
        assert Without(ranked, selected) == [x] + Without(rest, selected);
        assert Renamed(f, [x] + Without(rest, selected)) == [f[x]] + Renamed(f, Without(rest, selected));
      }
    }
  }

  // ---- Readiness, eligibility and keys read no label ----

  lemma CurrentAlike(s: State, t: State, ps: seq<Id>, gens: seq<Gen>)
    requires t.participants == s.participants
    ensures AnyParticipantStale(s, ps, gens) == AnyParticipantStale(t, ps, gens)
    ensures ParticipantsAvailable(s, ps) == ParticipantsAvailable(t, ps)
  {
    assert forall i | 0 <= i < |ps| :: GenerationCurrent(s, ps, gens, i) == GenerationCurrent(t, ps, gens, i);
  }

  lemma {:induction false} DependenciesAlike(s: State, t: State, ds: seq<DependencyRequirement>)
    requires t.deps == s.deps
    ensures DependencyReadiness(s, ds) == DependencyReadiness(t, ds)
  {
    if ds != [] { DependenciesAlike(s, t, ds[1..]); }
  }

  lemma {:induction false} RejectionAlike(s: State, t: State, ps: seq<Id>, gens: seq<Gen>)
    requires t.participants == s.participants
    ensures ParticipantRejection(s, ps, gens) == ParticipantRejection(t, ps, gens)
  {
    if ps != [] && gens != [] { RejectionAlike(s, t, ps[1..], gens[1..]); }
  }

  ghost predicate SameEvidence(s: State, t: State) {
    && t.participants == s.participants && t.plans == s.plans && t.deps == s.deps && t.reservations == s.reservations
    && t.congestion == s.congestion && t.capacity == s.capacity && t.reservationGen == s.reservationGen
    && t.now == s.now
  }

  lemma ReadinessAlike(s: State, t: State, req: Request, id: Id)
    requires SameEvidence(s, t)
    ensures ComputeReadiness(t, req.(id := id)) == ComputeReadiness(s, req)
  {
    CurrentAlike(s, t, req.participants, req.participantGens);
    DependenciesAlike(s, t, req.dependencies);
  }

  lemma EligibilityAlike(s: State, t: State, rd: Readiness, req: Request, id: Id)
    requires SameEvidence(s, t)
    ensures HardRejection(t, rd, req.(id := id)) == HardRejection(s, rd, req)
  {
    RejectionAlike(s, t, req.participants, req.participantGens);
  }

  lemma RefreshAlike(s: State, t: State, r: Record, q: Record)
    requires SameEvidence(s, t) && Alike(r, q)
    ensures RefreshThrows(t, q) == RefreshThrows(s, r)
    ensures !RefreshThrows(s, r) ==> Alike(Refresh(s, r), Refresh(t, q))
  {
    ReadinessAlike(s, t, r.request, q.request.id);
    EligibilityAlike(s, t, ComputeReadiness(s, r.request), r.request, q.request.id);
  }

  lemma KeyAlike(s: State, t: State, r: Record, q: Record)
    requires SameEvidence(s, t) && t.policy == s.policy && Alike(r, q)
    ensures RankingKey(t, q) == RankingKey(s, r)
  {
    assert StarvationFactor(t, q) == StarvationFactor(s, r);
    assert q.request.window == r.request.window && q.request.claims == r.request.claims;
    assert q.request.priority == r.request.priority && q.request.reservation == r.request.reservation;
    assert q.fairness == r.fairness && q.age == r.age;
    var a, b := RankingKey(s, r), RankingKey(t, q);
    assert a[0] == b[0] && a[1] == b[1] && a[2] == b[2] && a[3] == b[3] && a[4] == b[4] && a[5] == b[5];
    assert a[6] == b[6] && a[7] == b[7] && a[8] == b[8] && a[9] == b[9] && a[10] == b[10];
  }

  // ---- The same candidates, ranked and selected alike ----

  lemma PreparedAlike(s: State, t: State, f: map<Id, Id>, id: Id)
    requires Relabelled(s, t, f) && !ScheduleThrows(s) && !ScheduleThrows(t) && id in s.records
    ensures Alike(Prepared(s).records[id], Prepared(t).records[f[id]])
    ensures id in Candidates(s) <==> f[id] in Candidates(t)
  {
    assert !RefreshThrows(s, s.records[id]);
    RefreshAlike(s, t, s.records[id], t.records[f[id]]);
  }

  lemma PreparedRelabelled(s: State, t: State, f: map<Id, Id>)
    requires Relabelled(s, t, f) && !ScheduleThrows(s) && !ScheduleThrows(t)
    ensures Relabelled(Prepared(s), Prepared(t), f)
  {
    var p, q := Prepared(s), Prepared(t);
    forall id | id in s.records { PreparedAlike(s, t, f, id); }
    PreparedShape(s);
    PreparedShape(t);
    RelabelledRecords(s, t, p.records, p.counters, q.records, q.counters, f);
  }

  lemma PreparedShape(s: State)
    requires !ScheduleThrows(s)
    ensures Prepared(s) == s.(records := Prepared(s).records, counters := Prepared(s).counters)
    ensures Prepared(s).records.Keys == s.records.Keys
  {
  }

  lemma RelabelledRecords(s: State, t: State, rs: map<Id, Record>, c: Counters,
                          qs: map<Id, Record>, d: Counters, f: map<Id, Id>)
    requires Relabelled(s, t, f) && rs.Keys == s.records.Keys && qs.Keys == t.records.Keys
    requires forall id | id in rs :: f[id] in qs && Alike(rs[id], qs[f[id]])
    ensures Relabelled(s.(records := rs, counters := c), t.(records := qs, counters := d), f)
  {
  }

  lemma EntryAlike(s: State, t: State, f: map<Id, Id>, id: Id)
    requires Relabelled(s, t, f) && id in s.records
    ensures EntryOf(t, f[id]) == EntryOf(s, id).(id := f[id], seqNo := t.records[f[id]].seqNo)
  {
    KeyAlike(s, t, s.records[id], t.records[f[id]]);
  }

  /** The entries of the renamed candidates, in the order given. */
  ghost function RenamedEntries(t: State, f: map<Id, Id>, es: seq<Entry>): (r: seq<Entry>)
    requires forall e | e in es :: e.id in f && f[e.id] in t.records
    ensures |r| == |es| && forall i | 0 <= i < |es| :: r[i] == EntryOf(t, f[es[i].id])
  {
    seq(|es|, i requires 0 <= i < |es| => EntryOf(t, f[es[i].id]))
  }

  lemma RenamedRanking(s: State, t: State, f: map<Id, Id>, a: set<Id>, b: set<Id>)
    requires Relabelled(s, t, f) && a <= s.records.Keys && b <= t.records.Keys
    requires forall id | id in s.records :: id in a <==> f[id] in b
    requires forall x, y | x in a && y in a && x != y :: !Ties(EntryOf(s, x), EntryOf(s, y))
    ensures var es := RankingOf(Entries(s, a));
            && (forall e | e in es :: e.id in f && f[e.id] in t.records)
            && RankingOf(Entries(t, b)) == RenamedEntries(t, f, es)
  {
    var es := RankingOf(Entries(s, a));
    RankedEntries(s, a);
    var fs := RenamedEntries(t, f, es);
    forall i | 0 <= i < |es| ensures fs[i] == es[i].(id := fs[i].id, seqNo := fs[i].seqNo) {
      EntryAlike(s, t, f, es[i].id);
    }
    RankedDoNotTie(s, a);
    SameEntries(s, t, f, a, b, es);
    RankingIgnoresLabels(es, fs);
  }

  /** Every ranked entry belongs to one of the ids ranked, and every id has one. */
  lemma RankedEntries(s: State, a: set<Id>)
    requires a <= s.records.Keys
    ensures var es := RankingOf(Entries(s, a));
            && (forall i | 0 <= i < |es| :: es[i].id in a && es[i] == EntryOf(s, es[i].id))
            && (forall id | id in a :: EntryOf(s, id) in es)
  {
    var es := RankingOf(Entries(s, a));
    forall i | 0 <= i < |es| ensures es[i].id in a && es[i] == EntryOf(s, es[i].id) { assert es[i] in Elements(es); }
    forall id | id in a ensures EntryOf(s, id) in es { assert EntryOf(s, id) in Elements(es); }
  }

  lemma RankedDoNotTie(s: State, a: set<Id>)
    requires a <= s.records.Keys
    requires forall x, y | x in a && y in a && x != y :: !Ties(EntryOf(s, x), EntryOf(s, y))
    ensures var es := RankingOf(Entries(s, a)); forall i, j | 0 <= i < j < |es| :: !Ties(es[i], es[j])
  {
    var es := RankingOf(Entries(s, a));
    RankedEntries(s, a);
    forall i, j | 0 <= i < j < |es| ensures !Ties(es[i], es[j]) {
      BeforeIsStrictTotalOrder(es[i], es[j], es[i]);
      assert es[i].id != es[j].id;
    }
  }

  lemma SameEntries(s: State, t: State, f: map<Id, Id>, a: set<Id>, b: set<Id>, es: seq<Entry>)
    requires Relabelled(s, t, f) && a <= s.records.Keys && b <= t.records.Keys
    requires forall id | id in s.records :: id in a <==> f[id] in b
    requires forall i | 0 <= i < |es| :: es[i].id in a && es[i] == EntryOf(s, es[i].id)
    requires forall id | id in a :: EntryOf(s, id) in es
    ensures Elements(RenamedEntries(t, f, es)) == Entries(t, b)
  {
    var fs := RenamedEntries(t, f, es);
    forall i | 0 <= i < |fs| ensures fs[i] in Entries(t, b) {
      assert f[es[i].id] in b;
    }
    forall y | y in b ensures EntryOf(t, y) in Elements(fs) {
      assert y in f.Values;
      var x :| x in f && f[x] == y;
      var i :| 0 <= i < |es| && es[i] == EntryOf(s, x);
      assert fs[i] == EntryOf(t, y);
    }
  }

  ghost predicate DistinctCollectives(s: State)
    requires !ScheduleThrows(s)
  {
    forall x, y | x in Candidates(s) && y in Candidates(s) && x != y ::
      s.records[x].request.collective != s.records[y].request.collective
  }

  /** No two candidates tie. */
  ghost predicate NoTies(s: State)
    requires !ScheduleThrows(s)
  {
    forall x, y | x in Candidates(s) && y in Candidates(s) && x != y ::
      !Ties(EntryOf(Prepared(s), x), EntryOf(Prepared(s), y))
  }

  lemma DistinctMeansNoTies(s: State)
    requires !ScheduleThrows(s) && DistinctCollectives(s)
    ensures NoTies(s)
  {
  }

  /** Candidates that tie are ranked by the labels that submission assigned. */
  lemma TiesGoByLabels(s: State, x: Id, y: Id)
    requires !ScheduleThrows(s) && x in Candidates(s) && y in Candidates(s) && x != y
    requires Ties(EntryOf(Prepared(s), x), EntryOf(Prepared(s), y))
    ensures Precedes(Ranking(s), x, y) <==>
            s.records[x].seqNo < s.records[y].seqNo || (s.records[x].seqNo == s.records[y].seqNo && x < y)
  {
    var a, b := EntryOf(Prepared(s), x), EntryOf(Prepared(s), y);
    RankedByOrder(s, x, y);
    BeforeIgnoresLabels(a, b, a, b);
  }

  lemma RankedByOrder(s: State, x: Id, y: Id)
    requires !ScheduleThrows(s) && x in Candidates(s) && y in Candidates(s) && x != y
    ensures Precedes(Ranking(s), x, y) <==> Before(EntryOf(Prepared(s), x), EntryOf(Prepared(s), y))
  {
    var es := RankingOf(Entries(Prepared(s), Candidates(s)));
    var a, b := EntryOf(Prepared(s), x), EntryOf(Prepared(s), y);
    RankedEntries(Prepared(s), Candidates(s));
    RankingIsCandidates(s);
    var i :| 0 <= i < |es| && es[i] == a;
    var j :| 0 <= j < |es| && es[j] == b;
    SortedAt(es, i, j);
    PrecedesAt(Ranking(s), i, j);
  }

  lemma SortedAt(es: seq<Entry>, i: nat, j: nat)
    requires Sorted(es) && i < |es| && j < |es| && i != j
    ensures i < j <==> Before(es[i], es[j])
  {
    BeforeIsStrictTotalOrder(es[i], es[j], es[i]);
  }

  lemma PrecedesAt(v: seq<Id>, i: nat, j: nat)
    requires NoDuplicates(v) && i < |v| && j < |v|
    ensures Precedes(v, v[i], v[j]) <==> i < j
  {
  }

  lemma RankedRelabelled(s: State, t: State, f: map<Id, Id>, a: set<Id>, b: set<Id>)
    requires Relabelled(s, t, f) && a <= s.records.Keys && b <= t.records.Keys
    requires forall id | id in s.records :: id in a <==> f[id] in b
    requires forall x, y | x in a && y in a && x != y :: !Ties(EntryOf(s, x), EntryOf(s, y))
    ensures (forall x | x in Ranked(s, a) :: x in f) && Ranked(t, b) == Renamed(f, Ranked(s, a))
  {
    RenamedRanking(s, t, f, a, b);
    var es := RankingOf(Entries(s, a));
    forall i | 0 <= i < |es| ensures Ranked(s, a)[i] in f { assert es[i] in es; }
    assert forall x | x in Ranked(s, a) :: x in f;
  }

  lemma RankingRelabelled(s: State, t: State, f: map<Id, Id>)
    requires Relabelled(s, t, f) && !ScheduleThrows(s) && !ScheduleThrows(t) && NoTies(s)
    ensures Ranking(t) == Renamed(f, Ranking(s))
  {
    PreparedRelabelled(s, t, f);
    forall id | id in s.records { PreparedAlike(s, t, f, id); }
    RankedRelabelled(Prepared(s), Prepared(t), f, Candidates(s), Candidates(t));
  }

  lemma OverlapAlike(s: State, t: State, f: map<Id, Id>, x: Id, y: Id)
    requires Relabelled(s, t, f) && x in s.records && y in s.records
    ensures CanOverlap(t, t.records[f[x]], t.records[f[y]]) == CanOverlap(s, s.records[x], s.records[y])
  {
    assert Alike(s.records[x], t.records[f[x]]) && Alike(s.records[y], t.records[f[y]]);
  }

  lemma ConflictsAlike(s: State, t: State, f: map<Id, Id>, id: Id)
    requires Relabelled(s, t, f) && id in s.records
    ensures ConflictingGrants(t, t.records[f[id]]) == ConflictingGrants(s, s.records[id])
  {
    assert Alike(s.records[id], t.records[f[id]]);
    assert ListedUnder(t.activeByParticipant, t.records[f[id]].request.participants)
        == ListedUnder(s.activeByParticipant, s.records[id].request.participants);
    forall x | x in s.grants
      ensures t.records[t.grants[x].grant.request].footprint == s.records[s.grants[x].grant.request].footprint
    {
      assert Alike(s.records[s.grants[x].grant.request], t.records[f[s.grants[x].grant.request]]);
    }
  }

  lemma FitsAlike(s: State, t: State, f: map<Id, Id>, id: Id, chosen: seq<Id>)
    requires Relabelled(s, t, f) && id in s.records && forall x | x in chosen :: x in s.records
    ensures forall x | x in Renamed(f, chosen) :: x in t.records
    ensures FitsWith(t, f[id], Renamed(f, chosen)) == FitsWith(s, id, chosen)
  {
    forall x | x in chosen
      ensures CanOverlap(t, t.records[f[id]], t.records[f[x]]) == CanOverlap(s, s.records[id], s.records[x]) {
      OverlapAlike(s, t, f, id, x);
    }
    forall i | 0 <= i < |chosen| ensures Renamed(f, chosen)[i] == f[chosen[i]] && chosen[i] in chosen {}
    if !FitsWith(s, id, chosen) {
      var i :| 0 <= i < |chosen| && !CanOverlap(s, s.records[id], s.records[chosen[i]]);
      assert Renamed(f, chosen)[i] in Renamed(f, chosen);
    }
  }

  /** The greedy pass treats a request and its renamed copy alike. */
  lemma PassedAlike(s: State, t: State, f: map<Id, Id>, id: Id, chosen: seq<Id>)
    requires Relabelled(s, t, f) && id in s.records && forall x | x in chosen :: x in s.records
    ensures f[id] in t.records && (forall x | x in Renamed(f, chosen) :: x in t.records)
    ensures Passed(t, f[id], Renamed(f, chosen)) == Passed(s, id, chosen) && Exclusive(t, f[id]) == Exclusive(s, id)
  {
    assert Alike(s.records[id], t.records[f[id]]);
    ConflictsAlike(s, t, f, id);
    FitsAlike(s, t, f, id, chosen);
  }

  lemma RenamedOnFile(s: State, t: State, f: map<Id, Id>, v: seq<Id>)
    requires Relabelled(s, t, f) && forall x | x in v :: x in s.records
    ensures (forall x | x in v :: x in f) && forall x | x in Renamed(f, v) :: x in t.records
  {
  }

  /** The greedy pass over the renamed ranking gives the renamed selection. */
  ghost predicate SelectsAlike(s: State, t: State, f: map<Id, Id>, ranked: seq<Id>, chosen: seq<Id>)
    requires f.Keys == s.records.Keys
    requires (forall x | x in ranked :: x in s.records) && (forall x | x in chosen :: x in s.records)
  {
    && (forall x | x in Renamed(f, ranked) :: x in t.records) && (forall x | x in Renamed(f, chosen) :: x in t.records)
    && Select(t, Renamed(f, ranked), Renamed(f, chosen)) == Renamed(f, Select(s, ranked, chosen))
  }

  lemma {:induction false} SelectRelabelled(s: State, t: State, f: map<Id, Id>, ranked: seq<Id>, chosen: seq<Id>)
    requires Relabelled(s, t, f)
    requires (forall x | x in ranked :: x in s.records) && (forall x | x in chosen :: x in s.records)
    ensures SelectsAlike(s, t, f, ranked, chosen)
    decreases |ranked|
  {
    RenamedOnFile(s, t, f, ranked);
    RenamedOnFile(s, t, f, chosen);
    if ranked != [] {
      var id, rest := ranked[0], ranked[1..];
      RenamedFirst(f, ranked);
      RenamedLonger(f, chosen, id);
      PassedAlike(s, t, f, id, chosen);
      if s.activeGrants + |chosen| >= s.policy.bounds.maxActiveGrants {
      } else if Passed(s, id, chosen) {
        SelectRelabelled(s, t, f, rest, chosen);
      } else if |chosen| < s.policy.bounds.maxOverlapGroup && !Exclusive(s, id) {
        SelectRelabelled(s, t, f, rest, chosen + [id]);
      }
    }
  }

  /** Re-labelling requests re-labels the decision and changes nothing else in it: the
      ranking, the selection and the fallback list are the same requests in the same order. */
  lemma DecisionIgnoresLabels(s: State, t: State, f: map<Id, Id>)
    requires Relabelled(s, t, f) && !ScheduleThrows(s) && !ScheduleThrows(t) && NoTies(s)
    ensures (forall x | x in MakeDecision(s).selected :: x in f) && (forall x | x in MakeDecision(s).fallback :: x in f)
    ensures Ranking(t) == Renamed(f, Ranking(s))
    ensures MakeDecision(t).selected == Renamed(f, MakeDecision(s).selected)
    ensures MakeDecision(t).fallback == Renamed(f, MakeDecision(s).fallback)
  {
    RankingRelabelled(s, t, f);
    PreparedRelabelled(s, t, f);
    SelectRelabelled(Prepared(s), Prepared(t), f, Ranking(s), []);
    assert Renamed(f, []) == [];
    RenamedWithout(f, Ranking(s), Selected(s));
  }
}
