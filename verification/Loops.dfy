/** The loops inside the scheduler's helpers: index maintenance, readiness, conflict
    counting, greedy selection and the fallback list, each against its specification. */
module Loops {
  import opened Types
  import opened Lifecycles
  import opened Conflicts
  import opened Rankings
  import opened States
  import opened Steps

  // ---- Participant indexes ----

  lemma IndexAddOne(idx: Index, keys: seq<Id>, i: nat, x: Id)
    requires i < |keys|
    ensures var before := IndexAdd(idx, keys[..i], x);
            IndexAdd(idx, keys[..i + 1], x)
              == before[keys[i] := (if keys[i] in before then before[keys[i]] else {}) + {x}]
  {
    assert keys[..i + 1] == keys[..i] + [keys[i]];
    var before, after := IndexAdd(idx, keys[..i], x), IndexAdd(idx, keys[..i + 1], x);
    var next := before[keys[i] := (if keys[i] in before then before[keys[i]] else {}) + {x}];
    assert after.Keys == next.Keys;
    forall k | k in after ensures after[k] == next[k] {}
  }

  lemma IndexAddNone(idx: Index, x: Id)
    ensures IndexAdd(idx, [], x) == idx
  {
    var r := IndexAdd(idx, [], x);
    assert r.Keys == idx.Keys;
    forall k | k in idx ensures r[k] == idx[k] {}
  }

  /** `index_active_grant`, and the same loop over `participant_requests`. */
  method InsertUnder(idx: Index, keys: seq<Id>, x: Id) returns (r: Index)
    ensures r == IndexAdd(idx, keys, x)
  {
    r := idx;
    var i := 0;
    IndexAddNone(idx, x);
    assert keys[..0] == [];
    while i < |keys|
      invariant 0 <= i <= |keys|
      invariant r == IndexAdd(idx, keys[..i], x)
    {
      IndexAddOne(idx, keys, i, x);
      r := r[keys[i] := (if keys[i] in r then r[keys[i]] else {}) + {x}];
      i := i + 1;
    }
    assert keys[..i] == keys;
  }

  function WithoutEntry(idx: Index, k: Id, x: Id): Index {
    if k !in idx then idx
    else if idx[k] - {x} == {} then map j | j in idx && j != k :: idx[j]
    else idx[k := idx[k] - {x}]
  }

  lemma IndexRemoveOne(idx: Index, keys: seq<Id>, i: nat, x: Id)
    requires i < |keys|
    ensures IndexRemove(idx, keys[..i + 1], x) == WithoutEntry(IndexRemove(idx, keys[..i], x), keys[i], x)
  {
    assert keys[..i + 1] == keys[..i] + [keys[i]];
    var before, after := IndexRemove(idx, keys[..i], x), IndexRemove(idx, keys[..i + 1], x);
    var next := WithoutEntry(before, keys[i], x);
    forall k ensures k in after <==> k in next {
      if k in idx && k in before { assert before[k] - {x} == idx[k] - {x}; }
    }
    forall k | k in after ensures after[k] == next[k] {}
  }

  /** `deindex_active_grant`. */
  method RemoveUnder(idx: Index, keys: seq<Id>, x: Id) returns (r: Index)
    ensures r == IndexRemove(idx, keys, x)
  {
    r := idx;
    var i := 0;
    assert IndexRemove(idx, keys[..0], x) == idx;
    while i < |keys|
      invariant 0 <= i <= |keys|
      invariant r == IndexRemove(idx, keys[..i], x)
    {
      IndexRemoveOne(idx, keys, i, x);
      r := WithoutEntry(r, keys[i], x);
      i := i + 1;
    }
    assert keys[..i] == keys;
  }

  // ---- Readiness ----

  /** Participant `ps[k]` is missing, or current but not available. */
  predicate NotThere(s: State, ps: seq<Id>, gens: seq<Gen>, k: nat)
    requires k < |ps|
  {
    ps[k] !in s.participants || (GenerationCurrent(s, ps, gens, k) && !Available(s.participants[ps[k]]))
  }

  /** The first loop of `compute_readiness`: whether any participant is stale or missing. */
  method SurveyParticipants(s: State, ps: seq<Id>, gens: seq<Gen>) returns (stale: bool, missing: bool)
    ensures stale == AnyParticipantStale(s, ps, gens)
    ensures !stale ==> missing == !ParticipantsAvailable(s, ps)
  {
    stale, missing := false, false;
    var i := 0;
    while i < |ps|
      invariant 0 <= i <= |ps|
      invariant stale <==> exists k | 0 <= k < i :: ps[k] in s.participants && !GenerationCurrent(s, ps, gens, k)
      invariant missing <==> exists k | 0 <= k < i :: NotThere(s, ps, gens, k)
    {
      if ps[i] !in s.participants {
        missing := true;
        assert NotThere(s, ps, gens, i);
      } else if !GenerationCurrent(s, ps, gens, i) {
        stale := true;
      } else if !Available(s.participants[ps[i]]) {
        missing := true;
        assert NotThere(s, ps, gens, i);
      }
      i := i + 1;
    }
    if !stale {
      if missing {
        var k :| 0 <= k < |ps| && NotThere(s, ps, gens, k);
        assert ps[k] in ps;
      } else {
        forall p | p in ps ensures p in s.participants && Available(s.participants[p]) {
          var k :| 0 <= k < |ps| && ps[k] == p;
          assert !NotThere(s, ps, gens, k);
        }
      }
    }
  }

  method SurveyDependencies(s: State, ds: seq<DependencyRequirement>) returns (rd: Readiness)
    ensures rd == DependencyReadiness(s, ds)
  {
    var i := 0;
    while i < |ds|
      invariant 0 <= i <= |ds|
      invariant DependencyReadiness(s, ds) == DependencyReadiness(s, ds[i..])
    {
      assert ds[i..][0] == ds[i] && ds[i..][1..] == ds[i + 1..];
      if ds[i].id !in s.deps { return WaitingDependency; }
      if s.deps[ds[i].id].gen != ds[i].gen { return StaleEvidence; }
      if !s.deps[ds[i].id].satisfied { return WaitingDependency; }
      i := i + 1;
    }
    rd := Readiness.Ready;
  }

  method SumDemand(claims: seq<ResourceClaim>) returns (demand: real)
    ensures demand == Demand(claims)
  {
    demand := 0.0;
    var i := 0;
    while i < |claims|
      invariant 0 <= i <= |claims|
      invariant demand + Demand(claims[i..]) == Demand(claims)
    {
      assert claims[i..][0] == claims[i] && claims[i..][1..] == claims[i + 1..];
      demand := demand + claims[i].units;
      i := i + 1;
    }
  }

  /** `compute_readiness`. */
  method ReadinessOf(s: State, req: Request) returns (rd: Readiness)
    ensures rd == ComputeReadiness(s, req)
  {
    var stale, missing := SurveyParticipants(s, req.participants, req.participantGens);
    if stale { return StaleEvidence; }
    if missing { return WaitingParticipant; }
    if req.plan !in s.plans { return WaitingPlan; }
    if s.plans[req.plan].gen != req.planGen { return StaleEvidence; }
    if !s.plans[req.plan].valid { return WaitingPlan; }
    var d := SurveyDependencies(s, req.dependencies);
    if d != Readiness.Ready { return d; }
    if req.reservation.Some? {
      if req.reservation.value != s.reservationGen { return StaleEvidence; }
      var gen := req.reservation.value;
      if gen !in s.reservations || !s.reservations[gen].valid { return WaitingReservation; }
    }
    if !BelowCeiling(s) { return BlockedCongestion; }
    var demand := SumDemand(req.claims);
    if s.capacity.Some? && demand > s.capacity.value.usable { return WaitingCapacity; }
    return Readiness.Ready;
  }

  /** One turn of the first loop of `schedule`; not ok when the transition throws. */
  method RefreshOne(s: State, r: Record) returns (ok: bool, q: Record)
    ensures ok == !RefreshThrows(s, r)
    ensures ok ==> q == Refresh(s, r)
  {
    if Terminal(r.lifecycle) { return true, r; }
    var rd := ReadinessOf(s, r.request);
    var fp := BuildFootprint(r.request.participants, r.request.claims, PlanOf(s, r.request.plan));
    var l := Derived(r.lifecycle, rd);
    if l.None? { return false, r; }
    ok := true;
    q := r.(age := r.age + 1, footprint := fp, readiness := rd, lifecycle := l.value,
            hardEligible := (l.value.Ready? || l.value.Eligible? || l.value.Queued?)
                            && HardRejection(s, rd, r.request).None?);
  }

  // ---- Conflicts with running grants ----

  method CollectListed(idx: Index, ps: seq<Id>) returns (found: set<Id>)
    ensures found == ListedUnder(idx, ps)
  {
    found := {};
    var i := 0;
    while i < |ps|
      invariant 0 <= i <= |ps|
      invariant found == ListedUnder(idx, ps[..i])
    {
      ListedOneMore(idx, ps, i);
      if ps[i] in idx { found := found + idx[ps[i]]; }
      i := i + 1;
    }
    assert ps[..i] == ps;
  }

  lemma ListedOneMore(idx: Index, ps: seq<Id>, i: nat)
    requires i < |ps|
    ensures ListedUnder(idx, ps[..i + 1]) == ListedUnder(idx, ps[..i]) + (if ps[i] in idx then idx[ps[i]] else {})
  {
    assert ps[..i + 1] == ps[..i] + [ps[i]];
  }

  /** The grant is running and its record forbids overlap with the candidate. */
  predicate InTheWay(s: State, r: Record, x: Id) {
    && x in s.grants && s.grants[x].Running() && s.grants[x].grant.request in s.records
    && ForbidsOverlap(Classify(r.footprint, s.records[s.grants[x].grant.request].footprint))
  }

  method CountHits(s: State, r: Record, found: set<Id>) returns (n: nat)
    requires NormalFootprints(s) && Normalized(r.footprint)
    ensures n == |set x | x in found && InTheWay(s, r, x)|
  {
    var todo := found;
    n := 0;
    ghost var counted: set<Id> := {};
    while todo != {}
      invariant todo <= found && n == |counted|
      invariant counted == set x | x in found - todo && InTheWay(s, r, x)
      decreases |todo|
    {
      var x :| x in todo;
      todo := todo - {x};
      if x in s.grants && s.grants[x].Running() && s.grants[x].grant.request in s.records {
        var c := ClassifyConflict(r.footprint, s.records[s.grants[x].grant.request].footprint);
        if ForbidsOverlap(c) {
          counted := counted + {x};
          n := n + 1;
        }
      }
    }
    assert found - todo == found;
  }

  /** `active_conflicts`: through the index, each grant once. */
  method CountConflicts(s: State, r: Record) returns (n: nat)
    requires NormalFootprints(s) && Normalized(r.footprint)
    ensures n == ActiveConflicts(s, r)
  {
    var found := CollectListed(s.activeByParticipant, r.request.participants);
    assert (set x | x in found && InTheWay(s, r, x)) == ConflictingGrants(s, r);
    n := CountHits(s, r, found);
  }

  // ---- Selection ----

  /** `can_overlap`, its tests in the order in which it makes them. */
  method TestOverlap(s: State, a: Record, b: Record) returns (ok: bool)
    requires Normalized(a.footprint) && Normalized(b.footprint)
    ensures ok == CanOverlap(s, a, b)
  {
    if a.request.overlap == OVERLAP_UNKNOWN || b.request.overlap == OVERLAP_UNKNOWN { return false; }
    if a.request.overlap == OVERLAP_EXCLUSIVE || b.request.overlap == OVERLAP_EXCLUSIVE { return false; }
    var c := ClassifyConflict(a.footprint, b.footprint);
    if ForbidsOverlap(c) { return false; }
    if a.request.reservation.Some? && a.request.reservation == b.request.reservation { return false; }
    if s.congestion.Some? {
      var demand := Bandwidth(s, a.request.plan) + Bandwidth(s, b.request.plan);
      if demand > s.congestion.value.residualBandwidth { return false; }
    }
    ok := BelowCeiling(s);
  }

  method FitsAll(s: State, id: Id, chosen: seq<Id>) returns (ok: bool)
    requires id in s.records && (forall x | x in chosen :: x in s.records) && NormalFootprints(s)
    ensures ok == FitsWith(s, id, chosen)
  {
    var i := 0;
    while i < |chosen|
      invariant 0 <= i <= |chosen|
      invariant forall k | 0 <= k < i :: CanOverlap(s, s.records[id], s.records[chosen[k]])
    {
      var fits := TestOverlap(s, s.records[id], s.records[chosen[i]]);
      if !fits {
        assert chosen[i] in chosen;
        return false;
      }
      i := i + 1;
    }
    ok := true;
  }

  /** The greedy pass over the ranking. */
  method SelectGreedy(s: State, ranked: seq<Id>) returns (selected: seq<Id>)
    requires NormalFootprints(s) && forall x | x in ranked :: x in s.records
    ensures selected == Select(s, ranked, [])
  {
    selected := [];
    var i := 0;
    while i < |ranked|
      invariant 0 <= i <= |ranked|
      invariant forall x | x in selected :: x in s.records
      invariant Select(s, ranked, []) == Select(s, ranked[i..], selected)
    {
      var id := ranked[i];
      assert id in ranked && ranked[i..][0] == id && ranked[i..][1..] == ranked[i + 1..];
      if s.activeGrants + |selected| >= s.policy.bounds.maxActiveGrants { return; }
      i := i + 1;
      if Exclusive(s, id) && selected != [] { continue; }
      var n := CountConflicts(s, s.records[id]);
      if n > 0 { continue; }
      var fits := FitsAll(s, id, selected);
      if !fits { continue; }
      if |selected| >= s.policy.bounds.maxOverlapGroup { return; }
      selected := selected + [id];
      if Exclusive(s, id) { return; }
    }
  }

  /** The ranking without the selected. */
  method CollectFallback(ranked: seq<Id>, selected: seq<Id>) returns (fallback: seq<Id>)
    ensures fallback == Without(ranked, selected)
  {
    fallback := [];
    var i := 0;
    while i < |ranked|
      invariant 0 <= i <= |ranked|
      invariant fallback + Without(ranked[i..], selected) == Without(ranked, selected)
    {
      assert ranked[i..][0] == ranked[i] && ranked[i..][1..] == ranked[i + 1..];
      if ranked[i] !in selected { fallback := fallback + [ranked[i]]; }
      i := i + 1;
    }
  }

  /** Sorts the candidates; the order in which the set is walked does not matter. */
  method RankCandidates(s: State, candidates: set<Id>) returns (ranked: seq<Id>)
    requires candidates <= s.records.Keys
    ensures ranked == Ranked(s, candidates)
  {
    var es: seq<Entry> := [];
    var todo := candidates;
    while todo != {}
      invariant todo <= candidates && Sorted(es)
      invariant Elements(es) == Entries(s, candidates - todo)
      decreases |todo|
    {
      var id :| id in todo;
      forall x | x in es ensures x.id != id { assert x in Elements(es); }
      es := InsertSorted(es, EntryOf(s, id));
      EntriesOneMore(s, candidates, todo, id);
      todo := todo - {id};
    }
    assert candidates - todo == candidates;
    RankingIsForced(es, Entries(s, candidates));
    ranked := Ids(es);
  }

  lemma EntriesOneMore(s: State, candidates: set<Id>, todo: set<Id>, id: Id)
    requires candidates <= s.records.Keys && id in todo && todo <= candidates
    ensures Entries(s, candidates - (todo - {id})) == Entries(s, candidates - todo) + {EntryOf(s, id)}
  {
    assert candidates - (todo - {id}) == (candidates - todo) + {id};
  }
}
