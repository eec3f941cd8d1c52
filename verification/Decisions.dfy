/** The scheduling step as a whole: it keeps the invariant, refines the index scan,
    and its decision is sound, maximal and parallel to the grants it issues. */
module Decisions {
  import opened Types
  import opened Lifecycles
  import opened Conflicts
  import opened Rankings
  import opened States
  import opened Steps
  import opened Invariants
  import opened Selection

  // ---- Candidates and their ranking ----

  lemma RankingIsCandidates(s: State)
    requires !ScheduleThrows(s)
    ensures forall x :: x in Ranking(s) <==> x in Candidates(s)
    ensures NoDuplicates(Ranking(s))
  {
    var p := Prepared(s);
    var c := Entries(p, Candidates(s));
    var es := RankingOf(c);
    assert Ranking(s) == Ids(es);
    forall i, j | 0 <= i < j < |es| ensures es[i].id != es[j].id {
      BeforeIsStrictTotalOrder(es[i], es[j], es[i]);
      assert es[i] in Elements(es) && es[j] in Elements(es);
    }
    forall x | x in Candidates(s) ensures x in Ranking(s) {
      assert EntryOf(p, x) in c;
      assert EntryOf(p, x) in Elements(es);
      var i :| 0 <= i < |es| && es[i] == EntryOf(p, x);
      assert Ranking(s)[i] == x;
    }
    forall x | x in Ranking(s) ensures x in Candidates(s) {
      var i :| 0 <= i < |es| && es[i].id == x;
      assert es[i] in Elements(es);
    }
  }

  /** No candidate lacks authority, whatever its score. */
  lemma CandidateIsAuthorized(s: State, id: Id)
    requires Inv(s) && !ScheduleThrows(s) && id in Candidates(s)
    ensures AuthorityCurrent(s, s.records[id].request)
    ensures WindowOpen(s.now, s.records[id].request.window) && s.records[id].request.workloadGen != 0
    ensures Prepared(s).records[id].lifecycle.Ready?
    ensures Grantable(Prepared(s), id)
  {
    var req := s.records[id].request;
    DerivationThrowsOnlyFromEligible(s.records[id].lifecycle, ComputeReadiness(s, req));
    EligibilityIsReadinessWindowAndWorkload(s, req);
    AuthorityFramed(s, Prepared(s), req);
  }

  /** And every record that could run and has authority is a candidate. */
  lemma AuthorizedIsCandidate(s: State, id: Id)
    requires Inv(s) && !ScheduleThrows(s) && id in s.records
    requires Ungranted(s.records[id].lifecycle)
    requires AuthorityCurrent(s, s.records[id].request)
    requires WindowOpen(s.now, s.records[id].request.window) && s.records[id].request.workloadGen != 0
    ensures id in Candidates(s)
  {
    EligibilityIsReadinessWindowAndWorkload(s, s.records[id].request);
    ReadyMeansAuthority(s, s.records[id].request);
  }

  // ---- The participant index refines a scan of all grants ----

  /** The naive scan: running grants that share a participant with the request. */
  ghost function RunningSharers(s: State, req: Request): set<Id> {
    set x | x in s.grants && s.grants[x].Running() && Intersects(req.participants, s.grants[x].grant.participants)
  }

  lemma SharingForbids(ps: seq<Id>, cs: seq<ResourceClaim>, p: Option<Plan>,
                       qs: seq<Id>, ds: seq<ResourceClaim>, q: Option<Plan>)
    requires Intersects(ps, qs)
    ensures ForbidsOverlap(Classify(MakeFootprint(ps, cs, p), MakeFootprint(qs, ds, q)))
  {
    NoConflictMeansDisjoint(ps, cs, p, qs, ds, q);
  }

  /** Inside `schedule` the indexed conflict test finds exactly the running grants a scan
      of all grants would find. */
  lemma IndexRefinesScan(s: State, id: Id)
    requires Inv(s) && !ScheduleThrows(s) && id in s.records && !Terminal(s.records[id].lifecycle)
    ensures ConflictingGrants(Prepared(s), Prepared(s).records[id]) == RunningSharers(s, s.records[id].request)
  {
    var p := Prepared(s);
    var r := p.records[id];
    forall x | x in RunningSharers(s, s.records[id].request) ensures x in ConflictingGrants(p, r) {
      RunningSharerConflicts(s, id, x);
    }
    forall x | x in ConflictingGrants(p, r) ensures x in RunningSharers(s, s.records[id].request) {
      var q, y :| q in r.request.participants && q in p.activeByParticipant && y in p.activeByParticipant[q] && y == x;
      assert Listed(s.activeByParticipant, q, x);
    }
  }

  lemma RunningSharerConflicts(s: State, id: Id, x: Id)
    requires Inv(s) && !ScheduleThrows(s) && id in s.records && !Terminal(s.records[id].lifecycle)
    requires x in RunningSharers(s, s.records[id].request)
    ensures x in ConflictingGrants(Prepared(s), Prepared(s).records[id])
  {
    var p := Prepared(s);
    var req := s.records[id].request;
    var g := s.grants[x].grant;
    var q :| q in req.participants && q in g.participants;
    assert GrantOk(s, x) && RecordOk(s, g.request);
    assert Listed(s.activeByParticipant, q, x);
    var other := s.records[g.request].request;
    SharingForbids(req.participants, req.claims, PlanOf(s, req.plan),
                   other.participants, other.claims, PlanOf(s, other.plan));
  }

  // ---- Issuing the grants ----

  /** The grant issued for the i-th selected request. */
  function IssuedGrant(s: State, req: Request, i: nat, sid: Id, sgen: Gen): Grant {
    MakeGrant(s.(counters := s.counters.(grant := s.counters.grant + i, grantGen := s.counters.grantGen + i)),
              req, sid, sgen)
  }

  /** What issuing grants leaves alone. */
  ghost predicate OnlyGrantsAdded(s: State, t: State, n: nat) {
    && t == s.(records := t.records, grants := t.grants, counters := t.counters)
    && t.counters == s.counters.(grant := s.counters.grant + n, grantGen := s.counters.grantGen + n)
    && t.records.Keys == s.records.Keys
  }

  lemma {:induction false} GrantAllEffect(s: State, ids: seq<Id>, sid: Id, sgen: Gen)
    requires NoDuplicates(ids) && forall x | x in ids :: x in s.records && s.records[x].lifecycle.Ready?
    ensures OnlyGrantsAdded(s, GrantAll(s, ids, sid, sgen), |ids|)
    ensures forall x | x in s.records && x !in ids :: GrantAll(s, ids, sid, sgen).records[x] == s.records[x]
    ensures forall i | 0 <= i < |ids| ::
              GrantAll(s, ids, sid, sgen).records[ids[i]]
                == s.records[ids[i]].(lifecycle := Granted,
                                      current := Some(IssuedGrant(s, s.records[ids[i]].request, i, sid, sgen)))
    decreases |ids|
  {
    if ids != [] {
      var t := GrantOne(s, ids[0], sid, sgen);
      var rest := ids[1..];
      assert ids == [ids[0]] + rest && ids[0] !in rest;
      GrantAllEffect(t, rest, sid, sgen);
      forall i | 0 <= i < |ids|
        ensures GrantAll(s, ids, sid, sgen).records[ids[i]]
                  == s.records[ids[i]].(lifecycle := Granted,
                                        current := Some(IssuedGrant(s, s.records[ids[i]].request, i, sid, sgen)))
      {
        if i > 0 {
          assert rest[i - 1] == ids[i];
          IssuedLater(s, ids[0], sid, sgen, s.records[ids[i]].request, i - 1);
        }
      }
    }
  }

  /** The grant issued `i` places after the next is the one `i + 1` places from here. */
  lemma IssuedLater(s: State, id: Id, sid: Id, sgen: Gen, req: Request, i: nat)
    requires id in s.records && s.records[id].lifecycle.Ready?
    ensures IssuedGrant(GrantOne(s, id, sid, sgen), req, i, sid, sgen) == IssuedGrant(s, req, i + 1, sid, sgen)
  {
  }

  /** Grants already on file stay as they are; the new ones are open and not running. */
  ghost predicate FilesExtended(s: State, t: State) {
    && (forall x | x in s.grants :: x in t.grants && t.grants[x] == s.grants[x])
    && (forall x | x in t.grants && x !in s.grants ::
          && s.counters.grant <= x < t.counters.grant && !t.grants[x].active && !t.grants[x].terminal
          && t.grants[x].grant.evidence.epoch == s.epoch && t.grants[x].grant.evidence.congestionGen == s.congestionGen)
  }

  lemma FilesExtendedByOne(s: State, id: Id, sid: Id, sgen: Gen)
    requires id in s.records && forall x | x in s.grants :: x < s.counters.grant
    ensures FilesExtended(s, GrantOne(s, id, sid, sgen))
    ensures forall x | x in GrantOne(s, id, sid, sgen).grants :: x < GrantOne(s, id, sid, sgen).counters.grant
  {
  }

  lemma {:induction false} GrantAllFiles(s: State, ids: seq<Id>, sid: Id, sgen: Gen)
    requires forall x | x in ids :: x in s.records
    requires forall x | x in s.grants :: x < s.counters.grant
    ensures FilesExtended(s, GrantAll(s, ids, sid, sgen))
    ensures GrantAll(s, ids, sid, sgen).epoch == s.epoch && GrantAll(s, ids, sid, sgen).congestionGen == s.congestionGen
    ensures s.counters.grant <= GrantAll(s, ids, sid, sgen).counters.grant
    decreases |ids|
  {
    if ids != [] {
      FilesExtendedByOne(s, ids[0], sid, sgen);
      GrantAllFiles(GrantOne(s, ids[0], sid, sgen), ids[1..], sid, sgen);
    }
  }

  lemma {:induction false} GrantIdsAreConsecutive(s: State, ids: seq<Id>, sid: Id, sgen: Gen)
    requires NoDuplicates(ids) && forall x | x in ids :: x in s.records && s.records[x].lifecycle.Ready?
    ensures |NewGrantIds(s, ids, sid, sgen)| == |ids|
    ensures forall i | 0 <= i < |ids| :: NewGrantIds(s, ids, sid, sgen)[i] == s.counters.grant + i
    decreases |ids|
  {
    if ids != [] {
      assert ids == [ids[0]] + ids[1..] && ids[0] !in ids[1..];
      GrantIdsAreConsecutive(GrantOne(s, ids[0], sid, sgen), ids[1..], sid, sgen);
    }
  }

  lemma {:induction false} GrantAllKeeps(s: State, ids: seq<Id>, sid: Id, sgen: Gen)
    requires Inv(s) && NoDuplicates(ids) && forall x | x in ids :: x in s.records && Grantable(s, x)
    ensures Inv(GrantAll(s, ids, sid, sgen)) && Evolves(s, GrantAll(s, ids, sid, sgen))
    decreases |ids|
  {
    if ids == [] {
      EvolvesReflexive(s);
    } else {
      var t := GrantOne(s, ids[0], sid, sgen);
      GrantOneKeeps(s, ids[0], sid, sgen);
      GrantableRest(s, ids, sid, sgen);
      GrantAllKeeps(t, ids[1..], sid, sgen);
      EvolvesTransitive(s, t, GrantAll(t, ids[1..], sid, sgen));
    }
  }

  /** Granting one request takes nothing from the others. */
  lemma GrantableRest(s: State, ids: seq<Id>, sid: Id, sgen: Gen)
    requires ids != [] && NoDuplicates(ids) && forall x | x in ids :: x in s.records && Grantable(s, x)
    ensures NoDuplicates(ids[1..])
    ensures forall x | x in ids[1..] ::
              x in GrantOne(s, ids[0], sid, sgen).records && Grantable(GrantOne(s, ids[0], sid, sgen), x)
  {
    assert ids == [ids[0]] + ids[1..] && ids[0] !in ids[1..];
    forall x | x in ids[1..] { GrantableFramed(s, ids[0], sid, sgen, x); }
  }

  lemma GrantableFramed(s: State, id: Id, sid: Id, sgen: Gen, x: Id)
    requires id in s.records && Grantable(s, x) && x != id
    ensures Grantable(GrantOne(s, id, sid, sgen), x)
  {
    var t := GrantOne(s, id, sid, sgen);
    var ps, gens := s.records[x].request.participants, s.records[x].request.participantGens;
    forall i | 0 <= i < |ps| ensures GenerationCurrent(t, ps, gens, i) {
      assert GenerationCurrent(s, ps, gens, i);
    }
  }

  // ---- The whole step ----

  lemma SelectedFacts(s: State)
    requires Inv(s) && !ScheduleThrows(s)
    ensures Subsequence(Selected(s), Ranking(s)) && NoDuplicates(Selected(s))
    ensures forall x | x in Selected(s) :: x in s.records && x in Candidates(s) && Grantable(Prepared(s), x)
    ensures Compatible(Prepared(s), Selected(s))
    ensures |Selected(s)| <= s.policy.bounds.maxOverlapGroup
    ensures Selected(s) != [] ==> s.activeGrants + |Selected(s)| <= s.policy.bounds.maxActiveGrants
  {
    RankingIsCandidates(s);
    SelectIsSound(Prepared(s), Ranking(s), []);
    assert Selected(s)[0..] == Selected(s);
    SplitOff(Selected(s), Ranking(s));
    SubsequenceMembers(Selected(s), Ranking(s));
    forall x | x in Selected(s) ensures Grantable(Prepared(s), x) { CandidateIsAuthorized(s, x); }
  }

  lemma ScheduleKeeps(s: State)
    requires Inv(s) && !ScheduleThrows(s)
    ensures Inv(ScheduledState(s)) && Evolves(s, ScheduledState(s))
  {
    var p, sel := Prepared(s), Selected(s);
    var t := GrantAll(p, sel, s.counters.schedule, s.counters.scheduleGen);
    var u := t.(counters := CountGroup(t.counters, sel));
    PreparedKeeps(s);
    SelectedFacts(s);
    GrantAllKeeps(p, sel, s.counters.schedule, s.counters.scheduleGen);
    CountersOnlyKeeps(t, u);
    AccountedKeeps(u, Candidates(s), sel);
    EvolvesTransitive(s, p, t);
    EvolvesTransitive(s, t, u);
    EvolvesTransitive(s, u, ScheduledState(s));
  }

  /** A decision touches records, grants and counters, and nothing else. */
  lemma ScheduleTouchesOnly(s: State)
    requires Inv(s) && !ScheduleThrows(s)
    ensures ScheduledState(s) == s.(records := ScheduledState(s).records, counters := ScheduledState(s).counters,
                                    grants := ScheduledState(s).grants)
    ensures ScheduledState(s).records.Keys == s.records.Keys
  {
    SelectedFacts(s);
    GrantAllEffect(Prepared(s), Selected(s), s.counters.schedule, s.counters.scheduleGen);
  }

  // ---- Records after a decision ----

  ghost function GrantedState(s: State): State
    requires !ScheduleThrows(s)
  {
    GrantAll(Prepared(s), Selected(s), s.counters.schedule, s.counters.scheduleGen)
  }

  lemma GrantedRecord(s: State, id: Id)
    requires Inv(s) && !ScheduleThrows(s) && id in s.records
    ensures id in Selected(s) ==>
              Prepared(s).records[id].lifecycle.Ready? && GrantedState(s).records[id].lifecycle.Granted?
    ensures GrantedState(s).records[id].request == s.records[id].request
    ensures GrantedState(s).records[id].fairness == s.records[id].fairness
    ensures GrantedState(s).records[id].age
         == s.records[id].age + (if Terminal(s.records[id].lifecycle) then 0 else 1)
    ensures id !in Selected(s) ==> GrantedState(s).records[id] == Prepared(s).records[id]
  {
    SelectedFacts(s);
    GrantAllRecord(Prepared(s), Selected(s), s.counters.schedule, s.counters.scheduleGen, id);
  }

  lemma GrantAllRecord(s: State, ids: seq<Id>, sid: Id, sgen: Gen, id: Id)
    requires NoDuplicates(ids) && forall x | x in ids :: x in s.records && s.records[x].lifecycle.Ready?
    requires id in s.records
    ensures var r := GrantAll(s, ids, sid, sgen).records[id];
            && r.request == s.records[id].request && r.fairness == s.records[id].fairness && r.age == s.records[id].age
            && (if id in ids then r.lifecycle.Granted? else r == s.records[id])
  {
    GrantAllEffect(s, ids, sid, sgen);
    if id in ids { var i :| 0 <= i < |ids| && ids[i] == id; }
  }

  /** Bookkeeping changes nothing of a record but its fairness account. */
  lemma AccountedRecord(s: State, id: Id)
    requires !ScheduleThrows(s) && id in s.records
    ensures id in ScheduledState(s).records
    ensures var r := GrantedState(s).records[id];
            ScheduledState(s).records[id]
              == if id in Candidates(s)
                 then r.(fairness := Account(r.fairness, id in Selected(s), GrantedState(s).policy)) else r
  {
  }

  /** Records after a decision: those selected are GRANTED, the others keep whatever
      authority they had. */
  lemma ScheduledRecord(s: State, id: Id)
    requires Inv(s) && !ScheduleThrows(s) && id in s.records
    ensures id in ScheduledState(s).records
    ensures ScheduledState(s).records[id].request == s.records[id].request
    ensures id in Selected(s) ==> ScheduledState(s).records[id].lifecycle.Granted? && Ungranted(s.records[id].lifecycle)
    ensures id !in Selected(s) ==> ScheduledState(s).records[id].current == s.records[id].current
    ensures id !in Selected(s) ==> ScheduledState(s).records[id].lifecycle == Prepared(s).records[id].lifecycle
  {
    GrantedRecord(s, id);
    AccountedRecord(s, id);
    PreparedRecordFacts(s, id);
  }

  // ---- What a decision promises ----

  lemma OverlapIsSymmetric(s: State, a: Record, b: Record)
    ensures CanOverlap(s, a, b) <==> CanOverlap(s, b, a)
  {
    ClassifySymmetric(a.footprint, b.footprint);
  }

  /** The greedy pass tests each request against those chosen before it; that covers every
      pair, in either order. */
  lemma SelectedOverlap(s: State, i: nat, j: nat)
    requires Inv(s) && !ScheduleThrows(s) && i < |Selected(s)| && j < |Selected(s)| && i != j
    ensures Selected(s)[i] in s.records && Selected(s)[j] in s.records
    ensures CanOverlap(Prepared(s), Prepared(s).records[Selected(s)[j]], Prepared(s).records[Selected(s)[i]])
  {
    SelectedFacts(s);
    assert Selected(s)[i] in Selected(s) && Selected(s)[j] in Selected(s);
    OverlapIsSymmetric(Prepared(s), Prepared(s).records[Selected(s)[i]], Prepared(s).records[Selected(s)[j]]);
  }

  /** The requests share no participant, no claimed or planned resource and no link. */
  ghost predicate Apart(s: State, a: Request, b: Request) {
    && a.plan in s.plans && b.plan in s.plans
    && Disjoint(a.participants, b.participants)
    && Disjoint(ClaimedResources(a.claims) + s.plans[a.plan].resources,
                ClaimedResources(b.claims) + s.plans[b.plan].resources)
    && Disjoint(s.plans[a.plan].links, s.plans[b.plan].links)
  }

  /** Both plans are valid, neither request asks for exclusivity or leaves open what overlap it
      allows, they do not name the same reservation, and under published congestion their
      plans' bandwidths fit the residual together and utilization is below a hard ceiling. */
  ghost predicate Mix(s: State, a: Request, b: Request)
    requires a.plan in s.plans && b.plan in s.plans
  {
    && s.plans[a.plan].valid && s.plans[b.plan].valid
    && a.overlap !in {OVERLAP_EXCLUSIVE, OVERLAP_UNKNOWN} && b.overlap !in {OVERLAP_EXCLUSIVE, OVERLAP_UNKNOWN}
    && (a.reservation.None? || b.reservation.None? || a.reservation.value != b.reservation.value)
    && (s.congestion.Some? ==>
          && s.plans[a.plan].estimatedBandwidth + s.plans[b.plan].estimatedBandwidth
             <= s.congestion.value.residualBandwidth
          && (s.congestion.value.hardCeiling ==>
                s.congestion.value.utilization < s.congestion.value.hardCeilingUtilization))
  }

  lemma FootprintsApartIff(s: State, a: Request, b: Request)
    ensures !ForbidsOverlap(Classify(MakeFootprint(a.participants, a.claims, PlanOf(s, a.plan)),
                                     MakeFootprint(b.participants, b.claims, PlanOf(s, b.plan))))
            <==> Apart(s, a, b) && s.plans[a.plan].valid && s.plans[b.plan].valid
  {
    NoConflictMeansDisjoint(a.participants, a.claims, PlanOf(s, a.plan), b.participants, b.claims, PlanOf(s, b.plan));
  }

  /** Inside `schedule` two requests still in play may overlap exactly if they are apart and mix. */
  lemma OverlapIff(s: State, x: Id, y: Id)
    requires !ScheduleThrows(s) && x in s.records && y in s.records
    requires !Terminal(s.records[x].lifecycle) && !Terminal(s.records[y].lifecycle)
    ensures var a, b := s.records[x].request, s.records[y].request;
            CanOverlap(Prepared(s), Prepared(s).records[x], Prepared(s).records[y]) <==> Apart(s, a, b) && Mix(s, a, b)
  {
    FootprintsApartIff(s, s.records[x].request, s.records[y].request);
  }

  /** Members of a decision are pairwise apart and mix; so one that asks for exclusivity, or
      does not say what overlap it allows, is alone. */
  lemma SelectedAreApart(s: State, i: nat, j: nat)
    requires Inv(s) && !ScheduleThrows(s) && i < |Selected(s)| && j < |Selected(s)| && i != j
    ensures Selected(s)[i] in s.records && Selected(s)[j] in s.records
    ensures var a, b := s.records[Selected(s)[i]].request, s.records[Selected(s)[j]].request;
            Apart(s, a, b) && Mix(s, a, b)
  {
    SelectedOverlap(s, j, i);
    SelectedFacts(s);
    assert Selected(s)[i] in Selected(s) && Selected(s)[j] in Selected(s);
    OverlapIff(s, Selected(s)[i], Selected(s)[j]);
  }

  /** Selected and fallback together are the candidates, in ranking order each. */
  lemma DecisionSplitsCandidates(s: State)
    requires Inv(s) && !ScheduleThrows(s)
    ensures Subsequence(MakeDecision(s).selected, Ranking(s))
    ensures multiset(MakeDecision(s).selected) + multiset(MakeDecision(s).fallback) == multiset(Ranking(s))
    ensures NoDuplicates(Ranking(s)) && forall x :: x in Ranking(s) <==> x in Candidates(s)
  {
    RankingIsCandidates(s);
    SelectedFacts(s);
    SplitOff(Selected(s), Ranking(s));
  }

  /** The first `k` selected rank ahead of the request and obstruct it. */
  ghost predicate StandInTheWay(s: State, k: nat, id: Id)
    requires !ScheduleThrows(s)
  {
    && k <= |Selected(s)| && (forall i | 0 <= i < k :: Precedes(Ranking(s), Selected(s)[i], id))
    && id in Prepared(s).records && (forall x | x in Selected(s)[..k] :: x in Prepared(s).records)
    && Obstructed(Prepared(s), Selected(s)[..k], id)
  }

  /** Whatever is not selected is obstructed by what was selected ahead of it. */
  lemma DecisionIsMaximal(s: State, id: Id) returns (k: nat)
    requires Inv(s) && !ScheduleThrows(s) && id in Candidates(s) && id !in Selected(s)
    ensures StandInTheWay(s, k, id)
  {
    RankingIsCandidates(s);
    k := SelectIsMaximal(Prepared(s), Ranking(s), [], id);
  }

  lemma {:induction false} DistinctWithin(v: seq<Id>, w: seq<Id>)
    requires NoDuplicates(v) && forall x | x in v :: x in w
    ensures |v| <= |w|
    decreases |v|
  {
    if v != [] {
      assert v[0] in w;
      var j :| 0 <= j < |w| && w[j] == v[0];
      var rest := w[..j] + w[j + 1..];
      forall x | x in v[1..] ensures x in rest {
        assert x in v;
        var k :| 0 <= k < |w| && w[k] == x;
        assert x == if k < j then rest[k] else rest[k - 1];
      }
      DistinctWithin(v[1..], rest);
    }
  }

  /** At most `i` requests rank ahead of the one at position `i`. */
  lemma AheadOf(ranked: seq<Id>, v: seq<Id>, k: nat, i: nat)
    requires NoDuplicates(ranked) && NoDuplicates(v) && i < |ranked| && k <= |v|
    requires forall m | 0 <= m < k :: Precedes(ranked, v[m], ranked[i])
    ensures k <= i && forall x | x in v[..k] :: x in ranked[..i]
  {
    forall x | x in v[..k] ensures x in ranked[..i] {
      var a, b :| 0 <= a < b < |ranked| && ranked[a] == x && ranked[b] == ranked[i];
      assert ranked[..i][a] == x;
    }
    DistinctWithin(v[..k], ranked[..i]);
  }

  /** The candidate at position `i` of the ranking: no running grant shares a participant
      with it, it may overlap each candidate ahead of it, and the bounds leave room even if
      all of those are selected. */
  ghost predicate Unblocked(s: State, i: nat)
    requires !ScheduleThrows(s)
  {
    && i < |Ranking(s)| && RunningSharers(s, s.records[Ranking(s)[i]].request) == {}
    && s.activeGrants + i < s.policy.bounds.maxActiveGrants && i < s.policy.bounds.maxOverlapGroup
    && forall x | x in Ranking(s)[..i] ::
         x in s.records && CanOverlap(Prepared(s), Prepared(s).records[Ranking(s)[i]], Prepared(s).records[x])
  }

  /** Then it is selected. */
  lemma UnblockedIsSelected(s: State, i: nat)
    requires Inv(s) && !ScheduleThrows(s) && Unblocked(s, i)
    ensures Ranking(s)[i] in Selected(s)
  {
    var id := Ranking(s)[i];
    RankingIsCandidates(s);
    assert id in Candidates(s);
    if id !in Selected(s) {
      var k := DecisionIsMaximal(s, id);
      NothingStandsInTheWay(s, i, k);
    }
  }

  lemma NothingStandsInTheWay(s: State, i: nat, k: nat)
    requires Inv(s) && !ScheduleThrows(s) && Unblocked(s, i)
    ensures !StandInTheWay(s, k, Ranking(s)[i])
  {
    if StandInTheWay(s, k, Ranking(s)[i]) {
      TakenAreAhead(s, i, k);
      UnblockedHasNoConflict(s, i);
      NotObstructed(Prepared(s), Ranking(s)[..i], Selected(s)[..k], Ranking(s)[i]);
    }
  }

  lemma TakenAreAhead(s: State, i: nat, k: nat)
    requires Inv(s) && !ScheduleThrows(s) && i < |Ranking(s)| && k <= |Selected(s)|
    requires forall m | 0 <= m < k :: Precedes(Ranking(s), Selected(s)[m], Ranking(s)[i])
    ensures k <= i && forall x | x in Selected(s)[..k] :: x in Ranking(s)[..i]
  {
    RankingIsCandidates(s);
    SelectedFacts(s);
    AheadOf(Ranking(s), Selected(s), k, i);
  }

  lemma UnblockedHasNoConflict(s: State, i: nat)
    requires Inv(s) && !ScheduleThrows(s) && Unblocked(s, i)
    ensures Ranking(s)[i] in Prepared(s).records
    ensures ActiveConflicts(Prepared(s), Prepared(s).records[Ranking(s)[i]]) == 0
  {
    RankingIsCandidates(s);
    assert Ranking(s)[i] in Candidates(s);
    IndexRefinesScan(s, Ranking(s)[i]);
  }

  lemma NotObstructed(p: State, ahead: seq<Id>, taken: seq<Id>, id: Id)
    requires id in p.records && ActiveConflicts(p, p.records[id]) == 0
    requires p.activeGrants + |ahead| < p.policy.bounds.maxActiveGrants && |ahead| < p.policy.bounds.maxOverlapGroup
    requires |taken| <= |ahead| && forall x | x in taken :: x in ahead
    requires forall x | x in ahead :: x in p.records && CanOverlap(p, p.records[id], p.records[x])
    ensures !Obstructed(p, taken, id)
  {
  }

  /** The best candidate is selected whenever nothing running and no bound stands in its way. */
  lemma TopIsSelected(s: State)
    requires Inv(s) && !ScheduleThrows(s) && Ranking(s) != []
    requires RunningSharers(s, s.records[Ranking(s)[0]].request) == {}
    requires s.activeGrants < s.policy.bounds.maxActiveGrants && 0 < s.policy.bounds.maxOverlapGroup
    ensures Ranking(s)[0] in Selected(s)
  {
    UnblockedIsSelected(s, 0);
  }

  /** The grants of a decision run parallel to its selection: the i-th grant is the current
      grant of the i-th selected request. */
  lemma DecisionGrantsAreParallel(s: State, i: nat)
    requires Inv(s) && !ScheduleThrows(s) && i < |MakeDecision(s).selected|
    ensures |MakeDecision(s).grants| == |MakeDecision(s).selected|
    ensures var d, t := MakeDecision(s), ScheduledState(s);
            && d.selected[i] in t.records && t.records[d.selected[i]].current.Some?
            && t.records[d.selected[i]].current.value.id == d.grants[i]
            && t.records[d.selected[i]].current.value.request == d.selected[i]
            && t.records[d.selected[i]].current.value.schedule == d.id
  {
    SelectedFacts(s);
    assert Selected(s)[i] in Selected(s);
    assert RecordOk(s, Selected(s)[i]);
    GrantAllEffect(Prepared(s), Selected(s), s.counters.schedule, s.counters.scheduleGen);
    GrantIdsAreConsecutive(Prepared(s), Selected(s), s.counters.schedule, s.counters.scheduleGen);
  }
}
