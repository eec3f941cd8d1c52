/** What the calls that publish, fence, cancel and decide leave behind, over the fields. */
module Effects {
  import opened Types
  import opened Lifecycles
  import opened States
  import opened Steps
  import opened Invariants
  import opened Decisions
  import opened Answers
  import opened Agreement

  // ---- Publishing ----

  /** What is published is what was published last, unless that is of an earlier generation
      than what was there; nothing published under other names changes. */
  ghost predicate Takes<T>(was: map<Id, T>, now: map<Id, T>, id: Id, x: T, later: bool) {
    && id in now && (if later then now == was else now[id] == x)
    && (forall k | k != id :: (k in now <==> k in was) && (k in was ==> now[k] == was[k]))
  }

  lemma PublicationsTake(s: State, p: Plan, d: Dependency, q: Participant)
    ensures Takes(s.plans, PublishPlan(s, p).plans, p.id, p, p.id in s.plans && p.gen < s.plans[p.id].gen)
    ensures Takes(s.deps, PublishDependency(s, d).deps, d.id, d, d.id in s.deps && d.gen < s.deps[d.id].gen)
    ensures Takes(s.participants, PublishParticipant(s, q).participants, q.id, q,
                  q.id in s.participants && q.gen < s.participants[q.id].gen)
  {
  }

  lemma LevelsTake(s: State, c: Congestion, k: Capacity, r: Reservation)
    ensures var t := PublishCongestion(s, c);
            if s.congestion.Some? && c.gen < s.congestion.value.gen then t == s
            else t.congestion == Some(c) && t.congestionGen == c.gen
    ensures var t := PublishCapacity(s, k);
            if s.capacity.Some? && k.gen < s.capacity.value.gen then t == s
            else t.capacity == Some(k) && t.capacityGen == k.gen
    ensures Takes(s.reservations, PublishReservation(s, r).reservations, r.gen, r, false)
    ensures PublishReservation(s, r).reservationGen == r.gen
  {
  }

  /** The clock moves on, the epoch never back, and a new policy is of a new generation. */
  lemma ClockEpochAndPolicy(s: State, duration: nat, e: Gen, p: Policy)
    ensures AdvanceTime(s, duration) == s.(now := s.now + duration)
    ensures AdvanceEpoch(s, e).epoch == (if e > s.epoch then e else s.epoch)
    ensures SetPolicy(s, p).policy == p && SetPolicy(s, p).policyGen > s.policyGen
    ensures SetPolicy(s, p) == s.(policy := p, policyGen := SetPolicy(s, p).policyGen)
  {
  }

  /** The request names the participant at another generation. */
  ghost predicate NamesOther(req: Request, p: Participant) {
    exists i | 0 <= i < |req.participants| == |req.participantGens| :: NamedOther(req, p, i)
  }

  ghost predicate NamedOther(req: Request, p: Participant, i: nat)
    requires i < |req.participants| == |req.participantGens|
  {
    req.participants[i] == p.id && req.participantGens[i] != p.gen
  }

  /** READY, or holding authority. */
  ghost predicate Invested(l: Lifecycle) { l.Ready? || l.Granted? || l.Dispatching? || l.Active? }

  lemma AffectedNamesOther(req: Request, p: Participant)
    requires WellFormed(req)
    ensures Affected(req, p) <==> NamesOther(req, p)
  {
    if Affected(req, p) {
      var i :| 0 <= i < |req.participants| && req.participants[i] == p.id && req.participantGens[i] != p.gen;
      assert NamedOther(req, p, i);
    }
    if NamesOther(req, p) { var i :| 0 <= i < |req.participants| && NamedOther(req, p, i); }
  }

  /** Publishing a participant again, at a later generation or under another worker boot,
      sends exactly those records to revalidation that are READY or hold authority and name
      another generation of it. No other record changes. */
  lemma PublicationInvalidatesIff(s: State, p: Participant, id: Id)
    requires Inv(s) && id in s.records
    ensures id in PublishParticipant(s, p).records
    ensures var moved := p.id in s.participants && (p.gen > s.participants[p.id].gen
                         || (p.gen == s.participants[p.id].gen && p.workerBoot != s.participants[p.id].workerBoot));
            var r := s.records[id];
            PublishParticipant(s, p).records[id]
              == if moved && Invested(r.lifecycle) && NamesOther(r.request, p)
                 then r.(lifecycle := RevalidationRequired) else r
  {
    assert RecordOk(s, id);
    AffectedNamesOther(s.records[id].request, p);
    if !RefusesParticipant(s, p) { IndexedInvalidationIsAScan(s, p); }
  }

  // ---- Fencing ----

  ghost predicate RunsOn(s: State, p: Id, worker: Id, boot: Id) {
    p in s.participants && s.participants[p].worker == worker && s.participants[p].workerBoot == boot
  }

  /** A record in play with a participant on the boot. */
  ghost predicate Hit(s: State, r: Record, worker: Id, boot: Id) {
    && !Terminal(r.lifecycle)
    && exists i | 0 <= i < |r.request.participants| :: RunsOn(s, r.request.participants[i], worker, boot)
  }

  lemma FencedIsHit(s: State, r: Record, worker: Id, boot: Id)
    ensures Fenced(s, r, worker, boot) <==> Hit(s, r, worker, boot)
  {
    var ps := r.request.participants;
    if Fenced(s, r, worker, boot) {
      var p :| p in ps && p in s.participants && OnBoot(s.participants[p], worker, boot);
      var i :| 0 <= i < |ps| && ps[i] == p;
      assert RunsOn(s, ps[i], worker, boot);
    }
    if Hit(s, r, worker, boot) {
      var i :| 0 <= i < |ps| && RunsOn(s, ps[i], worker, boot);
      assert ps[i] in ps;
    }
  }

  /** Fencing a boot makes each participant on it unready with its provenance unknown, and
      sends the records it hits, if READY or holding authority, to revalidation, their grants
      on file finished. Nothing else changes in them or in any other. */
  lemma FenceHits(s: State, worker: Id, boot: Id, id: Id)
    requires Inv(s) && id in s.records
    ensures var t, r := Fence(s, worker, boot), s.records[id];
            && id in t.records && t.records[id] == (if Hit(s, r, worker, boot) && Invested(r.lifecycle)
                                                    then r.(lifecycle := RevalidationRequired) else r)
            && (Hit(s, r, worker, boot) && r.current.Some? ==>
                  r.current.value.id in t.grants && t.grants[r.current.value.id].terminal)
  {
    assert RecordOk(s, id);
    FencedIsHit(s, s.records[id], worker, boot);
    if Hit(s, s.records[id], worker, boot) && s.records[id].current.Some? {
      assert s.records[id].current.value.id in FencedGrants(s, worker, boot);
    }
  }

  lemma FenceWithdrawsReadiness(s: State, worker: Id, boot: Id, p: Id)
    requires p in s.participants
    ensures var q, t := s.participants[p], Fence(s, worker, boot);
            && p in t.participants
            && t.participants[p] == if RunsOn(s, p, worker, boot)
                                    then q.(ready := false, readinessSource := PROVENANCE_UNKNOWN) else q
  {
  }

  /** So no request with a participant on the boot is a candidate until that participant has
      been published again. */
  lemma FencedAreNoCandidates(s: State, worker: Id, boot: Id, id: Id)
    requires Inv(s) && Inv(Fence(s, worker, boot)) && !ScheduleThrows(Fence(s, worker, boot))
    requires id in s.records && Hit(s, s.records[id], worker, boot)
    ensures id !in Candidates(Fence(s, worker, boot))
  {
    var t, req := Fence(s, worker, boot), s.records[id].request;
    FenceHits(s, worker, boot, id);
    var i :| 0 <= i < |req.participants| && RunsOn(s, req.participants[i], worker, boot);
    FenceWithdrawsReadiness(s, worker, boot, req.participants[i]);
    assert ParticipantAbsent(t, t.records[id].request, i);
    CandidateIff(t, id);
  }

  // ---- Cancelling ----

  /** Cancelling a request that is not finished makes it CANCELLED and finishes its open grant,
      if any; it changes nothing else, and nothing at all in other cases. */
  lemma CancelEffect(s: State, id: Id)
    ensures var t := Cancel(s, id);
            if id in s.records && !Terminal(s.records[id].lifecycle)
            then && t.records == s.records[id := s.records[id].(lifecycle := Lifecycle.Cancelled)]
                 && EndsJust(s, t, OpenGrantOf(s, id))
            else t == s
  {
    if id in s.records && !Terminal(s.records[id].lifecycle) {
      if OpenGrantOf(s, id) == {} {
        assert Cancel(s, id) == Moved(s, id, Lifecycle.Cancelled);
      } else {
        assert Cancel(s, id) == CancelOpen(s, id, s.records[id].current.value.id);
      }
    }
  }

  ghost function OpenGrantOf(s: State, id: Id): set<Id>
    requires id in s.records
  {
    var c := s.records[id].current;
    if c.Some? && c.value.id in s.grants && !s.grants[c.value.id].terminal then {c.value.id} else {}
  }

  // ---- Deciding ----

  /** The counters after a decision that selects `n` requests: an identity is used up for the
      decision, one for each grant, and one for the group, if there is any. */
  ghost function Advanced(c: Counters, n: nat): Counters {
    c.(schedule := c.schedule + 1, scheduleGen := c.scheduleGen + 1, grant := c.grant + n, grantGen := c.grantGen + n,
       group := c.group + (if n > 0 then 1 else 0), groupGen := c.groupGen + (if n > 0 then 1 else 0))
  }

  /** A decision is made under the next identity and the current epoch. */
  lemma DecisionIdentity(s: State)
    requires Inv(s) && !ScheduleThrows(s)
    ensures var d := MakeDecision(s);
            d.id == s.counters.schedule && d.gen == s.counters.scheduleGen && d.epoch == s.epoch
    ensures ScheduledState(s).counters == Advanced(s.counters, |Selected(s)|)
  {
    CountersAdvance(s);
  }

  lemma CountersAdvance(s: State)
    requires Inv(s) && !ScheduleThrows(s)
    ensures ScheduledState(s).counters == Advanced(s.counters, |Selected(s)|)
  {
    GrantedCounters(s);
    ScheduledCounters(s);
    GroupCounted(s.counters, GrantedState(s).counters, ScheduledState(s).counters, Selected(s));
  }

  lemma ScheduledCounters(s: State)
    requires !ScheduleThrows(s)
    ensures ScheduledState(s).counters == CountGroup(GrantedState(s).counters, Selected(s))
  {
  }

  lemma GrantedCounters(s: State)
    requires Inv(s) && !ScheduleThrows(s)
    ensures GrantsCounted(s.counters, GrantedState(s).counters, |Selected(s)|)
  {
    SelectedAreReady(s);
    PreparedCounters(s);
    CountedFrom(s.counters, Prepared(s), GrantedState(s), Selected(s), s.counters.schedule, s.counters.scheduleGen);
  }

  ghost predicate ScheduleCounted(c: Counters, d: Counters) {
    d == c.(schedule := c.schedule + 1, scheduleGen := c.scheduleGen + 1)
  }

  lemma PreparedCounters(s: State)
    requires !ScheduleThrows(s)
    ensures ScheduleCounted(s.counters, Prepared(s).counters)
  {
  }

  lemma CountedFrom(c: Counters, p: State, t: State, ids: seq<Id>, sid: Id, sgen: Gen)
    requires NoDuplicates(ids) && forall x | x in ids :: x in p.records && p.records[x].lifecycle.Ready?
    requires ScheduleCounted(c, p.counters) && t == GrantAll(p, ids, sid, sgen)
    ensures GrantsCounted(c, t.counters, |ids|)
  {
    GrantingOnlyAdds(p, ids, sid, sgen);
  }

  lemma SelectedAreReady(s: State)
    requires Inv(s) && !ScheduleThrows(s)
    ensures NoDuplicates(Selected(s))
    ensures forall x | x in Selected(s) :: x in Prepared(s).records && Prepared(s).records[x].lifecycle.Ready?
  {
    SelectedFacts(s);
  }

  lemma GrantingOnlyAdds(s: State, ids: seq<Id>, sid: Id, sgen: Gen)
    requires NoDuplicates(ids) && forall x | x in ids :: x in s.records && s.records[x].lifecycle.Ready?
    ensures OnlyGrantsAdded(s, GrantAll(s, ids, sid, sgen), |ids|)
  {
    GrantAllEffect(s, ids, sid, sgen);
  }

  ghost predicate GrantsCounted(c: Counters, d: Counters, n: nat) {
    d == c.(schedule := c.schedule + 1, scheduleGen := c.scheduleGen + 1,
            grant := c.grant + n, grantGen := c.grantGen + n)
  }

  lemma GroupCounted(c: Counters, d: Counters, e: Counters, sel: seq<Id>)
    requires GrantsCounted(c, d, |sel|) && e == CountGroup(d, sel)
    ensures e == Advanced(c, |sel|)
  {
  }

  lemma {:induction false} MaxGenIs(gens: seq<Gen>)
    ensures gens != [] ==> MaxGen(gens) in gens
    ensures gens == [] ==> MaxGen(gens) == 0
    ensures forall g | g in gens :: g <= MaxGen(gens)
  {
    if gens != [] {
      assert gens == [gens[0]] + gens[1..];
      MaxGenIs(gens[1..]);
      assert gens[0] in gens;
    }
  }

  lemma {:induction false} DependencyGensAre(ds: seq<DependencyRequirement>)
    ensures |DependencyGens(ds)| == |ds| && forall i | 0 <= i < |ds| :: DependencyGens(ds)[i] == ds[i].gen
  {
    if ds != [] { DependencyGensAre(ds[1..]); }
  }

  /** The largest of the generations, zero if there are none. */
  ghost predicate Largest(g: Gen, gens: seq<Gen>) {
    (forall x | x in gens :: x <= g) && (if gens == [] then g == 0 else g in gens)
  }

  /** The snapshot of a new grant: the generations the request names, the largest of those of
      its participants and its dependencies, and those published at the moment. */
  ghost predicate SnapshotOf(s: State, req: Request, e: Evidence) {
    && e.epoch == s.epoch && e.collectiveGen == req.collectiveGen && e.requestGen == req.gen && e.planGen == req.planGen
    && Largest(e.participantGen, req.participantGens) && Largest(e.dependencyGen, DependencyGens(req.dependencies))
    && e.reservationGen == s.reservationGen && e.congestionGen == s.congestionGen && e.capacityGen == s.capacityGen
    && e.policyGen == s.policyGen && e.priorityGen == 1 && e.fairnessGen == 1
    && e.topologyGen == 0 && e.capabilityGen == 0 && e.healthGen == 0
  }

  /** The i-th request selected gets the i-th of the new grants: for its collective and
      workload, under the decision's identity and the current evidence, neither running nor
      finished. */
  lemma GrantsAreIssued(s: State, i: nat)
    requires Inv(s) && !ScheduleThrows(s) && i < |Selected(s)|
    ensures var id := Selected(s)[i];
            && id in s.records && id in ScheduledState(s).records && ScheduledState(s).records[id].current.Some?
            && var g, req := ScheduledState(s).records[id].current.value, s.records[id].request;
               && g.id == s.counters.grant + i && g.gen == s.counters.grantGen + i
               && g.request == req.id && g.requestGen == req.gen
               && g.collective == req.collective && g.collectiveGen == req.collectiveGen
               && g.participants == req.participants && g.participantGens == req.participantGens
               && g.plan == req.plan && g.planGen == req.planGen && g.workload == req.workload
               && g.schedule == s.counters.schedule && g.scheduleGen == s.counters.scheduleGen
               && g.policyGen == s.policyGen && SnapshotOf(s, req, g.evidence)
               && g.revalidation == Revalidation(true, true, true, true, true, true, true, true)
               && !g.active && !g.terminal && g.executionAttempt == 0 && g.executionAttemptGen == 0
  {
    var id := Selected(s)[i];
    SelectedFacts(s);
    assert id in Selected(s);
    GrantAllEffect(Prepared(s), Selected(s), s.counters.schedule, s.counters.scheduleGen);
    AccountedRecord(s, id);
    var req := s.records[id].request;
    MaxGenIs(req.participantGens);
    MaxGenIs(DependencyGens(req.dependencies));
  }
}
