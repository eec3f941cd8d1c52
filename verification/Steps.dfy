/** What each operation of src/scheduler.cpp makes of the state. Every locked section
    is one function; an operation that throws leaves the state it had reached. */
module Steps {
  import opened Types
  import opened Lifecycles
  import opened Conflicts
  import opened Rankings
  import opened States

  // ---- Publishing evidence ----

  /** The record expects another generation of `p` than the one published. */
  predicate Affected(req: Request, p: Participant) {
    exists i | 0 <= i < |req.participants| ::
      req.participants[i] == p.id && (i < |req.participantGens| ==> req.participantGens[i] != p.gen)
  }

  predicate RefusesParticipant(s: State, p: Participant) {
    p.id in s.participants && p.gen < s.participants[p.id].gen
  }

  /** A published participant changed in a way that may invalidate records. */
  predicate ParticipantMoved(s: State, p: Participant) {
    p.id in s.participants && (p.gen > s.participants[p.id].gen || s.participants[p.id].workerBoot != p.workerBoot)
  }

  function Invalidated(r: Record): Record {
    if Revocable(r.lifecycle) then r.(lifecycle := RevalidationRequired) else r
  }

  function PublishParticipant(s: State, p: Participant): (t: State)
    ensures t == s.(records := t.records, participants := t.participants, participantRequests := t.participantRequests)
  {
    if RefusesParticipant(s, p) then s
    else
      s.(records :=
           map id | id in s.records ::
             if ParticipantMoved(s, p) && Listed(s.participantRequests, p.id, id) && Affected(s.records[id].request, p)
             then Invalidated(s.records[id]) else s.records[id],
         participants := s.participants[p.id := p],
         participantRequests :=
           s.participantRequests[p.id := if p.id in s.participantRequests then s.participantRequests[p.id] else {}])
  }

  predicate RefusesPlan(s: State, p: Plan) { p.id in s.plans && p.gen < s.plans[p.id].gen }
  predicate RefusesDependency(s: State, d: Dependency) { d.id in s.deps && d.gen < s.deps[d.id].gen }
  predicate RefusesCongestion(s: State, c: Congestion) { s.congestion.Some? && c.gen < s.congestion.value.gen }
  predicate RefusesCapacity(s: State, c: Capacity) { s.capacity.Some? && c.gen < s.capacity.value.gen }

  function PublishPlan(s: State, p: Plan): (t: State)
    ensures t == s.(plans := t.plans)
  {
    if RefusesPlan(s, p) then s else s.(plans := s.plans[p.id := p])
  }

  function PublishDependency(s: State, d: Dependency): (t: State)
    ensures t == s.(deps := t.deps)
  {
    if RefusesDependency(s, d) then s else s.(deps := s.deps[d.id := d])
  }

  function PublishReservation(s: State, r: Reservation): State {
    s.(reservations := s.reservations[r.gen := r], reservationGen := r.gen)
  }

  function PublishCongestion(s: State, c: Congestion): (t: State)
    ensures t == s.(congestion := t.congestion, congestionGen := t.congestionGen)
  {
    if RefusesCongestion(s, c) then s else s.(congestion := Some(c), congestionGen := c.gen)
  }

  function PublishCapacity(s: State, c: Capacity): (t: State)
    ensures t == s.(capacity := t.capacity, capacityGen := t.capacityGen)
  {
    if RefusesCapacity(s, c) then s else s.(capacity := Some(c), capacityGen := c.gen)
  }

  function SetPolicy(s: State, p: Policy): State { s.(policy := p, policyGen := s.policyGen + 1) }

  function AdvanceEpoch(s: State, e: Gen): (t: State)
    ensures t == s.(epoch := t.epoch) && s.epoch <= t.epoch
  { if e <= s.epoch then s else s.(epoch := e) }

  function AdvanceTime(s: State, d: nat): State { s.(now := s.now + d) }

  // ---- Submitting, superseding, cancelling ----

  function FreshFairness(cls: Code): Fairness { Fairness(cls, 0, 0.0, 0.0, 0, 0, false, 0.0) }

  function NewRecord(req: Request, l: Lifecycle, seqNo: nat, f: Fairness): Record {
    Record(req, l, UnknownReadiness, seqNo, 0, f, false, NO_FOOTPRINT, None)
  }

  /** The request as `submit` stores it: with the next id and generation 1. */
  function Labelled(s: State, req: Request): Request { req.(id := s.counters.request, gen := 1) }

  function SubmitError(s: State, req: Request): Option<Error> {
    if |s.records| >= s.policy.bounds.maxCollectives then Some(OutOfBounds)
    else Validate(Labelled(s, req), s.policy)
  }

  /** A request that fails validation has already used up an id. */
  function Submit(s: State, req: Request): (t: State)
    ensures t == s.(records := t.records, participantRequests := t.participantRequests, counters := t.counters)
            && t.counters.grant == s.counters.grant
  {
    if |s.records| >= s.policy.bounds.maxCollectives then s
    else if SubmitError(s, req).Some? then s.(counters := s.counters.(request := s.counters.request + 1))
    else Admit(s, Labelled(s, req))
  }

  /** Stores a valid request under its new id. */
  function Admit(s: State, q: Request): State {
    s.(records := s.records[q.id := NewRecord(q, Declared, s.counters.seqNo, FreshFairness(q.fairnessClass))],
       participantRequests := IndexAdd(s.participantRequests, q.participants, q.id),
       counters := s.counters.(request := s.counters.request + 1, seqNo := s.counters.seqNo + 1))
  }

  function SupersedeError(s: State, req: Request): Option<Error> {
    if req.id !in s.records then Some(InvalidArgument)
    else if req.gen <= s.records[req.id].request.gen then Some(IllegalTransition)
    else Validate(req, s.policy)
  }

  function Finish(gs: GrantState): GrantState { gs.(terminal := true, active := false) }

  function Decrement(n: nat): nat { if n > 0 then n - 1 else 0 }

  /** The record's current grant is on file. */
  predicate OnFile(s: State, r: Record) { r.current.Some? && r.current.value.id in s.grants }

  /** Replaces the request in place. Any grant it ever had is finished, and the counter
      of active grants goes down whether or not that grant was active. */
  function Supersede(s: State, req: Request): (t: State)
    ensures t == s.(records := t.records, participantRequests := t.participantRequests, grants := t.grants,
                    activeByParticipant := t.activeByParticipant, activeGrants := t.activeGrants)
  {
    if SupersedeError(s, req).Some? then s
    else Replace(s, s.records[req.id], req)
  }

  function Replace(s: State, prev: Record, req: Request): (t: State)
    ensures t == s.(records := t.records, participantRequests := t.participantRequests, grants := t.grants,
                    activeByParticipant := t.activeByParticipant, activeGrants := t.activeGrants)
  {
    if prev.current.None? then Refiled(s, prev, req)
    else if prev.current.value.id in s.grants then ReplaceGranted(s, prev, req, prev.current.value.id)
    else Refiled(s.(activeGrants := Decrement(s.activeGrants)), prev, req)
  }

  /** The new request on file in place of the old one. */
  function Refiled(s: State, prev: Record, req: Request): State {
    s.(records := s.records[req.id := NewRecord(req, Waiting, prev.seqNo, prev.fairness)],
       participantRequests := IndexAdd(s.participantRequests, req.participants, req.id))
  }

  function ReplaceGranted(s: State, prev: Record, req: Request, x: Id): State
    requires x in s.grants
  {
    s.(records := s.records[req.id := NewRecord(req, Waiting, prev.seqNo, prev.fairness)],
       participantRequests := IndexAdd(s.participantRequests, req.participants, req.id),
       grants := Finished(s, x), activeByParticipant := Unlisted(s, x),
       activeGrants := Decrement(s.activeGrants))
  }

  /** The grants with one of them finished, and the index without it. */
  function Finished(s: State, x: Id): map<Id, GrantState>
    requires x in s.grants
  {
    s.grants[x := Finish(s.grants[x])]
  }

  function Unlisted(s: State, x: Id): Index
    requires x in s.grants
  {
    IndexRemove(s.activeByParticipant, s.grants[x].grant.participants, x)
  }

  function Moved(s: State, id: Id, l: Lifecycle): (t: State)
    requires id in s.records
    ensures t.grants == s.grants && t.records.Keys == s.records.Keys
  {
    s.(records := s.records[id := s.records[id].(lifecycle := l)])
  }

  /** Cancelling finishes a grant that is still open. */
  function Cancel(s: State, id: Id): (t: State)
    ensures t == s.(records := t.records, grants := t.grants, activeByParticipant := t.activeByParticipant,
                    activeGrants := t.activeGrants)
  {
    if id !in s.records || Terminal(s.records[id].lifecycle) then s
    else if OnFile(s, s.records[id]) && !s.grants[s.records[id].current.value.id].terminal
    then CancelOpen(s, id, s.records[id].current.value.id)
    else Moved(s, id, Lifecycle.Cancelled)
  }

  function CancelOpen(s: State, id: Id, x: Id): State
    requires id in s.records && x in s.grants
  {
    s.(records := s.records[id := s.records[id].(lifecycle := Lifecycle.Cancelled)],
       grants := Finished(s, x), activeByParticipant := Unlisted(s, x),
       activeGrants := if s.grants[x].active then Decrement(s.activeGrants) else s.activeGrants)
  }

  // ---- Handing off and completing ----

  predicate HandoffStarts(s: State, g: Grant) {
    Revalidate(s, g) == Valid && g.request in s.records
    && CanTransition(s.records[g.request].lifecycle, Dispatching)
  }

  /** First locked section of `handoff`: it keeps the caller's copy of the grant. */
  function HandoffBegin(s: State, g: Grant): (t: State)
    ensures t == s.(records := t.records, grants := t.grants)
  {
    if !HandoffStarts(s, g) then s
    else if g.id in s.grants then Dispatched(s, g)
    else Moved(s, g.request, Dispatching)
  }

  function Dispatched(s: State, g: Grant): State
    requires g.request in s.records && g.id in s.grants
  {
    s.(records := s.records[g.request := s.records[g.request].(lifecycle := Dispatching)],
       grants := s.grants[g.id := s.grants[g.id].(handedOff := true, grant := g)])
  }

  /** The lifecycle the second section leaves the record in. */
  function AfterDispatch(l: Lifecycle, accepted: bool): Lifecycle {
    if l.Dispatching? && accepted then Active else l
  }

  /** Second locked section of `handoff`, after the fabric has answered. It checks the
      record's lifecycle but not its generation. */
  function HandoffEnd(s: State, g: Grant, accepted: bool): (t: State)
    ensures t == s.(records := t.records, grants := t.grants, activeByParticipant := t.activeByParticipant,
                    activeGrants := t.activeGrants)
  {
    if g.request !in s.records then s
    else
      var l := AfterDispatch(s.records[g.request].lifecycle, accepted);
      if g.id !in s.grants then Moved(s, g.request, l)
      else if l.Active? then Activated(s, g)
      else s.(grants := s.grants[g.id := s.grants[g.id].(active := false)])
  }

  /** The answer moves at most the one record. */
  lemma HandoffEndRecords(s: State, g: Grant, accepted: bool)
    ensures HandoffEnd(s, g, accepted).records
         == if g.request !in s.records then s.records
            else var r := s.records[g.request];
                 s.records[g.request := r.(lifecycle := AfterDispatch(r.lifecycle, accepted))]
  {
    if g.request in s.records {
      var r := s.records[g.request];
      assert r.(lifecycle := r.lifecycle) == r && s.records[g.request := r] == s.records;
    }
  }

  function Activated(s: State, g: Grant): State
    requires g.request in s.records && g.id in s.grants
  {
    s.(records := s.records[g.request := s.records[g.request].(lifecycle := Active)],
       grants := s.grants[g.id := s.grants[g.id].(active := true)],
       activeGrants := s.activeGrants + 1,
       activeByParticipant :=
         IndexAdd(s.activeByParticipant, s.grants[g.id].grant.participants, s.grants[g.id].grant.id))
  }

  predicate HandoffConfirmed(s: State, g: Grant, accepted: bool) {
    && accepted && g.request in s.records && g.id in s.grants
    && AfterDispatch(s.records[g.request].lifecycle, accepted).Active?
  }

  /** Some participant of the grant runs under the boots the completer presents. */
  predicate BootMatches(s: State, g: Grant, workerBoot: Id, sourceBoot: Id) {
    exists p | p in g.participants ::
      p in s.participants && s.participants[p].workerBoot == workerBoot && s.participants[p].sourceBoot == sourceBoot
  }

  predicate CompletionAccepted(s: State, g: Grant, workerBoot: Id, sourceBoot: Id) {
    && g.request in s.records && g.id in s.grants && !s.grants[g.id].terminal
    && g.evidence.epoch == s.epoch
    && var rec := s.records[g.request];
       && (rec.lifecycle.Active? || rec.lifecycle.Dispatching?)
       && rec.current.Some? && rec.current.value.id == g.id && rec.current.value.gen == g.gen
       && rec.request.gen == g.requestGen && rec.request.collectiveGen == g.collectiveGen
       && ParticipantsCurrent(s, g.participants, g.participantGens)
       && ParticipantsAvailable(s, g.participants)
       && BootMatches(s, g, workerBoot, sourceBoot)
       && CanTransition(rec.lifecycle, Lifecycle.Completed)
  }

  function Complete(s: State, g: Grant, workerBoot: Id, sourceBoot: Id): (t: State)
    ensures t == s.(records := t.records, grants := t.grants, activeByParticipant := t.activeByParticipant,
                    activeGrants := t.activeGrants)
  {
    if !CompletionAccepted(s, g, workerBoot, sourceBoot) then s
    else
      var rec := s.records[g.request];
      s.(records := s.records[g.request := rec.(lifecycle := Lifecycle.Completed,
                                                current := Some(rec.current.value.(active := false)))],
         grants := s.grants[g.id := Finish(s.grants[g.id])
                                   .(completedBy := workerBoot, completedBySource := sourceBoot)],
         activeByParticipant := IndexRemove(s.activeByParticipant, g.participants, g.id),
         activeGrants := Decrement(s.activeGrants))
  }

  // ---- Fencing ----

  predicate OnBoot(p: Participant, worker: Id, boot: Id) { p.worker == worker && p.workerBoot == boot }

  /** A live record with a participant on the fenced boot. */
  predicate Fenced(s: State, r: Record, worker: Id, boot: Id) {
    !Terminal(r.lifecycle)
    && exists p | p in r.request.participants :: p in s.participants && OnBoot(s.participants[p], worker, boot)
  }

  function FencedGrants(s: State, worker: Id, boot: Id): set<Id> {
    set id | id in s.records && Fenced(s, s.records[id], worker, boot)
             && s.records[id].current.Some? && s.records[id].current.value.id in s.grants
           :: s.records[id].current.value.id
  }

  /** The index without the grants in `gone`, which are listed under their own
      participants; a participant left without entries is dropped. */
  function IndexWithout(idx: Index, grants: map<Id, GrantState>, gone: set<Id>): (r: Index)
    requires gone <= grants.Keys
    ensures forall k, y :: Listed(r, k, y) <==> Listed(idx, k, y) && !(y in gone && k in grants[y].grant.participants)
  {
    var touched := set x, p | x in gone && p in grants[x].grant.participants :: p;
    var kept := map k | k in idx :: set y | y in idx[k] && !(y in gone && k in grants[y].grant.participants);
    assert forall k, y | k in idx && y in idx[k] && !(y in gone && k in grants[y].grant.participants) :: y in kept[k];
    map k | k in idx && !(k in touched && kept[k] == {}) :: kept[k]
  }

  function Fence(s: State, worker: Id, boot: Id): State {
    var gone := FencedGrants(s, worker, boot);
    s.(participants :=
         map p | p in s.participants ::
           if OnBoot(s.participants[p], worker, boot)
           then s.participants[p].(ready := false, readinessSource := PROVENANCE_UNKNOWN)
           else s.participants[p],
       records :=
         map id | id in s.records ::
           if Fenced(s, s.records[id], worker, boot) then Invalidated(s.records[id]) else s.records[id],
       grants := map x | x in s.grants :: if x in gone then Finish(s.grants[x]) else s.grants[x],
       activeByParticipant := IndexWithout(s.activeByParticipant, s.grants, gone))
  }

  // ---- Recovery ----

  function Recovered(r: Record): Record {
    r.(lifecycle := if Terminal(r.lifecycle) then r.lifecycle else RevalidationRequired,
       current := None, hardEligible := false, readiness := UnknownReadiness)
  }

  function Recover(s: State): State {
    s.(participants := map[], plans := map[], deps := map[], reservations := map[],
       congestion := None, capacity := None, participantRequests := map[],
       congestionGen := 0, capacityGen := 0, reservationGen := 0,
       activeGrants := 0, grants := map[], activeByParticipant := map[],
       records := map id | id in s.records :: Recovered(s.records[id]))
  }

  // ---- Scheduling ----

  predicate WaitingReadiness(rd: Readiness) {
    rd.WaitingDependency? || rd.WaitingParticipant? || rd.WaitingPlan? || rd.WaitingReservation?
    || rd.WaitingResource? || rd.WaitingCapacity?
  }

  /** The lifecycle `schedule` derives from fresh readiness; None when the guarded
      transition throws. */
  function Derived(l: Lifecycle, rd: Readiness): Option<Lifecycle> {
    var to :=
      match l
      case Declared => if rd.Ready? then Lifecycle.Ready else Waiting
      case Waiting => if rd.Ready? then Lifecycle.Ready else if rd.StaleEvidence? then RevalidationRequired else l
      case Ready => if rd.StaleEvidence? then RevalidationRequired else l
      case Eligible => if rd.StaleEvidence? then RevalidationRequired else if WaitingReadiness(rd) then Waiting else l
      case Queued => if rd.StaleEvidence? then RevalidationRequired else if WaitingReadiness(rd) then Waiting else l
      case _ => l;
    if to == l || CanTransition(l, to) then Some(to) else None
  }

  predicate RefreshThrows(s: State, r: Record) {
    !Terminal(r.lifecycle) && Derived(r.lifecycle, ComputeReadiness(s, r.request)).None?
  }

  /** One turn of the first loop of `schedule`. */
  function Refresh(s: State, r: Record): Record
    requires !RefreshThrows(s, r)
  {
    if Terminal(r.lifecycle) then r
    else
      var rd := ComputeReadiness(s, r.request);
      var l := Derived(r.lifecycle, rd).value;
      r.(age := r.age + 1,
         footprint := MakeFootprint(r.request.participants, r.request.claims, PlanOf(s, r.request.plan)),
         readiness := rd, lifecycle := l,
         hardEligible := (l.Ready? || l.Eligible? || l.Queued?) && HardRejection(s, rd, r.request).None?)
  }

  predicate ScheduleThrows(s: State) {
    exists id | id in s.records :: RefreshThrows(s, s.records[id])
  }

  function Refreshed(s: State): State
    requires !ScheduleThrows(s)
  {
    s.(records := map id | id in s.records :: Refresh(s, s.records[id]))
  }

  function Candidates(s: State): set<Id>
    requires !ScheduleThrows(s)
  {
    set id | id in s.records && !Terminal(s.records[id].lifecycle) && Refresh(s, s.records[id]).hardEligible
  }

  function Entries(s: State, ids: set<Id>): (c: set<Entry>)
    requires ids <= s.records.Keys
    ensures DistinctIds(c)
  {
    set id | id in ids :: EntryOf(s, id)
  }

  function Ids(es: seq<Entry>): (ids: seq<Id>)
    ensures |ids| == |es| && forall i | 0 <= i < |es| :: ids[i] == es[i].id
  {
    seq(|es|, i requires 0 <= i < |es| => es[i].id)
  }

  /** The candidate ids, best first. */
  ghost function Ranked(s: State, ids: set<Id>): seq<Id>
    requires ids <= s.records.Keys
  {
    Ids(RankingOf(Entries(s, ids)))
  }

  predicate Exclusive(s: State, id: Id)
    requires id in s.records
  {
    s.records[id].request.overlap == OVERLAP_EXCLUSIVE
  }

  predicate FitsWith(s: State, id: Id, chosen: seq<Id>)
    requires id in s.records && forall x | x in chosen :: x in s.records
  {
    forall x | x in chosen :: CanOverlap(s, s.records[id], s.records[x])
  }

  /** The greedy pass over the ranking with `chosen` already taken. */
  function Select(s: State, ranked: seq<Id>, chosen: seq<Id>): (r: seq<Id>)
    requires forall x | x in ranked :: x in s.records
    requires forall x | x in chosen :: x in s.records
    ensures forall x | x in r :: x in chosen || x in ranked
    decreases |ranked|
  {
    if ranked == [] || s.activeGrants + |chosen| >= s.policy.bounds.maxActiveGrants then chosen
    else
      var id, rest := ranked[0], ranked[1..];
      if Exclusive(s, id) && chosen != [] then Select(s, rest, chosen)
      else if ActiveConflicts(s, s.records[id]) > 0 then Select(s, rest, chosen)
      else if !FitsWith(s, id, chosen) then Select(s, rest, chosen)
      else if |chosen| >= s.policy.bounds.maxOverlapGroup then chosen
      else if Exclusive(s, id) then chosen + [id]
      else Select(s, rest, chosen + [id])
  }

  function MaxGen(gens: seq<Gen>): Gen {
    if gens == [] then 0
    else var m := MaxGen(gens[1..]); if gens[0] > m then gens[0] else m
  }

  function DependencyGens(ds: seq<DependencyRequirement>): seq<Gen> {
    if ds == [] then [] else [ds[0].gen] + DependencyGens(ds[1..])
  }

  /** The grant `create_grant` issues for a request under the current evidence. */
  function MakeGrant(s: State, req: Request, schedule: Id, scheduleGen: Gen): Grant {
    Grant(s.counters.grant, s.counters.grantGen, req.id, req.gen, req.collective, req.collectiveGen,
          schedule, scheduleGen, req.participants, req.participantGens, req.plan, req.planGen,
          Evidence(s.epoch, req.collectiveGen, req.gen, req.planGen, MaxGen(req.participantGens),
                   MaxGen(DependencyGens(req.dependencies)), s.reservationGen, s.congestionGen, s.capacityGen,
                   s.policyGen, 1, 1, 0, 0, 0),
          DEFAULT_REVALIDATION, req.workload, 0, 0, s.policyGen, false, false)
  }

  function GrantOne(s: State, id: Id, schedule: Id, scheduleGen: Gen): State
    requires id in s.records
  {
    if !Promotable(s.records[id].lifecycle) then s
    else
      var g := MakeGrant(s, s.records[id].request, schedule, scheduleGen);
      s.(records := s.records[id := s.records[id].(lifecycle := Granted, current := Some(g))],
         grants := s.grants[g.id := GrantState(g, false, false, false, 0, 0)],
         counters := s.counters.(grant := s.counters.grant + 1, grantGen := s.counters.grantGen + 1))
  }

  /** Grants for the selected requests, in order. */
  function GrantAll(s: State, ids: seq<Id>, schedule: Id, scheduleGen: Gen): (r: State)
    requires forall x | x in ids :: x in s.records
    ensures r.records.Keys == s.records.Keys
    decreases |ids|
  {
    if ids == [] then s else GrantAll(GrantOne(s, ids[0], schedule, scheduleGen), ids[1..], schedule, scheduleGen)
  }

  /** The grant ids of the decision, one per request that could be promoted. */
  function NewGrantIds(s: State, ids: seq<Id>, schedule: Id, scheduleGen: Gen): seq<Id>
    requires forall x | x in ids :: x in s.records
    decreases |ids|
  {
    if ids == [] then []
    else
      (if Promotable(s.records[ids[0]].lifecycle) then [s.counters.grant] else [])
      + NewGrantIds(GrantOne(s, ids[0], schedule, scheduleGen), ids[1..], schedule, scheduleGen)
  }

  /** Fairness bookkeeping of one candidate after the decision. */
  function Account(f: Fairness, selected: bool, policy: Policy): Fairness {
    if selected
    then f.(observedGrants := f.observedGrants + 1, observedService := f.observedService + 1.0,
            consecutiveBypasses := 0, starved := false,
            deficit := if f.deficit > policy.agingGrowth then f.deficit - policy.agingGrowth else 0.0)
    else f.(consecutiveBypasses := f.consecutiveBypasses + 1, waitTicks := f.waitTicks + 1,
            deficit := f.deficit + policy.agingGrowth,
            starved := f.consecutiveBypasses + 1 >= policy.maxBypassCount)
  }

  function Accounted(s: State, candidates: set<Id>, selected: seq<Id>): State {
    s.(records := map id | id in s.records ::
         if id in candidates
         then s.records[id].(fairness := Account(s.records[id].fairness, id in selected, s.policy))
         else s.records[id])
  }

  function Without(ranked: seq<Id>, selected: seq<Id>): seq<Id> {
    if ranked == [] then []
    else (if ranked[0] in selected then [] else [ranked[0]]) + Without(ranked[1..], selected)
  }

  datatype Decision = Decision(
    id: Id, gen: Gen, selected: seq<Id>, grants: seq<Id>, fallback: seq<Id>, epoch: Gen)

  /** The state in which the candidates are ranked and selected. */
  function Prepared(s: State): State
    requires !ScheduleThrows(s)
  {
    Refreshed(s).(counters := s.counters.(schedule := s.counters.schedule + 1,
                                           scheduleGen := s.counters.scheduleGen + 1))
  }

  ghost function Ranking(s: State): (r: seq<Id>)
    requires !ScheduleThrows(s)
    ensures forall x | x in r :: x in s.records
  {
    var es := RankingOf(Entries(Prepared(s), Candidates(s)));
    assert forall i | 0 <= i < |es| :: es[i] in Elements(es);
    Ids(es)
  }

  ghost function Selected(s: State): seq<Id>
    requires !ScheduleThrows(s)
  {
    Select(Prepared(s), Ranking(s), [])
  }

  function CountGroup(c: Counters, selected: seq<Id>): Counters {
    if selected == [] then c else c.(group := c.group + 1, groupGen := c.groupGen + 1)
  }

  ghost function ScheduledState(s: State): State
    requires !ScheduleThrows(s)
  {
    var sel := Selected(s);
    var s1 := GrantAll(Prepared(s), sel, s.counters.schedule, s.counters.scheduleGen);
    Accounted(s1.(counters := CountGroup(s1.counters, sel)), Candidates(s), sel)
  }

  ghost function MakeDecision(s: State): Decision
    requires !ScheduleThrows(s)
  {
    var sel := Selected(s);
    Decision(s.counters.schedule, s.counters.scheduleGen, sel,
             NewGrantIds(Prepared(s), sel, s.counters.schedule, s.counters.scheduleGen),
             Without(Ranking(s), sel), s.epoch)
  }
}
