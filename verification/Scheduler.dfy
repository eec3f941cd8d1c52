/** The `Scheduler` object: its fields, and its operations updating them in place. Every
    method is proved to make of the state exactly what its step function says, so all
    that is proved about steps and runs holds of this object. */
module Schedulers {
  import opened Bytes
  import opened Types
  import opened Lifecycles
  import opened States
  import opened Steps
  import opened Invariants
  import opened Images
  import opened Loops
  import opened Layout
  import P = Persistence

  class Scheduler {
    var epoch: Gen
    var now: nat
    var policy: Policy
    var policyGen: Gen
    var records: map<Id, Record>
    var participants: map<Id, Participant>
    var plans: map<Id, Plan>
    var deps: map<Id, Dependency>
    var reservations: map<Gen, Reservation>
    var congestion: Option<Congestion>
    var capacity: Option<Capacity>
    var grants: map<Id, GrantState>
    var participantRequests: Index
    var activeByParticipant: Index
    var counters: Counters
    var activeGrants: nat
    var capacityGen: Gen
    var congestionGen: Gen
    var reservationGen: Gen

    /** The fields as one value. */
    function Abs(): State
      reads this
    {
      State(epoch, now, policy, policyGen, records, participants, plans, deps, reservations, congestion, capacity,
            grants, participantRequests, activeByParticipant, counters, activeGrants,
            capacityGen, congestionGen, reservationGen)
    }

    constructor (p: Policy, e: Gen)
      ensures Abs() == NewState(p, e) && NormalFootprints(Abs())
    {
      epoch, now, policy, policyGen := e, 0, p, 0;
      records, participants, plans, deps, reservations := map[], map[], map[], map[], map[];
      congestion, capacity, grants, participantRequests, activeByParticipant := None, None, map[], map[], map[];
      counters := Counters(1, 1, 1, 1, 1, 1, 1, 0);
      activeGrants, capacityGen, congestionGen, reservationGen := 0, 0, 0, 0;
    }

    // ---- Publishing evidence ----

    method PublishPlan(p: Plan) returns (ok: bool)
      modifies this
      ensures ok == !RefusesPlan(old(Abs()), p) && Abs() == Steps.PublishPlan(old(Abs()), p)
    {
      if p.id in plans && p.gen < plans[p.id].gen { return false; }
      plans := plans[p.id := p];
      ok := true;
    }

    method PublishDependency(d: Dependency) returns (ok: bool)
      modifies this
      ensures ok == !RefusesDependency(old(Abs()), d) && Abs() == Steps.PublishDependency(old(Abs()), d)
    {
      if d.id in deps && d.gen < deps[d.id].gen { return false; }
      deps := deps[d.id := d];
      ok := true;
    }

    method PublishReservation(r: Reservation)
      modifies this
      ensures Abs() == Steps.PublishReservation(old(Abs()), r)
    {
      reservations := reservations[r.gen := r];
      reservationGen := r.gen;
    }

    method PublishCongestion(c: Congestion) returns (ok: bool)
      modifies this
      ensures ok == !RefusesCongestion(old(Abs()), c) && Abs() == Steps.PublishCongestion(old(Abs()), c)
    {
      if congestion.Some? && c.gen < congestion.value.gen { return false; }
      congestionGen := c.gen;
      congestion := Some(c);
      ok := true;
    }

    method PublishCapacity(c: Capacity) returns (ok: bool)
      modifies this
      ensures ok == !RefusesCapacity(old(Abs()), c) && Abs() == Steps.PublishCapacity(old(Abs()), c)
    {
      if capacity.Some? && c.gen < capacity.value.gen { return false; }
      capacityGen := c.gen;
      capacity := Some(c);
      ok := true;
    }

    method SetPolicy(p: Policy)
      modifies this
      ensures Abs() == Steps.SetPolicy(old(Abs()), p)
    {
      policy := p;
      policyGen := policyGen + 1;
    }

    method AdvanceEpoch(e: Gen) returns (ok: bool)
      modifies this
      ensures ok == (e > old(epoch)) && Abs() == Steps.AdvanceEpoch(old(Abs()), e)
    {
      if e <= epoch { return false; }
      epoch := e;
      ok := true;
    }

    method AdvanceTime(d: nat)
      modifies this
      ensures Abs() == Steps.AdvanceTime(old(Abs()), d)
    {
      now := now + d;
    }

    /** Walks the requests listed under the participant and invalidates those that expect
        another generation. */
    method InvalidateListed(p: Participant)
      modifies this`records
      ensures records == map id | id in old(records) ::
                if Listed(participantRequests, p.id, id) && Affected(old(records)[id].request, p)
                then Invalidated(old(records)[id]) else old(records)[id]
    {
      var todo := if p.id in participantRequests then participantRequests[p.id] else {};
      ghost var was := records;
      ghost var done: set<Id> := {};
      while todo != {}
        invariant forall id :: Listed(participantRequests, p.id, id) <==> id in done || id in todo
        invariant done !! todo
        invariant records == map id | id in was ::
                    if id in done && Affected(was[id].request, p) then Invalidated(was[id]) else was[id]
        decreases |todo|
      {
        var id :| id in todo;
        todo := todo - {id};
        done := done + {id};
        if id in records && Affected(records[id].request, p) {
          records := records[id := Invalidated(records[id])];
        }
      }
    }

    method PublishParticipant(p: Participant) returns (ok: bool)
      modifies this
      ensures ok == !RefusesParticipant(old(Abs()), p) && Abs() == Steps.PublishParticipant(old(Abs()), p)
    {
      if p.id in participants {
        if p.gen < participants[p.id].gen { return false; }
        if p.gen > participants[p.id].gen || participants[p.id].workerBoot != p.workerBoot { InvalidateListed(p); }
      }
      participants := participants[p.id := p];
      participantRequests :=
        participantRequests[p.id := if p.id in participantRequests then participantRequests[p.id] else {}];
      ok := true;
      assert records == Steps.PublishParticipant(old(Abs()), p).records;
    }

    // ---- Submitting, superseding, cancelling ----

    method Submit(req: Request) returns (error: Option<Error>)
      modifies this
      ensures error == SubmitError(old(Abs()), req) && Abs() == Steps.Submit(old(Abs()), req)
    {
      if |records| >= policy.bounds.maxCollectives { return Some(OutOfBounds); }
      var q := req.(id := counters.request, gen := 1);
      counters := counters.(request := counters.request + 1);
      error := Validate(q, policy);
      if error.Some? { return; }
      var r := NewRecord(q, Declared, counters.seqNo, FreshFairness(q.fairnessClass));
      counters := counters.(seqNo := counters.seqNo + 1);
      participantRequests := InsertUnder(participantRequests, q.participants, q.id);
      records := records[q.id := r];
    }

    /** Ends a grant: off the index, terminal and not active. */
    method FinishGrant(x: Id)
      requires x in grants
      modifies this`grants, this`activeByParticipant
      ensures grants == Finished(old(Abs()), x) && activeByParticipant == Unlisted(old(Abs()), x)
    {
      activeByParticipant := RemoveUnder(activeByParticipant, grants[x].grant.participants, x);
      grants := grants[x := Finish(grants[x])];
    }

    method Supersede(req: Request) returns (error: Option<Error>)
      modifies this
      ensures error == SupersedeError(old(Abs()), req) && Abs() == Steps.Supersede(old(Abs()), req)
    {
      if req.id !in records { return Some(InvalidArgument); }
      if req.gen <= records[req.id].request.gen { return Some(IllegalTransition); }
      error := Validate(req, policy);
      if error.Some? { return; }
      Refile(records[req.id], req);
    }

    method Refile(prev: Record, req: Request)
      modifies this
      ensures Abs() == Replace(old(Abs()), prev, req)
    {
      if prev.current.Some? {
        if prev.current.value.id in grants { FinishGrant(prev.current.value.id); }
        activeGrants := Decrement(activeGrants);
      }
      PlaceRequest(prev, req);
    }

    method PlaceRequest(prev: Record, req: Request)
      modifies this
      ensures Abs() == Refiled(old(Abs()), prev, req)
    {
      participantRequests := InsertUnder(participantRequests, req.participants, req.id);
      records := records[req.id := NewRecord(req, Waiting, prev.seqNo, prev.fairness)];
    }

    method Cancel(id: Id) returns (known: bool)
      modifies this
      ensures known == (id in old(records)) && Abs() == Steps.Cancel(old(Abs()), id)
    {
      if id !in records { return false; }
      known := true;
      if Terminal(records[id].lifecycle) { return; }
      if records[id].current.Some? && records[id].current.value.id in grants {
        var x := records[id].current.value.id;
        if !grants[x].terminal {
          if grants[x].active { activeGrants := Decrement(activeGrants); }
          FinishGrant(x);
        }
      }
      records := records[id := records[id].(lifecycle := Lifecycle.Cancelled)];
    }

    // ---- Handing off and completing ----

    /** `handoff` up to the call of the fabric. */
    method HandoffBegin(g: Grant) returns (started: bool)
      modifies this
      ensures started == HandoffStarts(old(Abs()), g) && Abs() == Steps.HandoffBegin(old(Abs()), g)
    {
      if Revalidate(Abs(), g) != Valid || g.request !in records { return false; }
      var cell := new LifecycleCell(records[g.request].lifecycle);
      started := cell.Transition(Dispatching);
      if !started { return; }
      records := records[g.request := records[g.request].(lifecycle := cell.state)];
      if g.id in grants { grants := grants[g.id := grants[g.id].(handedOff := true, grant := g)]; }
    }

    /** `handoff` after the fabric has answered. */
    method HandoffEnd(g: Grant, accepted: bool) returns (confirmed: bool)
      modifies this
      ensures confirmed == HandoffConfirmed(old(Abs()), g, accepted)
              && Abs() == Steps.HandoffEnd(old(Abs()), g, accepted)
    {
      if g.request !in records { return false; }
      var active := records[g.request].lifecycle.Active? || (records[g.request].lifecycle.Dispatching? && accepted);
      if g.id !in grants {
        if active { SetLifecycle(g.request, Active); }
        assert !active ==> Abs() == Moved(Abs(), g.request, records[g.request].lifecycle) by {
          assert records[g.request := records[g.request]] == records;
        }
        return false;
      }
      if active { Activate(g); } else { grants := grants[g.id := grants[g.id].(active := false)]; }
      confirmed := accepted && active;
    }

    method SetLifecycle(id: Id, l: Lifecycle)
      requires id in records
      modifies this
      ensures Abs() == Moved(old(Abs()), id, l)
    {
      records := records[id := records[id].(lifecycle := l)];
    }

    /** The record is ACTIVE and its grant is running: counted and indexed. */
    method Activate(g: Grant)
      requires g.request in records && g.id in grants
      modifies this
      ensures Abs() == Activated(old(Abs()), g)
    {
      records := records[g.request := records[g.request].(lifecycle := Active)];
      activeByParticipant := InsertUnder(activeByParticipant, grants[g.id].grant.participants, grants[g.id].grant.id);
      grants := grants[g.id := grants[g.id].(active := true)];
      activeGrants := activeGrants + 1;
    }

    /** The loop over the grant's participants: all current and ready, one under the boots. */
    method CheckAuthority(g: Grant, workerBoot: Id, sourceBoot: Id) returns (ok: bool)
      ensures ok <==> ParticipantsCurrent(Abs(), g.participants, g.participantGens)
                      && ParticipantsAvailable(Abs(), g.participants) && BootMatches(Abs(), g, workerBoot, sourceBoot)
    {
      var s := Abs();
      var bootOk := false;
      var i := 0;
      while i < |g.participants|
        invariant 0 <= i <= |g.participants|
        invariant forall k | 0 <= k < i :: GenerationCurrent(s, g.participants, g.participantGens, k)
                                           && Available(s.participants[g.participants[k]])
        invariant bootOk <==> exists k | 0 <= k < i :: BootsOf(s, g.participants[k], workerBoot, sourceBoot)
      {
        if !GenerationCurrent(s, g.participants, g.participantGens, i) { return false; }
        if !Available(participants[g.participants[i]]) {
          assert g.participants[i] in g.participants;
          return false;
        }
        if participants[g.participants[i]].workerBoot == workerBoot
           && participants[g.participants[i]].sourceBoot == sourceBoot {
          bootOk := true;
          assert BootsOf(s, g.participants[i], workerBoot, sourceBoot);
        }
        i := i + 1;
      }
      ok := bootOk;
      if ok {
        var k :| 0 <= k < |g.participants| && BootsOf(s, g.participants[k], workerBoot, sourceBoot);
        assert g.participants[k] in g.participants;
      }
    }

    method Complete(g: Grant, workerBoot: Id, sourceBoot: Id) returns (accepted: bool)
      modifies this
      ensures accepted == CompletionAccepted(old(Abs()), g, workerBoot, sourceBoot)
      ensures Abs() == Steps.Complete(old(Abs()), g, workerBoot, sourceBoot)
    {
      if g.request !in records || g.id !in grants || grants[g.id].terminal { return false; }
      if g.evidence.epoch != epoch { return false; }
      var rec := records[g.request];
      if !rec.lifecycle.Active? && !rec.lifecycle.Dispatching? { return false; }
      if rec.current.None? || rec.current.value.id != g.id || rec.current.value.gen != g.gen { return false; }
      if rec.request.gen != g.requestGen || rec.request.collectiveGen != g.collectiveGen { return false; }
      var ok := CheckAuthority(g, workerBoot, sourceBoot);
      if !ok || !CanTransition(rec.lifecycle, Lifecycle.Completed) { return false; }
      RecordCompletion(g, workerBoot, sourceBoot);
      accepted := true;
    }

    method RecordCompletion(g: Grant, workerBoot: Id, sourceBoot: Id)
      requires CompletionAccepted(Abs(), g, workerBoot, sourceBoot)
      modifies this
      ensures Abs() == Steps.Complete(old(Abs()), g, workerBoot, sourceBoot)
    {
      var rec := records[g.request];
      grants := grants[g.id := Finish(grants[g.id]).(completedBy := workerBoot, completedBySource := sourceBoot)];
      activeByParticipant := RemoveUnder(activeByParticipant, g.participants, g.id);
      activeGrants := Decrement(activeGrants);
      records := records[g.request := rec.(lifecycle := Lifecycle.Completed,
                                           current := Some(rec.current.value.(active := false)))];
    }

    // ---- Scheduling ----

    /** The first loop of `schedule`: fresh readiness and lifecycle for every live record,
        and the candidates. Not ok as soon as a transition throws. */
    method RefreshAll() returns (ok: bool, candidates: set<Id>)
      modifies this`records
      ensures ok == !ScheduleThrows(old(Abs()))
      ensures ok ==> records == Refreshed(old(Abs())).records && candidates == Candidates(old(Abs()))
    {
      var s := Abs();
      var todo := records.Keys;
      candidates := {};
      while todo != {}
        invariant todo <= s.records.Keys && records.Keys == s.records.Keys
        invariant forall id | id in s.records && id !in todo ::
                    !RefreshThrows(s, s.records[id]) && records[id] == Refresh(s, s.records[id])
        invariant forall id | id in todo :: records[id] == s.records[id]
        invariant forall id :: id in candidates <==> id in s.records && id !in todo && IsCandidate(s, id)
        decreases |todo|
      {
        var id :| id in todo;
        var fine, q := RefreshOne(s, records[id]);
        if !fine { return false, {}; }
        if !Terminal(records[id].lifecycle) && q.hardEligible { candidates := candidates + {id}; }
        records := records[id := q];
        todo := todo - {id};
      }
      ok := true;
      assert forall id :: id in candidates <==> id in Candidates(s);
    }

    /** `promote_to_granted` and `create_grant` for one request. */
    method IssueGrant(id: Id, schedule: Id, scheduleGen: Gen) returns (gids: seq<Id>)
      requires id in records
      modifies this
      ensures Abs() == GrantOne(old(Abs()), id, schedule, scheduleGen)
      ensures gids == if Promotable(old(records)[id].lifecycle) then [old(counters).grant] else []
    {
      var cell := new LifecycleCell(records[id].lifecycle);
      var promoted := cell.Promote();
      if !promoted { return []; }
      var g := MakeGrant(Abs(), records[id].request, schedule, scheduleGen);
      records := records[id := records[id].(lifecycle := cell.state, current := Some(g))];
      grants := grants[g.id := GrantState(g, false, false, false, 0, 0)];
      counters := counters.(grant := counters.grant + 1, grantGen := counters.grantGen + 1);
      gids := [g.id];
    }

    method IssueGrants(ids: seq<Id>, schedule: Id, scheduleGen: Gen) returns (gids: seq<Id>)
      requires forall x | x in ids :: x in records
      modifies this
      ensures Abs() == GrantAll(old(Abs()), ids, schedule, scheduleGen)
      ensures gids == NewGrantIds(old(Abs()), ids, schedule, scheduleGen)
    {
      gids := [];
      ghost var s := Abs();
      var i := 0;
      while i < |ids|
        invariant 0 <= i <= |ids| && records.Keys == s.records.Keys
        invariant GrantAll(Abs(), ids[i..], schedule, scheduleGen) == GrantAll(s, ids, schedule, scheduleGen)
        invariant gids + NewGrantIds(Abs(), ids[i..], schedule, scheduleGen)
                  == NewGrantIds(s, ids, schedule, scheduleGen)
      {
        IssueOneMore(Abs(), ids, i, schedule, scheduleGen, gids);
        var more := IssueGrant(ids[i], schedule, scheduleGen);
        gids := gids + more;
        i := i + 1;
      }
    }

    /** Fairness bookkeeping for every candidate. */
    method AccountAll(candidates: set<Id>, selected: seq<Id>)
      modifies this`records
      ensures records == Accounted(old(Abs()), candidates, selected).records
    {
      ghost var was := records;
      var todo := candidates;
      while todo != {}
        invariant todo <= candidates && records.Keys == was.Keys
        invariant forall id | id in was ::
                    records[id] == if id in candidates - todo
                                   then was[id].(fairness := Account(was[id].fairness, id in selected, policy))
                                   else was[id]
        decreases |todo|
      {
        var id :| id in todo;
        todo := todo - {id};
        if id in records {
          records := records[id := records[id].(fairness := Account(records[id].fairness, id in selected, policy))];
        }
      }
    }

    /** Takes the decision's identity and refreshes all records. */
    method Prepare() returns (ok: bool, candidates: set<Id>)
      modifies this
      ensures ok == !ScheduleThrows(old(Abs()))
      ensures ok ==> Abs() == Prepared(old(Abs())) && candidates == Candidates(old(Abs()))
    {
      ok, candidates := RefreshAll();
      if ok { counters := counters.(schedule := counters.schedule + 1, scheduleGen := counters.scheduleGen + 1); }
    }

    /** Grants for the selected, the overlap group's identity, and the fairness accounts. */
    method Commit(candidates: set<Id>, selected: seq<Id>, schedule: Id, scheduleGen: Gen) returns (gids: seq<Id>)
      requires forall x | x in selected :: x in records
      modifies this
      ensures var t := GrantAll(old(Abs()), selected, schedule, scheduleGen);
              Abs() == Accounted(t.(counters := CountGroup(t.counters, selected)), candidates, selected)
      ensures gids == NewGrantIds(old(Abs()), selected, schedule, scheduleGen)
    {
      gids := IssueGrants(selected, schedule, scheduleGen);
      counters := CountGroup(counters, selected);
      AccountAll(candidates, selected);
    }

    /** `schedule`: None when a lifecycle transition throws on the way. */
    method Schedule() returns (d: Option<Decision>)
      requires NormalFootprints(Abs())
      modifies this
      ensures d.Some? <==> !ScheduleThrows(old(Abs()))
      ensures d.Some? ==> d.value == MakeDecision(old(Abs())) && Abs() == ScheduledState(old(Abs()))
    {
      ghost var s := Abs();
      var sid, sgen, at := counters.schedule, counters.scheduleGen, epoch;
      var ok, candidates := Prepare();
      if !ok { return None; }
      var ranked := RankCandidates(Abs(), candidates);
      RankingNamed(s, candidates, ranked);
      PreparedIsNormal(s);
      var selected := SelectGreedy(Abs(), ranked);
      var gids := Commit(candidates, selected, sid, sgen);
      var fallback := CollectFallback(ranked, selected);
      d := Some(Decision(sid, sgen, selected, gids, fallback, at));
    }

    // ---- Fencing and recovery ----

    method WithdrawReadiness(worker: Id, boot: Id)
      modifies this`participants
      ensures participants == Fence(old(Abs()), worker, boot).participants
    {
      ghost var was := participants;
      var todo := participants.Keys;
      while todo != {}
        invariant todo <= was.Keys && participants.Keys == was.Keys
        invariant forall p | p in was ::
                    participants[p] == if p !in todo then Withdrawn(was[p], worker, boot) else was[p]
        decreases |todo|
      {
        var p :| p in todo;
        todo := todo - {p};
        if OnBoot(participants[p], worker, boot) {
          participants := participants[p := Withdrawn(participants[p], worker, boot)];
        }
      }
      assert participants == Fence(old(Abs()), worker, boot).participants;
    }

    /** Whether some participant of the request runs on the fenced boot. */
    method RunsOn(req: Request, worker: Id, boot: Id) returns (hit: bool)
      ensures hit <==> exists p | p in req.participants :: p in participants && OnBoot(participants[p], worker, boot)
    {
      var i := 0;
      while i < |req.participants|
        invariant 0 <= i <= |req.participants|
        invariant forall k | 0 <= k < i ::
                    !(req.participants[k] in participants && OnBoot(participants[req.participants[k]], worker, boot))
      {
        if req.participants[i] in participants && OnBoot(participants[req.participants[i]], worker, boot) {
          assert req.participants[i] in req.participants;
          return true;
        }
        i := i + 1;
      }
      hit := false;
    }

    /** Takes the fenced record's authority and ends its grant. */
    method FenceOne(id: Id)
      requires id in records
      modifies this`records, this`grants, this`activeByParticipant
      ensures records == old(records)[id := Invalidated(old(records)[id])]
      ensures grants == if OnFile(old(Abs()), old(records)[id])
                        then Finished(old(Abs()), old(records)[id].current.value.id)
                        else old(grants)
      ensures activeByParticipant == if OnFile(old(Abs()), old(records)[id])
                                     then Unlisted(old(Abs()), old(records)[id].current.value.id)
                                     else old(activeByParticipant)
    {
      var rec := records[id];
      records := records[id := Invalidated(rec)];
      if rec.current.Some? && rec.current.value.id in grants { FinishGrant(rec.current.value.id); }
    }

    method FenceNext(id: Id, worker: Id, boot: Id, ghost s: State, ghost todo: set<Id>)
      requires id in todo && SameBoots(s, participants, worker, boot)
      requires FencingLeft(s, todo, worker, boot, records, grants, activeByParticipant)
      modifies this`records, this`grants, this`activeByParticipant
      ensures FencingLeft(s, todo - {id}, worker, boot, records, grants, activeByParticipant)
    {
      OneLess(s.records.Keys, todo, id);
      FenceOneMore(s, s.records.Keys - todo, worker, boot, id, records, grants, activeByParticipant);
      var hit := RunsOn(records[id].request, worker, boot);
      FencedNow(s, participants, worker, boot, id, hit);
      if hit && !Terminal(records[id].lifecycle) { FenceOne(id); }
    }

    method FenceRecords(worker: Id, boot: Id, ghost s: State)
      requires records == s.records && grants == s.grants && activeByParticipant == s.activeByParticipant
      requires SameBoots(s, participants, worker, boot)
      modifies this`records, this`grants, this`activeByParticipant
      ensures FencingLeft(s, {}, worker, boot, records, grants, activeByParticipant)
    {
      var todo := records.Keys;
      FenceStarts(s, worker, boot);
      while todo != {}
        invariant FencingLeft(s, todo, worker, boot, records, grants, activeByParticipant)
        decreases |todo|
      {
        var id :| id in todo;
        FenceNext(id, worker, boot, s, todo);
        todo := todo - {id};
      }
    }

    /** Participants first, then records and the grants of those that are hit. Acting once
        per record is the same as acting for each of its participants on the boot. */
    method FenceWorkerBoot(worker: Id, boot: Id)
      modifies this
      ensures Abs() == Fence(old(Abs()), worker, boot)
    {
      ghost var s := Abs();
      WithdrawReadiness(worker, boot);
      FenceRecords(worker, boot, s);
      FenceEnds(s, worker, boot);
    }

    method Recover()
      modifies this
      ensures Abs() == Steps.Recover(old(Abs()))
    {
      RecoverRecords();
      ForgetEvidence();
      ForgetLimits();
      ForgetGrants();
    }

    method ForgetGrants()
      modifies this
      ensures Abs() == old(Abs()).(participantRequests := map[], activeGrants := 0, grants := map[],
                                   activeByParticipant := map[])
    {
      participantRequests, activeGrants, grants, activeByParticipant := map[], 0, map[], map[];
    }

    method ForgetEvidence()
      modifies this
      ensures Abs() == old(Abs()).(participants := map[], plans := map[], deps := map[], reservations := map[],
                                   reservationGen := 0)
    {
      participants, plans, deps, reservations, reservationGen := map[], map[], map[], map[], 0;
    }

    method ForgetLimits()
      modifies this
      ensures Abs() == old(Abs()).(congestion := None, capacity := None, congestionGen := 0, capacityGen := 0)
    {
      congestion, capacity, congestionGen, capacityGen := None, None, 0, 0;
    }

    method RecoverRecords()
      modifies this`records
      ensures records == Steps.Recover(old(Abs())).records
    {
      ghost var was := records;
      var todo := records.Keys;
      while todo != {}
        invariant todo <= was.Keys && records.Keys == was.Keys
        invariant forall id | id in was :: records[id] == if id !in todo then Recovered(was[id]) else was[id]
        decreases |todo|
      {
        var id :| id in todo;
        todo := todo - {id};
        records := records[id := Recovered(records[id])];
      }
    }

    // ---- Saving and restoring ----

    /** `serializeState`, up to the bytes: the counters and every record once, in the order
        in which the map is walked. */
    method TakeSnapshot() returns (d: Image)
      requires forall id | id in records :: records[id].request.id == id
      ensures Snapshot(Abs(), d)
    {
      var rs: seq<SavedRecord> := [];
      var todo := records.Keys;
      while todo != {}
        invariant todo <= records.Keys && |rs| + |todo| == |records|
        invariant forall i, j | 0 <= i < j < |rs| :: rs[i].request.id != rs[j].request.id
        invariant forall r | r in rs :: r.request.id in records.Keys - todo && r == SavedForm(records[r.request.id])
        invariant forall id | id in records && id !in todo :: SavedForm(records[id]) in rs
        decreases |todo|
      {
        var id :| id in todo;
        todo := todo - {id};
        rs := rs + [SavedForm(records[id])];
      }
      d := Image(epoch, counters, policyGen, rs);
    }

    /** `deserializeState`, once the image has been read. */
    method LoadImage(d: Image)
      modifies this
      ensures Abs() == Load(old(Abs()), d)
    {
      LoadRecords(d.records);
      epoch, counters, policyGen := d.epoch, d.counters, d.policyGen;
      grants, activeByParticipant, activeGrants := map[], map[], 0;
    }

    method LoadRecords(rs: seq<SavedRecord>)
      modifies this`records, this`participantRequests
      ensures records == LoadedRecords(rs) && participantRequests == LoadedIndex(rs)
    {
      records, participantRequests := map[], map[];
      var i := 0;
      while i < |rs|
        invariant 0 <= i <= |rs|
        invariant records == LoadedRecords(rs[..i]) && participantRequests == LoadedIndex(rs[..i])
      {
        assert rs[..i + 1][..i] == rs[..i] && rs[..i + 1] == rs[..i] + [rs[i]];
        LoadedOneMore(rs[..i], rs[i]);
        participantRequests := InsertUnder(participantRequests, rs[i].request.participants, rs[i].request.id);
        if rs[i].request.id !in records { records := records[rs[i].request.id := LoadedRecord(rs[i])]; }
        i := i + 1;
      }
      assert rs[..i] == rs;
    }

    method Restore(f: Doubles, bytes: seq<byte>) returns (ok: bool)
      modifies this
      ensures P.Outcome(Abs(), ok) == P.RestoreFrom(f, old(Abs()), bytes)
    {
      var genuine := P.CheckImage(bytes);
      if !genuine { return false; }
      var d, leftOver := P.ReadImage(f, bytes, policy.bounds.maxHistoryRecords);
      if d.None? { return false; }
      LoadImage(d.value);
      if leftOver { return false; }
      Recover();
      ok := true;
    }
  }

  ghost predicate IsCandidate(s: State, id: Id) {
    && id in s.records && !Terminal(s.records[id].lifecycle) && !RefreshThrows(s, s.records[id])
    && Refresh(s, s.records[id]).hardEligible
  }

  lemma RankingNamed(s: State, candidates: set<Id>, ranked: seq<Id>)
    requires !ScheduleThrows(s) && candidates == Candidates(s) && ranked == Ranked(Prepared(s), candidates)
    ensures ranked == Ranking(s) && forall x | x in ranked :: x in Prepared(s).records
  {
  }

  // ---- The fence loop ----

  function Withdrawn(p: Participant, worker: Id, boot: Id): Participant {
    if OnBoot(p, worker, boot) then p.(ready := false, readinessSource := PROVENANCE_UNKNOWN) else p
  }

  /** The grants finished once the records in `done` have been handled. */
  ghost function FencedAmong(s: State, done: set<Id>, worker: Id, boot: Id): set<Id> {
    set id | id in s.records && id in done && Fenced(s, s.records[id], worker, boot)
             && s.records[id].current.Some? && s.records[id].current.value.id in s.grants
           :: s.records[id].current.value.id
  }

  /** Issuing the next grant and then the rest is issuing from here on. */
  lemma IssueOneMore(s: State, ids: seq<Id>, i: nat, sid: Id, sgen: Gen, gids: seq<Id>)
    requires i < |ids| && forall x | x in ids :: x in s.records
    ensures var t := GrantOne(s, ids[i], sid, sgen);
            var more := if Promotable(s.records[ids[i]].lifecycle) then [s.counters.grant] else [];
            && GrantAll(t, ids[i + 1..], sid, sgen) == GrantAll(s, ids[i..], sid, sgen)
            && gids + more + NewGrantIds(t, ids[i + 1..], sid, sgen) == gids + NewGrantIds(s, ids[i..], sid, sgen)
  {
    assert ids[i..][0] == ids[i] && ids[i..][1..] == ids[i + 1..];
    GrantsFrom(s, ids[i..], sid, sgen);
    var more := if Promotable(s.records[ids[i]].lifecycle) then [s.counters.grant] else [];
    Regrouped(gids, more, NewGrantIds(GrantOne(s, ids[i], sid, sgen), ids[i + 1..], sid, sgen));
  }

  lemma GrantsFrom(s: State, ids: seq<Id>, sid: Id, sgen: Gen)
    requires ids != [] && forall x | x in ids :: x in s.records
    ensures var t := GrantOne(s, ids[0], sid, sgen);
            && GrantAll(s, ids, sid, sgen) == GrantAll(t, ids[1..], sid, sgen)
            && NewGrantIds(s, ids, sid, sgen)
               == (if Promotable(s.records[ids[0]].lifecycle) then [s.counters.grant] else [])
                  + NewGrantIds(t, ids[1..], sid, sgen)
  {
  }

  lemma Regrouped(a: seq<Id>, b: seq<Id>, c: seq<Id>)
    ensures a + b + c == a + (b + c)
  {
  }

  ghost function FencedRecords(s: State, done: set<Id>, worker: Id, boot: Id): map<Id, Record> {
    map id | id in s.records ::
      if id in done && Fenced(s, s.records[id], worker, boot) then Invalidated(s.records[id]) else s.records[id]
  }

  ghost function FinishedAll(grants: map<Id, GrantState>, gone: set<Id>): map<Id, GrantState> {
    map x | x in grants :: if x in gone then Finish(grants[x]) else grants[x]
  }

  lemma OneLess(all: set<Id>, todo: set<Id>, id: Id)
    requires todo <= all && id in todo
    ensures all - (todo - {id}) == (all - todo) + {id}
  {
  }

  lemma FenceStarts(s: State, worker: Id, boot: Id)
    ensures FencingLeft(s, s.records.Keys, worker, boot, s.records, s.grants, s.activeByParticipant)
  {
    assert s.records.Keys - s.records.Keys == {};
    assert FencedAmong(s, {}, worker, boot) == {};
    var idx := s.activeByParticipant;
    var r := IndexWithout(idx, s.grants, {});
    assert r.Keys == idx.Keys;
    forall k | k in idx ensures r[k] == idx[k] {
      assert forall y :: Listed(r, k, y) <==> Listed(idx, k, y);
    }
  }

  lemma FenceEnds(s: State, worker: Id, boot: Id)
    ensures s.records.Keys - {} == s.records.Keys
    ensures FencedAmong(s, s.records.Keys, worker, boot) == FencedGrants(s, worker, boot)
    ensures FencedRecords(s, s.records.Keys, worker, boot) == Fence(s, worker, boot).records
    ensures FinishedAll(s.grants, FencedGrants(s, worker, boot)) == Fence(s, worker, boot).grants
  {
  }

  /** The same participants run on the fenced boot. */
  ghost predicate SameBoots(s: State, ps: map<Id, Participant>, worker: Id, boot: Id) {
    ps.Keys == s.participants.Keys
    && forall p | p in ps :: OnBoot(ps[p], worker, boot) == OnBoot(s.participants[p], worker, boot)
  }

  lemma FencedNow(s: State, ps: map<Id, Participant>, worker: Id, boot: Id, id: Id, hit: bool)
    requires id in s.records && SameBoots(s, ps, worker, boot)
    requires hit <==> exists p | p in s.records[id].request.participants :: p in ps && OnBoot(ps[p], worker, boot)
    ensures hit && !Terminal(s.records[id].lifecycle) <==> Fenced(s, s.records[id], worker, boot)
  {
  }

  /** The tables once the records in `done` have been handled. */
  ghost predicate FencedSoFar(s: State, done: set<Id>, worker: Id, boot: Id,
                              recs: map<Id, Record>, gs: map<Id, GrantState>, idx: Index) {
    && recs == FencedRecords(s, done, worker, boot)
    && gs == FinishedAll(s.grants, FencedAmong(s, done, worker, boot))
    && idx == IndexWithout(s.activeByParticipant, s.grants, FencedAmong(s, done, worker, boot))
  }

  /** The tables while the records in `todo` are still to be handled. */
  ghost predicate FencingLeft(s: State, todo: set<Id>, worker: Id, boot: Id,
                              recs: map<Id, Record>, gs: map<Id, GrantState>, idx: Index) {
    todo <= s.records.Keys && FencedSoFar(s, s.records.Keys - todo, worker, boot, recs, gs, idx)
  }

  /** Handling one more record, hit or not. */
  lemma FenceOneMore(s: State, done: set<Id>, worker: Id, boot: Id, id: Id,
                     recs: map<Id, Record>, gs: map<Id, GrantState>, idx: Index)
    requires id in s.records && id !in done && FencedSoFar(s, done, worker, boot, recs, gs, idx)
    ensures id in recs && recs[id] == s.records[id]
    ensures !Fenced(s, s.records[id], worker, boot) ==> FencedSoFar(s, done + {id}, worker, boot, recs, gs, idx)
    ensures Fenced(s, s.records[id], worker, boot) ==>
              var r := recs[id];
              if r.current.Some? && r.current.value.id in gs
              then FencedSoFar(s, done + {id}, worker, boot, recs[id := Invalidated(r)],
                               gs[r.current.value.id := Finish(gs[r.current.value.id])],
                               IndexRemove(idx, gs[r.current.value.id].grant.participants, r.current.value.id))
              else FencedSoFar(s, done + {id}, worker, boot, recs[id := Invalidated(r)], gs, idx)
  {
    var r, gone := s.records[id], FencedAmong(s, done, worker, boot);
    FencedSetGrows(s, done, worker, boot, id);
    FencedRecordsGrow(s, done, worker, boot, id);
    assert gs.Keys == s.grants.Keys && forall x | x in gs :: gs[x].grant == s.grants[x].grant;
    if Fenced(s, r, worker, boot) {
      if OnFile(s, r) {
        IndexWithoutOneMore(s.activeByParticipant, s.grants, gone, r.current.value.id);
        FinishedOneMore(s.grants, gone, r.current.value.id);
      } else {
        assert FencedAmong(s, done + {id}, worker, boot) == gone;
      }
    } else {
      assert FencedAmong(s, done + {id}, worker, boot) == gone;
    }
  }

  lemma FinishedOneMore(grants: map<Id, GrantState>, gone: set<Id>, x: Id)
    requires x in grants
    ensures FinishedAll(grants, gone + {x}) == FinishedAll(grants, gone)[x := Finish(FinishedAll(grants, gone)[x])]
  {
  }

  lemma FencedSetGrows(s: State, done: set<Id>, worker: Id, boot: Id, id: Id)
    requires id in s.records
    ensures var r := s.records[id];
            FencedAmong(s, done + {id}, worker, boot) ==
              FencedAmong(s, done, worker, boot)
              + (if Fenced(s, r, worker, boot) && OnFile(s, r) then {r.current.value.id} else {})
  {
  }

  lemma FencedRecordsGrow(s: State, done: set<Id>, worker: Id, boot: Id, id: Id)
    requires id in s.records && id !in done
    ensures var r := s.records[id];
            FencedRecords(s, done + {id}, worker, boot) ==
              if Fenced(s, r, worker, boot) then FencedRecords(s, done, worker, boot)[id := Invalidated(r)]
              else FencedRecords(s, done, worker, boot)
  {
  }

  lemma IndexWithoutOneMore(idx: Index, grants: map<Id, GrantState>, gone: set<Id>, x: Id)
    requires gone <= grants.Keys && x in grants
    ensures IndexWithout(idx, grants, gone + {x})
              == IndexRemove(IndexWithout(idx, grants, gone), grants[x].grant.participants, x)
  {
    var a := IndexWithout(idx, grants, gone + {x});
    var b := IndexWithout(idx, grants, gone);
    var c := IndexRemove(b, grants[x].grant.participants, x);
    assert forall k, y :: Listed(a, k, y) <==> Listed(c, k, y);
    forall k ensures k in a <==> k in c { SameKey(idx, grants, gone, x, k); }
    forall k | k in a ensures a[k] == c[k] {
      assert forall y :: y in a[k] <==> Listed(a, k, y);
      assert forall y :: y in c[k] <==> Listed(c, k, y);
    }
  }

  /** A key survives both ways of removing, or neither. */
  lemma SameKey(idx: Index, grants: map<Id, GrantState>, gone: set<Id>, x: Id, k: Id)
    requires gone <= grants.Keys && x in grants
    ensures k in IndexWithout(idx, grants, gone + {x})
            <==> k in IndexRemove(IndexWithout(idx, grants, gone), grants[x].grant.participants, x)
  {
    var b := IndexWithout(idx, grants, gone);
    if k in idx {
      var kept := set y | y in idx[k] && !(y in gone && k in grants[y].grant.participants);
      var left := set y | y in idx[k] && !(y in gone + {x} && k in grants[y].grant.participants);
      if k in grants[x].grant.participants {
        assert left == kept - {x};
        assert k in b ==> b[k] == kept;
      } else {
        assert left == kept;
        assert (exists y | y in gone + {x} :: k in grants[y].grant.participants)
            <==> (exists y | y in gone :: k in grants[y].grant.participants);
      }
    }
  }

  predicate BootsOf(s: State, p: Id, workerBoot: Id, sourceBoot: Id) {
    p in s.participants && s.participants[p].workerBoot == workerBoot && s.participants[p].sourceBoot == sourceBoot
  }
}
