/** What each answer about readiness means, over the published evidence, and what it does to
    a record in the next decision. */
module Answers {
  import opened Types
  import opened Lifecycles
  import opened States
  import opened Steps
  import opened Invariants
  import opened Selection
  import opened Decisions

  // ---- One piece of evidence ----

  /** Published at another generation than the request names, or not usable as published. */
  ghost predicate ParticipantElsewhere(s: State, req: Request, i: nat)
    requires i < |req.participants| == |req.participantGens|
  {
    var p := req.participants[i];
    p in s.participants && s.participants[p].gen != req.participantGens[i]
  }

  ghost predicate ParticipantAbsent(s: State, req: Request, i: nat)
    requires i < |req.participants|
  {
    var p := req.participants[i];
    p !in s.participants || !s.participants[p].ready || s.participants[p].readinessSource == PROVENANCE_UNKNOWN
  }

  ghost predicate SomeElsewhere(s: State, req: Request)
    requires WellFormed(req)
  {
    exists i | 0 <= i < |req.participants| :: ParticipantElsewhere(s, req, i)
  }

  ghost predicate SomeAbsent(s: State, req: Request) {
    exists i | 0 <= i < |req.participants| :: ParticipantAbsent(s, req, i)
  }

  ghost predicate PlanElsewhere(s: State, req: Request) {
    req.plan in s.plans && s.plans[req.plan].gen != req.planGen
  }

  ghost predicate PlanAbsent(s: State, req: Request) { req.plan !in s.plans || !s.plans[req.plan].valid }

  ghost predicate DependencyElsewhere(s: State, d: DependencyRequirement) {
    d.id in s.deps && s.deps[d.id].gen != d.gen
  }

  ghost predicate DependencyAbsent(s: State, d: DependencyRequirement) {
    d.id !in s.deps || !s.deps[d.id].satisfied
  }

  ghost predicate ReservationElsewhere(s: State, req: Request) {
    req.reservation.Some? && req.reservation.value != s.reservationGen
  }

  ghost predicate ReservationAbsent(s: State, req: Request) {
    req.reservation.Some?
    && (req.reservation.value !in s.reservations || !s.reservations[req.reservation.value].valid)
  }

  ghost predicate Congested(s: State) {
    && s.congestion.Some? && s.congestion.value.hardCeiling
    && s.congestion.value.utilization >= s.congestion.value.hardCeilingUtilization
  }

  ghost predicate ShortOfCapacity(s: State, req: Request) {
    s.capacity.Some? && Demand(req.claims) > s.capacity.value.usable
  }

  /** Demand is what the claims add up to. */
  lemma {:induction false} DemandAdds(a: seq<ResourceClaim>, b: seq<ResourceClaim>)
    ensures Demand(a + b) == Demand(a) + Demand(b)
    ensures |a| == 1 ==> Demand(a) == a[0].units
    ensures a == [] ==> Demand(a) == 0.0
  {
    if a == [] {
      assert a + b == b;
    } else {
      assert (a + b)[0] == a[0] && (a + b)[1..] == a[1..] + b;
      DemandAdds(a[1..], b);
    }
  }

  // ---- The first piece of evidence not in order ----

  ghost predicate ParticipantsInOrder(s: State, req: Request)
    requires WellFormed(req)
  {
    !SomeElsewhere(s, req) && !SomeAbsent(s, req)
  }

  ghost predicate PlanInOrder(s: State, req: Request)
    requires WellFormed(req)
  {
    ParticipantsInOrder(s, req) && !PlanElsewhere(s, req) && !PlanAbsent(s, req)
  }

  ghost predicate DependencyInOrder(s: State, d: DependencyRequirement) {
    !DependencyElsewhere(s, d) && !DependencyAbsent(s, d)
  }

  /** The `k`-th dependency is the first that is not in order. */
  ghost predicate FirstFault(s: State, ds: seq<DependencyRequirement>, k: nat) {
    k < |ds| && !DependencyInOrder(s, ds[k]) && forall i | 0 <= i < k :: DependencyInOrder(s, ds[i])
  }

  ghost predicate DependenciesInOrder(s: State, req: Request)
    requires WellFormed(req)
  {
    PlanInOrder(s, req) && forall d | d in req.dependencies :: DependencyInOrder(s, d)
  }

  ghost predicate ReservationInOrder(s: State, req: Request)
    requires WellFormed(req)
  {
    DependenciesInOrder(s, req) && !ReservationElsewhere(s, req) && !ReservationAbsent(s, req)
  }

  ghost predicate DependencyIsStale(s: State, ds: seq<DependencyRequirement>) {
    exists k: nat :: FirstFault(s, ds, k) && DependencyElsewhere(s, ds[k])
  }

  ghost predicate DependencyIsMissing(s: State, ds: seq<DependencyRequirement>) {
    exists k: nat :: FirstFault(s, ds, k) && !DependencyElsewhere(s, ds[k])
  }

  /** The first evidence not in order is one published at another generation. */
  ghost predicate FirstIsElsewhere(s: State, req: Request)
    requires WellFormed(req)
  {
    || SomeElsewhere(s, req)
    || (ParticipantsInOrder(s, req) && PlanElsewhere(s, req))
    || (PlanInOrder(s, req) && DependencyIsStale(s, req.dependencies))
    || (DependenciesInOrder(s, req) && ReservationElsewhere(s, req))
  }

  // ---- The answers ----

  lemma ParticipantsSurveyed(s: State, req: Request)
    requires WellFormed(req)
    ensures AnyParticipantStale(s, req.participants, req.participantGens) <==> SomeElsewhere(s, req)
    ensures !ParticipantsAvailable(s, req.participants) <==> SomeAbsent(s, req)
  {
    forall i | 0 <= i < |req.participants|
      ensures ParticipantElsewhere(s, req, i) <==>
              req.participants[i] in s.participants && !GenerationCurrent(s, req.participants, req.participantGens, i)
    {
    }
    if SomeAbsent(s, req) {
      var i :| 0 <= i < |req.participants| && ParticipantAbsent(s, req, i);
      assert req.participants[i] in req.participants;
    }
    if !ParticipantsAvailable(s, req.participants) {
      var p :| p in req.participants && !(p in s.participants && Available(s.participants[p]));
      var i :| 0 <= i < |req.participants| && req.participants[i] == p;
      assert ParticipantAbsent(s, req, i);
    }
  }

  lemma FaultMovesUp(s: State, ds: seq<DependencyRequirement>, k: nat)
    requires ds != [] && DependencyInOrder(s, ds[0])
    ensures FirstFault(s, ds[1..], k) <==> FirstFault(s, ds, k + 1)
  {
    if FirstFault(s, ds[1..], k) {
      forall i | 0 <= i < k + 1 ensures DependencyInOrder(s, ds[i]) {
        if i > 0 { assert DependencyInOrder(s, ds[1..][i - 1]); }
      }
    }
    if FirstFault(s, ds, k + 1) {
      forall i | 0 <= i < k ensures DependencyInOrder(s, ds[1..][i]) { assert DependencyInOrder(s, ds[i + 1]); }
    }
  }

  lemma FaultsMoveUp(s: State, ds: seq<DependencyRequirement>)
    requires ds != [] && DependencyInOrder(s, ds[0])
    ensures DependencyIsStale(s, ds) <==> DependencyIsStale(s, ds[1..])
    ensures DependencyIsMissing(s, ds) <==> DependencyIsMissing(s, ds[1..])
  {
    forall k: nat ensures FirstFault(s, ds[1..], k) <==> FirstFault(s, ds, k + 1) { FaultMovesUp(s, ds, k); }
    assert !FirstFault(s, ds, 0);
    if DependencyIsStale(s, ds) {
      var k: nat :| FirstFault(s, ds, k) && DependencyElsewhere(s, ds[k]);
      assert FirstFault(s, ds[1..], k - 1) && ds[1..][k - 1] == ds[k];
    }
    if DependencyIsMissing(s, ds) {
      var k: nat :| FirstFault(s, ds, k) && !DependencyElsewhere(s, ds[k]);
      assert FirstFault(s, ds[1..], k - 1) && ds[1..][k - 1] == ds[k];
    }
    if DependencyIsStale(s, ds[1..]) {
      var k: nat :| FirstFault(s, ds[1..], k) && DependencyElsewhere(s, ds[1..][k]);
      assert FirstFault(s, ds, k + 1) && ds[k + 1] == ds[1..][k];
    }
    if DependencyIsMissing(s, ds[1..]) {
      var k: nat :| FirstFault(s, ds[1..], k) && !DependencyElsewhere(s, ds[1..][k]);
      assert FirstFault(s, ds, k + 1) && ds[k + 1] == ds[1..][k];
    }
  }

  lemma FirstIsFault(s: State, ds: seq<DependencyRequirement>)
    requires ds != [] && !DependencyInOrder(s, ds[0])
    ensures DependencyIsStale(s, ds) <==> DependencyElsewhere(s, ds[0])
    ensures DependencyIsMissing(s, ds) <==> !DependencyElsewhere(s, ds[0])
  {
    assert FirstFault(s, ds, 0);
    forall k: nat | FirstFault(s, ds, k) ensures k == 0 {}
  }

  lemma {:induction false} DependenciesSurveyed(s: State, ds: seq<DependencyRequirement>)
    ensures DependencyReadiness(s, ds).Ready? <==> forall d | d in ds :: DependencyInOrder(s, d)
    ensures DependencyReadiness(s, ds).StaleEvidence? <==> DependencyIsStale(s, ds)
    ensures DependencyReadiness(s, ds).WaitingDependency? <==> DependencyIsMissing(s, ds)
    ensures DependencyReadiness(s, ds) in {Readiness.Ready, StaleEvidence, WaitingDependency}
  {
    if ds != [] {
      assert ds == [ds[0]] + ds[1..] && ds[0] in ds;
      if DependencyInOrder(s, ds[0]) {
        DependenciesSurveyed(s, ds[1..]);
        FaultsMoveUp(s, ds);
      } else {
        FirstIsFault(s, ds);
      }
    }
  }

  /** STALE: the first evidence not in order, in the order participants, plan, dependencies,
      reservation, is published at another generation than the request names. */
  lemma StaleIff(s: State, req: Request)
    requires WellFormed(req)
    ensures ComputeReadiness(s, req).StaleEvidence? <==> FirstIsElsewhere(s, req)
  {
    ParticipantsSurveyed(s, req);
    DependenciesSurveyed(s, req.dependencies);
  }

  /** The waiting and blocked answers: the first evidence not in order is missing, not ready,
      invalid or not enough. */
  lemma WaitingIff(s: State, req: Request)
    requires WellFormed(req)
    ensures var rd := ComputeReadiness(s, req);
            && (rd.WaitingParticipant? <==> !SomeElsewhere(s, req) && SomeAbsent(s, req))
            && (rd.WaitingPlan? <==> ParticipantsInOrder(s, req) && !PlanElsewhere(s, req) && PlanAbsent(s, req))
            && (rd.WaitingDependency? <==> PlanInOrder(s, req) && DependencyIsMissing(s, req.dependencies))
            && (rd.WaitingReservation? <==>
                  DependenciesInOrder(s, req) && !ReservationElsewhere(s, req) && ReservationAbsent(s, req))
            && (rd.BlockedCongestion? <==> ReservationInOrder(s, req) && Congested(s))
            && (rd.WaitingCapacity? <==> ReservationInOrder(s, req) && !Congested(s) && ShortOfCapacity(s, req))
  {
    ParticipantsSurveyed(s, req);
    DependenciesSurveyed(s, req.dependencies);
  }

  /** There are no other answers. */
  lemma NoOtherAnswer(s: State, req: Request)
    ensures ComputeReadiness(s, req) in {Readiness.Ready, StaleEvidence, WaitingParticipant, WaitingPlan,
                                         WaitingDependency, WaitingReservation, BlockedCongestion, WaitingCapacity}
  {
    DependenciesSurveyed(s, req.dependencies);
  }

  /** All the evidence is in order, and there is enough of everything. */
  ghost predicate InOrder(s: State, req: Request)
    requires WellFormed(req)
  {
    ReservationInOrder(s, req) && !Congested(s) && !ShortOfCapacity(s, req)
  }

  lemma ReadyIff(s: State, req: Request)
    requires WellFormed(req)
    ensures ComputeReadiness(s, req).Ready? <==> InOrder(s, req)
  {
    ParticipantsSurveyed(s, req);
    DependenciesSurveyed(s, req.dependencies);
  }

  // ---- Who can be scheduled ----

  /** Now is a time to start at which the request would end before its deadline. */
  ghost predicate InTime(s: State, w: Window) {
    w.earliest <= s.now && (w.latest == 0 || s.now <= w.latest)
    && (w.deadline == 0 || s.now + w.expectedDuration <= w.deadline)
  }

  /** The candidates, over the fields: not granted yet, evidence in order, in time, and with
      an execution authority. */
  lemma CandidateIff(s: State, id: Id)
    requires Inv(s) && !ScheduleThrows(s) && id in s.records
    ensures WellFormed(s.records[id].request)
    ensures id in Candidates(s) <==>
            && (s.records[id].lifecycle.Declared? || s.records[id].lifecycle.Waiting? || s.records[id].lifecycle.Ready?)
            && InOrder(s, s.records[id].request) && InTime(s, s.records[id].request.window)
            && s.records[id].request.workloadGen != 0
  {
    var req := s.records[id].request;
    assert RecordOk(s, id);
    ReadyIff(s, req);
    ReadyMeansAuthority(s, req);
    if id in Candidates(s) {
      CandidateIsAuthorized(s, id);
      PreparedRecordFacts(s, id);
    } else if Ungranted(s.records[id].lifecycle) && InOrder(s, req) && InTime(s, req.window) && req.workloadGen != 0 {
      AuthorizedIsCandidate(s, id);
    }
  }

  /** Given fresh readiness, `hard_eligible` has one of three reasons against a request. */
  lemma RejectionIs(s: State, req: Request)
    requires WellFormed(req)
    ensures var rd := ComputeReadiness(s, req);
            HardRejection(s, rd, req)
              == if rd.StaleEvidence? then Some(StaleCollectiveGeneration)
                 else if rd.BlockedCongestion? then Some(HardCongestionCeiling)
                 else if !InOrder(s, req) then Some(UnknownRejection)
                 else if !InTime(s, req.window) then Some(InvalidWindow)
                 else if req.workloadGen == 0 then Some(NoExecutionAuthority) else None
  {
    ReadyIff(s, req);
    NoOtherAnswer(s, req);
    ReadyMeansAuthority(s, req);
    ParticipantsAccepted(s, req.participants, req.participantGens);
  }

  // ---- What a decision makes of a record that is not selected ----

  ghost predicate NotGranted(l: Lifecycle) { l.Declared? || l.Waiting? || l.Ready? }

  lemma DerivedAnswers(s: State, r: Record)
    requires WellFormed(r.request) && NotGranted(r.lifecycle)
    ensures var d := Derived(r.lifecycle, ComputeReadiness(s, r.request));
            && d.Some? && (NotGranted(d.value) || d.value.RevalidationRequired?)
            && (d.value.RevalidationRequired? <==> !r.lifecycle.Declared? && FirstIsElsewhere(s, r.request))
            && (d.value.Ready? <==>
                  if r.lifecycle.Ready? then !FirstIsElsewhere(s, r.request) else InOrder(s, r.request))
            && !d.value.Declared?
  {
    StaleIff(s, r.request);
    ReadyIff(s, r.request);
  }

  /** After a decision a record that was not granted before is GRANTED if selected. If not, it
      needs revalidation exactly if the first evidence not in order is published at another
      generation and the record is not new; it is READY exactly if its evidence is in order,
      or it was READY and nothing made it stale; and WAITING otherwise. */
  lemma UngrantedAfterSchedule(s: State, id: Id)
    requires Inv(s) && !ScheduleThrows(s) && id in s.records && NotGranted(s.records[id].lifecycle)
    ensures id in ScheduledState(s).records && WellFormed(s.records[id].request)
    ensures var l, req, was := ScheduledState(s).records[id].lifecycle, s.records[id].request, s.records[id].lifecycle;
            && (l.Granted? <==> id in Selected(s))
            && (id !in Selected(s) ==>
                  && (l.RevalidationRequired? <==> !was.Declared? && FirstIsElsewhere(s, req))
                  && (l.Ready? <==> if was.Ready? then !FirstIsElsewhere(s, req) else InOrder(s, req))
                  && (l.Waiting? <==> !l.RevalidationRequired? && !l.Ready?))
  {
    assert RecordOk(s, id);
    ScheduledRecord(s, id);
    DerivedAnswers(s, s.records[id]);
  }

  /** Nothing the request needs is published at another generation than it names. */
  ghost predicate NothingElsewhere(s: State, req: Request)
    requires WellFormed(req)
  {
    && !SomeElsewhere(s, req) && !PlanElsewhere(s, req) && !ReservationElsewhere(s, req)
    && (forall d | d in req.dependencies :: !DependencyElsewhere(s, d))
  }

  /** Then no decision takes the request out of play. */
  lemma ScheduleKeepsInPlay(s: State, id: Id)
    requires Inv(s) && !ScheduleThrows(s) && id in s.records && NotGranted(s.records[id].lifecycle)
    requires WellFormed(s.records[id].request) && NothingElsewhere(s, s.records[id].request)
    ensures id in ScheduledState(s).records
    ensures NotGranted(ScheduledState(s).records[id].lifecycle) || ScheduledState(s).records[id].lifecycle.Granted?
  {
    UngrantedAfterSchedule(s, id);
    NoneIsStale(s, s.records[id].request.dependencies);
  }

  lemma NoneIsStale(s: State, ds: seq<DependencyRequirement>)
    requires forall d | d in ds :: !DependencyElsewhere(s, d)
    ensures !DependencyIsStale(s, ds)
  {
    forall k: nat | FirstFault(s, ds, k) ensures !DependencyElsewhere(s, ds[k]) { assert ds[k] in ds; }
  }

  /** The record is WAITING, and lacks nothing but capacity. */
  ghost predicate LacksCapacity(s: State, id: Id) {
    && id in s.records && s.records[id].lifecycle.Waiting? && WellFormed(s.records[id].request)
    && ReservationInOrder(s, s.records[id].request) && !Congested(s) && ShortOfCapacity(s, s.records[id].request)
    && InTime(s, s.records[id].request.window) && s.records[id].request.workloadGen != 0
  }

  /** It is still WAITING after a decision. */
  lemma StillWaiting(s: State, id: Id)
    requires Inv(s) && !ScheduleThrows(s) && LacksCapacity(s, id)
    ensures LacksCapacity(ScheduledState(s), id)
    ensures ScheduledState(s).records[id].request == s.records[id].request
  {
    CandidateIff(s, id);
    SelectedFacts(s);
    UngrantedAfterSchedule(s, id);
    ScheduledRecord(s, id);
    ScheduleTouchesOnly(s);
    OnlyCapacityChanged(s, ScheduledState(s), s.records[id].request);
  }

  lemma EnoughCapacity(s: State, id: Id, c: Capacity)
    requires Inv(s) && LacksCapacity(s, id)
    requires s.capacity.value.gen <= c.gen && Demand(s.records[id].request.claims) <= c.usable
    ensures var t := PublishCapacity(s, c); Inv(t) && !ScheduleThrows(t) && id in Candidates(t)
  {
    var t := PublishCapacity(s, c);
    EvidenceKeeps(s, t);
    ScheduleNeverThrows(t);
    OnlyCapacityChanged(s, t, s.records[id].request);
    CandidateIff(t, id);
  }

  /** And it is a candidate once enough capacity has been published. */
  lemma CapacityFreesTheRequest(s: State, id: Id, c: Capacity)
    requires Inv(s) && !ScheduleThrows(s) && LacksCapacity(s, id)
    requires s.capacity.value.gen <= c.gen && Demand(s.records[id].request.claims) <= c.usable
    ensures LacksCapacity(ScheduledState(s), id)
    ensures var t := PublishCapacity(ScheduledState(s), c); Inv(t) && !ScheduleThrows(t) && id in Candidates(t)
  {
    StillWaiting(s, id);
    ScheduleKeeps(s);
    ScheduleTouchesOnly(s);
    EnoughCapacity(ScheduledState(s), id, c);
  }

  lemma OnlyCapacityChanged(s: State, t: State, req: Request)
    requires WellFormed(req) && t.participants == s.participants && t.plans == s.plans && t.deps == s.deps
    requires t.reservations == s.reservations && t.reservationGen == s.reservationGen && t.congestion == s.congestion
    ensures ReservationInOrder(t, req) <==> ReservationInOrder(s, req)
    ensures Congested(t) <==> Congested(s)
  {
    assert forall i | 0 <= i < |req.participants| ::
        (ParticipantElsewhere(t, req, i) <==> ParticipantElsewhere(s, req, i))
        && (ParticipantAbsent(t, req, i) <==> ParticipantAbsent(s, req, i));
    assert forall d | d in req.dependencies :: DependencyInOrder(t, d) <==> DependencyInOrder(s, d);
  }
}
