/** Stale grants stay stale: once any generation a grant was issued under has moved on,
    the grant never revalidates again, short of a recovery that forgets the evidence. */
module Staleness {
  import opened Types
  import opened States
  import opened Steps
  import opened Invariants
  import opened Selection
  import opened Decisions
  import opened Runs

  // ---- Published generations never go back ----

  ghost predicate EvidenceAdvances(s: State, t: State) {
    && (forall p | p in s.plans :: p in t.plans && s.plans[p].gen <= t.plans[p].gen)
    && (forall d | d in s.deps :: d in t.deps && s.deps[d].gen <= t.deps[d].gen)
    && (forall p | p in s.participants :: p in t.participants && s.participants[p].gen <= t.participants[p].gen)
    && s.congestionGen <= t.congestionGen && (s.congestion.Some? ==> t.congestion.Some?)
  }

  lemma EvidenceStepAdvances(s: State, ev: EvidenceStep)
    requires CongestionOk(s)
    ensures EvidenceAdvances(s, EvidenceState(s, ev))
  {
    match ev
    case DoPublishPlan(p) => PlanAdvances(s, p);
    case DoPublishDependency(d) => DependencyAdvances(s, d);
    case DoPublishCongestion(c) => CongestionAdvances(s, c);
    case _ => SameEvidenceAdvances(s, EvidenceState(s, ev));
  }

  lemma PlanAdvances(s: State, p: Plan)
    ensures EvidenceAdvances(s, PublishPlan(s, p))
  {
  }

  lemma DependencyAdvances(s: State, d: Dependency)
    ensures EvidenceAdvances(s, PublishDependency(s, d))
  {
  }

  lemma CongestionAdvances(s: State, c: Congestion)
    requires CongestionOk(s)
    ensures EvidenceAdvances(s, PublishCongestion(s, c))
  {
  }

  lemma SameEvidenceAdvances(s: State, t: State)
    requires t.plans == s.plans && t.deps == s.deps && t.participants == s.participants
    requires t.congestion == s.congestion && t.congestionGen == s.congestionGen
    ensures EvidenceAdvances(s, t)
  {
  }

  lemma GrantStepEvidence(s: State, gr: GrantStep)
    ensures EvidenceAdvances(s, GrantStepState(s, gr))
  {
    SameEvidenceAdvances(s, GrantStepState(s, gr));
  }

  lemma ScheduleEvidence(s: State)
    requires Inv(s) && !ScheduleThrows(s)
    ensures EvidenceAdvances(s, ScheduledState(s))
  {
    ScheduleTouchesOnly(s);
    SameEvidenceAdvances(s, ScheduledState(s));
  }

  lemma PublishParticipantAdvances(s: State, p: Participant)
    ensures EvidenceAdvances(s, PublishParticipant(s, p))
  {
  }

  lemma FenceAdvances(s: State, w: Id, b: Id)
    ensures EvidenceAdvances(s, Fence(s, w, b))
  {
  }

  lemma SubmitEvidence(s: State, req: Request)
    ensures EvidenceAdvances(s, Submit(s, req))
  {
    if SubmitError(s, req).None? {
      SameEvidenceAdvances(s, Admit(s, Labelled(s, req)));
    } else {
      SameEvidenceAdvances(s, s.(counters := s.counters.(request := s.counters.request + 1)));
      SameEvidenceAdvances(s, s);
    }
  }

  lemma SupersedeEvidence(s: State, req: Request)
    ensures EvidenceAdvances(s, Supersede(s, req))
  {
    SameEvidenceAdvances(s, Supersede(s, req));
  }

  lemma StepAdvances(s: State, step: Step)
    requires Inv(s) && !ScheduleThrows(s) && !step.DoRecover? && !step.DoRestart?
    ensures EvidenceAdvances(s, NextState(s, step))
  {
    match step
    case DoEvidence(ev) => EvidenceStepAdvances(s, ev);
    case DoGrant(gr) => GrantStepEvidence(s, gr);
    case DoPublishParticipant(p) => PublishParticipantAdvances(s, p);
    case DoSubmit(r) => SubmitEvidence(s, r);
    case DoSupersede(r) => SupersedeEvidence(s, r);
    case DoCancel(id) => SameEvidenceAdvances(s, Cancel(s, id));
    case DoSchedule => ScheduleEvidence(s);
    case DoFence(w, b) => FenceAdvances(s, w, b);
    case DoSave(_) => SameEvidenceAdvances(s, s);
  }

  // ---- Mismatches ----

  ghost predicate ParticipantsReached(s: State, g: Grant) {
    |g.participants| == |g.participantGens| &&
    forall i | 0 <= i < |g.participants| ::
      g.participants[i] in s.participants && g.participantGens[i] <= s.participants[g.participants[i]].gen
  }

  /** Everything the grant was issued under has been published at least that far. */
  ghost predicate Anchored(s: State, g: Grant) {
    && g.revalidation == DEFAULT_REVALIDATION
    && g.request in s.records && g.requestGen <= s.records[g.request].request.gen
    && g.evidence.epoch <= s.epoch
    && g.plan in s.plans && g.planGen <= s.plans[g.plan].gen
    && ParticipantsReached(s, g)
    && (g.requestGen == s.records[g.request].request.gen ==>
          forall d | d in s.records[g.request].request.dependencies :: d.id in s.deps && d.gen <= s.deps[d.id].gen)
    && g.evidence.congestionGen <= s.congestionGen
  }

  /** Some generation differs from the one the grant carries. */
  ghost predicate Mismatched(s: State, g: Grant)
    requires Anchored(s, g)
  {
    || s.records[g.request].request.gen != g.requestGen
    || s.epoch != g.evidence.epoch
    || s.plans[g.plan].gen != g.planGen
    || (exists i | 0 <= i < |g.participants| :: s.participants[g.participants[i]].gen != g.participantGens[i])
    || (exists d | d in s.records[g.request].request.dependencies :: d.id in s.deps && s.deps[d.id].gen != d.gen)
    || (s.congestion.Some? && s.congestionGen != g.evidence.congestionGen)
  }

  lemma MismatchIsInvalid(s: State, g: Grant)
    requires CongestionOk(s) && Anchored(s, g) && Mismatched(s, g)
    ensures Revalidate(s, g) != Valid
  {
    if exists i | 0 <= i < |g.participants| :: s.participants[g.participants[i]].gen != g.participantGens[i] {
      var i :| 0 <= i < |g.participants| && s.participants[g.participants[i]].gen != g.participantGens[i];
      assert !GenerationCurrent(s, g.participants, g.participantGens, i);
    }
  }

  lemma AnchoredStays(s: State, t: State, g: Grant)
    requires Anchored(s, g) && Evolves(s, t) && EvidenceAdvances(s, t)
    ensures Anchored(t, g)
  {
    assert RecordEvolves(s.records[g.request], t.records[g.request]);
  }

  lemma MismatchStays(s: State, t: State, g: Grant)
    requires CongestionOk(s) && CongestionOk(t)
    requires Anchored(s, g) && Mismatched(s, g) && Evolves(s, t) && EvidenceAdvances(s, t) && Anchored(t, g)
    ensures Mismatched(t, g)
  {
    assert RecordEvolves(s.records[g.request], t.records[g.request]);
    if exists i | 0 <= i < |g.participants| :: s.participants[g.participants[i]].gen != g.participantGens[i] {
      var i :| 0 <= i < |g.participants| && s.participants[g.participants[i]].gen != g.participantGens[i];
      assert t.participants[g.participants[i]].gen != g.participantGens[i];
    }
    if exists d | d in s.records[g.request].request.dependencies :: d.id in s.deps && s.deps[d.id].gen != d.gen {
      var d :| d in s.records[g.request].request.dependencies && d.id in s.deps && s.deps[d.id].gen != d.gen;
      assert t.deps[d.id].gen >= s.deps[d.id].gen;
    }
  }

  ghost predicate NoRecovery(steps: seq<Step>) {
    forall i | 0 <= i < |steps| :: !steps[i].DoRecover? && !steps[i].DoRestart?
  }

  lemma AnchoredStep(y: Sys, step: Step, g: Grant)
    requires SysInv(y) && Enabled(y, step) && !ScheduleThrows(y.st) && !step.DoRecover? && !step.DoRestart?
    requires Anchored(y.st, g)
    ensures Anchored(Next(y, step).st, g)
    ensures Mismatched(y.st, g) ==> Mismatched(Next(y, step).st, g)
  {
    var t := Next(y, step).st;
    StateStep(y, step);
    StepAdvances(y.st, step);
    AnchoredStays(y.st, t, g);
    if Mismatched(y.st, g) { MismatchStays(y.st, t, g); }
  }

  lemma {:induction false} AnchoredOverRuns(y: Sys, steps: seq<Step>, g: Grant)
    requires SysInv(y) && ValidRun(y, steps) && NoRecovery(steps) && Anchored(y.st, g)
    ensures Anchored(Run(y, steps).st, g)
    ensures Mismatched(y.st, g) ==> Mismatched(Run(y, steps).st, g)
    decreases |steps|
  {
    if steps != [] {
      AnchoredStep(y, steps[0], g);
      SysStep(y, steps[0]);
      AnchoredOverRuns(Next(y, steps[0]), steps[1..], g);
    }
  }

  /** Staleness is permanent: without recovery, a grant once mismatched on the request,
      epoch, plan, participant, dependency or congestion generation never revalidates. */
  lemma StalenessIsPermanent(y: Sys, steps: seq<Step>, g: Grant)
    requires SysInv(y) && ValidRun(y, steps) && NoRecovery(steps)
    requires Anchored(y.st, g) && Mismatched(y.st, g)
    ensures Revalidate(Run(y, steps).st, g) != Valid
  {
    AnchoredOverRuns(y, steps, g);
    RunKeeps(y, steps);
    MismatchIsInvalid(Run(y, steps).st, g);
  }

  // ---- New grants ----

  /** A selected record's new grant, and the evidence it was issued under. */
  lemma NewGrantMatches(s: State, id: Id)
    requires Inv(s) && !ScheduleThrows(s) && id in Selected(s)
    ensures id in s.records && id in ScheduledState(s).records
    ensures var r := ScheduledState(s).records[id];
            && r.request == s.records[id].request && r.lifecycle.Granted? && r.current.Some?
            && Matches(r.current.value, r.request)
            && r.current.value.evidence.epoch == s.epoch && r.current.value.evidence.congestionGen == s.congestionGen
  {
    SelectedFacts(s);
    ScheduleKeeps(s);
    ScheduledRecord(s, id);
    var t := ScheduledState(s);
    assert RecordOk(t, id);
    var g := t.records[id].current.value;
    ScheduleFiles(s);
    assert s.records[id].current.None? by { assert RecordOk(s, id); }
    forall x | x in s.grants && s.grants[x].grant.request == id ensures s.grants[x].terminal {
      assert GrantOk(s, x);
    }
  }

  /** Every grant revalidates as VALID in the state it was issued in, and is anchored. */
  lemma NewGrantIsValid(s: State, id: Id)
    requires Inv(s) && !ScheduleThrows(s) && id in Selected(s)
    ensures id in ScheduledState(s).records && ScheduledState(s).records[id].current.Some?
    ensures Revalidate(ScheduledState(s), ScheduledState(s).records[id].current.value) == Valid
    ensures Anchored(ScheduledState(s), ScheduledState(s).records[id].current.value)
  {
    var t := ScheduledState(s);
    NewGrantMatches(s, id);
    SelectedFacts(s);
    CandidateIsAuthorized(s, id);
    ScheduleTouchesOnly(s);
    AuthorityFramed(s, t, s.records[id].request);
    AuthorityRevalidates(t, id);
  }

  lemma AuthorityRevalidates(t: State, id: Id)
    requires id in t.records && t.records[id].lifecycle.Granted? && t.records[id].current.Some?
    requires t.records[id].request.id == id && WellFormed(t.records[id].request)
    requires Matches(t.records[id].current.value, t.records[id].request)
    requires AuthorityCurrent(t, t.records[id].request) && CongestionOk(t)
    requires t.records[id].current.value.evidence.epoch == t.epoch
    requires t.records[id].current.value.evidence.congestionGen == t.congestionGen
    ensures Revalidate(t, t.records[id].current.value) == Valid
    ensures Anchored(t, t.records[id].current.value)
  {
    var g := t.records[id].current.value;
    forall i | 0 <= i < |g.participants|
      ensures g.participants[i] in t.participants && g.participantGens[i] <= t.participants[g.participants[i]].gen
    {
      assert GenerationCurrent(t, g.participants, g.participantGens, i);
    }
    forall d | d in t.records[id].request.dependencies ensures d.id in t.deps && t.deps[d.id].gen == d.gen {
      assert DependencySatisfied(t, d);
    }
  }

  /** Reservations are the exception: they are published without a generation check, so a
      grant made stale by a new reservation is valid again once the old one returns. */
  lemma ReservationStalenessIsReversible(s: State, g: Grant, other: Reservation, again: Reservation)
    requires Revalidate(s, g) == Valid && g.revalidation.reservation
    requires s.records[g.request].request.reservation == Some(s.reservationGen)
    requires other.gen != s.reservationGen && again.gen == s.reservationGen
    ensures Revalidate(PublishReservation(s, other), g) == StaleGrant
    ensures Revalidate(PublishReservation(PublishReservation(s, other), again), g) == Valid
  {
    var t := PublishReservation(s, other);
    var u := PublishReservation(t, again);
    assert forall i | 0 <= i < |g.participants| ::
        GenerationCurrent(s, g.participants, g.participantGens, i)
        == GenerationCurrent(t, g.participants, g.participantGens, i)
        && GenerationCurrent(s, g.participants, g.participantGens, i)
           == GenerationCurrent(u, g.participants, g.participantGens, i);
    assert ParticipantsCurrent(t, g.participants, g.participantGens)
           == ParticipantsCurrent(s, g.participants, g.participantGens);
    assert ParticipantsCurrent(u, g.participants, g.participantGens)
           == ParticipantsCurrent(s, g.participants, g.participantGens);
  }

  /** The life of a grant: valid when issued, and from the moment any generation it was
      issued under has moved on it never revalidates again, short of a recovery. */
  lemma OnceStaleAlwaysStale(y: Sys, id: Id, a: seq<Step>, b: seq<Step>)
    requires SysInv(y) && !ScheduleThrows(y.st) && id in Selected(y.st)
    requires ValidRun(Next(y, DoSchedule), a) && NoRecovery(a)
    requires ValidRun(Run(Next(y, DoSchedule), a), b) && NoRecovery(b)
    ensures var w := Next(y, DoSchedule);
            && id in w.st.records && w.st.records[id].current.Some?
            && var g := w.st.records[id].current.value;
               && Revalidate(w.st, g) == Valid
               && Anchored(Run(w, a).st, g)
               && (Mismatched(Run(w, a).st, g) ==> Revalidate(Run(Run(w, a), b).st, g) != Valid)
  {
    var w := Next(y, DoSchedule);
    NewGrantIsValid(y.st, id);
    SysStep(y, DoSchedule);
    var g := w.st.records[id].current.value;
    AnchoredOverRuns(w, a, g);
    RunKeeps(w, a);
    if Mismatched(Run(w, a).st, g) { StalenessIsPermanent(Run(w, a), b, g); }
  }
}
