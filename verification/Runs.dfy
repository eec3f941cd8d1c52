/** Runs of the whole system: the scheduler, the handoffs between their two locked
    sections, the grants callers hold, the completions accepted so far and the images
    saved. Every interleaving of locked sections is a sequence of steps. */
module Runs {
  import opened Types
  import opened Lifecycles
  import opened States
  import opened Steps
  import opened Invariants
  import opened Decisions
  import opened Images

  datatype Sys = Sys(
    st: State,
    inflight: set<Grant>,    // handoffs waiting for the fabric's answer
    issued: set<Grant>,      // every grant ever returned to a caller
    own: set<Grant>,         // those issued by the running process
    completed: seq<Grant>,   // completions accepted, in order
    images: set<Image>)      // snapshots saved so far

  /** Steps that only publish evidence or move the clock, the epoch or the policy. */
  datatype EvidenceStep =
    | DoPublishPlan(plan: Plan) | DoPublishDependency(dependency: Dependency)
    | DoPublishReservation(reservation: Reservation) | DoPublishCongestion(congestion: Congestion)
    | DoPublishCapacity(capacity: Capacity)
    | DoSetPolicy(policy: Policy) | DoAdvanceEpoch(epoch: Gen) | DoAdvanceTime(duration: nat)

  /** Steps in which a caller presents a grant. */
  datatype GrantStep =
    | DoHandoffBegin(grant: Grant) | DoHandoffEnd(grant: Grant, accepted: bool)
    | DoComplete(grant: Grant, workerBoot: Id, sourceBoot: Id)

  datatype Step =
    | DoEvidence(ev: EvidenceStep)
    | DoGrant(gr: GrantStep)
    | DoPublishParticipant(participant: Participant)
    | DoSubmit(request: Request) | DoSupersede(request: Request) | DoCancel(id: Id)
    | DoSchedule
    | DoFence(worker: Id, boot: Id)
    | DoRecover
    | DoSave(image: Image)
    | DoRestart(source: Option<Image>, policy: Policy, epoch: Gen)

  function NewSystem(policy: Policy, epoch: Gen): Sys { Sys(NewState(policy, epoch), {}, {}, {}, [], {}) }

  function Later(a: Gen, b: Gen): Gen { if a < b then b else a }

  /** The scheduler of a new process before it moves to its own epoch: fresh, or restored
      from an image. An image with more records than the policy admits is refused, and the
      process goes on with the fresh scheduler. */
  function Started(d: Option<Image>, policy: Policy): State {
    if d.Some? && |d.value.records| <= policy.bounds.maxHistoryRecords
    then Restore(NewState(policy, 1), d.value) else NewState(policy, 1)
  }

  function Restarted(d: Option<Image>, policy: Policy, epoch: Gen): State {
    Started(d, policy).(epoch := Later(Started(d, policy).epoch, epoch))
  }

  /** Callers present grants they were given, an answer belongs to a handoff in flight,
      and a restart uses a saved image, if any, under an epoch later than any grant out there. */
  ghost predicate Enabled(y: Sys, step: Step) {
    match step
    case DoGrant(gr) => if gr.DoHandoffEnd? then gr.grant in y.inflight else gr.grant in y.issued
    case DoSave(d) => Snapshot(y.st, d)
    case DoRestart(d, p, e) =>
      (d.Some? ==> d.value in y.images) && forall g | g in y.issued :: g.evidence.epoch < Restarted(d, p, e).epoch
    case _ => true
  }

  ghost function OnFileGrants(s: State): set<Grant> { set x | x in s.grants :: s.grants[x].grant }

  function EvidenceState(s: State, ev: EvidenceStep): State {
    match ev
    case DoPublishPlan(p) => PublishPlan(s, p)
    case DoPublishDependency(d) => PublishDependency(s, d)
    case DoPublishReservation(r) => PublishReservation(s, r)
    case DoPublishCongestion(c) => PublishCongestion(s, c)
    case DoPublishCapacity(c) => PublishCapacity(s, c)
    case DoSetPolicy(p) => SetPolicy(s, p)
    case DoAdvanceEpoch(e) => AdvanceEpoch(s, e)
    case DoAdvanceTime(d) => AdvanceTime(s, d)
  }

  function GrantStepState(s: State, gr: GrantStep): State {
    match gr
    case DoHandoffBegin(g) => HandoffBegin(s, g)
    case DoHandoffEnd(g, a) => HandoffEnd(s, g, a)
    case DoComplete(g, wb, sb) => Complete(s, g, wb, sb)
  }

  /** The scheduler's own part of a step. */
  ghost function NextState(s: State, step: Step): State
    requires !ScheduleThrows(s)
  {
    match step
    case DoEvidence(ev) => EvidenceState(s, ev)
    case DoGrant(gr) => GrantStepState(s, gr)
    case DoPublishParticipant(p) => PublishParticipant(s, p)
    case DoSubmit(r) => Submit(s, r)
    case DoSupersede(r) => Supersede(s, r)
    case DoCancel(id) => Cancel(s, id)
    case DoSchedule => ScheduledState(s)
    case DoFence(w, b) => Fence(s, w, b)
    case DoRecover => Recover(s)
    case DoSave(_) => s
    case DoRestart(d, p, e) => Restarted(d, p, e)
  }

  ghost function NextInflight(y: Sys, step: Step): set<Grant> {
    match step
    case DoGrant(DoHandoffBegin(g)) => if HandoffStarts(y.st, g) then y.inflight + {g} else y.inflight
    case DoGrant(DoHandoffEnd(g, _)) => y.inflight - {g}
    case DoRestart(_, _, _) => {}
    case _ => y.inflight
  }

  ghost function NextCompleted(y: Sys, step: Step): seq<Grant> {
    match step
    case DoGrant(DoComplete(g, wb, sb)) =>
      if CompletionAccepted(y.st, g, wb, sb) then y.completed + [g] else y.completed
    case _ => y.completed
  }

  ghost function Next(y: Sys, step: Step): Sys
    requires !ScheduleThrows(y.st)
  {
    var t := NextState(y.st, step);
    Sys(t, NextInflight(y, step), y.issued + OnFileGrants(t),
        (if step.DoRestart? then {} else y.own) + OnFileGrants(t),
        NextCompleted(y, step),
        if step.DoSave? then y.images + {step.image} else y.images)
  }

  // ---- The invariant of runs ----

  /** A grant of this process is behind or at its request's generation; at the same
      generation it is the only one that request ever got. */
  ghost predicate FreshOk(s: State, g: Grant) {
    && g.id < s.counters.grant && g.evidence.epoch <= s.epoch
    && (g.id in s.grants ==> s.grants[g.id].grant == g)
    && g.request in s.records
    && var r := s.records[g.request];
       && g.requestGen <= r.request.gen
       && (g.requestGen == r.request.gen ==>
             !Ungranted(r.lifecycle) && (r.current == Some(g) || r.current.None?))
  }

  /** No longer open: finished, or forgotten by a recovery. */
  ghost predicate Done(s: State, g: Grant) {
    g.id < s.counters.grant && (g.id in s.grants ==> s.grants[g.id].terminal)
  }

  ghost predicate OnePerId(gs: set<Grant>) {
    forall g, h | g in gs && h in gs && g.id == h.id :: g == h
  }

  ghost predicate OnePerGeneration(gs: set<Grant>) {
    forall g, h | g in gs && h in gs && g.request == h.request && g.requestGen == h.requestGen :: g == h
  }

  ghost predicate OnePerEpochAndGeneration(gs: set<Grant>) {
    forall g, h | g in gs && h in gs && g.request == h.request && g.requestGen == h.requestGen
                  && g.evidence.epoch == h.evidence.epoch :: g == h
  }

  ghost predicate FreshGrantsOk(y: Sys) {
    && (forall g | g in y.own :: FreshOk(y.st, g))
    && OnFileGrants(y.st) <= y.own
    && OnePerId(y.own) && OnePerGeneration(y.own)
  }

  ghost predicate HistoryOk(y: Sys) {
    && y.inflight <= y.own <= y.issued
    && (forall g | g in y.issued && g !in y.own :: g.evidence.epoch < y.st.epoch)
    && OnePerEpochAndGeneration(y.issued)
    && NoDuplicates(y.completed)
    && (forall g | g in y.completed :: g in y.issued && (g in y.own ==> Done(y.st, g)))
    && (forall d | d in y.images :: ImageOk(d))
  }

  ghost predicate SysInv(y: Sys) { Inv(y.st) && FreshGrantsOk(y) && HistoryOk(y) }

  lemma NewSystemOk(policy: Policy, epoch: Gen)
    ensures SysInv(NewSystem(policy, epoch))
  {
  }

  // ---- One step of the scheduler ----

  /** Grants presented by callers are on file as presented, or have no effect. */
  lemma PresentedGrant(y: Sys, g: Grant)
    requires SysInv(y) && g in y.issued
    ensures g in y.own ==> Genuine(y.st, g)
    ensures g !in y.own ==> !HandoffStarts(y.st, g)
    ensures g !in y.own ==> forall wb, sb :: !CompletionAccepted(y.st, g, wb, sb)
  {
    assert g in y.own ==> FreshOk(y.st, g);
  }

  lemma EvidenceShape(s: State, ev: EvidenceStep)
    requires CongestionOk(s)
    ensures EvidenceOnly(s, EvidenceState(s, ev)) && CongestionOk(EvidenceState(s, ev))
  {
  }

  lemma EvidenceStepKeeps(s: State, ev: EvidenceStep)
    requires Inv(s)
    ensures Inv(EvidenceState(s, ev)) && Evolves(s, EvidenceState(s, ev))
  {
    EvidenceShape(s, ev);
    EvidenceKeeps(s, EvidenceState(s, ev));
  }

  lemma GrantStepKeeps(y: Sys, gr: GrantStep)
    requires SysInv(y) && Enabled(y, DoGrant(gr))
    ensures Inv(GrantStepState(y.st, gr)) && Evolves(y.st, GrantStepState(y.st, gr))
  {
    PresentedGrant(y, gr.grant);
    if gr.grant in y.own {
      match gr
      case DoHandoffBegin(g) => HandoffBeginKeeps(y.st, g);
      case DoHandoffEnd(g, a) => HandoffEndKeeps(y.st, g, a);
      case DoComplete(g, wb, sb) => CompleteKeeps(y.st, g, wb, sb);
    } else {
      EvolvesReflexive(y.st);
    }
  }

  /** Every step but a restart keeps the invariant and only moves records forward. */
  lemma StateStep(y: Sys, step: Step)
    requires SysInv(y) && Enabled(y, step) && !step.DoRestart?
    ensures !ScheduleThrows(y.st)
    ensures Inv(NextState(y.st, step)) && Evolves(y.st, NextState(y.st, step))
  {
    var s := y.st;
    ScheduleNeverThrows(s);
    match step
    case DoEvidence(ev) => EvidenceStepKeeps(s, ev);
    case DoGrant(gr) => GrantStepKeeps(y, gr);
    case DoPublishParticipant(p) => PublishParticipantKeeps(s, p);
    case DoSubmit(r) => SubmitKeeps(s, r);
    case DoSupersede(r) => SupersedeKeeps(s, r);
    case DoCancel(id) => CancelKeeps(s, id);
    case DoSchedule => ScheduleKeeps(s);
    case DoFence(w, b) => FenceKeeps(s, w, b);
    case DoRecover => RecoverKeeps(s);
    case DoSave(_) => EvolvesReflexive(s);
  }

  // ---- Grants across a step ----

  lemma FreshEvolves(s: State, t: State, g: Grant)
    requires FreshOk(s, g) && Evolves(s, t)
    ensures FreshOk(t, g)
    ensures Done(s, g) ==> Done(t, g)
  {
    if g.id in t.grants { assert GrantEvolves(s, t, g.id); }
    assert RecordEvolves(s.records[g.request], t.records[g.request]);
  }

  /** Grants on file after a step are old ones or were just issued. */
  ghost predicate FilesOk(s: State, t: State) {
    forall x | x in t.grants ::
      || (x in s.grants && t.grants[x].grant == s.grants[x].grant)
      || (s.counters.grant <= x && !t.grants[x].terminal && t.grants[x].grant.evidence.epoch == t.epoch)
  }

  lemma ScheduleFiles(s: State)
    requires Inv(s) && !ScheduleThrows(s)
    ensures FilesExtended(s, ScheduledState(s)) && ScheduledState(s).epoch == s.epoch
  {
    var p, sel := Prepared(s), Selected(s);
    GrantAllFiles(p, sel, s.counters.schedule, s.counters.scheduleGen);
  }

  lemma GrantStepCounter(s: State, gr: GrantStep)
    ensures GrantStepState(s, gr).counters == s.counters
  {
  }

  /** Only `schedule` issues grants. */
  lemma GrantCounterStep(s: State, step: Step)
    requires CongestionOk(s) && !ScheduleThrows(s) && !step.DoSchedule? && !step.DoRestart?
    ensures NextState(s, step).counters.grant == s.counters.grant
  {
    match step
    case DoEvidence(ev) => EvidenceShape(s, ev);
    case DoGrant(gr) => GrantStepCounter(s, gr);
    case DoSubmit(r) => assert Submit(s, r).counters.grant == s.counters.grant;
    case DoSupersede(r) => assert Supersede(s, r).counters == s.counters;
    case _ =>
  }

  lemma StepFiles(y: Sys, step: Step)
    requires SysInv(y) && !step.DoRestart? && !ScheduleThrows(y.st)
    requires Inv(NextState(y.st, step)) && Evolves(y.st, NextState(y.st, step))
    ensures FilesOk(y.st, NextState(y.st, step))
  {
    if step.DoSchedule? { ScheduleFiles(y.st); } else { GrantCounterStep(y.st, step); }
  }

  /** A grant just issued is the current grant of its record. */
  lemma NewGrantFresh(s: State, t: State, x: Id)
    requires Inv(s) && Inv(t) && Evolves(s, t) && x in t.grants && !t.grants[x].terminal
    requires t.grants[x].grant.evidence.epoch <= t.epoch
    ensures FreshOk(t, t.grants[x].grant)
    ensures t.records[t.grants[x].grant.request].current == Some(t.grants[x].grant)
  {
    assert GrantOk(t, x);
    assert RecordOk(t, t.grants[x].grant.request);
  }

  lemma FreshStep(y: Sys, step: Step)
    requires SysInv(y) && Enabled(y, step) && !step.DoRestart? && !ScheduleThrows(y.st)
    requires Inv(NextState(y.st, step)) && Evolves(y.st, NextState(y.st, step))
    ensures forall g | g in Next(y, step).own :: FreshOk(Next(y, step).st, g)
    ensures forall g | g in Next(y, step).own && g !in y.own ::
              && g.id >= y.st.counters.grant && g.evidence.epoch == Next(y, step).st.epoch
              && Next(y, step).st.records[g.request].current == Some(g)
              && g.requestGen == Next(y, step).st.records[g.request].request.gen
  {
    var s, t := y.st, NextState(y.st, step);
    StepFiles(y, step);
    forall g | g in y.own ensures FreshOk(t, g) { FreshEvolves(s, t, g); }
    forall g | g in Next(y, step).own && g !in y.own
      ensures g.id >= s.counters.grant && FreshOk(t, g) && g.evidence.epoch == t.epoch
      ensures t.records[g.request].current == Some(g) && g.requestGen == t.records[g.request].request.gen
    {
      NewGrantFacts(y, t, g);
    }
  }

  lemma NewGrantFacts(y: Sys, t: State, g: Grant)
    requires SysInv(y) && Inv(t) && Evolves(y.st, t) && FilesOk(y.st, t)
    requires g in OnFileGrants(t) && g !in y.own
    ensures g.id >= y.st.counters.grant && FreshOk(t, g) && g.evidence.epoch == t.epoch
    ensures t.records[g.request].current == Some(g) && g.requestGen == t.records[g.request].request.gen
  {
    var x :| x in t.grants && t.grants[x].grant == g;
    forall z | z in y.st.grants ensures y.st.grants[z].grant in y.own {
      assert y.st.grants[z].grant in OnFileGrants(y.st);
    }
    NewGrantFresh(y.st, t, x);
    assert GrantOk(t, x) && RecordOk(t, g.request);
  }

  lemma OnePerStep(y: Sys, step: Step)
    requires SysInv(y) && Enabled(y, step) && !step.DoRestart? && !ScheduleThrows(y.st)
    requires Inv(NextState(y.st, step)) && Evolves(y.st, NextState(y.st, step))
    ensures OnePerId(Next(y, step).own) && OnePerGeneration(Next(y, step).own)
  {
    FreshStep(y, step);
    OnePerIdStep(y, Next(y, step).own, NextState(y.st, step));
    OnePerGenerationStep(y, Next(y, step).own, NextState(y.st, step));
  }

  lemma OnePerIdStep(y: Sys, own: set<Grant>, t: State)
    requires FreshGrantsOk(y) && (forall g | g in own :: FreshOk(t, g))
    requires forall g | g in own && g !in y.own ::
               g.id >= y.st.counters.grant && g.id in t.grants
    ensures OnePerId(own)
  {
    forall g, h | g in own && h in own && g.id == h.id ensures g == h {
      assert FreshOk(t, g) && FreshOk(t, h);
      assert g in y.own ==> FreshOk(y.st, g);
      assert h in y.own ==> FreshOk(y.st, h);
    }
  }

  lemma OnePerGenerationStep(y: Sys, own: set<Grant>, t: State)
    requires FreshGrantsOk(y) && (forall g | g in own :: FreshOk(t, g))
    requires forall g | g in own && g !in y.own ::
               g.request in t.records && t.records[g.request].current == Some(g)
               && g.requestGen == t.records[g.request].request.gen
    ensures OnePerGeneration(own)
  {
    forall g, h | g in own && h in own && g.request == h.request && g.requestGen == h.requestGen ensures g == h {
      assert FreshOk(t, g) && FreshOk(t, h);
    }
  }

  // ---- History across a step ----

  lemma InflightStep(y: Sys, step: Step)
    requires SysInv(y) && Enabled(y, step)
    ensures NextInflight(y, step) <= if step.DoRestart? then {} else y.own
  {
    if step.DoGrant? { PresentedGrant(y, step.gr.grant); }
  }

  ghost predicate CompletesNow(y: Sys, step: Step, g: Grant) {
    && g in y.own && step.DoGrant? && step.gr.DoComplete? && step.gr.grant == g
    && CompletionAccepted(y.st, g, step.gr.workerBoot, step.gr.sourceBoot)
  }

  /** A completion is accepted only for a grant that is still open. */
  lemma CompletedStep(y: Sys, step: Step)
    requires SysInv(y) && Enabled(y, step)
    ensures NoDuplicates(NextCompleted(y, step))
    ensures forall g | g in NextCompleted(y, step) ::
              g in y.issued && (g !in y.completed ==> CompletesNow(y, step, g))
  {
    if step.DoGrant? && step.gr.DoComplete? {
      PresentedGrant(y, step.gr.grant);
      assert step.gr.grant in y.completed ==> step.gr.grant !in y.own || Done(y.st, step.gr.grant);
    }
  }

  lemma CompletedDone(y: Sys, step: Step, g: Grant)
    requires SysInv(y) && Enabled(y, step) && !step.DoRestart? && !ScheduleThrows(y.st)
    requires Evolves(y.st, NextState(y.st, step)) && g in y.own && g in NextCompleted(y, step)
    ensures Done(NextState(y.st, step), g)
  {
    CompletedStep(y, step);
    if g in y.completed { FreshEvolves(y.st, NextState(y.st, step), g); }
  }

  lemma CompletedAllDone(y: Sys, step: Step)
    requires SysInv(y) && Enabled(y, step) && !step.DoRestart? && !ScheduleThrows(y.st)
    requires Inv(NextState(y.st, step)) && Evolves(y.st, NextState(y.st, step))
    ensures forall g | g in NextCompleted(y, step) && g in Next(y, step).own :: Done(NextState(y.st, step), g)
  {
    FreshStep(y, step);
    CompletedStep(y, step);
    forall g | g in NextCompleted(y, step) && g in Next(y, step).own ensures Done(NextState(y.st, step), g) {
      if g in y.own { CompletedDone(y, step, g); }
    }
  }

  lemma IssuedStep(y: Sys, step: Step)
    requires SysInv(y) && Enabled(y, step) && !step.DoRestart? && !ScheduleThrows(y.st)
    requires Inv(NextState(y.st, step)) && Evolves(y.st, NextState(y.st, step))
    ensures forall g | g in Next(y, step).issued && g !in Next(y, step).own ::
              g in y.issued && g !in y.own && g.evidence.epoch < Next(y, step).st.epoch
    ensures OnePerEpochAndGeneration(Next(y, step).issued)
  {
    var z := Next(y, step);
    FreshStep(y, step);
    OnePerStep(y, step);
    forall g, h | g in z.issued && h in z.issued && g.request == h.request && g.requestGen == h.requestGen
                  && g.evidence.epoch == h.evidence.epoch
      ensures g == h
    {
      if g in y.issued && h in y.issued {
      } else {
        assert g in z.own && h in z.own;
      }
    }
  }

  lemma HistoryStep(y: Sys, step: Step)
    requires SysInv(y) && Enabled(y, step) && !step.DoRestart? && !ScheduleThrows(y.st)
    requires Inv(NextState(y.st, step)) && Evolves(y.st, NextState(y.st, step))
    ensures HistoryOk(Next(y, step))
  {
    InflightStep(y, step);
    CompletedStep(y, step);
    IssuedStep(y, step);
    CompletedAllDone(y, step);
    ImagesStep(y, step);
  }

  lemma ImagesStep(y: Sys, step: Step)
    requires SysInv(y) && Enabled(y, step) && !ScheduleThrows(y.st)
    ensures forall d | d in Next(y, step).images :: ImageOk(d)
  {
    if step.DoSave? { SnapshotOk(y.st, step.image); }
  }

  lemma RestartStep(y: Sys, step: Step)
    requires SysInv(y) && Enabled(y, step) && step.DoRestart? && !ScheduleThrows(y.st)
    ensures SysInv(Next(y, step))
  {
    RestartedKeeps(step.source, step.policy, step.epoch);
    RestartedFacts(step.source, step.policy, step.epoch);
  }

  lemma RestartedKeeps(d: Option<Image>, policy: Policy, epoch: Gen)
    requires d.Some? ==> ImageOk(d.value)
    ensures Inv(Restarted(d, policy, epoch))
  {
    if d.Some? { RestoreKeeps(NewState(policy, 1), d.value); }
    EvidenceKeeps(Started(d, policy), Restarted(d, policy, epoch));
  }

  /** A new process holds no grant and no evidence, and none of its records can be granted
      before it is superseded. */
  lemma RestartedFacts(d: Option<Image>, policy: Policy, epoch: Gen)
    ensures var t := Restarted(d, policy, epoch);
            && t.policy == policy && t.now == 0 && NoGrants(t) && NoEvidence(t) && OnFileGrants(t) == {}
            && forall id | id in t.records :: AtRestart(t.records[id])
  {
    if d.Some? { RestoredRest(NewState(policy, 1), d.value); }
  }

  ghost predicate AtRestart(r: Record) {
    r.current.None? && (Terminal(r.lifecycle) || r.lifecycle.RevalidationRequired?)
  }

  /** Every step keeps the invariant of runs. */
  lemma SysStep(y: Sys, step: Step)
    requires SysInv(y) && Enabled(y, step)
    ensures !ScheduleThrows(y.st) && SysInv(Next(y, step))
  {
    ScheduleNeverThrows(y.st);
    if step.DoRestart? {
      RestartStep(y, step);
    } else {
      StateStep(y, step);
      FreshStep(y, step);
      OnePerStep(y, step);
      HistoryStep(y, step);
    }
  }

  // ---- Runs ----

  ghost predicate ValidRun(y: Sys, steps: seq<Step>)
    decreases |steps|
  {
    steps == [] || (Enabled(y, steps[0]) && !ScheduleThrows(y.st) && ValidRun(Next(y, steps[0]), steps[1..]))
  }

  ghost function Run(y: Sys, steps: seq<Step>): Sys
    requires ValidRun(y, steps)
    decreases |steps|
  {
    if steps == [] then y else Run(Next(y, steps[0]), steps[1..])
  }

  lemma {:induction false} RunAppend(y: Sys, a: seq<Step>, b: seq<Step>)
    requires ValidRun(y, a) && ValidRun(Run(y, a), b)
    ensures ValidRun(y, a + b) && Run(y, a + b) == Run(Run(y, a), b)
    decreases |a|
  {
    if a == [] {
      assert a + b == b;
    } else {
      assert (a + b)[1..] == a[1..] + b && (a + b)[0] == a[0];
      RunAppend(Next(y, a[0]), a[1..], b);
    }
  }

  /** In every state of every run from a new system, the invariant holds. */
  lemma {:induction false} RunKeeps(y: Sys, steps: seq<Step>)
    requires SysInv(y) && ValidRun(y, steps)
    ensures SysInv(Run(y, steps))
    decreases |steps|
  {
    if steps != [] {
      SysStep(y, steps[0]);
      RunKeeps(Next(y, steps[0]), steps[1..]);
    }
  }

  lemma OneStep(y: Sys, step: Step)
    requires Enabled(y, step) && !ScheduleThrows(y.st)
    ensures ValidRun(y, [step]) && Run(y, [step]) == Next(y, step)
  {
    assert [step][1..] == [];
    assert ValidRun(Next(y, step), []);
  }

  /** No enabled step ever gets stuck: a valid run extends by any step that callers may take. */
  lemma RunExtends(y: Sys, steps: seq<Step>, step: Step)
    requires SysInv(y) && ValidRun(y, steps) && Enabled(Run(y, steps), step)
    ensures ValidRun(y, steps + [step])
  {
    RunKeeps(y, steps);
    ScheduleNeverThrows(Run(y, steps).st);
    OneStep(Run(y, steps), step);
    RunAppend(y, steps, [step]);
  }

  ghost predicate NoRestart(steps: seq<Step>) { forall i | 0 <= i < |steps| :: !steps[i].DoRestart? }

  /** Over a whole run of one process, each record's (generation, lifecycle) only moves
      forward: REVALIDATION_REQUIRED is left only by cancelling or superseding. */
  lemma {:induction false} RunEvolves(y: Sys, steps: seq<Step>)
    requires SysInv(y) && ValidRun(y, steps) && NoRestart(steps)
    ensures Evolves(y.st, Run(y, steps).st)
    decreases |steps|
  {
    if steps == [] {
      EvolvesReflexive(y.st);
    } else {
      StateStep(y, steps[0]);
      SysStep(y, steps[0]);
      var z := Next(y, steps[0]);
      RunEvolves(z, steps[1..]);
      EvolvesTransitive(y.st, z.st, Run(z, steps[1..]).st);
    }
  }
}
