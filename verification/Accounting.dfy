/** The counter of active grants against the grants that are active: which steps keep
    them equal, and when the configured bound on active grants really holds. */
module Accounting {
  import opened Types
  import opened Lifecycles
  import opened States
  import opened Steps
  import opened Invariants
  import opened Decisions
  import opened Runs
  import opened Exclusion

  ghost function ActiveSet(s: State): set<Id> { set x | x in s.grants && s.grants[x].active }

  ghost function PendingSet(s: State): set<Id> { set id | id in s.records && Pending(s.records[id].lifecycle) }

  /** The counter is exact. */
  ghost predicate Exact(s: State) { s.activeGrants == |ActiveSet(s)| }

  /** The counter is at least the number of active grants. */
  ghost predicate Covered(s: State) { |ActiveSet(s)| <= s.activeGrants }

  /** The grant that superseding the request would finish, if any, is active. */
  ghost predicate FinishesActive(s: State, req: Request) {
    req.id in s.records && s.records[req.id].current.Some? && s.records[req.id].current.value.id in s.grants
    && s.grants[s.records[req.id].current.value.id].active
  }

  ghost predicate FinishesAny(s: State, req: Request) { req.id in s.records && s.records[req.id].current.Some? }

  /** A superseded grant was active (or the counter is at zero anyway), and a fence hits no
      active grant. */
  ghost predicate ExactSafe(s: State, step: Step) {
    match step
    case DoSupersede(r) =>
      SupersedeError(s, r).None? && FinishesAny(s, r) ==> FinishesActive(s, r) || s.activeGrants == 0
    case DoFence(w, b) => FencedGrants(s, w, b) !! ActiveSet(s)
    case _ => true
  }

  ghost predicate CoverSafe(s: State, step: Step) {
    match step
    case DoSupersede(r) =>
      SupersedeError(s, r).None? && FinishesAny(s, r) ==>
        FinishesActive(s, r) || s.activeGrants == 0 || s.activeGrants > |ActiveSet(s)|
    case _ => true
  }

  // ---- How each step moves the counter and the set ----

  lemma FinishCount(s: State, t: State, x: Id)
    requires x in s.grants && t.grants == s.grants[x := Finish(s.grants[x])]
    ensures ActiveSet(t) == ActiveSet(s) - {x}
  {
  }

  lemma SupersedeCount(s: State, req: Request)
    requires Inv(s) && SupersedeError(s, req).None?
    ensures ActiveSet(Supersede(s, req)) ==
            if FinishesActive(s, req) then ActiveSet(s) - {s.records[req.id].current.value.id} else ActiveSet(s)
    ensures Supersede(s, req).activeGrants == if FinishesAny(s, req) then Decrement(s.activeGrants) else s.activeGrants
  {
    ReplaceCount(s, s.records[req.id], req);
  }

  lemma ReplaceCount(s: State, prev: Record, req: Request)
    requires req.id in s.records && prev == s.records[req.id] && CurrentOk(s, prev)
    ensures ActiveSet(Replace(s, prev, req)) ==
            if FinishesActive(s, req) then ActiveSet(s) - {prev.current.value.id} else ActiveSet(s)
    ensures Replace(s, prev, req).activeGrants
          == if FinishesAny(s, req) then Decrement(s.activeGrants) else s.activeGrants
  {
    if prev.current.Some? { FinishCount(s, Replace(s, prev, req), prev.current.value.id); }
  }

  lemma FenceCount(s: State, w: Id, b: Id)
    ensures ActiveSet(Fence(s, w, b)) == ActiveSet(s) - FencedGrants(s, w, b)
    ensures Fence(s, w, b).activeGrants == s.activeGrants
  {
  }

  lemma CancelCount(s: State, id: Id)
    ensures |ActiveSet(Cancel(s, id))| - Cancel(s, id).activeGrants <= |ActiveSet(s)| - s.activeGrants
    ensures Exact(s) ==> Exact(Cancel(s, id))
    ensures Cancel(s, id).activeGrants <= s.activeGrants
  {
    var t := Cancel(s, id);
    if id in s.records && !Terminal(s.records[id].lifecycle) && OnFile(s, s.records[id])
       && !s.grants[s.records[id].current.value.id].terminal {
      FinishCount(s, t, s.records[id].current.value.id);
    } else {
      assert t.grants == s.grants;
    }
  }

  lemma CompleteCount(y: Sys, g: Grant, wb: Id, sb: Id)
    requires SysInv(y) && CalmInv(y) && CompletionAccepted(y.st, g, wb, sb)
    ensures g.id in ActiveSet(y.st)
    ensures ActiveSet(Complete(y.st, g, wb, sb)) == ActiveSet(y.st) - {g.id}
    ensures Complete(y.st, g, wb, sb).activeGrants == Decrement(y.st.activeGrants)
  {
    CompletedWasActive(y, g, wb, sb);
  }

  lemma CompletedWasActive(y: Sys, g: Grant, wb: Id, sb: Id)
    requires SysInv(y) && CalmInv(y) && CompletionAccepted(y.st, g, wb, sb)
    ensures g.id in ActiveSet(y.st)
  {
    assert ActiveRuns(y.st, g.request);
  }

  lemma ActivatedCount(s: State, g: Grant)
    requires AwaitsAnswer(s, g)
    ensures |ActiveSet(Activated(s, g))| == |ActiveSet(s)| + 1
    ensures |PendingSet(Activated(s, g))| == |PendingSet(s)| - 1
  {
    var t := Activated(s, g);
    assert ActiveSet(t) == ActiveSet(s) + {g.id};
    assert PendingSet(t) == PendingSet(s) - {g.request};
    assert g.request in PendingSet(s);
  }

  lemma HandoffEndCount(y: Sys, g: Grant, accepted: bool)
    requires SysInv(y) && CalmInv(y) && g in y.inflight
    ensures |ActiveSet(HandoffEnd(y.st, g, accepted))| - |ActiveSet(y.st)|
            == HandoffEnd(y.st, g, accepted).activeGrants - y.st.activeGrants
    ensures HandoffEnd(y.st, g, accepted).activeGrants + |PendingSet(HandoffEnd(y.st, g, accepted))|
            == y.st.activeGrants + |PendingSet(y.st)|
  {
    HandoffEndCases(y, g, accepted);
    if Activates(y.st, g, accepted) { ActivatedCount(y.st, g); }
  }

  lemma ScheduleCount(s: State)
    requires Inv(s) && !ScheduleThrows(s)
    ensures ActiveSet(ScheduledState(s)) == ActiveSet(s)
    ensures ScheduledState(s).activeGrants == s.activeGrants
  {
    ScheduleFiles(s);
    ScheduleTouchesOnly(s);
  }

  /** Steps that leave both the counter and every active flag alone. */
  ghost predicate Quiet(s: State, t: State) {
    t.activeGrants == s.activeGrants && t.grants.Keys == s.grants.Keys
    && forall x | x in s.grants :: t.grants[x].active == s.grants[x].active
  }

  lemma QuietCount(s: State, t: State)
    requires Quiet(s, t)
    ensures ActiveSet(t) == ActiveSet(s)
  {
  }

  lemma HandoffBeginQuiet(s: State, g: Grant)
    ensures Quiet(s, HandoffBegin(s, g))
  {
  }

  lemma SubmitQuiet(s: State, req: Request)
    ensures Quiet(s, Submit(s, req))
  {
    if SubmitError(s, req).None? { assert Quiet(s, Admit(s, Labelled(s, req))); }
  }

  lemma EvidenceQuiet(s: State, ev: EvidenceStep)
    ensures EvidenceState(s, ev).activeGrants == s.activeGrants && EvidenceState(s, ev).grants == s.grants
  {
  }

  ghost predicate IsQuiet(step: Step) {
    step.DoEvidence? || step.DoPublishParticipant? || step.DoSubmit? || step.DoSave?
    || (step.DoGrant? && step.gr.DoHandoffBegin?)
  }

  lemma QuietStep(s: State, step: Step)
    requires !ScheduleThrows(s) && IsQuiet(step)
    ensures Quiet(s, NextState(s, step))
  {
    match step
    case DoEvidence(ev) => EvidenceQuiet(s, ev);
    case DoPublishParticipant(p) => assert Quiet(s, PublishParticipant(s, p));
    case DoSubmit(r) => SubmitQuiet(s, r);
    case DoGrant(gr) => HandoffBeginQuiet(s, gr.grant);
    case DoSave(_) =>
  }

  // ---- Exactness ----

  lemma GrantStepCount(y: Sys, gr: GrantStep)
    requires SysInv(y) && CalmInv(y) && Enabled(y, DoGrant(gr)) && !gr.DoHandoffBegin?
    ensures Exact(y.st) ==> Exact(GrantStepState(y.st, gr))
    ensures Covered(y.st) ==> Covered(GrantStepState(y.st, gr))
  {
    match gr
    case DoHandoffEnd(g, a) => HandoffEndCount(y, g, a);
    case DoComplete(g, wb, sb) => if CompletionAccepted(y.st, g, wb, sb) { CompleteCount(y, g, wb, sb); }
  }

  /** In a calm run every step but a supersede or a fence keeps the counter true. */
  lemma HarmlessStep(y: Sys, step: Step)
    requires SysInv(y) && CalmInv(y) && Enabled(y, step) && !ScheduleThrows(y.st)
    requires !step.DoSupersede? && !step.DoFence?
    ensures Exact(y.st) ==> Exact(Next(y, step).st)
    ensures Covered(y.st) ==> Covered(Next(y, step).st)
  {
    var s := y.st;
    if IsQuiet(step) {
      QuietStep(s, step);
      QuietCount(s, NextState(s, step));
    } else if step.DoGrant? {
      GrantStepCount(y, step.gr);
    } else {
      match step
      case DoCancel(id) => CancelCount(s, id);
      case DoSchedule => ScheduleCount(s);
      case DoRecover => assert ActiveSet(Recover(s)) == {};
      case DoRestart(d, p, e) => RestartedFacts(d, p, e);
    }
  }

  /** In a calm run a step keeps the counter exact if and only if it is not one of the
      offending supersedes and fences. */
  lemma ExactStep(y: Sys, step: Step)
    requires SysInv(y) && CalmInv(y) && Enabled(y, step) && !ScheduleThrows(y.st) && Exact(y.st)
    ensures Exact(Next(y, step).st) <==> ExactSafe(y.st, step)
  {
    var s := y.st;
    if step.DoSupersede? {
      if SupersedeError(s, step.request).None? { SupersedeCount(s, step.request); }
    } else if step.DoFence? {
      FenceExact(s, step.worker, step.boot);
    } else {
      HarmlessStep(y, step);
    }
  }

  lemma FenceExact(s: State, w: Id, b: Id)
    requires Exact(s)
    ensures Exact(Fence(s, w, b)) <==> FencedGrants(s, w, b) !! ActiveSet(s)
  {
    FenceCount(s, w, b);
    SubtractSize(ActiveSet(s), FencedGrants(s, w, b));
  }

  lemma SubtractSize(a: set<Id>, f: set<Id>)
    ensures |a - f| <= |a|
    ensures |a - f| == |a| <==> f !! a
  {
    assert a == (a - f) + (a * f);
    if f !! a { assert a - f == a; } else { assert a * f != {}; }
  }

  /** The same for the weaker promise that the counter never falls below the truth; here
      fences do no harm. */
  lemma CoveredStep(y: Sys, step: Step)
    requires SysInv(y) && CalmInv(y) && Enabled(y, step) && !ScheduleThrows(y.st) && Covered(y.st)
    ensures Covered(Next(y, step).st) <==> CoverSafe(y.st, step)
  {
    var s := y.st;
    if step.DoSupersede? {
      if SupersedeError(s, step.request).None? { SupersedeCount(s, step.request); }
    } else if step.DoFence? {
      FenceCount(s, step.worker, step.boot);
      SubtractSize(ActiveSet(s), FencedGrants(s, step.worker, step.boot));
    } else {
      HarmlessStep(y, step);
    }
  }

  // ---- The bound on active grants ----

  /** Running grants, as counted, and pending ones together respect the bound. */
  ghost predicate WithinBound(s: State) {
    s.activeGrants + |PendingSet(s)| <= s.policy.bounds.maxActiveGrants
  }

  /** The bound itself is not lowered on the way. */
  ghost predicate KeepsBound(y: Sys, step: Step) {
    match step
    case DoEvidence(DoSetPolicy(p)) => p.bounds.maxActiveGrants >= y.st.policy.bounds.maxActiveGrants
    case DoRestart(_, p, _) => p.bounds.maxActiveGrants >= y.st.policy.bounds.maxActiveGrants
    case _ => true
  }

  lemma SubsetSize(a: set<Id>, b: set<Id>)
    requires a <= b
    ensures |a| <= |b|
  {
    assert b == a + (b - a);
  }

  lemma WithdrawalPending(s: State, t: State)
    requires Withdraws(s, t)
    ensures |PendingSet(t)| <= |PendingSet(s)|
  {
    forall id | id in PendingSet(t) ensures id in PendingSet(s) { assert RecordWithdraws(s, t, id); }
    SubsetSize(PendingSet(t), PendingSet(s));
  }

  ghost function Range(v: seq<Id>): set<Id> { set x | x in v }

  lemma {:induction false} RangeSize(v: seq<Id>)
    ensures |Range(v)| <= |v|
  {
    if v != [] {
      RangeSize(v[1..]);
      assert v == [v[0]] + v[1..];
      assert Range(v) == Range(v[1..]) + {v[0]};
    }
  }

  lemma SchedulePendingSet(s: State)
    requires Inv(s) && !ScheduleThrows(s) && NonePending(s)
    ensures PendingSet(ScheduledState(s)) <= Range(Selected(s))
  {
    ScheduleTouchesOnly(s);
    forall id | id in PendingSet(ScheduledState(s)) ensures id in Range(Selected(s)) {
      ScheduledRecord(s, id);
      PreparedRecordFacts(s, id);
    }
  }

  lemma SchedulePending(s: State)
    requires Inv(s) && !ScheduleThrows(s) && NonePending(s) && WithinBound(s)
    ensures WithinBound(ScheduledState(s))
  {
    ScheduleCount(s);
    ScheduleTouchesOnly(s);
    SchedulePendingSet(s);
    SelectedFacts(s);
    SubsetSize(PendingSet(ScheduledState(s)), Range(Selected(s)));
    RangeSize(Selected(s));
  }

  lemma CounterFalls(y: Sys, step: Step)
    requires SysInv(y) && CalmInv(y) && Enabled(y, step) && !ScheduleThrows(y.st)
    requires !step.DoSchedule? && !step.DoRestart? && !(step.DoGrant? && step.gr.DoHandoffEnd?)
    ensures Next(y, step).st.activeGrants <= y.st.activeGrants
  {
    var s := y.st;
    if IsQuiet(step) {
      QuietStep(s, step);
    } else {
      match step
      case DoGrant(DoComplete(g, wb, sb)) => if CompletionAccepted(s, g, wb, sb) { CompleteCount(y, g, wb, sb); }
      case DoSupersede(r) => if SupersedeError(s, r).None? { SupersedeCount(s, r); }
      case DoCancel(id) => CancelCount(s, id);
      case DoFence(w, b) => FenceCount(s, w, b);
      case DoRecover =>
    }
  }

  lemma GrantStepPolicy(s: State, gr: GrantStep)
    ensures GrantStepState(s, gr).policy == s.policy
  {
  }

  lemma SubmitPolicy(s: State, req: Request)
    ensures Submit(s, req).policy == s.policy
  {
    if SubmitError(s, req).None? { assert Admit(s, Labelled(s, req)).policy == s.policy; }
  }

  lemma SupersedePolicy(s: State, req: Request)
    ensures Supersede(s, req).policy == s.policy
  {
    if SupersedeError(s, req).None? { assert Replace(s, s.records[req.id], req).policy == s.policy; }
  }

  lemma PolicyStep(s: State, step: Step)
    requires Inv(s) && !ScheduleThrows(s) && !step.DoRestart? && !step.DoEvidence?
    ensures NextState(s, step).policy == s.policy
  {
    if step.DoGrant? {
      GrantStepPolicy(s, step.gr);
    } else if step.DoSubmit? {
      SubmitPolicy(s, step.request);
    } else if step.DoSupersede? {
      SupersedePolicy(s, step.request);
    } else if step.DoSchedule? {
      ScheduleTouchesOnly(s);
    }
  }

  lemma EvidencePolicy(y: Sys, ev: EvidenceStep)
    requires KeepsBound(y, DoEvidence(ev))
    ensures EvidenceState(y.st, ev).policy.bounds.maxActiveGrants >= y.st.policy.bounds.maxActiveGrants
  {
  }

  lemma BoundGrows(y: Sys, step: Step)
    requires Inv(y.st) && !ScheduleThrows(y.st) && KeepsBound(y, step)
    ensures NextState(y.st, step).policy.bounds.maxActiveGrants >= y.st.policy.bounds.maxActiveGrants
  {
    if step.DoEvidence? {
      EvidencePolicy(y, step.ev);
    } else if !step.DoRestart? {
      PolicyStep(y.st, step);
    }
  }

  lemma BoundStep(y: Sys, step: Step)
    requires SysInv(y) && CalmInv(y) && Enabled(y, step) && !ScheduleThrows(y.st)
    requires Disciplined(y, step) && KeepsBound(y, step) && WithinBound(y.st)
    ensures WithinBound(Next(y, step).st)
  {
    BoundGrows(y, step);
    if step.DoSchedule? {
      SchedulePending(y.st);
    } else if step.DoRestart? {
      RestartedFacts(step.source, step.policy, step.epoch);
      assert PendingSet(Next(y, step).st) == {};
    } else if step.DoGrant? && step.gr.DoHandoffEnd? {
      HandoffEndCount(y, step.gr.grant, step.gr.accepted);
    } else {
      StepWithdraws(y, step);
      WithdrawalPending(y.st, Next(y, step).st);
      CounterFalls(y, step);
    }
  }

  // ---- Runs ----

  ghost predicate ExactRun(y: Sys, steps: seq<Step>)
    requires ValidRun(y, steps)
    decreases |steps|
  {
    steps == [] || (ExactSafe(y.st, steps[0]) && ExactRun(Next(y, steps[0]), steps[1..]))
  }

  /** The counter equals the number of active grants in every state of the run. */
  ghost predicate AlwaysExact(y: Sys, steps: seq<Step>)
    requires ValidRun(y, steps)
    decreases |steps|
  {
    Exact(y.st) && (steps == [] || AlwaysExact(Next(y, steps[0]), steps[1..]))
  }

  /** In a calm run the counter is exact throughout if and only if no supersede finishes an
      inactive grant while the counter is positive and no fence hits an active grant. */
  lemma {:induction false} ExactIffSafe(y: Sys, steps: seq<Step>)
    requires SysInv(y) && CalmInv(y) && Exact(y.st) && ValidRun(y, steps) && CalmRun(y, steps)
    ensures AlwaysExact(y, steps) <==> ExactRun(y, steps)
    decreases |steps|
  {
    if steps != [] {
      ExactStep(y, steps[0]);
      SysStep(y, steps[0]);
      CalmStep(y, steps[0]);
      if Exact(Next(y, steps[0]).st) {
        ExactIffSafe(Next(y, steps[0]), steps[1..]);
      } else {
        assert !AlwaysExact(Next(y, steps[0]), steps[1..]);
      }
    }
  }

  // ---- Runs without supersede and fence ----

  /** Records keep their requests. */
  ghost predicate SameRequests(s: State, t: State) {
    forall id | id in s.records :: id in t.records && t.records[id].request == s.records[id].request
  }

  lemma BeginRequests(s: State, g: Grant)
    ensures SameRequests(s, HandoffBegin(s, g))
  {
    if g.request in s.records { OneRecordRequests(s, HandoffBegin(s, g), g.request); }
  }

  lemma EndRequests(s: State, g: Grant, accepted: bool)
    ensures SameRequests(s, HandoffEnd(s, g, accepted))
  {
    HandoffEndRecords(s, g, accepted);
    if g.request in s.records { OneRecordRequests(s, HandoffEnd(s, g, accepted), g.request); }
  }

  lemma OneRecordRequests(s: State, t: State, id: Id)
    requires id in s.records && id in t.records && t.records[id].request == s.records[id].request
    requires t.records == s.records[id := t.records[id]]
    ensures SameRequests(s, t)
  {
  }

  lemma CompleteRequests(s: State, g: Grant, wb: Id, sb: Id)
    ensures SameRequests(s, Complete(s, g, wb, sb))
  {
  }

  lemma GrantStepRequests(s: State, gr: GrantStep)
    ensures SameRequests(s, GrantStepState(s, gr))
  {
    match gr
    case DoHandoffBegin(g) => BeginRequests(s, g);
    case DoHandoffEnd(g, accepted) => EndRequests(s, g, accepted);
    case DoComplete(g, wb, sb) => CompleteRequests(s, g, wb, sb);
  }

  lemma PublishRequests(s: State, p: Participant)
    ensures SameRequests(s, PublishParticipant(s, p))
  {
  }

  lemma FenceRequests(s: State, w: Id, b: Id)
    ensures SameRequests(s, Fence(s, w, b))
  {
  }

  lemma CancelRequests(s: State, id: Id)
    ensures SameRequests(s, Cancel(s, id))
  {
    if id in s.records { OneRecordRequests(s, Cancel(s, id), id); }
  }

  lemma SubmitRequests(s: State, req: Request)
    requires Inv(s)
    ensures SameRequests(s, Submit(s, req))
  {
    if SubmitError(s, req).None? {
      forall id | id in s.records ensures id < s.counters.request { assert RecordOk(s, id); }
    }
  }

  lemma ScheduleRequests(s: State)
    requires Inv(s) && !ScheduleThrows(s)
    ensures SameRequests(s, ScheduledState(s))
  {
    forall id | id in s.records { ScheduledRecord(s, id); }
  }

  /** Only `supersede` replaces a request. */
  lemma RequestsStay(s: State, step: Step)
    requires Inv(s) && !ScheduleThrows(s) && !step.DoSupersede? && !step.DoRestart?
    ensures SameRequests(s, NextState(s, step))
  {
    match step
    case DoEvidence(ev) => EvidenceShape(s, ev);
    case DoGrant(gr) => GrantStepRequests(s, gr);
    case DoSubmit(r) => SubmitRequests(s, r);
    case DoSchedule => ScheduleRequests(s);
    case DoPublishParticipant(p) => PublishRequests(s, p);
    case DoFence(w, b) => FenceRequests(s, w, b);
    case DoCancel(id) => CancelRequests(s, id);
    case _ =>
  }

  lemma NoneSupersededStays(y: Sys, step: Step)
    requires SysInv(y) && Enabled(y, step) && !ScheduleThrows(y.st) && NoneSuperseded(y) && !step.DoSupersede?
    ensures NoneSuperseded(Next(y, step))
  {
    if !step.DoRestart? { RequestsStay(y.st, step); }
  }

  ghost predicate NoSupersede(steps: seq<Step>) { forall i | 0 <= i < |steps| :: !steps[i].DoSupersede? }
  ghost predicate NoFence(steps: seq<Step>) { forall i | 0 <= i < |steps| :: !steps[i].DoFence? }

  lemma {:induction false} SupersedeFreeIsCalm(y: Sys, steps: seq<Step>)
    requires SysInv(y) && ValidRun(y, steps) && NoneSuperseded(y) && NoSupersede(steps)
    ensures CalmRun(y, steps)
    ensures NoFence(steps) ==> ExactRun(y, steps)
    decreases |steps|
  {
    if steps != [] {
      NoneSupersededStays(y, steps[0]);
      SysStep(y, steps[0]);
      SupersedeFreeIsCalm(Next(y, steps[0]), steps[1..]);
    }
  }

  /** Without supersedes and fences the counter is exact in every state of every run. */
  lemma CounterIsExact(policy: Policy, epoch: Gen, steps: seq<Step>)
    requires ValidRun(NewSystem(policy, epoch), steps) && NoSupersede(steps) && NoFence(steps)
    ensures AlwaysExact(NewSystem(policy, epoch), steps)
  {
    var y := NewSystem(policy, epoch);
    NewSystemOk(policy, epoch);
    SupersedeFreeIsCalm(y, steps);
    assert ActiveSet(y.st) == {};
    ExactIffSafe(y, steps);
  }

  // ---- Runs without supersede ----

  ghost predicate CoverRun(y: Sys, steps: seq<Step>)
    requires ValidRun(y, steps)
    decreases |steps|
  {
    steps == [] || (CoverSafe(y.st, steps[0]) && CoverRun(Next(y, steps[0]), steps[1..]))
  }

  /** The counter is at least the number of active grants in every state of the run. */
  ghost predicate AlwaysCovered(y: Sys, steps: seq<Step>)
    requires ValidRun(y, steps)
    decreases |steps|
  {
    Covered(y.st) && (steps == [] || AlwaysCovered(Next(y, steps[0]), steps[1..]))
  }

  /** In a calm run the counter never falls below the truth if and only if no supersede
      finishes an inactive grant while the counter is positive and has no slack. */
  lemma {:induction false} CoveredIffSafe(y: Sys, steps: seq<Step>)
    requires SysInv(y) && CalmInv(y) && Covered(y.st) && ValidRun(y, steps) && CalmRun(y, steps)
    ensures AlwaysCovered(y, steps) <==> CoverRun(y, steps)
    decreases |steps|
  {
    if steps != [] {
      CoveredStep(y, steps[0]);
      SysStep(y, steps[0]);
      CalmStep(y, steps[0]);
      if Covered(Next(y, steps[0]).st) {
        CoveredIffSafe(Next(y, steps[0]), steps[1..]);
      } else {
        assert !AlwaysCovered(Next(y, steps[0]), steps[1..]);
      }
    }
  }

  lemma {:induction false} SupersedeFreeIsCovered(y: Sys, steps: seq<Step>)
    requires ValidRun(y, steps) && NoSupersede(steps)
    ensures CoverRun(y, steps)
    decreases |steps|
  {
    if steps != [] { SupersedeFreeIsCovered(Next(y, steps[0]), steps[1..]); }
  }

  /** Without supersedes, fences or not, the counter is never below the number of active
      grants in any state of any run. */
  lemma CounterNeverTooLow(policy: Policy, epoch: Gen, steps: seq<Step>)
    requires ValidRun(NewSystem(policy, epoch), steps) && NoSupersede(steps)
    ensures AlwaysCovered(NewSystem(policy, epoch), steps)
  {
    var y := NewSystem(policy, epoch);
    NewSystemOk(policy, epoch);
    SupersedeFreeIsCalm(y, steps);
    SupersedeFreeIsCovered(y, steps);
    assert ActiveSet(y.st) == {};
    CoveredIffSafe(y, steps);
  }

  // ---- The bound over runs ----

  /** The conditions under which the bound on active grants is kept. */
  ghost predicate BoundedRun(y: Sys, steps: seq<Step>)
    requires ValidRun(y, steps)
    decreases |steps|
  {
    steps == [] ||
    (KeepsBound(y, steps[0]) && CoverSafe(y.st, steps[0]) && BoundedRun(Next(y, steps[0]), steps[1..]))
  }

  /** Active and pending grants respect the bound in every state of the run. */
  ghost predicate AlwaysBounded(y: Sys, steps: seq<Step>)
    requires ValidRun(y, steps)
    decreases |steps|
  {
    && |ActiveSet(y.st)| + |PendingSet(y.st)| <= y.st.policy.bounds.maxActiveGrants
    && (steps == [] || AlwaysBounded(Next(y, steps[0]), steps[1..]))
  }

  lemma {:induction false} BoundOverRuns(y: Sys, steps: seq<Step>)
    requires SysInv(y) && CalmInv(y) && Covered(y.st) && WithinBound(y.st)
    requires ValidRun(y, steps) && DisciplinedRun(y, steps) && BoundedRun(y, steps)
    ensures AlwaysBounded(y, steps)
    decreases |steps|
  {
    if steps != [] {
      CoveredStep(y, steps[0]);
      BoundStep(y, steps[0]);
      SysStep(y, steps[0]);
      CalmStep(y, steps[0]);
      BoundOverRuns(Next(y, steps[0]), steps[1..]);
    }
  }

  /** Disciplined runs that supersede no inactive grant, under a bound that is not lowered,
      never have more active and pending grants than the bound allows. */
  lemma ActiveGrantsAreBounded(policy: Policy, epoch: Gen, steps: seq<Step>)
    requires ValidRun(NewSystem(policy, epoch), steps) && DisciplinedRun(NewSystem(policy, epoch), steps)
    requires BoundedRun(NewSystem(policy, epoch), steps)
    ensures AlwaysBounded(NewSystem(policy, epoch), steps)
  {
    var y := NewSystem(policy, epoch);
    NewSystemOk(policy, epoch);
    assert ActiveSet(y.st) == {} && PendingSet(y.st) == {};
    BoundOverRuns(y, steps);
  }

  /** `schedule` is called only when no grant waits to be handed off or answered. */
  ghost predicate PatientRun(y: Sys, steps: seq<Step>)
    requires ValidRun(y, steps)
    decreases |steps|
  {
    steps == [] || ((steps[0].DoSchedule? ==> NonePending(y.st)) && PatientRun(Next(y, steps[0]), steps[1..]))
  }

  /** The step sets no other policy, by a call or by a restart. */
  ghost predicate KeepsPolicy(policy: Policy, step: Step) {
    !(step.DoEvidence? && step.ev.DoSetPolicy?) && (step.DoRestart? ==> step.policy == policy)
  }

  ghost predicate FixedPolicy(policy: Policy, steps: seq<Step>) {
    forall i | 0 <= i < |steps| :: KeepsPolicy(policy, steps[i])
  }

  lemma EvidenceStepPolicy(s: State, ev: EvidenceStep)
    requires !ev.DoSetPolicy?
    ensures EvidenceState(s, ev).policy == s.policy
  {
  }

  lemma PolicyStays(y: Sys, step: Step)
    requires SysInv(y) && !ScheduleThrows(y.st) && KeepsPolicy(y.st.policy, step)
    ensures Next(y, step).st.policy == y.st.policy
  {
    if step.DoRestart? {
      RestartedFacts(step.source, step.policy, step.epoch);
    } else if step.DoEvidence? {
      EvidenceStepPolicy(y.st, step.ev);
    } else {
      PolicyStep(y.st, step);
    }
  }

  lemma {:induction false} SupersedeFreeIsBounded(y: Sys, steps: seq<Step>)
    requires SysInv(y) && NoneSuperseded(y) && ValidRun(y, steps)
    requires NoSupersede(steps) && PatientRun(y, steps) && FixedPolicy(y.st.policy, steps)
    ensures DisciplinedRun(y, steps) && BoundedRun(y, steps)
    decreases |steps|
  {
    if steps != [] {
      NoneSupersededStays(y, steps[0]);
      SysStep(y, steps[0]);
      PolicyStays(y, steps[0]);
      SupersedeFreeIsBounded(Next(y, steps[0]), steps[1..]);
    }
  }

  /** Patient runs without supersedes, under one policy, fences or not, never have more
      active and pending grants than the policy allows. */
  lemma PatientRunsAreBounded(policy: Policy, epoch: Gen, steps: seq<Step>)
    requires ValidRun(NewSystem(policy, epoch), steps) && PatientRun(NewSystem(policy, epoch), steps)
    requires NoSupersede(steps) && FixedPolicy(policy, steps)
    ensures AlwaysBounded(NewSystem(policy, epoch), steps)
  {
    NewSystemOk(policy, epoch);
    SupersedeFreeIsBounded(NewSystem(policy, epoch), steps);
    ActiveGrantsAreBounded(policy, epoch, steps);
  }
}
