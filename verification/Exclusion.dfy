/** Mutual exclusion over whole runs: live grants never share a participant, provided
    `schedule` is called with no grant pending. */
module Exclusion {
  import opened Types
  import opened Lifecycles
  import opened Conflicts
  import opened States
  import opened Steps
  import opened Invariants
  import opened Decisions
  import opened Runs

  /** A grant that is running, or about to: its record is GRANTED or DISPATCHING. */
  ghost predicate Live(s: State, x: Id) {
    && x in s.grants && !s.grants[x].terminal && s.grants[x].grant.request in s.records
    && (s.grants[x].active || Pending(s.records[s.grants[x].grant.request].lifecycle))
  }

  ghost predicate LiveDisjoint(s: State) {
    forall x, z | Live(s, x) && Live(s, z) && x != z ::
      Disjoint(s.grants[x].grant.participants, s.grants[z].grant.participants)
  }

  // ---- Discipline ----

  /** No handoff in flight belongs to a request superseded since. */
  ghost predicate NoneSuperseded(y: Sys) {
    forall g | g in y.inflight :: g.request in y.st.records && g.requestGen == y.st.records[g.request].request.gen
  }

  ghost predicate NonePending(s: State) { forall id | id in s.records :: !Pending(s.records[id].lifecycle) }

  /** When `schedule` is called, no handoff in flight has been superseded. */
  ghost predicate Calm(y: Sys, step: Step) { step.DoSchedule? ==> NoneSuperseded(y) }

  /** And no earlier grant is still waiting to be handed off or answered. */
  ghost predicate Disciplined(y: Sys, step: Step) { Calm(y, step) && (step.DoSchedule? ==> NonePending(y.st)) }

  /** A handoff in flight is not running yet, and if its request has been superseded the
      request holds no authority. */
  ghost predicate InflightOk(s: State, g: Grant) {
    && (g.id in s.grants ==> !s.grants[g.id].active)
    && (g.request in s.records && g.requestGen != s.records[g.request].request.gen ==>
          !Holding(s.records[g.request].lifecycle))
  }

  /** An ACTIVE record's grant is running. */
  ghost predicate ActiveRuns(s: State, id: Id)
    requires id in s.records
  {
    s.records[id].lifecycle.Active? ==>
      s.records[id].current.Some? && s.records[id].current.value.id in s.grants
      && s.grants[s.records[id].current.value.id].active
  }

  ghost predicate CalmState(s: State, inflight: set<Grant>) {
    && (forall g | g in inflight :: InflightOk(s, g))
    && (forall id | id in s.records :: ActiveRuns(s, id))
  }

  ghost predicate CalmInv(y: Sys) { CalmState(y.st, y.inflight) }

  // ---- Steps that only take authority away ----

  ghost predicate RecordWithdraws(s: State, t: State, id: Id)
    requires id in t.records
  {
    Holding(t.records[id].lifecycle) ==>
      && id in s.records
      && t.records[id].request == s.records[id].request && t.records[id].current == s.records[id].current
      && (t.records[id].lifecycle.Active? ==> s.records[id].lifecycle.Active?)
      && (Pending(t.records[id].lifecycle) ==> Pending(s.records[id].lifecycle))
  }

  ghost predicate GrantWithdraws(s: State, t: State, x: Id)
    requires x in t.grants
  {
    && x in s.grants && t.grants[x].grant == s.grants[x].grant
    && (s.grants[x].terminal ==> t.grants[x].terminal)
    && (t.grants[x].active ==> s.grants[x].active)
    && (!t.grants[x].terminal ==> t.grants[x].active == s.grants[x].active)
  }

  ghost predicate Withdraws(s: State, t: State) {
    && (forall id | id in t.records :: RecordWithdraws(s, t, id))
    && (forall x | x in t.grants :: GrantWithdraws(s, t, x))
  }

  lemma WithdrawalKeepsCalm(y: Sys, t: State)
    requires SysInv(y) && CalmInv(y) && Inv(t) && Withdraws(y.st, t) && Evolves(y.st, t)
    ensures CalmState(t, y.inflight)
  {
    forall id | id in t.records ensures ActiveRuns(t, id) {
      if t.records[id].lifecycle.Active? {
        assert RecordWithdraws(y.st, t, id) && ActiveRuns(y.st, id);
        assert RecordOk(t, id);
      }
    }
    forall g | g in y.inflight ensures InflightOk(t, g) {
      assert InflightOk(y.st, g) && FreshOk(y.st, g);
      if g.request in t.records { assert RecordWithdraws(y.st, t, g.request); }
    }
  }

  lemma WithdrawalKeepsDisjoint(s: State, t: State)
    requires LiveDisjoint(s) && Withdraws(s, t) && Inv(s) && Inv(t)
    ensures LiveDisjoint(t)
  {
    forall x | Live(t, x) ensures Live(s, x) && t.grants[x].grant == s.grants[x].grant {
      assert GrantWithdraws(s, t, x);
      assert GrantOk(s, x);
      assert RecordWithdraws(s, t, t.grants[x].grant.request);
    }
  }

  lemma EvidenceWithdraws(s: State, ev: EvidenceStep)
    requires CongestionOk(s)
    ensures Withdraws(s, EvidenceState(s, ev))
  {
    EvidenceShape(s, ev);
  }

  lemma FenceWithdraws(s: State, w: Id, b: Id)
    ensures Withdraws(s, Fence(s, w, b))
  {
  }

  lemma PublishWithdraws(s: State, p: Participant)
    ensures Withdraws(s, PublishParticipant(s, p))
  {
  }

  lemma SubmitWithdraws(s: State, req: Request)
    ensures Withdraws(s, Submit(s, req))
  {
    if |s.records| >= s.policy.bounds.maxCollectives {
      WithdrawsReflexive(s);
    } else if SubmitError(s, req).Some? {
      SameWithdraws(s, s.(counters := s.counters.(request := s.counters.request + 1)));
    } else {
      AdmitWithdraws(s, Labelled(s, req));
    }
  }

  lemma SameWithdraws(s: State, t: State)
    requires t.records == s.records && t.grants == s.grants
    ensures Withdraws(s, t)
  {
  }

  lemma AdmitWithdraws(s: State, q: Request)
    ensures Withdraws(s, Admit(s, q))
  {
  }

  lemma SupersedeWithdraws(s: State, req: Request)
    ensures Withdraws(s, Supersede(s, req))
  {
    if SupersedeError(s, req).Some? {
      WithdrawsReflexive(s);
    } else {
      ReplaceWithdraws(s, s.records[req.id], req);
    }
  }

  lemma ReplaceWithdraws(s: State, prev: Record, req: Request)
    ensures Withdraws(s, Replace(s, prev, req))
  {
    if prev.current.Some? && prev.current.value.id in s.grants {
      FinishWithdraws(s, Replace(s, prev, req), req.id, prev.current.value.id);
    } else {
      RefiledWithdraws(s, Replace(s, prev, req), req.id);
    }
  }

  lemma FinishWithdraws(s: State, t: State, id: Id, x: Id)
    requires x in s.grants && t.grants == s.grants[x := Finish(s.grants[x])]
    requires id in t.records && t.records == s.records[id := t.records[id]] && !Holding(t.records[id].lifecycle)
    ensures Withdraws(s, t)
  {
  }

  lemma RefiledWithdraws(s: State, t: State, id: Id)
    requires t.grants == s.grants
    requires id in t.records && t.records == s.records[id := t.records[id]] && !Holding(t.records[id].lifecycle)
    ensures Withdraws(s, t)
  {
  }

  lemma CancelWithdraws(s: State, id: Id)
    ensures Withdraws(s, Cancel(s, id))
  {
    if id !in s.records || Terminal(s.records[id].lifecycle) {
      WithdrawsReflexive(s);
    } else if OnFile(s, s.records[id]) && !s.grants[s.records[id].current.value.id].terminal {
      FinishWithdraws(s, Cancel(s, id), id, s.records[id].current.value.id);
    } else {
      RefiledWithdraws(s, Cancel(s, id), id);
    }
  }

  lemma RecoverWithdraws(s: State)
    ensures Withdraws(s, Recover(s))
  {
  }

  lemma WithdrawsReflexive(s: State)
    ensures Withdraws(s, s)
  {
  }

  lemma HandoffBeginWithdraws(s: State, g: Grant)
    requires Genuine(s, g) && HandoffStarts(s, g) && RecordOk(s, g.request)
    ensures Withdraws(s, HandoffBegin(s, g))
  {
    DispatchStartsFromGranted(s, g);
    if g.id in s.grants { DispatchedWithdraws(s, g); }
  }

  lemma DispatchedWithdraws(s: State, g: Grant)
    requires g.request in s.records && s.records[g.request].lifecycle.Granted?
    requires g.id in s.grants && s.grants[g.id].grant == g
    ensures Withdraws(s, Dispatched(s, g))
  {
  }

  lemma CompleteWithdraws(s: State, g: Grant, wb: Id, sb: Id)
    requires Genuine(s, g)
    ensures Withdraws(s, Complete(s, g, wb, sb))
  {
    if !CompletionAccepted(s, g, wb, sb) { WithdrawsReflexive(s); }
  }

  lemma PresentedWithdraws(y: Sys, gr: GrantStep)
    requires SysInv(y) && Enabled(y, DoGrant(gr)) && !gr.DoHandoffEnd?
    ensures Withdraws(y.st, GrantStepState(y.st, gr))
  {
    PresentedGrant(y, gr.grant);
    if gr.DoHandoffBegin? && HandoffStarts(y.st, gr.grant) {
      HandoffBeginWithdraws(y.st, gr.grant);
    } else if gr.DoComplete? && gr.grant in y.own {
      CompleteWithdraws(y.st, gr.grant, gr.workerBoot, gr.sourceBoot);
    } else {
      assert GrantStepState(y.st, gr) == y.st;
    }
  }

  /** Everything but the fabric's answer, scheduling and restarting. */
  lemma StepWithdraws(y: Sys, step: Step)
    requires SysInv(y) && Enabled(y, step) && !ScheduleThrows(y.st)
    requires !step.DoSchedule? && !step.DoRestart? && !(step.DoGrant? && step.gr.DoHandoffEnd?)
    ensures Withdraws(y.st, NextState(y.st, step))
  {
    var s := y.st;
    match step
    case DoEvidence(ev) => EvidenceWithdraws(s, ev);
    case DoGrant(gr) => PresentedWithdraws(y, gr);
    case DoPublishParticipant(p) => PublishWithdraws(s, p);
    case DoSubmit(r) => SubmitWithdraws(s, r);
    case DoSupersede(r) => SupersedeWithdraws(s, r);
    case DoCancel(id) => CancelWithdraws(s, id);
    case DoFence(w, b) => FenceWithdraws(s, w, b);
    case DoRecover => RecoverWithdraws(s);
    case DoSave(_) => WithdrawsReflexive(s);
  }

  // ---- The fabric's answer ----

  /** In a calm run the answer concerns the record's current, not yet running grant. */
  lemma AnswerIsForCurrent(y: Sys, g: Grant)
    requires SysInv(y) && CalmInv(y) && g in y.inflight && Holding(y.st.records[g.request].lifecycle)
    ensures y.st.records[g.request].current == Some(g) && g.id in y.st.grants
    ensures !y.st.grants[g.id].terminal && !y.st.grants[g.id].active
    ensures !y.st.records[g.request].lifecycle.Active?
  {
    assert FreshOk(y.st, g) && InflightOk(y.st, g);
    assert RecordOk(y.st, g.request) && ActiveRuns(y.st, g.request);
  }

  /** The answer that lets a grant run: accepted, and the record is still dispatching. */
  ghost predicate Activates(s: State, g: Grant, accepted: bool) {
    accepted && g.request in s.records && s.records[g.request].lifecycle.Dispatching?
  }

  ghost predicate IsRunning(s: State, g: Grant) {
    g.id in s.grants && s.grants[g.id].grant == g && s.grants[g.id].Running()
  }

  /** A handoff in flight belongs to the record's generation exactly when the record, holding
      authority, holds it by this very grant; one left behind is finished or forgotten. */
  lemma InflightIsCurrentIff(y: Sys, g: Grant)
    requires SysInv(y) && g in y.inflight
    ensures g.request in y.st.records
    ensures var r := y.st.records[g.request];
            && (Holding(r.lifecycle) ==> (r.current == Some(g) <==> g.requestGen == r.request.gen))
            && (g.requestGen != r.request.gen && g.id in y.st.grants ==> y.st.grants[g.id].terminal)
            && (r.current == Some(g) ==> g.id in y.st.grants)
            && (g.id in y.st.grants ==> y.st.grants[g.id].grant == g)
  {
    assert FreshOk(y.st, g) && RecordOk(y.st, g.request);
    if g.id in y.st.grants { assert GrantOk(y.st, g.id); }
  }

  /** The answer does not look at the generation: an accepted one makes a dispatching record
      ACTIVE, and the grant that record holds runs if and only if the answer is for the
      record's generation. */
  lemma AnswerFitsIff(y: Sys, g: Grant)
    requires SysInv(y) && g in y.inflight && Activates(y.st, g, true)
    ensures y.st.records[g.request].current == Some(g) <==> g.requestGen == y.st.records[g.request].request.gen
    ensures g.request in HandoffEnd(y.st, g, true).records
    ensures HandoffEnd(y.st, g, true).records[g.request].lifecycle.Active?
    ensures ActiveRuns(HandoffEnd(y.st, g, true), g.request) <==> g.requestGen == y.st.records[g.request].request.gen
  {
    InflightIsCurrentIff(y, g);
    assert RecordOk(y.st, g.request);
    var h := y.st.records[g.request].current.value;
    assert GrantOk(y.st, h.id);
  }

  /** When the record is ACTIVE already, the answer is not looked at: records stay as they
      are, and a grant on file is counted, listed and marked active, also if the fabric
      refused it and also if it is finished. */
  lemma AnswerToActive(s: State, g: Grant, accepted: bool)
    requires g.request in s.records && s.records[g.request].lifecycle.Active?
    ensures HandoffEnd(s, g, accepted) == if g.id in s.grants then Activated(s, g) else s
    ensures HandoffEnd(s, g, accepted).records == s.records
    ensures g.id in s.grants ==> HandoffEnd(s, g, accepted).activeGrants == s.activeGrants + 1
  {
    var r := s.records[g.request];
    assert r.(lifecycle := Active) == r && s.records[g.request := r] == s.records;
  }

  /** Exactly when the answer starts a grant: it is for the record's generation, and the
      record is ACTIVE already or dispatching and the fabric accepted. */
  lemma AnswerStartsIff(y: Sys, g: Grant, accepted: bool)
    requires SysInv(y) && g in y.inflight && !IsRunning(y.st, g)
    ensures g.request in y.st.records
    ensures var r := y.st.records[g.request];
            IsRunning(HandoffEnd(y.st, g, accepted), g) <==>
            g.requestGen == r.request.gen && (r.lifecycle.Active? || (r.lifecycle.Dispatching? && accepted))
  {
    InflightIsCurrentIff(y, g);
    assert RecordOk(y.st, g.request);
  }

  /** The grant is its record's current one, on file and not running yet. */
  ghost predicate AwaitsAnswer(s: State, g: Grant) {
    && g.request in s.records && s.records[g.request].lifecycle.Dispatching? && s.records[g.request].current == Some(g)
    && g.id in s.grants && s.grants[g.id].grant == g && !s.grants[g.id].terminal && !s.grants[g.id].active
  }

  /** In a calm run the answer either activates the grant it is for or changes nothing. */
  lemma HandoffEndCases(y: Sys, g: Grant, accepted: bool)
    requires SysInv(y) && CalmInv(y) && g in y.inflight
    ensures Activates(y.st, g, accepted) ==>
              AwaitsAnswer(y.st, g) && HandoffEnd(y.st, g, accepted) == Activated(y.st, g)
    ensures !Activates(y.st, g, accepted) ==> HandoffEnd(y.st, g, accepted) == y.st
  {
    var s := y.st;
    assert FreshOk(s, g) && InflightOk(s, g);
    if Holding(s.records[g.request].lifecycle) { AnswerIsForCurrent(y, g); }
    if !Activates(s, g, accepted) { UnansweredChangesNothing(s, g, accepted); }
  }

  lemma UnansweredChangesNothing(s: State, g: Grant, accepted: bool)
    requires g.request in s.records && !Activates(s, g, accepted) && !s.records[g.request].lifecycle.Active?
    requires g.id in s.grants ==> !s.grants[g.id].active
    ensures HandoffEnd(s, g, accepted) == s
  {
    if g.id in s.grants {
      assert s.grants[g.id := s.grants[g.id].(active := false)] == s.grants;
    } else {
      assert s.records[g.request := s.records[g.request]] == s.records;
    }
  }

  lemma ActivatedCalm(s: State, g: Grant, id: Id)
    requires AwaitsAnswer(s, g) && id in s.records && ActiveRuns(s, id)
    ensures ActiveRuns(Activated(s, g), id)
  {
  }

  lemma ActivatedInflight(s: State, g: Grant, h: Grant)
    requires AwaitsAnswer(s, g) && InflightOk(s, h) && h.id != g.id
    ensures InflightOk(Activated(s, g), h)
  {
  }

  lemma HandoffEndCalm(y: Sys, g: Grant, accepted: bool)
    requires SysInv(y) && CalmInv(y) && g in y.inflight
    ensures CalmState(HandoffEnd(y.st, g, accepted), y.inflight - {g})
  {
    HandoffEndCases(y, g, accepted);
    if Activates(y.st, g, accepted) {
      forall id | id in y.st.records { ActivatedCalm(y.st, g, id); }
      forall h | h in y.inflight - {g} ensures InflightOk(Activated(y.st, g), h) { ActivatedInflight(y.st, g, h); }
    }
  }

  lemma ActivatedLive(s: State, g: Grant, x: Id)
    requires AwaitsAnswer(s, g) && Live(Activated(s, g), x) && x in s.grants && GrantOk(s, x)
    ensures Live(s, x) && Activated(s, g).grants[x].grant == s.grants[x].grant
  {
  }

  lemma HandoffEndDisjoint(y: Sys, g: Grant, accepted: bool)
    requires SysInv(y) && CalmInv(y) && g in y.inflight && LiveDisjoint(y.st)
    ensures LiveDisjoint(HandoffEnd(y.st, g, accepted))
  {
    var s := y.st;
    HandoffEndCases(y, g, accepted);
    if Activates(s, g, accepted) {
      forall x | Live(Activated(s, g), x) ensures Live(s, x) && Activated(s, g).grants[x].grant == s.grants[x].grant {
        ActivatedLive(s, g, x);
      }
    }
  }

  // ---- Scheduling ----

  lemma ScheduleCalm(y: Sys)
    requires SysInv(y) && CalmInv(y) && !ScheduleThrows(y.st) && NoneSuperseded(y)
    ensures CalmState(ScheduledState(y.st), y.inflight)
  {
    var s, t := y.st, ScheduledState(y.st);
    ScheduleFiles(s);
    ScheduleTouchesOnly(s);
    forall id | id in s.records ensures ActiveRuns(t, id) {
      ScheduledRecord(s, id);
      PreparedRecordFacts(s, id);
      assert ActiveRuns(s, id);
    }
    forall g | g in y.inflight ensures InflightOk(t, g) {
      assert InflightOk(s, g) && FreshOk(s, g);
      ScheduledRecord(s, g.request);
    }
  }

  lemma IndexOf(v: seq<Id>, x: Id) returns (i: nat)
    requires x in v
    ensures i < |v| && v[i] == x
  {
    i :| 0 <= i < |v| && v[i] == x;
  }

  lemma SelectedPairDisjoint(s: State, i: nat, j: nat)
    requires Inv(s) && !ScheduleThrows(s) && i < |Selected(s)| && j < |Selected(s)| && i != j
    ensures Selected(s)[i] in s.records && Selected(s)[j] in s.records
    ensures Disjoint(s.records[Selected(s)[i]].request.participants, s.records[Selected(s)[j]].request.participants)
  {
    SelectedAreApart(s, i, j);
  }

  /** Two selected requests share no participant. */
  lemma SelectedDisjoint(s: State, a: Id, b: Id)
    requires Inv(s) && !ScheduleThrows(s) && a in Selected(s) && b in Selected(s) && a != b
    ensures a in s.records && b in s.records
    ensures Disjoint(s.records[a].request.participants, s.records[b].request.participants)
  {
    var i := IndexOf(Selected(s), a);
    var j := IndexOf(Selected(s), b);
    SelectedPairDisjoint(s, i, j);
  }

  /** A selected request shares no participant with a running grant. */
  lemma SelectedAvoidsRunning(s: State, a: Id, x: Id)
    requires Inv(s) && !ScheduleThrows(s) && a in Selected(s) && x in s.grants && s.grants[x].Running()
    ensures a in s.records && Disjoint(s.records[a].request.participants, s.grants[x].grant.participants)
  {
    SelectedFacts(s);
    IndexRefinesScan(s, a);
    assert ConflictingGrants(Prepared(s), Prepared(s).records[a]) == {};
    assert x !in RunningSharers(s, s.records[a].request);
  }

  /** After a decision the live grants are those that were live and the new ones. */
  lemma ScheduledLive(s: State, x: Id)
    requires Inv(s) && !ScheduleThrows(s) && Inv(ScheduledState(s)) && Live(ScheduledState(s), x)
    ensures var g := ScheduledState(s).grants[x].grant;
            || (Live(s, x) && g == s.grants[x].grant)
            || (g.request in Selected(s) && g.request in s.records
                && g.participants == s.records[g.request].request.participants)
  {
    var t := ScheduledState(s);
    var g := t.grants[x].grant;
    ScheduleFiles(s);
    assert GrantOk(t, x) && RecordOk(t, g.request);
    assert g.request in s.records by { ScheduleTouchesOnly(s); }
    ScheduledRecord(s, g.request);
    PreparedRecordFacts(s, g.request);
    if x in s.grants {
      assert GrantOk(s, x) && RecordOk(s, g.request);
    } else {
      assert CurrentOk(s, s.records[g.request]) by { assert RecordOk(s, g.request); }
    }
  }

  /** Grants that were live stay live through a decision. */
  lemma LiveStays(s: State, x: Id)
    requires Inv(s) && !ScheduleThrows(s) && Live(s, x)
    ensures Live(ScheduledState(s), x) && ScheduledState(s).grants[x] == s.grants[x]
  {
    var id := s.grants[x].grant.request;
    ScheduleFiles(s);
    assert GrantOk(s, x) && RecordOk(s, id);
    ScheduledRecord(s, id);
    PreparedRecordFacts(s, id);
  }

  /** Every selected request has a new live grant. */
  lemma SelectedLive(s: State, a: Id) returns (x: Id)
    requires Inv(s) && !ScheduleThrows(s) && Inv(ScheduledState(s)) && a in Selected(s)
    ensures a in s.records && x !in s.grants && Live(ScheduledState(s), x)
    ensures ScheduledState(s).grants[x].grant.participants == s.records[a].request.participants
  {
    var t := ScheduledState(s);
    SelectedFacts(s);
    ScheduledRecord(s, a);
    ScheduleFiles(s);
    assert RecordOk(t, a) && RecordOk(s, a);
    x := t.records[a].current.value.id;
    forall z | z in s.grants && s.grants[z].grant.request == a ensures s.grants[z].terminal { assert GrantOk(s, z); }
  }

  /** No selected request shares a participant with a live grant. */
  ghost predicate SelectionClear(s: State)
    requires !ScheduleThrows(s)
  {
    forall a, x | a in Selected(s) && Live(s, x) ::
      a in s.records && Disjoint(s.records[a].request.participants, s.grants[x].grant.participants)
  }

  lemma ClearKeepsDisjoint(s: State, x: Id, z: Id)
    requires Inv(s) && !ScheduleThrows(s) && SelectionClear(s) && LiveDisjoint(s) && Inv(ScheduledState(s))
    requires Live(ScheduledState(s), x) && Live(ScheduledState(s), z) && x != z
    ensures Disjoint(ScheduledState(s).grants[x].grant.participants, ScheduledState(s).grants[z].grant.participants)
  {
    var t := ScheduledState(s);
    var g, h := t.grants[x].grant, t.grants[z].grant;
    ScheduledLive(s, x);
    ScheduledLive(s, z);
    if Live(s, x) && g == s.grants[x].grant {
      if !(Live(s, z) && h == s.grants[z].grant) { DisjointSymmetric(h.participants, g.participants); }
    } else if !(Live(s, z) && h == s.grants[z].grant) {
      assert GrantOk(t, x) && GrantOk(t, z);
      SelectedDisjoint(s, g.request, h.request);
    }
  }

  /** A decision keeps exclusion if and only if what it selects is clear of live grants. */
  lemma ScheduleDisjointIff(s: State)
    requires Inv(s) && !ScheduleThrows(s) && LiveDisjoint(s) && Inv(ScheduledState(s))
    ensures LiveDisjoint(ScheduledState(s)) <==> SelectionClear(s)
  {
    var t := ScheduledState(s);
    if SelectionClear(s) {
      forall x, z | Live(t, x) && Live(t, z) && x != z
        ensures Disjoint(t.grants[x].grant.participants, t.grants[z].grant.participants)
      {
        ClearKeepsDisjoint(s, x, z);
      }
    }
    if LiveDisjoint(t) {
      forall a, x | a in Selected(s) && Live(s, x)
        ensures a in s.records && Disjoint(s.records[a].request.participants, s.grants[x].grant.participants)
      {
        LiveStays(s, x);
        var z := SelectedLive(s, a);
      }
    }
  }

  // ---- Before the call ----

  /** A grant that is issued but not running yet: `schedule` cannot see it. */
  ghost predicate Waits(s: State, x: Id) { Live(s, x) && !s.grants[x].active }

  /** No candidate shares a participant with a grant that is waiting. */
  ghost predicate CandidatesClear(s: State)
    requires !ScheduleThrows(s)
  {
    forall c, x | c in Candidates(s) && Waits(s, x) ::
      c in s.records && Disjoint(s.records[c].request.participants, s.grants[x].grant.participants)
  }

  lemma NonePendingIsClear(s: State)
    requires !ScheduleThrows(s) && NonePending(s)
    ensures CandidatesClear(s)
  {
  }

  /** Enough for a decision to keep exclusion: the index takes care of running grants. */
  lemma ClearCandidatesSuffice(s: State)
    requires Inv(s) && !ScheduleThrows(s) && CandidatesClear(s)
    ensures SelectionClear(s)
  {
    SelectedFacts(s);
    forall a, x | a in Selected(s) && Live(s, x)
      ensures a in s.records && Disjoint(s.records[a].request.participants, s.grants[x].grant.participants)
    {
      if s.grants[x].active { SelectedAvoidsRunning(s, a, x); } else { assert Waits(s, x); }
    }
  }

  /** The candidate at position `i` of the ranking is not blocked by anything `schedule` can
      see, but shares a participant with a waiting grant. */
  ghost predicate Collides(s: State, i: nat)
    requires !ScheduleThrows(s)
  {
    && Unblocked(s, i)
    && exists x | Waits(s, x) ::
         !Disjoint(s.records[Ranking(s)[i]].request.participants, s.grants[x].grant.participants)
  }

  /** Then exclusion fails. */
  lemma CollisionBreaksExclusion(s: State, i: nat)
    requires Inv(s) && !ScheduleThrows(s) && Collides(s, i)
    ensures !SelectionClear(s) && !LiveDisjoint(ScheduledState(s))
  {
    UnblockedIsSelected(s, i);
    ScheduleKeeps(s);
    var x :| Waits(s, x) && !Disjoint(s.records[Ranking(s)[i]].request.participants, s.grants[x].grant.participants);
    LiveStays(s, x);
    var z := SelectedLive(s, Ranking(s)[i]);
  }

  // ---- Runs ----

  lemma CalmStep(y: Sys, step: Step)
    requires SysInv(y) && CalmInv(y) && Enabled(y, step) && Calm(y, step) && !ScheduleThrows(y.st)
    ensures CalmInv(Next(y, step))
  {
    if step.DoSchedule? {
      ScheduleCalm(y);
    } else if step.DoRestart? {
      RestartedFacts(step.source, step.policy, step.epoch);
    } else if step.DoGrant? && step.gr.DoHandoffEnd? {
      HandoffEndCalm(y, step.gr.grant, step.gr.accepted);
    } else {
      StateStep(y, step);
      StepWithdraws(y, step);
      WithdrawalKeepsCalm(y, NextState(y.st, step));
      InflightGrows(y, step);
    }
  }

  /** Only a handoff that starts joins those in flight. */
  lemma InflightGrows(y: Sys, step: Step)
    requires SysInv(y) && Enabled(y, step) && !ScheduleThrows(y.st)
    requires CalmState(NextState(y.st, step), y.inflight) && !step.DoRestart?
    ensures CalmState(NextState(y.st, step), NextInflight(y, step))
  {
    if step.DoGrant? && step.gr.DoHandoffBegin? && HandoffStarts(y.st, step.gr.grant) {
      StartedHandoffOk(y, step.gr.grant);
    }
  }

  lemma StartedHandoffOk(y: Sys, g: Grant)
    requires SysInv(y) && g in y.issued && HandoffStarts(y.st, g)
    ensures InflightOk(HandoffBegin(y.st, g), g)
  {
    PresentedGrant(y, g);
    assert FreshOk(y.st, g) && RecordOk(y.st, g.request);
    assert y.st.records[g.request].current == Some(g);
    assert GrantOk(y.st, g.id);
  }

  lemma ExclusionStep(y: Sys, step: Step)
    requires SysInv(y) && CalmInv(y) && LiveDisjoint(y.st) && Enabled(y, step) && !ScheduleThrows(y.st)
    ensures LiveDisjoint(Next(y, step).st) <==> (step.DoSchedule? ==> SelectionClear(y.st))
  {
    if step.DoSchedule? {
      ScheduleKeeps(y.st);
      ScheduleDisjointIff(y.st);
    } else if step.DoRestart? {
      RestartedFacts(step.source, step.policy, step.epoch);
    } else if step.DoGrant? && step.gr.DoHandoffEnd? {
      HandoffEndDisjoint(y, step.gr.grant, step.gr.accepted);
    } else {
      StateStep(y, step);
      StepWithdraws(y, step);
      WithdrawalKeepsDisjoint(y.st, NextState(y.st, step));
    }
  }

  ghost predicate CalmRun(y: Sys, steps: seq<Step>)
    requires ValidRun(y, steps)
    decreases |steps|
  {
    steps == [] || (Calm(y, steps[0]) && CalmRun(Next(y, steps[0]), steps[1..]))
  }

  /** Every decision of the run selects requests clear of the grants live at the time. */
  ghost predicate ClearRun(y: Sys, steps: seq<Step>)
    requires ValidRun(y, steps)
    decreases |steps|
  {
    steps == [] || ((steps[0].DoSchedule? ==> SelectionClear(y.st)) && ClearRun(Next(y, steps[0]), steps[1..]))
  }

  /** In every state of the run live grants have disjoint participants. */
  ghost predicate AlwaysExclusive(y: Sys, steps: seq<Step>)
    requires ValidRun(y, steps)
    decreases |steps|
  {
    LiveDisjoint(y.st) && (steps == [] || AlwaysExclusive(Next(y, steps[0]), steps[1..]))
  }

  /** Exactly when a calm run is exclusive throughout. */
  lemma {:induction false} ExclusionIffClear(y: Sys, steps: seq<Step>)
    requires SysInv(y) && CalmInv(y) && LiveDisjoint(y.st) && ValidRun(y, steps) && CalmRun(y, steps)
    ensures AlwaysExclusive(y, steps) <==> ClearRun(y, steps)
    decreases |steps|
  {
    if steps != [] {
      SysStep(y, steps[0]);
      CalmStep(y, steps[0]);
      ExclusionStep(y, steps[0]);
      if LiveDisjoint(Next(y, steps[0]).st) {
        ExclusionIffClear(Next(y, steps[0]), steps[1..]);
      } else {
        assert !AlwaysExclusive(Next(y, steps[0]), steps[1..]);
      }
    }
  }

  ghost predicate DisciplinedRun(y: Sys, steps: seq<Step>)
    requires ValidRun(y, steps)
    decreases |steps|
  {
    steps == [] || (Disciplined(y, steps[0]) && DisciplinedRun(Next(y, steps[0]), steps[1..]))
  }

  /** Every decision of the run is calm and finds its candidates clear of waiting grants. */
  ghost predicate CarefulRun(y: Sys, steps: seq<Step>)
    requires ValidRun(y, steps)
    decreases |steps|
  {
    steps == [] ||
    (&& Calm(y, steps[0]) && (steps[0].DoSchedule? ==> CandidatesClear(y.st))
     && CarefulRun(Next(y, steps[0]), steps[1..]))
  }

  lemma {:induction false} CarefulIsClear(y: Sys, steps: seq<Step>)
    requires SysInv(y) && ValidRun(y, steps) && CarefulRun(y, steps)
    ensures CalmRun(y, steps) && ClearRun(y, steps)
    decreases |steps|
  {
    if steps != [] {
      SysStep(y, steps[0]);
      if steps[0].DoSchedule? { ClearCandidatesSuffice(y.st); }
      CarefulIsClear(Next(y, steps[0]), steps[1..]);
    }
  }

  lemma {:induction false} DisciplinedIsCareful(y: Sys, steps: seq<Step>)
    requires ValidRun(y, steps) && DisciplinedRun(y, steps)
    ensures CarefulRun(y, steps)
    decreases |steps|
  {
    if steps != [] {
      if steps[0].DoSchedule? { NonePendingIsClear(y.st); }
      DisciplinedIsCareful(Next(y, steps[0]), steps[1..]);
    }
  }

  /** Mutual exclusion under what a caller can check before each `schedule`: no handoff in
      flight has been superseded, and no candidate shares a participant with a waiting grant. */
  lemma CarefulRunsAreExclusive(policy: Policy, epoch: Gen, steps: seq<Step>)
    requires ValidRun(NewSystem(policy, epoch), steps) && CarefulRun(NewSystem(policy, epoch), steps)
    ensures AlwaysExclusive(NewSystem(policy, epoch), steps)
  {
    NewSystemOk(policy, epoch);
    CarefulIsClear(NewSystem(policy, epoch), steps);
    ExclusionIffClear(NewSystem(policy, epoch), steps);
  }

  /** Mutual exclusion: in every state of every disciplined run, grants that are running
      or pending have pairwise disjoint participant sets. */
  lemma MutualExclusion(policy: Policy, epoch: Gen, steps: seq<Step>)
    requires ValidRun(NewSystem(policy, epoch), steps) && DisciplinedRun(NewSystem(policy, epoch), steps)
    ensures AlwaysExclusive(NewSystem(policy, epoch), steps)
  {
    DisciplinedIsCareful(NewSystem(policy, epoch), steps);
    CarefulRunsAreExclusive(policy, epoch, steps);
  }
}
