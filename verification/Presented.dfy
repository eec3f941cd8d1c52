/** What it takes for a grant that a caller presents to be handed off, confirmed or completed,
    over the fields of the record, the grant and the published evidence. */
module Presented {
  import opened Types
  import opened Lifecycles
  import opened States
  import opened Steps
  import opened Invariants
  import opened Runs
  import opened Exclusion

  // ---- Completing ----

  /** Some participant of the grant is published under both boots. */
  ghost predicate UnderBoots(s: State, g: Grant, workerBoot: Id, sourceBoot: Id) {
    exists i | 0 <= i < |g.participants| :: RunsUnder(s, g.participants[i], workerBoot, sourceBoot)
  }

  ghost predicate RunsUnder(s: State, p: Id, workerBoot: Id, sourceBoot: Id) {
    p in s.participants && s.participants[p].workerBoot == workerBoot && s.participants[p].sourceBoot == sourceBoot
  }

  /** Whoever completes a grant under boots that none of its participants runs under is
      refused, and nothing changes. */
  lemma ForeignBootsAreRefused(s: State, g: Grant, workerBoot: Id, sourceBoot: Id)
    requires !UnderBoots(s, g, workerBoot, sourceBoot)
    ensures !CompletionAccepted(s, g, workerBoot, sourceBoot) && Complete(s, g, workerBoot, sourceBoot) == s
  {
    if BootMatches(s, g, workerBoot, sourceBoot) { BootsAreOfAParticipant(s, g, workerBoot, sourceBoot); }
  }

  lemma BootsAreOfAParticipant(s: State, g: Grant, workerBoot: Id, sourceBoot: Id)
    ensures BootMatches(s, g, workerBoot, sourceBoot) <==> UnderBoots(s, g, workerBoot, sourceBoot)
  {
    if BootMatches(s, g, workerBoot, sourceBoot) {
      var p :| p in g.participants && p in s.participants
               && s.participants[p].workerBoot == workerBoot && s.participants[p].sourceBoot == sourceBoot;
      var i :| 0 <= i < |g.participants| && g.participants[i] == p;
      assert RunsUnder(s, g.participants[i], workerBoot, sourceBoot);
    }
    if UnderBoots(s, g, workerBoot, sourceBoot) {
      var i :| 0 <= i < |g.participants| && RunsUnder(s, g.participants[i], workerBoot, sourceBoot);
      assert g.participants[i] in g.participants;
    }
  }

  ghost predicate AllReady(s: State, g: Grant) {
    forall i | 0 <= i < |g.participants| :: IsReady(s, g.participants[i])
  }

  ghost predicate IsReady(s: State, p: Id) {
    p in s.participants && s.participants[p].ready && s.participants[p].readinessSource != PROVENANCE_UNKNOWN
  }

  lemma AvailableIsReady(s: State, g: Grant)
    ensures ParticipantsAvailable(s, g.participants) <==> AllReady(s, g)
  {
    forall i | 0 <= i < |g.participants|
      ensures IsReady(s, g.participants[i])
              <==> g.participants[i] in s.participants && Available(s.participants[g.participants[i]])
    {
    }
    if ParticipantsAvailable(s, g.participants) {
      forall i | 0 <= i < |g.participants| ensures IsReady(s, g.participants[i]) {
        assert g.participants[i] in g.participants;
      }
    }
    if AllReady(s, g) {
      forall p | p in g.participants ensures p in s.participants && Available(s.participants[p]) {
        var i :| 0 <= i < |g.participants| && g.participants[i] == p;
        assert IsReady(s, g.participants[i]);
      }
    }
  }

  /** The grant under which the record runs, in the current epoch. */
  ghost predicate RunsRecord(s: State, g: Grant) {
    && g.request in s.records && s.records[g.request].lifecycle.Active? && s.records[g.request].current == Some(g)
    && g.evidence.epoch == s.epoch
  }

  /** In every reachable state: a completion is accepted exactly for the grant under which an
      ACTIVE record runs, in the current epoch, with all its participants ready, and under
      both boots of one of them. */
  lemma CompletionIff(y: Sys, g: Grant, workerBoot: Id, sourceBoot: Id)
    requires SysInv(y) && g in y.issued
    ensures CompletionAccepted(y.st, g, workerBoot, sourceBoot) <==>
            RunsRecord(y.st, g) && AllReady(y.st, g) && UnderBoots(y.st, g, workerBoot, sourceBoot)
  {
    PresentedGrant(y, g);
    AvailableIsReady(y.st, g);
    BootsAreOfAParticipant(y.st, g, workerBoot, sourceBoot);
    if g.request in y.st.records { assert RecordOk(y.st, g.request); }
    if CompletionAccepted(y.st, g, workerBoot, sourceBoot) { assert FreshOk(y.st, g); }
  }

  /** It completes the record and notes who completed it; no other record and no other
      evidence changes. */
  lemma CompletionEffect(s: State, g: Grant, workerBoot: Id, sourceBoot: Id)
    requires CompletionAccepted(s, g, workerBoot, sourceBoot)
    ensures var t := Complete(s, g, workerBoot, sourceBoot);
            && t.records.Keys == s.records.Keys && t.records[g.request].lifecycle.Completed?
            && t.records[g.request].request == s.records[g.request].request
            && (forall id | id in s.records && id != g.request :: t.records[id] == s.records[id])
            && t.grants[g.id].completedBy == workerBoot && t.grants[g.id].completedBySource == sourceBoot
            && t == s.(records := t.records, grants := t.grants, activeGrants := t.activeGrants,
                       activeByParticipant := t.activeByParticipant)
            && (forall p, x :: Listed(t.activeByParticipant, p, x) <==>
                  Listed(s.activeByParticipant, p, x) && !(p in g.participants && x == g.id))
  {
  }

  /** The step completes the grant under these boots. */
  ghost predicate CompletesUnder(z: Sys, step: Step, g: Grant, workerBoot: Id, sourceBoot: Id) {
    && step == DoGrant(DoComplete(g, workerBoot, sourceBoot))
    && RunsRecord(z.st, g) && AllReady(z.st, g) && UnderBoots(z.st, g, workerBoot, sourceBoot)
  }

  lemma CompletedByStep(y: Sys, step: Step, g: Grant) returns (workerBoot: Id, sourceBoot: Id)
    requires SysInv(y) && Enabled(y, step) && !ScheduleThrows(y.st)
    requires g in Next(y, step).completed && g !in y.completed
    ensures CompletesUnder(y, step, g, workerBoot, sourceBoot)
  {
    workerBoot, sourceBoot := step.gr.workerBoot, step.gr.sourceBoot;
    CompletionIff(y, g, workerBoot, sourceBoot);
  }

  /** The run up to a later step is the rest of the run up to it. */
  lemma RunUpTo(y: Sys, steps: seq<Step>, k: nat)
    requires ValidRun(y, steps) && 0 < k < |steps| && ValidRun(Next(y, steps[0]), steps[1..][..k - 1])
    ensures ValidRun(y, steps[..k]) && Run(y, steps[..k]) == Run(Next(y, steps[0]), steps[1..][..k - 1])
  {
    assert steps[..k][1..] == steps[1..][..k - 1] && steps[..k][0] == steps[0];
  }

  /** Every completion accepted in a run was presented, at that moment, under both boots of
      one of the grant's participants. */
  lemma {:induction false} CompletedWhen(y: Sys, steps: seq<Step>, g: Grant)
    returns (k: nat, workerBoot: Id, sourceBoot: Id)
    requires SysInv(y) && ValidRun(y, steps) && g in Run(y, steps).completed && g !in y.completed
    ensures k < |steps| && ValidRun(y, steps[..k])
    ensures CompletesUnder(Run(y, steps[..k]), steps[k], g, workerBoot, sourceBoot)
    decreases |steps|
  {
    var z := Next(y, steps[0]);
    if g in z.completed {
      workerBoot, sourceBoot := CompletedByStep(y, steps[0], g);
      k := 0;
      assert steps[..0] == [];
    } else {
      SysStep(y, steps[0]);
      k, workerBoot, sourceBoot := CompletedWhen(z, steps[1..], g);
      k := k + 1;
      RunUpTo(y, steps, k);
      assert steps[1..][k - 1] == steps[k];
    }
  }

  // ---- Revalidating and handing off ----

  ghost predicate ParticipantFresh(s: State, g: Grant, i: nat)
    requires i < |g.participants|
  {
    && IsReady(s, g.participants[i]) && i < |g.participantGens|
    && s.participants[g.participants[i]].gen == g.participantGens[i]
  }

  /** Everything the grant was issued under is still published as it was. */
  ghost predicate EvidenceFresh(s: State, g: Grant, req: Request) {
    && g.plan in s.plans && s.plans[g.plan].gen == g.planGen && s.plans[g.plan].valid
    && |g.participants| == |req.participants|
    && (forall i | 0 <= i < |g.participants| :: ParticipantFresh(s, g, i))
    && (forall d | d in req.dependencies :: d.id in s.deps && s.deps[d.id].gen == d.gen)
    && (req.reservation.Some? ==> req.reservation.value == s.reservationGen)
    && (s.congestion.Some? ==> s.congestion.value.gen == g.evidence.congestionGen)
  }

  lemma FreshParticipants(s: State, g: Grant)
    ensures ParticipantsCurrent(s, g.participants, g.participantGens) && ParticipantsAvailable(s, g.participants)
            <==> forall i | 0 <= i < |g.participants| :: ParticipantFresh(s, g, i)
  {
    AvailableIsReady(s, g);
    if ParticipantsCurrent(s, g.participants, g.participantGens) && ParticipantsAvailable(s, g.participants) {
      forall i | 0 <= i < |g.participants| ensures ParticipantFresh(s, g, i) {
        assert GenerationCurrent(s, g.participants, g.participantGens, i) && IsReady(s, g.participants[i]);
      }
    }
    if forall i | 0 <= i < |g.participants| :: ParticipantFresh(s, g, i) {
      forall i | 0 <= i < |g.participants|
        ensures GenerationCurrent(s, g.participants, g.participantGens, i) && IsReady(s, g.participants[i])
      {
        assert ParticipantFresh(s, g, i);
      }
    }
  }

  /** A grant that asks for every check, as all issued ones do, is VALID exactly if it is of
      the record's generation and the current epoch, the record is neither finished nor
      withdrawn, and all its evidence is fresh. The refusals say which came first. */
  lemma ValidIff(s: State, g: Grant)
    requires g.revalidation == DEFAULT_REVALIDATION && g.request in s.records
    ensures var rec := s.records[g.request];
            var same := rec.request.gen == g.requestGen && rec.request.collectiveGen == g.collectiveGen;
            var here := same && g.evidence.epoch == s.epoch;
            var live := here && !rec.lifecycle.Cancelled? && !rec.lifecycle.Superseded? && !rec.lifecycle.Stale?;
            && (Revalidate(s, g) == Valid <==> live && EvidenceFresh(s, g, rec.request) && !rec.lifecycle.Completed?)
            && (Revalidate(s, g) == AlreadyTerminal <==>
                  live && EvidenceFresh(s, g, rec.request) && rec.lifecycle.Completed?)
            && (Revalidate(s, g) == EpochMismatch <==> same && g.evidence.epoch != s.epoch)
            && (Revalidate(s, g) == GrantCancelled <==> here && rec.lifecycle.Cancelled?)
            && (Revalidate(s, g) == GrantSuperseded <==>
                  rec.request.gen != g.requestGen || (here && rec.lifecycle.Superseded?))
  {
    FreshParticipants(s, g);
  }

  /** In every reachable state a handoff starts exactly for the grant by which a GRANTED
      record holds its authority, in the current epoch and with fresh evidence. */
  lemma HandoffStartsIff(y: Sys, g: Grant)
    requires SysInv(y) && g in y.issued
    ensures HandoffStarts(y.st, g) <==>
            && g.request in y.st.records && y.st.records[g.request].lifecycle.Granted?
            && y.st.records[g.request].current == Some(g) && g.evidence.epoch == y.st.epoch
            && EvidenceFresh(y.st, g, y.st.records[g.request].request)
  {
    PresentedGrant(y, g);
    if g.request in y.st.records {
      assert RecordOk(y.st, g.request);
      if y.st.records[g.request].lifecycle.Granted? {
        if HandoffStarts(y.st, g) { assert FreshOk(y.st, g); }
        if y.st.records[g.request].current == Some(g) { ValidIff(y.st, g); }
      }
    }
  }

  /** It dispatches that record, marks that grant and changes nothing else. */
  lemma HandoffBeginEffect(y: Sys, g: Grant)
    requires SysInv(y) && g in y.issued && HandoffStarts(y.st, g)
    ensures var s, t := y.st, HandoffBegin(y.st, g);
            && t.records == s.records[g.request := s.records[g.request].(lifecycle := Dispatching)]
            && g.id in s.grants && t.grants == s.grants[g.id := s.grants[g.id].(handedOff := true)]
  {
    PresentedGrant(y, g);
    HandoffStartsIff(y, g);
    assert RecordOk(y.st, g.request);
    var gs := y.st.grants[g.id];
    assert gs.(handedOff := true, grant := g) == gs.(handedOff := true);
  }

  /** `handoff` confirms exactly the accepted answers that leave the record ACTIVE and the
      grant, still on file, marked active. What was confirmed runs exactly if the grant is
      of the record's generation. */
  lemma ConfirmedIff(y: Sys, g: Grant, accepted: bool)
    requires SysInv(y) && g in y.inflight
    ensures var t := HandoffEnd(y.st, g, accepted);
            && g.request in t.records
            && (HandoffConfirmed(y.st, g, accepted) <==>
                  accepted && t.records[g.request].lifecycle.Active? && g.id in t.grants && t.grants[g.id].active)
            && (HandoffConfirmed(y.st, g, accepted) ==>
                  (IsRunning(t, g) <==> g.requestGen == t.records[g.request].request.gen))
            && (g.id in t.grants ==> (t.grants[g.id].active <==> t.records[g.request].lifecycle.Active?))
  {
    InflightIsCurrentIff(y, g);
    HandoffEndRecords(y.st, g, accepted);
  }

  /** In calm runs, then, a confirmed handoff is one whose grant runs under its record. */
  lemma ConfirmedRuns(y: Sys, g: Grant, accepted: bool)
    requires SysInv(y) && CalmInv(y) && g in y.inflight
    ensures var t := HandoffEnd(y.st, g, accepted);
            HandoffConfirmed(y.st, g, accepted) <==> accepted && IsRunning(t, g) && RunsIn(t, g)
  {
    HandoffEndCases(y, g, accepted);
    assert InflightOk(y.st, g) && FreshOk(y.st, g);
    if Holding(y.st.records[g.request].lifecycle) { AnswerIsForCurrent(y, g); }
  }

  ghost predicate RunsIn(s: State, g: Grant) {
    g.request in s.records && s.records[g.request].lifecycle.Active? && s.records[g.request].current == Some(g)
  }
}
