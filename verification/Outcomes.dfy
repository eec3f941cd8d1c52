/** Exactly one terminal outcome: each grant completes at most once, and once it has been
    completed, cancelled, superseded, fenced, recovered over or left behind by a restart
    nothing more is accepted under it. */
module Outcomes {
  import opened Types
  import opened Lifecycles
  import opened States
  import opened Steps
  import opened Invariants
  import opened Runs

  /** The guard of `complete` also admits DISPATCHING, but the lifecycle does not. */
  lemma CompletionOnlyFromActive(s: State, g: Grant, wb: Id, sb: Id)
    requires CompletionAccepted(s, g, wb, sb)
    ensures s.records[g.request].lifecycle.Active?
    ensures Complete(s, g, wb, sb).records[g.request].lifecycle.Completed?
  {
  }

  /** In every run each grant is accepted by `complete` at most once, and only while its
      record is ACTIVE; each generation of a request is granted at most once by one process,
      and at most once within one epoch. */
  lemma AtMostOnceOverRuns(policy: Policy, epoch: Gen, steps: seq<Step>)
    requires ValidRun(NewSystem(policy, epoch), steps)
    ensures var z := Run(NewSystem(policy, epoch), steps);
            && NoDuplicates(z.completed)
            && (forall g | g in z.completed :: g in z.issued)
            && (forall g, wb, sb | CompletionAccepted(z.st, g, wb, sb) ::
                  g !in z.completed && z.st.records[g.request].lifecycle.Active?)
            && OnePerEpochAndGeneration(z.issued)
            && OnePerGeneration(z.own)
  {
    var z := Run(NewSystem(policy, epoch), steps);
    NewSystemOk(policy, epoch);
    RunKeeps(NewSystem(policy, epoch), steps);
    forall g, wb, sb | CompletionAccepted(z.st, g, wb, sb)
      ensures g !in z.completed && z.st.records[g.request].lifecycle.Active?
    {
      CompletionOnlyFromActive(z.st, g, wb, sb);
      if g in z.completed { PresentedGrant(z, g); }
    }
  }

  /** The grant's fate is sealed. */
  ghost predicate Over(y: Sys, g: Grant) { g in y.issued && (g !in y.own || Done(y.st, g)) }

  lemma OverIsRefused(y: Sys, g: Grant)
    requires SysInv(y) && Over(y, g)
    ensures !HandoffStarts(y.st, g)
    ensures forall wb, sb :: !CompletionAccepted(y.st, g, wb, sb)
  {
    PresentedGrant(y, g);
    assert g in y.own ==> FreshOk(y.st, g) && RecordOk(y.st, g.request);
  }

  lemma OverStaysOver(y: Sys, step: Step, g: Grant)
    requires SysInv(y) && Enabled(y, step) && Over(y, g) && !ScheduleThrows(y.st)
    ensures Over(Next(y, step), g)
  {
    if step.DoRestart? {
      RestartedFacts(step.source, step.policy, step.epoch);
    } else {
      StateStep(y, step);
      if g in y.own {
        FreshEvolves(y.st, NextState(y.st, step), g);
      } else {
        FreshStep(y, step);
        IssuedStep(y, step);
      }
    }
  }

  /** Whatever follows, no completion and no handoff is ever accepted again. */
  lemma {:induction false} SealedForever(y: Sys, steps: seq<Step>, g: Grant)
    requires SysInv(y) && ValidRun(y, steps) && Over(y, g)
    ensures Over(Run(y, steps), g) && !HandoffStarts(Run(y, steps).st, g)
    ensures forall wb, sb :: !CompletionAccepted(Run(y, steps).st, g, wb, sb)
    decreases |steps|
  {
    if steps == [] {
      OverIsRefused(y, g);
    } else {
      OverStaysOver(y, steps[0], g);
      SysStep(y, steps[0]);
      SealedForever(Next(y, steps[0]), steps[1..], g);
    }
  }

  // ---- What seals it ----

  /** The step decides the fate of the grant. */
  ghost predicate Decides(y: Sys, step: Step, g: Grant) {
    match step
    case DoCancel(id) => id == g.request
    case DoSupersede(r) => r.id == g.request && SupersedeError(y.st, r).None?
    case DoFence(w, b) => g.request in y.st.records && Fenced(y.st, y.st.records[g.request], w, b)
    case DoRecover => true
    case DoRestart(_, _, _) => true
    case DoGrant(DoComplete(h, wb, sb)) => h == g && CompletionAccepted(y.st, g, wb, sb)
    case _ => false
  }

  /** An open grant is the current grant of a record that is not finished. */
  lemma OpenGrant(y: Sys, g: Grant)
    requires SysInv(y) && g in y.own && !Done(y.st, g)
    ensures g.request in y.st.records && y.st.records[g.request].current == Some(g)
    ensures !Terminal(y.st.records[g.request].lifecycle)
    ensures g.id in y.st.grants && y.st.grants[g.id].grant == g
  {
    assert FreshOk(y.st, g);
    assert GrantOk(y.st, g.id);
  }

  lemma DecidingStepFinishes(y: Sys, step: Step, g: Grant)
    requires SysInv(y) && Enabled(y, step) && g in y.own && !step.DoRestart? && Decides(y, step, g)
    requires !ScheduleThrows(y.st) && !Done(y.st, g)
    ensures Done(NextState(y.st, step), g)
  {
    OpenGrant(y, g);
    match step
    case DoFence(w, b) => assert g.id in FencedGrants(y.st, w, b);
    case _ =>
  }

  /** Cancelling, superseding, fencing, recovering, restarting and completing each seal
      the grants they touch. */
  lemma DecidingStepSeals(y: Sys, step: Step, g: Grant)
    requires SysInv(y) && Enabled(y, step) && g in y.issued && Decides(y, step, g) && !ScheduleThrows(y.st)
    ensures Over(Next(y, step), g)
  {
    if step.DoRestart? || g !in y.own || Done(y.st, g) {
      if step.DoRestart? {
        RestartedFacts(step.source, step.policy, step.epoch);
      } else {
        OverStaysOver(y, step, g);
      }
    } else {
      DecidingStepFinishes(y, step, g);
    }
  }

  /** However old the image: after a restart under a later epoch, no grant issued before it
      is ever handed off or completed again. */
  lemma RestartSealsEarlierGrants(y: Sys, restart: Step, steps: seq<Step>, g: Grant)
    requires SysInv(y) && restart.DoRestart? && Enabled(y, restart) && !ScheduleThrows(y.st) && g in y.issued
    requires ValidRun(Next(y, restart), steps)
    ensures var z := Run(Next(y, restart), steps);
            !HandoffStarts(z.st, g) && forall wb, sb :: !CompletionAccepted(z.st, g, wb, sb)
  {
    DecidingStepSeals(y, restart, g);
    SysStep(y, restart);
    SealedForever(Next(y, restart), steps, g);
  }
}
