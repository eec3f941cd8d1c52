/** Footprints on file are sorted and free of duplicates, in every reachable state. The
    two-cursor classification relies on it. */
module Footprints {
  import opened Types
  import opened Lifecycles
  import opened Conflicts
  import opened States
  import opened Steps
  import opened Invariants
  import opened Images
  import opened Runs

  /** Each footprint is the one on file before, or that of a new record. */
  ghost predicate FootprintsKept(rs: map<Id, Record>, qs: map<Id, Record>) {
    forall id | id in qs :: (id in rs && qs[id].footprint == rs[id].footprint) || qs[id].footprint == NO_FOOTPRINT
  }

  lemma UpdateKeeps(rs: map<Id, Record>, id: Id, q: Record)
    requires (id in rs && q.footprint == rs[id].footprint) || q.footprint == NO_FOOTPRINT
    ensures FootprintsKept(rs, rs[id := q])
  {
  }

  lemma KeptAreNormal(s: State, t: State)
    requires NormalFootprints(s) && FootprintsKept(s.records, t.records)
    ensures NormalFootprints(t)
  {
    forall id | id in t.records ensures Normalized(t.records[id].footprint) {
      if id in s.records { assert Normalized(s.records[id].footprint); }
    }
  }

  lemma KeptTwice(rs: map<Id, Record>, qs: map<Id, Record>, ps: map<Id, Record>)
    requires FootprintsKept(rs, qs) && FootprintsKept(qs, ps)
    ensures FootprintsKept(rs, ps)
  {
  }

  // ---- Scheduling ----

  lemma {:induction false} GrantingKeepsFootprints(s: State, ids: seq<Id>, sid: Id, sgen: Gen)
    requires forall x | x in ids :: x in s.records
    ensures FootprintsKept(s.records, GrantAll(s, ids, sid, sgen).records)
    decreases |ids|
  {
    if ids != [] {
      var t := GrantOne(s, ids[0], sid, sgen);
      UpdateKeeps(s.records, ids[0], t.records[ids[0]]);
      GrantingKeepsFootprints(t, ids[1..], sid, sgen);
      KeptTwice(s.records, t.records, GrantAll(t, ids[1..], sid, sgen).records);
    }
  }

  lemma ScheduledIsNormal(s: State)
    requires !ScheduleThrows(s) && NormalFootprints(s)
    ensures NormalFootprints(ScheduledState(s))
  {
    PreparedIsNormal(s);
    var sel, u := Selected(s), Prepared(s);
    GrantingKeepsFootprints(u, sel, s.counters.schedule, s.counters.scheduleGen);
    var v := GrantAll(u, sel, s.counters.schedule, s.counters.scheduleGen);
    KeptAreNormal(u, v);
    KeptAreNormal(v, Accounted(v.(counters := CountGroup(v.counters, sel)), Candidates(s), sel));
  }

  // ---- The other steps ----

  lemma EvidenceKeepsFootprints(s: State, ev: EvidenceStep)
    ensures EvidenceState(s, ev).records == s.records
  {
  }

  lemma SubmitKeepsFootprints(s: State, r: Request)
    ensures FootprintsKept(s.records, Submit(s, r).records)
  {
    var q := Labelled(s, r);
    UpdateKeeps(s.records, q.id, NewRecord(q, Declared, s.counters.seqNo, FreshFairness(q.fairnessClass)));
  }

  lemma SupersedeKeepsFootprints(s: State, r: Request)
    ensures FootprintsKept(s.records, Supersede(s, r).records)
  {
    if r.id in s.records {
      var prev := s.records[r.id];
      UpdateKeeps(s.records, r.id, NewRecord(r, Waiting, prev.seqNo, prev.fairness));
    }
  }

  lemma MoveKeepsFootprints(rs: map<Id, Record>, id: Id, l: Lifecycle)
    requires id in rs
    ensures FootprintsKept(rs, rs[id := rs[id].(lifecycle := l)])
  {
    UpdateKeeps(rs, id, rs[id].(lifecycle := l));
  }

  lemma CancelKeepsFootprints(s: State, id: Id)
    ensures FootprintsKept(s.records, Cancel(s, id).records)
  {
    if id in s.records { MoveKeepsFootprints(s.records, id, Lifecycle.Cancelled); }
  }

  lemma BeginKeepsFootprints(s: State, g: Grant)
    ensures FootprintsKept(s.records, HandoffBegin(s, g).records)
  {
    if g.request in s.records { MoveKeepsFootprints(s.records, g.request, Dispatching); }
  }

  lemma EndKeepsFootprints(s: State, g: Grant, accepted: bool)
    ensures FootprintsKept(s.records, HandoffEnd(s, g, accepted).records)
  {
    HandoffEndRecords(s, g, accepted);
    if g.request in s.records {
      MoveKeepsFootprints(s.records, g.request, AfterDispatch(s.records[g.request].lifecycle, accepted));
    }
  }

  lemma CompleteKeepsFootprints(s: State, g: Grant, workerBoot: Id, sourceBoot: Id)
    ensures FootprintsKept(s.records, Complete(s, g, workerBoot, sourceBoot).records)
  {
    var t := Complete(s, g, workerBoot, sourceBoot);
    if CompletionAccepted(s, g, workerBoot, sourceBoot) { UpdateKeeps(s.records, g.request, t.records[g.request]); }
  }

  lemma PublishKeepsFootprints(s: State, p: Participant)
    ensures FootprintsKept(s.records, PublishParticipant(s, p).records)
  {
  }

  lemma FenceKeepsFootprints(s: State, worker: Id, boot: Id)
    ensures FootprintsKept(s.records, Fence(s, worker, boot).records)
  {
  }

  lemma RecoverKeepsFootprints(s: State)
    ensures FootprintsKept(s.records, Recover(s).records)
  {
  }

  lemma RestartedIsNormal(d: Option<Image>, policy: Policy, epoch: Gen)
    ensures NormalFootprints(Restarted(d, policy, epoch))
  {
    if d.Some? {
      forall id | id in LoadedRecords(d.value.records)
        ensures LoadedRecords(d.value.records)[id].footprint == NO_FOOTPRINT
      {
        var r := LoadedFrom(d.value.records, id);
      }
    }
  }

  /** Every step of the scheduler keeps footprints normal. */
  lemma NormalStep(s: State, step: Step)
    requires !ScheduleThrows(s) && NormalFootprints(s)
    ensures NormalFootprints(NextState(s, step))
  {
    var t := NextState(s, step);
    match step
    case DoEvidence(ev) => EvidenceKeepsFootprints(s, ev);
    case DoGrant(DoHandoffBegin(g)) => BeginKeepsFootprints(s, g); KeptAreNormal(s, t);
    case DoGrant(DoHandoffEnd(g, a)) => EndKeepsFootprints(s, g, a); KeptAreNormal(s, t);
    case DoGrant(DoComplete(g, wb, sb)) => CompleteKeepsFootprints(s, g, wb, sb); KeptAreNormal(s, t);
    case DoPublishParticipant(p) => PublishKeepsFootprints(s, p); KeptAreNormal(s, t);
    case DoSubmit(r) => SubmitKeepsFootprints(s, r); KeptAreNormal(s, t);
    case DoSupersede(r) => SupersedeKeepsFootprints(s, r); KeptAreNormal(s, t);
    case DoCancel(id) => CancelKeepsFootprints(s, id); KeptAreNormal(s, t);
    case DoSchedule => ScheduledIsNormal(s);
    case DoFence(w, b) => FenceKeepsFootprints(s, w, b); KeptAreNormal(s, t);
    case DoRecover => RecoverKeepsFootprints(s); KeptAreNormal(s, t);
    case DoSave(_) =>
    case DoRestart(d, p, e) => RestartedIsNormal(d, p, e);
  }

  /** So in every run from a new scheduler, all footprints are normal. */
  lemma {:induction false} NormalOverRuns(y: Sys, steps: seq<Step>)
    requires SysInv(y) && NormalFootprints(y.st) && ValidRun(y, steps)
    ensures NormalFootprints(Run(y, steps).st)
    decreases |steps|
  {
    if steps != [] {
      NormalStep(y.st, steps[0]);
      SysStep(y, steps[0]);
      NormalOverRuns(Next(y, steps[0]), steps[1..]);
    }
  }
}
