/** What validation lets through: exactly the requests whose parts fit together, whose window
    can be met and whose sizes are within the bounds; so that is what is on file in every run. */
module Validation {
  import opened Types
  import opened Lifecycles
  import opened States
  import opened Steps
  import opened Invariants
  import opened Decisions
  import opened Images
  import opened Runs
  import Accounting
  import Regrants

  // ---- Windows ----

  /** The start is neither too early nor too late, and not past the deadline. */
  ghost predicate CanStart(w: Window, t: nat) {
    w.earliest <= t && (w.latest == 0 || t <= w.latest) && (w.deadline == 0 || t <= w.deadline)
  }

  /** There is a time to start, and if both a latest start and a deadline are given, every
      start between the earliest and the latest is within the deadline. */
  ghost predicate CanBeMet(w: Window) {
    && (exists t :: CanStart(w, t))
    && (w.latest != 0 && w.deadline != 0 ==> forall t | w.earliest <= t <= w.latest :: CanStart(w, t))
  }

  /** A window passes validation. */
  ghost predicate WindowPasses(w: Window) {
    && (w.latest != 0 ==> w.earliest <= w.latest) && (w.deadline != 0 ==> w.earliest <= w.deadline)
    && (w.latest != 0 && w.deadline != 0 ==> w.latest <= w.deadline)
  }

  /** A start at which a request of no duration could be scheduled. */
  lemma CanStartIsOpen(w: Window, t: nat)
    ensures CanStart(w, t) <==> WindowOpen(t, w.(expectedDuration := 0))
  {
  }

  /** So there is a time at which a request with this window could be scheduled, at least if
      it took no time. */
  lemma PassingIsMeetable(w: Window)
    ensures WindowPasses(w) <==> CanBeMet(w)
    ensures WindowPasses(w) ==> WindowOpen(w.earliest, w.(expectedDuration := 0))
  {
    if WindowPasses(w) {
      assert CanStart(w, w.earliest);
      CanStartIsOpen(w, w.earliest);
    }
    if CanBeMet(w) && w.latest != 0 && w.deadline != 0 { assert CanStart(w, w.latest); }
  }

  // ---- Requests ----

  ghost predicate Distinct<T(!new)>(v: seq<T>) { forall i, j | 0 <= i < |v| && 0 <= j < |v| && i != j :: v[i] != v[j] }

  /** The parts of the request fit together, whatever the policy. */
  ghost predicate Sound(req: Request) {
    && req.kind != KIND_UNKNOWN && req.participants != [] && Distinct(req.participants)
    && |req.participantGens| == |req.participants|
    && (req.perParticipantPayload == [] || |req.perParticipantPayload| == |req.participants|)
    && req.plan != 0 && req.planGen != 0 && CanBeMet(req.window) && Distinct(req.exclusionClasses)
  }

  /** It is within the bounds of the policy. */
  ghost predicate Sized(req: Request, policy: Policy) {
    && |req.participants| <= policy.bounds.maxParticipantsPerCollective
    && |req.claims| <= policy.bounds.maxParticipantsPerCollective
    && |req.dependencies| <= policy.bounds.maxDependencies
  }

  /** Its payloads add up to a 64-bit number. */
  ghost predicate Countable(req: Request) { Sum(req.perParticipantPayload) < 0x1_0000_0000_0000_0000 }

  lemma {:induction false} SumAdds(a: seq<nat>, b: seq<nat>)
    ensures Sum(a + b) == Sum(a) + Sum(b)
    ensures |a| == 1 ==> Sum(a) == a[0]
    ensures a == [] ==> Sum(a) == 0
  {
    if a == [] {
      assert a + b == b;
    } else {
      assert (a + b)[0] == a[0] && (a + b)[1..] == a[1..] + b;
      SumAdds(a[1..], b);
    }
  }

  lemma DistinctIsNoDuplicates<T(!new)>(v: seq<T>)
    ensures NoDuplicates(v) <==> Distinct(v)
  {
  }

  /** Validation passes exactly the requests that are sound, sized and countable, and its
      complaint says what is wrong. */
  lemma ValidationIff(req: Request, policy: Policy)
    ensures Validate(req, policy).None? <==> Sound(req) && Sized(req, policy) && Countable(req)
    ensures Validate(req, policy) == Some(Malformed) ==> !Sound(req)
    ensures Validate(req, policy) == Some(OutOfBounds) ==> !Sized(req, policy)
    ensures Validate(req, policy) == Some(Overflow) <==> Sound(req) && Sized(req, policy) && !Countable(req)
    ensures Validate(req, policy).Some? ==> Validate(req, policy).value in {Malformed, OutOfBounds, Overflow}
  {
    PassingIsMeetable(req.window);
    DistinctIsNoDuplicates(req.participants);
    DistinctIsNoDuplicates(req.exclusionClasses);
  }

  ghost predicate Valid(req: Request, policy: Policy) { Sound(req) && Sized(req, policy) && Countable(req) }

  lemma LabelsDoNotMatter(req: Request, id: Id, gen: Gen, policy: Policy)
    ensures Valid(req.(id := id, gen := gen), policy) <==> Valid(req, policy)
  {
  }

  /** `submit` stores a request exactly if there is room and it is valid: under the next id,
      as generation 1, DECLARED, listed under its participants, and with a fresh account. */
  lemma SubmitStoresIff(s: State, req: Request)
    requires Inv(s)
    ensures s.counters.request !in s.records
    ensures SubmitError(s, req).None? <==> |s.records| < s.policy.bounds.maxCollectives && Valid(req, s.policy)
    ensures |s.records| >= s.policy.bounds.maxCollectives ==> SubmitError(s, req) == Some(OutOfBounds)
    ensures SubmitError(s, req).None? ==> Stored(s, Submit(s, req), req, s.counters.request)
    ensures SubmitError(s, req).Some? ==> Submit(s, req) == s.(counters := Submit(s, req).counters)
    ensures Submit(s, req).counters.request
         == s.counters.request + (if |s.records| < s.policy.bounds.maxCollectives then 1 else 0)
  {
    SubmitAcceptsIff(s, req);
    NoSuchRecord(s);
    if SubmitError(s, req).None? { AdmittedIsStored(s, req); }
  }

  lemma SubmitAcceptsIff(s: State, req: Request)
    ensures SubmitError(s, req).None? <==> |s.records| < s.policy.bounds.maxCollectives && Valid(req, s.policy)
  {
    ValidationIff(Labelled(s, req), s.policy);
    LabelsDoNotMatter(req, s.counters.request, 1, s.policy);
  }

  lemma NoSuchRecord(s: State)
    requires Inv(s)
    ensures s.counters.request !in s.records
  {
    forall id | id in s.records ensures id != s.counters.request { assert RecordOk(s, id); }
  }

  ghost predicate Stored(s: State, t: State, req: Request, n: Id) {
    && n in t.records && t.records[n].request == req.(id := n, gen := 1) && t.records[n].lifecycle.Declared?
    && t.records[n].age == 0 && t.records[n].current.None? && t.records[n].seqNo == s.counters.seqNo
    && t.records[n].fairness.consecutiveBypasses == 0 && t.records[n].fairness.deficit == 0.0
    && t.records[n].fairness.cls == req.fairnessClass
    && t.counters.seqNo == s.counters.seqNo + 1
    && (forall id | id in s.records :: id in t.records && t.records[id] == s.records[id])
    && t.records.Keys == s.records.Keys + {n}
    && (forall p, x :: Listed(t.participantRequests, p, x) <==>
          Listed(s.participantRequests, p, x) || (p in req.participants && x == n))
  }

  lemma AdmittedIsStored(s: State, req: Request)
    requires s.counters.request !in s.records
    ensures Stored(s, Admit(s, Labelled(s, req)), req, s.counters.request)
  {
  }

  /** `supersede` replaces a request exactly by a valid one of a later generation: in place,
      WAITING, with its account and its place in the queue, and without a grant. */
  lemma SupersedeReplacesIff(s: State, req: Request)
    ensures SupersedeError(s, req).None? <==>
            req.id in s.records && s.records[req.id].request.gen < req.gen && Valid(req, s.policy)
    ensures SupersedeError(s, req) == Some(InvalidArgument) <==> req.id !in s.records
    ensures SupersedeError(s, req) == Some(IllegalTransition) <==>
            req.id in s.records && req.gen <= s.records[req.id].request.gen
    ensures SupersedeError(s, req).Some? ==> Supersede(s, req) == s
    ensures SupersedeError(s, req).None? ==> Replaced(s, Supersede(s, req), req)
  {
    ValidationIff(req, s.policy);
    if req.id in s.records { IsReplaced(s, req); }
  }

  lemma IsReplaced(s: State, req: Request)
    requires req.id in s.records
    ensures Replaced(s, Replace(s, s.records[req.id], req), req)
  {
    ReplacedTables(s, s.records[req.id], req);
    RefiledIsReplaced(s, Replace(s, s.records[req.id], req), req);
  }

  ghost predicate IsRefiled(s: State, t: State, prev: Record, req: Request) {
    && t.records == s.records[req.id := NewRecord(req, Waiting, prev.seqNo, prev.fairness)]
    && t.participantRequests == IndexAdd(s.participantRequests, req.participants, req.id)
  }

  lemma RefiledTables(s: State, prev: Record, req: Request, n: nat)
    ensures IsRefiled(s, Refiled(s, prev, req), prev, req)
    ensures IsRefiled(s, Refiled(s.(activeGrants := n), prev, req), prev, req)
  {
  }

  lemma RefiledGranted(s: State, prev: Record, req: Request, x: Id)
    requires x in s.grants
    ensures IsRefiled(s, ReplaceGranted(s, prev, req, x), prev, req)
  {
  }

  lemma ReplacedTables(s: State, prev: Record, req: Request)
    ensures IsRefiled(s, Replace(s, prev, req), prev, req)
  {
    RefiledTables(s, prev, req, Decrement(s.activeGrants));
    if prev.current.Some? && prev.current.value.id in s.grants { RefiledGranted(s, prev, req, prev.current.value.id); }
  }

  lemma RefiledIsReplaced(s: State, t: State, req: Request)
    requires req.id in s.records && IsRefiled(s, t, s.records[req.id], req)
    ensures Replaced(s, t, req)
  {
  }

  ghost predicate Replaced(s: State, t: State, req: Request) {
    && req.id in s.records && t.records.Keys == s.records.Keys
    && t.records[req.id].request == req && t.records[req.id].lifecycle.Waiting? && t.records[req.id].current.None?
    && t.records[req.id].seqNo == s.records[req.id].seqNo && t.records[req.id].fairness == s.records[req.id].fairness
    && t.records[req.id].age == 0
    && (forall id | id in s.records && id != req.id :: t.records[id] == s.records[id])
    && (forall p, x :: Listed(t.participantRequests, p, x) <==>
          Listed(s.participantRequests, p, x) || (p in req.participants && x == req.id))
  }

  // ---- Over runs ----

  ghost predicate AllSound(s: State) { forall id | id in s.records :: Sound(s.records[id].request) }

  ghost predicate ImageSound(d: Image) { forall r | r in d.records :: Sound(r.request) }

  ghost predicate SystemSound(y: Sys) { AllSound(y.st) && forall d | d in y.images :: ImageSound(d) }

  /** Each request is one that was on file, or passed validation just now. */
  ghost predicate RequestsKept(s: State, t: State) {
    forall id | id in t.records ::
      (id in s.records && t.records[id].request == s.records[id].request) || Sound(t.records[id].request)
  }

  lemma KeptAreSound(s: State, t: State)
    requires AllSound(s) && RequestsKept(s, t)
    ensures AllSound(t)
  {
    forall id | id in t.records ensures Sound(t.records[id].request) {
      if id in s.records { assert Sound(s.records[id].request); }
    }
  }

  lemma SubmitSound(s: State, req: Request)
    requires Inv(s)
    ensures RequestsKept(s, Submit(s, req))
  {
    SubmitStoresIff(s, req);
    if SubmitError(s, req).None? {
      LabelsDoNotMatter(req, s.counters.request, 1, s.policy);
      StoredIsKept(s, Submit(s, req), req, s.counters.request);
    }
  }

  lemma StoredIsKept(s: State, t: State, req: Request, n: Id)
    requires Stored(s, t, req, n) && Sound(req.(id := n, gen := 1))
    ensures RequestsKept(s, t)
  {
  }

  lemma SupersedeSound(s: State, req: Request)
    ensures RequestsKept(s, Supersede(s, req))
  {
    SupersedeReplacesIff(s, req);
  }

  /** Only `submit` adds records, and only `supersede` changes requests. */
  lemma OthersKeepRequests(s: State, step: Step)
    requires Inv(s) && !ScheduleThrows(s) && !step.DoRestart? && !step.DoSubmit? && !step.DoSupersede?
    ensures RequestsKept(s, NextState(s, step))
  {
    Accounting.RequestsStay(s, step);
    KeysStay(s, step);
  }

  lemma KeysStay(s: State, step: Step)
    requires Inv(s) && !ScheduleThrows(s) && !step.DoRestart? && !step.DoSubmit? && !step.DoSupersede?
    ensures NextState(s, step).records.Keys == s.records.Keys
  {
    match step
    case DoEvidence(ev) => EvidenceShape(s, ev);
    case DoGrant(gr) => Regrants.GrantStepKeys(s, gr);
    case DoCancel(id) => Regrants.CancelKeys(s, id);
    case DoSchedule => ScheduleTouchesOnly(s);
    case _ =>
  }

  lemma RestartSound(y: Sys, step: Step)
    requires SystemSound(y) && step.DoRestart? && Enabled(y, step)
    ensures AllSound(Restarted(step.source, step.policy, step.epoch))
  {
    if step.source.Some? {
      var rs := step.source.value.records;
      assert ImageSound(step.source.value);
      forall id | id in LoadedRecords(rs) ensures Sound(LoadedRecords(rs)[id].request) { var r := LoadedFrom(rs, id); }
    }
  }

  lemma StepSound(s: State, step: Step)
    requires Inv(s) && !ScheduleThrows(s) && !step.DoRestart?
    ensures RequestsKept(s, NextState(s, step))
  {
    match step
    case DoSubmit(r) => SubmitSound(s, r);
    case DoSupersede(r) => SupersedeSound(s, r);
    case _ => OthersKeepRequests(s, step);
  }

  lemma SoundStep(y: Sys, step: Step)
    requires SysInv(y) && SystemSound(y) && Enabled(y, step) && !ScheduleThrows(y.st)
    ensures SystemSound(Next(y, step))
  {
    if step.DoRestart? {
      RestartSound(y, step);
    } else {
      StepSound(y.st, step);
      KeptAreSound(y.st, NextState(y.st, step));
    }
    if step.DoSave? { SnapshotIsSound(y.st, step.image); }
  }

  lemma SnapshotIsSound(s: State, d: Image)
    requires AllSound(s) && Snapshot(s, d)
    ensures ImageSound(d)
  {
    forall r | r in d.records ensures Sound(r.request) { assert Sound(s.records[r.request.id].request); }
  }

  lemma {:induction false} SoundOverRuns(y: Sys, steps: seq<Step>)
    requires SysInv(y) && SystemSound(y) && ValidRun(y, steps)
    ensures SystemSound(Run(y, steps))
    decreases |steps|
  {
    if steps != [] {
      SoundStep(y, steps[0]);
      SysStep(y, steps[0]);
      SoundOverRuns(Next(y, steps[0]), steps[1..]);
    }
  }

  /** In every run every request on file is sound: known kind, distinct participants with a
      generation each, a plan, distinct exclusion classes, and a window that can be met. */
  lemma RequestsAreSound(policy: Policy, epoch: Gen, steps: seq<Step>)
    requires ValidRun(NewSystem(policy, epoch), steps)
    ensures AllSound(Run(NewSystem(policy, epoch), steps).st)
  {
    NewSystemOk(policy, epoch);
    SoundOverRuns(NewSystem(policy, epoch), steps);
  }
}
