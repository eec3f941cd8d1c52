/** Concrete runs: where the scheduler does not do what one might expect, the calls that
    show it. Each is a run from a new scheduler with one plan and two members, 7 and 8. */
module Scenarios {
  import opened Types
  import opened Lifecycles
  import opened Conflicts
  import opened Rankings
  import opened States
  import opened Steps
  import opened Invariants
  import opened Selection
  import opened Decisions
  import opened Runs
  import opened Exclusion
  import opened Staleness
  import opened Drain
  import opened Accounting
  import Order
  import Submissions

  // ---- The cast ----

  const POLICY := Policy(
    Weights(1.0, 1.0, 1.0, 1.0, 1.0, 1.0, 1.0, 1.0, 1.0, 1.0, 1.0), 16, 0.05, Bounds(100, 16, 16, 10, 10, 100))

  /** The same policy with room for any number of collectives. */
  predicate LikePolicy(p: Policy) { p == POLICY.(bounds := POLICY.bounds.(maxCollectives := p.bounds.maxCollectives)) }

  const PLAN := Plan(1, 1, [], [], 0.0, true)

  function Member(p: Id): Participant { Participant(p, 1, 1, 1, 1, 1, true, 0) }

  /** A request for one member; each member has its own collective. */
  function Job(p: Id): Request {
    Request(0, 0, p, 1, 0, 0, [p], [1], [], 1, 1, [], [], [], Priority(0, 1, false), Window(0, 0, 0, 0, 0, 0),
            OVERLAP_ALLOWED, 0, None, 1, 1, 0, 0, 0, 0, 0)
  }

  function JobAs(p: Id, id: Id, gen: Gen): Request { Job(p).(id := id, gen := gen) }

  ghost predicate Settled(s: State) {
    && LikePolicy(s.policy) && s.now == 0
    && (forall p | p in {7, 8} :: p in s.participants && s.participants[p] == Member(p))
    && 1 in s.plans && s.plans[1] == PLAN && s.congestion.None? && s.capacity.None?
  }

  ghost predicate HasJob(s: State, id: Id, p: Id, gen: Gen) {
    p in {7, 8} && id in s.records && s.records[id].request == JobAs(p, id, gen)
  }

  lemma JobIsValid(p: Id, id: Id, gen: Gen, policy: Policy)
    requires LikePolicy(policy)
    ensures Validate(JobAs(p, id, gen), policy).None?
  {
  }

  lemma JobIsAuthorized(s: State, id: Id, p: Id, gen: Gen)
    requires Settled(s) && HasJob(s, id, p, gen)
    ensures AuthorityCurrent(s, s.records[id].request)
    ensures WindowOpen(s.now, s.records[id].request.window) && s.records[id].request.workloadGen != 0
  {
    var req := s.records[id].request;
    assert req.participants == [p] && req.participantGens == [1];
    forall i | 0 <= i < |req.participants| ensures GenerationCurrent(s, req.participants, req.participantGens, i) {}
  }

  /** With settled evidence a job is a candidate exactly until it is granted. */
  lemma JobIsCandidate(s: State, id: Id, p: Id, gen: Gen)
    requires Inv(s) && !ScheduleThrows(s) && Settled(s) && HasJob(s, id, p, gen)
    ensures id in Candidates(s) <==> Ungranted(s.records[id].lifecycle)
  {
    JobIsAuthorized(s, id, p, gen);
    CandidatesAre(s, id);
  }

  // ---- A decision with one candidate ----

  /** The state after a decision that selects just this request. */
  ghost predicate GrantedAlone(s: State, t: State, id: Id)
    requires !ScheduleThrows(s)
  {
    && t == s.(records := t.records, counters := t.counters, grants := t.grants)
    && t.records.Keys == s.records.Keys && id in s.records
    && t.records[id].request == s.records[id].request && t.records[id].lifecycle.Granted?
    && t.records[id].current.Some? && GrantFiled(s, t, id, t.records[id].current.value)
    && (forall x | x in s.records && x != id ::
          t.records[x].request == s.records[x].request && t.records[x].current == s.records[x].current
          && (!Ungranted(s.records[x].lifecycle) ==> t.records[x].lifecycle == s.records[x].lifecycle))
  }

  ghost predicate GrantFiled(s: State, t: State, id: Id, g: Grant)
    requires id in s.records
  {
    && g.id == s.counters.grant && t.counters.grant == s.counters.grant + 1
    && t.counters.request == s.counters.request
    && g.evidence.epoch == s.epoch && Matches(g, s.records[id].request) && Revalidate(t, g) == Valid
    && t.grants == s.grants[g.id := GrantState(g, false, false, false, 0, 0)]
  }

  lemma OnlyElement(v: seq<Id>, id: Id)
    requires NoDuplicates(v) && id in v && forall x | x in v :: x == id
    ensures v == [id]
  {
    assert forall k | 0 <= k < |v| :: v[k] in v;
    assert |v| >= 1;
    DistinctSame(v);
  }

  lemma DistinctSame(v: seq<Id>)
    requires NoDuplicates(v) && forall i, j | 0 <= i < |v| && 0 <= j < |v| :: v[i] == v[j]
    ensures |v| <= 1
  {
    TwoDiffer(v);
  }

  lemma TwoDiffer(v: seq<Id>)
    requires NoDuplicates(v)
    ensures |v| < 2 || v[0] != v[1]
  {
  }

  lemma OneSelected(s: State, id: Id)
    requires Inv(s) && !ScheduleThrows(s) && Candidates(s) == {id} && id in s.records
    requires RunningSharers(s, s.records[id].request) == {}
    requires s.activeGrants < s.policy.bounds.maxActiveGrants && 0 < s.policy.bounds.maxOverlapGroup
    ensures Selected(s) == [id]
  {
    OneRanked(s, id);
    TopIsSelected(s);
    SelectedAreCandidates(s);
    OnlyElement(Selected(s), id);
  }

  lemma OneRanked(s: State, id: Id)
    requires !ScheduleThrows(s) && Candidates(s) == {id}
    ensures Ranking(s) != [] && Ranking(s)[0] == id
  {
    RankingIsCandidates(s);
    assert id in Ranking(s) && Ranking(s)[0] in Ranking(s);
  }

  lemma SelectedAreCandidates(s: State)
    requires Inv(s) && !ScheduleThrows(s)
    ensures NoDuplicates(Selected(s)) && forall x | x in Selected(s) :: x in Candidates(s)
  {
    SelectedFacts(s);
  }

  lemma OneGrant(s: State, id: Id, sid: Id, sgen: Gen)
    requires id in s.records && Promotable(s.records[id].lifecycle)
    ensures GrantAll(s, [id], sid, sgen) == GrantOne(s, id, sid, sgen)
  {
    assert [id][1..] == [];
  }

  lemma OneGrantFiled(s: State, id: Id)
    requires Inv(s) && !ScheduleThrows(s) && Selected(s) == [id]
    ensures id in s.records
    ensures var g := MakeGrant(Prepared(s), s.records[id].request, s.counters.schedule, s.counters.scheduleGen);
            var t := ScheduledState(s);
            && t.grants == s.grants[g.id := GrantState(g, false, false, false, 0, 0)] && g.id == s.counters.grant
            && t.counters.grant == s.counters.grant + 1 && t.counters.request == s.counters.request
            && id in t.records && t.records[id].current == Some(g)
  {
    SelectedFacts(s);
    assert id in Selected(s);
    OneGrant(Prepared(s), id, s.counters.schedule, s.counters.scheduleGen);
  }

  lemma SoleDecision(s: State, id: Id)
    requires Inv(s) && !ScheduleThrows(s) && Candidates(s) == {id} && id in s.records
    requires RunningSharers(s, s.records[id].request) == {}
    requires s.activeGrants < s.policy.bounds.maxActiveGrants && 0 < s.policy.bounds.maxOverlapGroup
    ensures Selected(s) == [id] && GrantedAlone(s, ScheduledState(s), id)
  {
    OneSelected(s, id);
    assert id in Selected(s);
    OneGrantFiled(s, id);
    NewGrantMatches(s, id);
    NewGrantIsValid(s, id);
    ScheduleTouchesOnly(s);
    forall x | x in s.records && x != id { OtherRecord(s, id, x); }
  }

  lemma OtherRecord(s: State, id: Id, x: Id)
    requires Inv(s) && !ScheduleThrows(s) && Selected(s) == [id] && x in s.records && x != id
    ensures x in ScheduledState(s).records
    ensures ScheduledState(s).records[x].request == s.records[x].request
    ensures ScheduledState(s).records[x].current == s.records[x].current
    ensures !Ungranted(s.records[x].lifecycle) ==> ScheduledState(s).records[x].lifecycle == s.records[x].lifecycle
  {
    ScheduledRecord(s, x);
    PreparedRecordFacts(s, x);
  }

  // ---- Building runs ----

  const START := NewSystem(POLICY, 1)

  /** `steps` is a run from `o` that ends in `y`. */
  ghost predicate Reaches(o: Sys, steps: seq<Step>, y: Sys) {
    ValidRun(o, steps) && Run(o, steps) == y && SysInv(y)
  }

  lemma Go(o: Sys, steps: seq<Step>, y: Sys, step: Step) returns (more: seq<Step>, z: Sys)
    requires Reaches(o, steps, y) && Enabled(y, step)
    ensures !ScheduleThrows(y.st) && z == Next(y, step) && more == steps + [step] && Reaches(o, more, z)
    ensures Patient(o, steps) && (step.DoSchedule? ==> NonePending(y.st)) ==> Patient(o, more)
  {
    SysStep(y, step);
    OneStep(y, step);
    RunAppend(o, steps, [step]);
    more, z := steps + [step], Next(y, step);
    if Patient(o, steps) && (step.DoSchedule? ==> NonePending(y.st)) { PatientAppend(o, steps, step); }
  }

  /** Each `schedule` of the run finds no grant pending. */
  ghost predicate Patient(o: Sys, steps: seq<Step>) { ValidRun(o, steps) && PatientRun(o, steps) }

  lemma {:induction false} PatientAppend(y: Sys, steps: seq<Step>, step: Step)
    requires ValidRun(y, steps) && PatientRun(y, steps) && ValidRun(y, steps + [step])
    requires step.DoSchedule? ==> NonePending(Run(y, steps).st)
    ensures PatientRun(y, steps + [step])
    decreases |steps|
  {
    if steps == [] {
      assert [] + [step] == [step] && [step][1..] == [];
    } else {
      assert (steps + [step])[1..] == steps[1..] + [step] && (steps + [step])[0] == steps[0];
      PatientAppend(Next(y, steps[0]), steps[1..], step);
    }
  }

  /** Members and plan published, nothing submitted. */
  ghost predicate OpenedUnder(s: State, policy: Policy) {
    && Settled(s) && s.policy == policy && s.records == map[] && s.grants == map[] && s.activeGrants == 0
    && s.epoch == 1
    && s.counters == START.st.counters
  }

  ghost predicate Opened(s: State) { OpenedUnder(s, POLICY) }

  const OPENING := [DoPublishParticipant(Member(7)), DoPublishParticipant(Member(8)), DoEvidence(DoPublishPlan(PLAN))]

  lemma OpeningState(policy: Policy)
    requires LikePolicy(policy)
    ensures var s := PublishParticipant(PublishParticipant(NewState(policy, 1), Member(7)), Member(8));
            OpenedUnder(PublishPlan(s, PLAN), policy)
  {
  }

  lemma OpeningUnder(policy: Policy) returns (y: Sys)
    requires LikePolicy(policy)
    ensures Reaches(NewSystem(policy, 1), OPENING, y) && Patient(NewSystem(policy, 1), OPENING)
    ensures OpenedUnder(y.st, policy) && y.inflight == {} && y.images == {}
  {
    var o := NewSystem(policy, 1);
    NewSystemOk(policy, 1);
    assert Patient(o, []);
    var s1, y1 := Publish(o, [], o, Member(7));
    var s2, y2 := Publish(o, s1, y1, Member(8));
    var s3;
    s3, y := GiveEvidence(o, s2, y2, DoPublishPlan(PLAN));
    OpeningState(policy);
    assert s3 == OPENING;
  }

  lemma Opening() returns (y: Sys)
    ensures Reaches(START, OPENING, y) && Opened(y.st) && y.inflight == {} && y.images == {} && Patient(START, OPENING)
  {
    y := OpeningUnder(POLICY);
  }

  lemma GiveEvidence(o: Sys, steps: seq<Step>, y: Sys, ev: EvidenceStep) returns (more: seq<Step>, z: Sys)
    requires Reaches(o, steps, y)
    ensures more == steps + [DoEvidence(ev)] && Reaches(o, more, z) && (Patient(o, steps) ==> Patient(o, more))
    ensures z.st == EvidenceState(y.st, ev) && z.inflight == y.inflight && z.images == y.images
  {
    more, z := Go(o, steps, y, DoEvidence(ev));
  }

  lemma Publish(o: Sys, steps: seq<Step>, y: Sys, p: Participant) returns (more: seq<Step>, z: Sys)
    requires Reaches(o, steps, y)
    ensures more == steps + [DoPublishParticipant(p)] && Reaches(o, more, z) && (Patient(o, steps) ==> Patient(o, more))
    ensures z.st == PublishParticipant(y.st, p) && z.inflight == y.inflight && z.images == y.images
  {
    more, z := Go(o, steps, y, DoPublishParticipant(p));
  }

  lemma SubmitJob(o: Sys, steps: seq<Step>, y: Sys, p: Id) returns (more: seq<Step>, z: Sys, id: Id)
    requires Reaches(o, steps, y) && Settled(y.st) && |y.st.records| < y.st.policy.bounds.maxCollectives && p in {7, 8}
    ensures Reaches(o, more, z) && Settled(z.st) && z.inflight == y.inflight && z.images == y.images
    ensures id == y.st.counters.request && id !in y.st.records && z.st == Admit(y.st, JobAs(p, id, 1))
    ensures more == steps + [DoSubmit(Job(p))] && (Patient(o, steps) ==> Patient(o, more))
  {
    id := y.st.counters.request;
    forall x | x in y.st.records ensures x < id { assert RecordOk(y.st, x); }
    JobIsValid(p, id, 1, y.st.policy);
    assert Labelled(y.st, Job(p)) == JobAs(p, id, 1);
    more, z := Go(o, steps, y, DoSubmit(Job(p)));
  }

  /** Only `id` is still to be granted, and nothing running shares its member. */
  ghost predicate Next1(s: State, id: Id, p: Id, gen: Gen) {
    && HasJob(s, id, p, gen) && Ungranted(s.records[id].lifecycle)
    && (forall x | x in s.records && x != id :: !Ungranted(s.records[x].lifecycle))
    && (forall x | x in s.grants && s.grants[x].Running() :: p !in s.grants[x].grant.participants)
    && s.activeGrants < 10
  }

  lemma Decide(o: Sys, steps: seq<Step>, y: Sys, id: Id, p: Id, gen: Gen) returns (more: seq<Step>, z: Sys)
    requires Reaches(o, steps, y) && Settled(y.st) && Next1(y.st, id, p, gen)
    ensures !ScheduleThrows(y.st) && more == steps + [DoSchedule] && Reaches(o, more, z) && z == Next(y, DoSchedule)
    ensures Settled(z.st) && z.inflight == y.inflight && z.images == y.images
    ensures GrantedAlone(y.st, z.st, id) && (Patient(o, steps) && NonePending(y.st) ==> Patient(o, more))
  {
    more, z := Go(o, steps, y, DoSchedule);
    SoleJob(y.st, id, p, gen);
    SoleDecision(y.st, id);
  }

  lemma SoleJob(s: State, id: Id, p: Id, gen: Gen)
    requires Inv(s) && !ScheduleThrows(s) && Settled(s) && Next1(s, id, p, gen)
    ensures Candidates(s) == {id} && RunningSharers(s, s.records[id].request) == {}
  {
    JobIsCandidate(s, id, p, gen);
    forall x | x in Candidates(s) ensures x == id { CandidatesAre(s, x); }
  }

  ghost predicate ReadyToHandOff(s: State, g: Grant) {
    && g.id in s.grants && s.grants[g.id].grant == g && Revalidate(s, g) == Valid
    && g.request in s.records && s.records[g.request].lifecycle.Granted?
  }

  /** Hands off a valid grant and lets the fabric accept it. */
  lemma HandOver(o: Sys, steps: seq<Step>, y: Sys, g: Grant) returns (more: seq<Step>, z: Sys)
    requires Reaches(o, steps, y) && Settled(y.st) && g !in y.inflight && ReadyToHandOff(y.st, g)
    ensures more == steps + [DoGrant(DoHandoffBegin(g)), DoGrant(DoHandoffEnd(g, true))]
    ensures Reaches(o, more, z) && Settled(z.st) && z.inflight == y.inflight && z.images == y.images
    ensures z.st == Activated(Dispatched(y.st, g), g)
  {
    var w;
    more, w := Begin(o, steps, y, g);
    AnswerActivates(y.st, g);
    more, z := Answer(o, more, w, g, true);
    AppendTwo(steps, DoGrant(DoHandoffBegin(g)), DoGrant(DoHandoffEnd(g, true)));
    InAndOut(y.inflight, g);
  }

  lemma AppendTwo(steps: seq<Step>, a: Step, b: Step)
    ensures steps + [a] + [b] == steps + [a, b]
  {
  }

  lemma AppendFour(steps: seq<Step>, a: Step, b: Step, c: Step, d: Step)
    ensures steps + [a, b] + [c, d] == steps + [a, b, c, d]
  {
  }

  lemma InAndOut(gs: set<Grant>, g: Grant)
    requires g !in gs
    ensures gs + {g} - {g} == gs
  {
  }

  lemma AnswerActivates(s: State, g: Grant)
    requires g.request in s.records && g.id in s.grants
    ensures HandoffEnd(Dispatched(s, g), g, true) == Activated(Dispatched(s, g), g)
    ensures Settled(s) ==> Settled(Activated(Dispatched(s, g), g))
  {
  }

  lemma Answer(o: Sys, steps: seq<Step>, y: Sys, g: Grant, accepted: bool) returns (more: seq<Step>, z: Sys)
    requires Reaches(o, steps, y) && g in y.inflight
    ensures more == steps + [DoGrant(DoHandoffEnd(g, accepted))] && Reaches(o, more, z)
            && (Patient(o, steps) ==> Patient(o, more))
    ensures z.st == HandoffEnd(y.st, g, accepted) && z.inflight == y.inflight - {g} && z.images == y.images
  {
    more, z := Go(o, steps, y, DoGrant(DoHandoffEnd(g, accepted)));
  }

  lemma Begin(o: Sys, steps: seq<Step>, y: Sys, g: Grant) returns (more: seq<Step>, z: Sys)
    requires Reaches(o, steps, y) && Settled(y.st) && ReadyToHandOff(y.st, g)
    ensures more == steps + [DoGrant(DoHandoffBegin(g))] && (Patient(o, steps) ==> Patient(o, more))
    ensures Reaches(o, more, z) && Settled(z.st) && z.inflight == y.inflight + {g} && z.images == y.images
    ensures z.st == Dispatched(y.st, g)
  {
    assert y.st.grants[g.id].grant in OnFileGrants(y.st);
    BeginDispatches(y.st, g);
    more, z := Go(o, steps, y, DoGrant(DoHandoffBegin(g)));
  }

  lemma BeginDispatches(s: State, g: Grant)
    requires ReadyToHandOff(s, g)
    ensures HandoffStarts(s, g) && HandoffBegin(s, g) == Dispatched(s, g)
    ensures Settled(s) ==> Settled(Dispatched(s, g))
  {
  }

  // ---- Two grants for one member ----

  lemma {:induction false} ExclusiveAtTheEnd(y: Sys, steps: seq<Step>)
    requires ValidRun(y, steps) && AlwaysExclusive(y, steps)
    ensures LiveDisjoint(Run(y, steps).st)
    decreases |steps|
  {
    if steps != [] { ExclusiveAtTheEnd(Next(y, steps[0]), steps[1..]); }
  }

  lemma NotExclusive(steps: seq<Step>, y: Sys)
    requires Reaches(START, steps, y) && !LiveDisjoint(y.st)
    ensures !AlwaysExclusive(START, steps)
  {
    if AlwaysExclusive(START, steps) { ExclusiveAtTheEnd(START, steps); }
  }

  lemma TwoLiveGrants(s: State, x: Id, z: Id, p: Id)
    requires Live(s, x) && Live(s, z) && x != z
    requires p in s.grants[x].grant.participants && p in s.grants[z].grant.participants
    ensures !LiveDisjoint(s)
  {
    assert !Disjoint(s.grants[x].grant.participants, s.grants[z].grant.participants);
  }

  /** One job for member `p` has been granted; its grant waits to be handed off. */
  ghost predicate Waiting1(s: State, a: Id, g: Grant) {
    && Settled(s) && s.policy == POLICY && s.records.Keys == {a} && HasJob(s, a, 7, 1)
    && s.records[a].lifecycle.Granted? && s.records[a].current == Some(g)
    && s.grants == map[g.id := GrantState(g, false, false, false, 0, 0)]
    && Matches(g, JobAs(7, a, 1)) && Revalidate(s, g) == Valid && s.activeGrants == 0 && s.epoch == 1
  }

  lemma FirstFiled(s: State, a: Id)
    requires Opened(s) && a == s.counters.request
    ensures Next1(Admit(s, JobAs(7, a, 1)), a, 7, 1) && NonePending(Admit(s, JobAs(7, a, 1)))
  {
  }

  lemma FirstGranted(s: State, t: State, a: Id)
    requires Opened(s) && a == s.counters.request
    requires var u := Admit(s, JobAs(7, a, 1)); !ScheduleThrows(u) && GrantedAlone(u, t, a)
    ensures Waiting1(t, a, t.records[a].current.value)
  {
    var g := t.records[a].current.value;
    assert t.grants == map[g.id := GrantState(g, false, false, false, 0, 0)];
  }

  lemma FirstGrant() returns (steps: seq<Step>, y: Sys, a: Id, g: Grant)
    ensures Reaches(START, steps, y) && Waiting1(y.st, a, g) && y.inflight == {} && y.images == {}
    ensures steps == OPENING + [DoSubmit(Job(7)), DoSchedule] && Patient(START, steps)
  {
    var y0 := Opening();
    var y1;
    steps, y1, a := SubmitJob(START, OPENING, y0, 7);
    FirstFiled(y0.st, a);
    steps, y := Decide(START, steps, y1, a, 7, 1);
    FirstGranted(y0.st, y.st, a);
    g := y.st.records[a].current.value;
    AppendTwo(OPENING, DoSubmit(Job(7)), DoSchedule);
  }

  /** The records on file keep their requests, grants and lifecycles, and a job for `p` has
      been granted. */
  ghost predicate Joined(s: State, t: State, b: Id, h: Grant, p: Id) {
    && Settled(t) && b !in s.records && t.records.Keys == s.records.Keys + {b} && h.id !in s.grants
    && (forall x | x in s.records ::
          && t.records[x].lifecycle == s.records[x].lifecycle && t.records[x].request == s.records[x].request
          && t.records[x].current == s.records[x].current)
    && HasJob(t, b, p, 1) && t.records[b].lifecycle.Granted? && t.records[b].current == Some(h)
    && t.grants == s.grants[h.id := GrantState(h, false, false, false, 0, 0)]
    && Matches(h, JobAs(p, b, 1)) && Revalidate(t, h) == Valid && t.activeGrants == s.activeGrants
  }

  /** Everything on file has been granted, and nothing running uses member `p`. */
  ghost predicate RoomFor(s: State, p: Id) {
    && Settled(s) && |s.records| < s.policy.bounds.maxCollectives && s.activeGrants < 10 && p in {7, 8}
    && (forall x | x in s.records :: !Ungranted(s.records[x].lifecycle))
    && (forall x | x in s.grants && s.grants[x].Running() :: p !in s.grants[x].grant.participants)
  }

  lemma SecondFiled(s: State, b: Id, p: Id)
    requires RoomFor(s, p) && b == s.counters.request && b !in s.records
    ensures Next1(Admit(s, JobAs(p, b, 1)), b, p, 1)
    ensures NonePending(s) ==> NonePending(Admit(s, JobAs(p, b, 1)))
  {
  }

  lemma SecondGranted(s: State, t: State, b: Id, p: Id)
    requires RoomFor(s, p) && b == s.counters.request && b !in s.records
    requires forall x | x in s.grants :: x < s.counters.grant
    requires var u := Admit(s, JobAs(p, b, 1)); !ScheduleThrows(u) && GrantedAlone(u, t, b)
    ensures Joined(s, t, b, t.records[b].current.value, p)
  {
  }

  lemma NextGrant(o: Sys, steps: seq<Step>, y: Sys, p: Id) returns (more: seq<Step>, z: Sys, b: Id, h: Grant)
    requires Reaches(o, steps, y) && RoomFor(y.st, p)
    ensures Reaches(o, more, z) && more == steps + [DoSubmit(Job(p)), DoSchedule]
    ensures z.inflight == y.inflight && z.images == y.images && Joined(y.st, z.st, b, h, p)
    ensures Patient(o, steps) && NonePending(y.st) ==> Patient(o, more)
  {
    var w;
    more, w, b := SubmitJob(o, steps, y, p);
    SecondFiled(y.st, b, p);
    more, z := Decide(o, more, w, b, p, 1);
    forall x | x in y.st.grants ensures x < y.st.counters.grant { assert GrantOk(y.st, x); }
    SecondGranted(y.st, z.st, b, p);
    h := z.st.records[b].current.value;
    AppendTwo(steps, DoSubmit(Job(p)), DoSchedule);
  }

  lemma OneKey(m: map<Id, Record>, a: Id)
    requires m.Keys == {a}
    ensures |m| == 1
  {
    assert |m.Keys| == |m|;
  }

  lemma RoomDespite(s: State, a: Id, g: Grant)
    requires Waiting1(s, a, g)
    ensures RoomFor(s, 7)
  {
    OneKey(s.records, a);
  }

  /** Two jobs for the same member, each scheduled before anything is handed off: both are
      granted, because the first grant is still waiting and `schedule` does not see it. */
  lemma WaitingGrantIsOverlooked()
    ensures var steps := OPENING + [DoSubmit(Job(7)), DoSchedule, DoSubmit(Job(7)), DoSchedule];
            ValidRun(START, steps) && !AlwaysExclusive(START, steps)
  {
    var steps, y, a, g := FirstGrant();
    RoomDespite(y.st, a, g);
    var more, z, b, h := NextGrant(START, steps, y, 7);
    TwoLiveGrants(z.st, g.id, h.id, 7);
    AppendFour(OPENING, DoSubmit(Job(7)), DoSchedule, DoSubmit(Job(7)), DoSchedule);
    NotExclusive(more, z);
  }

  // ---- The counter of active grants ----

  lemma {:induction false} ExactAtTheEnd(y: Sys, steps: seq<Step>)
    requires ValidRun(y, steps)
    ensures AlwaysExact(y, steps) ==> Exact(Run(y, steps).st)
    ensures AlwaysCovered(y, steps) ==> Covered(Run(y, steps).st)
    decreases |steps|
  {
    if steps != [] { ExactAtTheEnd(Next(y, steps[0]), steps[1..]); }
  }

  /** The first job's grant is running. */
  ghost predicate Running1(s: State, a: Id, g: Grant) {
    && Settled(s) && s.policy == POLICY && s.records.Keys == {a} && HasJob(s, a, 7, 1)
    && s.records[a].lifecycle.Active? && s.records[a].current == Some(g)
    && s.grants == map[g.id := GrantState(g, true, true, false, 0, 0)]
    && Matches(g, JobAs(7, a, 1)) && s.activeGrants == 1
  }

  lemma FirstRuns(s: State, a: Id, g: Grant)
    requires Waiting1(s, a, g)
    ensures Running1(Activated(Dispatched(s, g), g), a, g)
  {
  }

  ghost predicate Plain(steps: seq<Step>) { NoSupersede(steps) && NoFence(steps) }

  lemma PlainJoined(steps: seq<Step>, a: Step, b: Step)
    requires Plain(steps) && !a.DoSupersede? && !b.DoSupersede? && !a.DoFence? && !b.DoFence?
    ensures Plain(steps + [a, b])
  {
  }

  lemma PlainOpening()
    ensures Plain(OPENING + [DoSubmit(Job(7)), DoSchedule])
  {
  }

  lemma FirstRunning() returns (steps: seq<Step>, y: Sys, a: Id, g: Grant)
    ensures Reaches(START, steps, y) && Running1(y.st, a, g) && y.inflight == {} && y.images == {} && Plain(steps)
  {
    var before, y0;
    before, y0, a, g := FirstGrant();
    FirstRuns(y0.st, a, g);
    Waiting1IsReady(y0.st, a, g);
    steps, y := HandOver(START, before, y0, g);
    PlainOpening();
    PlainJoined(before, DoGrant(DoHandoffBegin(g)), DoGrant(DoHandoffEnd(g, true)));
  }

  /** Fencing the boot of a running grant leaves the counter at one with nothing active. */
  lemma FenceLeavesCounter() returns (steps: seq<Step>)
    ensures ValidRun(START, steps) && NoSupersede(steps) && !AlwaysExact(START, steps)
  {
    var before, y, a, g := FirstRunning();
    FencedCount(y.st, a, g);
    var z;
    steps, z := Go(START, before, y, DoFence(1, 1));
    ExactAtTheEnd(START, steps);
    OneMoreStep(before, DoFence(1, 1));
  }

  lemma OneMoreStep(steps: seq<Step>, step: Step)
    ensures NoSupersede(steps) && !step.DoSupersede? ==> NoSupersede(steps + [step])
    ensures NoFence(steps) && !step.DoFence? ==> NoFence(steps + [step])
  {
  }

  lemma FencedCount(s: State, a: Id, g: Grant)
    requires Running1(s, a, g)
    ensures !Exact(Fence(s, 1, 1))
  {
    FenceCount(s, 1, 1);
    assert 7 in s.records[a].request.participants && OnBoot(s.participants[7], 1, 1);
    assert g.id in FencedGrants(s, 1, 1);
    assert ActiveSet(Fence(s, 1, 1)) == {};
  }

  /** Superseding a grant that still waits takes the counter below the grants that run. */
  lemma SupersedeUndercounts() returns (steps: seq<Step>)
    ensures ValidRun(START, steps) && NoFence(steps) && !AlwaysExact(START, steps) && !AlwaysCovered(START, steps)
  {
    var before, z, b := RunningAndWaiting();
    var w;
    steps, w := SupersedeJob(START, before, z, JobAs(8, b, 2));
    ExactAtTheEnd(START, steps);
    OneMoreStep(before, DoSupersede(JobAs(8, b, 2)));
  }

  lemma RunningAndWaiting() returns (steps: seq<Step>, z: Sys, b: Id)
    ensures Reaches(START, steps, z) && NoFence(steps)
    ensures !Covered(Supersede(z.st, JobAs(8, b, 2))) && !Exact(Supersede(z.st, JobAs(8, b, 2)))
  {
    var before, y, a, g := FirstRunning();
    RoomBeside(y.st, a, g);
    var h;
    steps, z, b, h := NextGrant(START, before, y, 8);
    UndercountedBy(y.st, z.st, a, g, b, h);
    PlainJoined(before, DoSubmit(Job(8)), DoSchedule);
  }

  lemma RoomBeside(s: State, a: Id, g: Grant)
    requires Running1(s, a, g)
    ensures RoomFor(s, 8)
  {
    OneKey(s.records, a);
  }

  lemma UndercountedBy(s: State, t: State, a: Id, g: Grant, b: Id, h: Grant)
    requires Running1(s, a, g) && Joined(s, t, b, h, 8)
    ensures !Covered(Supersede(t, JobAs(8, b, 2))) && !Exact(Supersede(t, JobAs(8, b, 2)))
  {
    JobIsValid(8, b, 2, t.policy);
    var u := Supersede(t, JobAs(8, b, 2));
    assert u == ReplaceGranted(t, t.records[b], JobAs(8, b, 2), h.id);
    assert ActiveSet(u) == {g.id};
  }

  // ---- A superseded handoff ----

  /** The first job has been superseded while its handoff `g` was in flight. */
  ghost predicate Replaced(s: State, a: Id, g: Grant) {
    && Settled(s) && s.policy == POLICY && s.records.Keys == {a} && HasJob(s, a, 7, 2)
    && s.records[a].lifecycle.Waiting? && s.records[a].current.None?
    && s.grants == map[g.id := GrantState(g, true, false, true, 0, 0)] && s.activeGrants == 0
    && g.request == a && g.id < s.counters.grant
  }

  lemma ReplacedBy(s: State, a: Id, g: Grant)
    requires Waiting1(s, a, g) && g.id < s.counters.grant
    ensures Replaced(Supersede(Dispatched(s, g), JobAs(7, a, 2)), a, g)
  {
    JobIsValid(7, a, 2, s.policy);
    var d := Dispatched(s, g);
    assert Supersede(d, JobAs(7, a, 2)) == ReplaceGranted(d, d.records[a], JobAs(7, a, 2), g.id);
  }

  lemma SupersededInFlight() returns (steps: seq<Step>, y: Sys, a: Id, g: Grant)
    ensures Reaches(START, steps, y) && Patient(START, steps) && Replaced(y.st, a, g) && g in y.inflight
  {
    var s0, y0, s1, y1;
    s0, y0, a, g := FirstGrant();
    assert g.id < y0.st.counters.grant by { assert GrantOk(y0.st, g.id); }
    Waiting1IsReady(y0.st, a, g);
    ReplacedBy(y0.st, a, g);
    s1, y1 := Begin(START, s0, y0, g);
    steps, y := SupersedeJob(START, s1, y1, JobAs(7, a, 2));
  }

  lemma SupersedeJob(o: Sys, steps: seq<Step>, y: Sys, req: Request) returns (more: seq<Step>, z: Sys)
    requires Reaches(o, steps, y)
    ensures more == steps + [DoSupersede(req)] && Reaches(o, more, z) && (Patient(o, steps) ==> Patient(o, more))
    ensures z.st == Supersede(y.st, req) && z.inflight == y.inflight && z.images == y.images
  {
    more, z := Go(o, steps, y, DoSupersede(req));
  }

  lemma Waiting1IsReady(s: State, a: Id, g: Grant)
    requires Waiting1(s, a, g)
    ensures ReadyToHandOff(s, g)
  {
  }

  /** The new generation is being dispatched under `h`, with the answer for `g` outstanding. */
  ghost predicate Redispatched(s: State, a: Id, g: Grant, h: Grant) {
    && Settled(s) && s.policy == POLICY && s.records.Keys == {a} && HasJob(s, a, 7, 2)
    && g.request == a && h.request == a
    && s.records[a].lifecycle.Dispatching? && s.records[a].current == Some(h)
    && g.id != h.id && s.grants.Keys == {g.id, h.id} && s.activeGrants == 0
    && s.grants[g.id] == GrantState(g, true, false, true, 0, 0)
    && s.grants[h.id] == GrantState(h, true, false, false, 0, 0) && h.participants == [7]
  }

  lemma RedispatchedAs(s: State, t: State, a: Id, g: Grant)
    requires Replaced(s, a, g) && !ScheduleThrows(s) && GrantedAlone(s, t, a)
    ensures Redispatched(Dispatched(t, t.records[a].current.value), a, g, t.records[a].current.value)
  {
  }

  lemma RedispatchedInFlight() returns (steps: seq<Step>, y: Sys, a: Id, g: Grant, h: Grant)
    ensures Reaches(START, steps, y) && Patient(START, steps) && Redispatched(y.st, a, g, h)
            && g in y.inflight && h in y.inflight
  {
    var s0, y0, s1, y1;
    s0, y0, a, g := SupersededInFlight();
    ReplacedIsNext(y0.st, a, g);
    s1, y1 := Decide(START, s0, y0, a, 7, 2);
    h := y1.st.records[a].current.value;
    GrantedAloneIsReady(y0.st, y1.st, a);
    RedispatchedAs(y0.st, y1.st, a, g);
    steps, y := Begin(START, s1, y1, h);
  }

  lemma ReplacedIsNext(s: State, a: Id, g: Grant)
    requires Replaced(s, a, g)
    ensures Next1(s, a, 7, 2) && NonePending(s)
  {
  }

  lemma GrantedAloneIsReady(s: State, t: State, a: Id)
    requires !ScheduleThrows(s) && GrantedAlone(s, t, a) && HasJob(s, a, 7, 2)
    ensures ReadyToHandOff(t, t.records[a].current.value)
  {
  }

  /** The stale answer has made the new generation ACTIVE without its own grant running. */
  ghost predicate ActiveAhead(s: State, a: Id, h: Grant) {
    && RoomFor(s, 7) && NonePending(s) && a in s.records && s.records[a].lifecycle.Active? && h.request == a
    && h.id in s.grants && s.grants[h.id] == GrantState(h, true, false, false, 0, 0) && h.participants == [7]
  }

  lemma StaleAnswer(s: State, a: Id, g: Grant, h: Grant)
    requires Redispatched(s, a, g, h)
    ensures ActiveAhead(HandoffEnd(s, g, true), a, h)
  {
    assert HandoffEnd(s, g, true) == Activated(s, g);
    OneKey(HandoffEnd(s, g, true).records, a);
  }

  lemma BothLive(s: State, t: State, a: Id, h: Grant, b: Id, k: Grant)
    requires ActiveAhead(s, a, h) && Joined(s, t, b, k, 7)
    ensures !LiveDisjoint(HandoffEnd(t, h, true))
  {
    var u := HandoffEnd(t, h, true);
    assert u == Activated(t, h);
    TwoLiveGrants(u, h.id, k.id, 7);
  }

  /** A job is superseded while its handoff is in flight; the late answer makes the new
      generation ACTIVE before its own grant runs, so the next decision grants the same
      member again, although no `schedule` of the run finds a grant pending. */
  lemma LateAnswerBreaksExclusion() returns (steps: seq<Step>)
    ensures ValidRun(START, steps) && PatientRun(START, steps) && !AlwaysExclusive(START, steps)
  {
    var before, y, h := GrantedBesideDispatch();
    var z;
    steps, z := Answer(START, before, y, h, true);
    NotExclusive(steps, z);
  }

  lemma GrantedBesideDispatch() returns (steps: seq<Step>, y: Sys, h: Grant)
    ensures Reaches(START, steps, y) && Patient(START, steps) && h in y.inflight
    ensures !LiveDisjoint(HandoffEnd(y.st, h, true))
  {
    var s1, y1, a;
    s1, y1, a, h := AnsweredLate();
    var b, k;
    steps, y, b, k := NextGrant(START, s1, y1, 7);
    BothLive(y1.st, y.st, a, h, b, k);
  }

  lemma AnsweredLate() returns (steps: seq<Step>, y: Sys, a: Id, h: Grant)
    ensures Reaches(START, steps, y) && Patient(START, steps) && h in y.inflight && ActiveAhead(y.st, a, h)
  {
    var s0, y0, g;
    s0, y0, a, g, h := RedispatchedInFlight();
    StaleAnswer(y0.st, a, g, h);
    assert g != h;
    steps, y := Answer(START, s0, y0, g, true);
  }

  /** After a late answer has made the record ACTIVE, its own grant is started by the fabric's
      refusal. */
  lemma RefusedGrantRuns() returns (steps: seq<Step>, h: Grant)
    ensures ValidRun(START, steps) && ValidRun(START, steps + [DoGrant(DoHandoffEnd(h, false))])
    ensures !IsRunning(Run(START, steps).st, h)
    ensures IsRunning(Run(START, steps + [DoGrant(DoHandoffEnd(h, false))]).st, h)
  {
    var y, a;
    steps, y, a, h := AnsweredLate();
    AnswerToActive(y.st, h, false);
    var more, z := Answer(START, steps, y, h, false);
  }

  // ---- Submission order when room runs out ----

  const TIGHT := POLICY.(bounds := POLICY.bounds.(maxCollectives := 1))

  /** Two requests are submitted, one after the other. */
  lemma SubmitBoth(o: Sys, y: Sys, a: Request, b: Request) returns (z: Sys)
    requires Reaches(o, OPENING, y)
    ensures Reaches(o, OPENING + [DoSubmit(a), DoSubmit(b)], z)
    ensures z.st == Submit(Submit(y.st, a), b) == Submissions.SubmitAll(y.st, [a, b])
  {
    var s1, y1 := Go(o, OPENING, y, DoSubmit(a));
    var s2;
    s2, z := Go(o, s1, y1, DoSubmit(b));
    AppendTwo(OPENING, DoSubmit(a), DoSubmit(b));
    TwoSubmitted(y.st, a, b);
  }

  lemma TwoSubmitted(s: State, a: Request, b: Request)
    ensures Submissions.SubmitAll(s, [a, b]) == Submit(Submit(s, a), b)
  {
    assert [a, b][..1] == [a] && [a][..0] == [];
    assert Submissions.SubmitAll(s, [a]) == Submit(s, a);
  }

  /** The decision is to grant this request and nothing else. */
  ghost predicate SelectsJust(s: State, r: Request) {
    && !ScheduleThrows(s) && |Selected(s)| == 1
    && Selected(s)[0] in s.records && s.records[Selected(s)[0]].request == r.(id := Selected(s)[0], gen := 1)
  }

  lemma OnlyOneFits(s: State, p: Id, q: Id)
    requires OpenedUnder(s, TIGHT)
    ensures Submit(Submit(s, Job(p)), Job(q)) == Admit(s, JobAs(p, s.counters.request, 1))
  {
    JobIsValid(p, s.counters.request, 1, s.policy);
    assert Labelled(s, Job(p)) == JobAs(p, s.counters.request, 1);
  }

  lemma FirstIsSelected(s: State, p: Id, q: Id)
    requires OpenedUnder(s, TIGHT) && p in {7, 8} && Inv(Submit(Submit(s, Job(p)), Job(q)))
    ensures SelectsJust(Submit(Submit(s, Job(p)), Job(q)), Job(p))
  {
    var id := s.counters.request;
    var t := Admit(s, JobAs(p, id, 1));
    OnlyOneFits(s, p, q);
    ScheduleNeverThrows(t);
    SoleJob(t, id, p, 1);
    OneSelected(t, id);
  }

  lemma TwoForOne(s: State)
    requires OpenedUnder(s, TIGHT)
    ensures Submissions.OncePerCollective(s, [Job(7), Job(8)]) && Submissions.RunsOut(s, [Job(7), Job(8)])
  {
    var rs := [Job(7), Job(8)];
    assert rs[..1] == [Job(7)] && [Job(7)][..0] == [];
    JobIsValid(7, 0, 0, s.policy);
    JobIsValid(8, 0, 0, s.policy);
    assert Submissions.Acceptances([Job(7)], s.policy) == 1;
  }

  /** With room for one collective, whoever submits first is selected, although the two
      requests are for different collectives. */
  lemma FullSchedulerDependsOnOrder() returns (y: Sys, t: Sys, u: Sys)
    ensures var o := NewSystem(TIGHT, 1);
            && Reaches(o, OPENING, y)
            && Reaches(o, OPENING + [DoSubmit(Job(7)), DoSubmit(Job(8))], t) && SelectsJust(t.st, Job(7))
            && Reaches(o, OPENING + [DoSubmit(Job(8)), DoSubmit(Job(7))], u) && SelectsJust(u.st, Job(8))
    ensures Submissions.OncePerCollective(y.st, [Job(7), Job(8)]) && Submissions.RunsOut(y.st, [Job(7), Job(8)])
  {
    var o := NewSystem(TIGHT, 1);
    y := OpeningUnder(TIGHT);
    TwoForOne(y.st);
    t := SubmitBoth(o, y, Job(7), Job(8));
    FirstIsSelected(y.st, 7, 8);
    u := SubmitBoth(o, y, Job(8), Job(7));
    FirstIsSelected(y.st, 8, 7);
  }

  // ---- Submission order between requests for one collective ----

  /** Requests for the same member and collective, for different workloads. */
  function Twin(w: Id): Request { Job(7).(workload := w) }

  ghost predicate HasTwin(s: State, id: Id, w: Id) {
    id in s.records && s.records[id].request == Twin(w).(id := id, gen := 1) && s.records[id].lifecycle.Declared?
    && s.records[id].age == 0 && s.records[id].fairness == FreshFairness(0)
  }

  lemma TwinIsCandidate(s: State, id: Id, w: Id)
    requires Inv(s) && !ScheduleThrows(s) && Settled(s) && HasTwin(s, id, w)
    ensures id in Candidates(s)
  {
    var req := s.records[id].request;
    assert req.participants == [7] && req.participantGens == [1];
    forall i | 0 <= i < |req.participants| ensures GenerationCurrent(s, req.participants, req.participantGens, i) {}
    CandidatesAre(s, id);
  }

  lemma TwinsTie(s: State, a: Id, b: Id, v: Id, w: Id)
    requires !ScheduleThrows(s) && HasTwin(s, a, v) && HasTwin(s, b, w)
    ensures Ties(EntryOf(Prepared(s), a), EntryOf(Prepared(s), b))
  {
    var r, q := Prepared(s).records[a], Prepared(s).records[b];
    assert q.request == r.request.(id := b, workload := w) && q.fairness == r.fairness && q.age == r.age;
    SameKey(Prepared(s), r, q, w);
  }

  lemma SameKey(s: State, r: Record, q: Record, w: Id)
    requires q.request == r.request.(id := q.request.id, workload := w) && q.fairness == r.fairness && q.age == r.age
    ensures RankingKey(s, r) == RankingKey(s, q)
  {
    assert StarvationFactor(s, q) == StarvationFactor(s, r);
    var a, b := RankingKey(s, r), RankingKey(s, q);
    assert a[0] == b[0] && a[1] == b[1] && a[2] == b[2] && a[3] == b[3] && a[4] == b[4] && a[5] == b[5];
    assert a[6] == b[6] && a[7] == b[7] && a[8] == b[8] && a[9] == b[9] && a[10] == b[10];
  }

  /** Two twins on file and nothing else; the first was submitted earlier. */
  ghost predicate TwoTwins(s: State, a: Id, v: Id, w: Id) {
    && Settled(s) && s.policy == POLICY && s.records.Keys == {a, a + 1} && HasTwin(s, a, v) && HasTwin(s, a + 1, w)
    && s.records[a].seqNo < s.records[a + 1].seqNo && s.grants == map[] && s.activeGrants == 0
  }

  lemma FirstTwinIsFirst(s: State, a: Id, v: Id, w: Id)
    requires Inv(s) && !ScheduleThrows(s) && TwoTwins(s, a, v, w)
    ensures Ranking(s) != [] && Ranking(s)[0] == a
  {
    TwinsRanked(s, a, v, w);
    RankedOnce(s);
    FirstOfTwo(Ranking(s), a, a + 1);
  }

  lemma RankedOnce(s: State)
    requires !ScheduleThrows(s)
    ensures NoDuplicates(Ranking(s)) && forall x | x in Ranking(s) :: x in s.records.Keys
  {
    RankingIsCandidates(s);
  }

  lemma TwinsRanked(s: State, a: Id, v: Id, w: Id)
    requires Inv(s) && !ScheduleThrows(s) && TwoTwins(s, a, v, w)
    ensures Precedes(Ranking(s), a, a + 1)
  {
    TwinIsCandidate(s, a, v);
    TwinIsCandidate(s, a + 1, w);
    TwinsTie(s, a, a + 1, v, w);
    Order.TiesGoByLabels(s, a, a + 1);
  }

  lemma FirstOfTwo(v: seq<Id>, a: Id, b: Id)
    requires NoDuplicates(v) && Precedes(v, a, b) && forall x | x in v :: x in {a, b}
    ensures v != [] && v[0] == a
  {
    assert v[0] in v;
  }

  lemma OnlyFirstTwin(s: State, a: Id, v: Id, w: Id)
    requires Inv(s) && !ScheduleThrows(s) && TwoTwins(s, a, v, w)
    ensures Selected(s) == [a]
  {
    FirstTwinIsFirst(s, a, v, w);
    TopIsSelected(s);
    TwinsConflict(s, a, v, w);
    SelectedAreCandidates(s);
    OnlyElement(Selected(s), a);
  }

  lemma TwinsConflict(s: State, a: Id, v: Id, w: Id)
    requires Inv(s) && !ScheduleThrows(s) && TwoTwins(s, a, v, w) && a in Selected(s)
    ensures a + 1 !in Selected(s)
  {
    assert 7 in s.records[a].request.participants && 7 in s.records[a + 1].request.participants;
    if a + 1 in Selected(s) { SelectedDisjoint(s, a, a + 1); }
  }

  lemma TwinsFiled(s: State, v: Id, w: Id)
    requires Opened(s)
    ensures TwoTwins(Submit(Submit(s, Twin(v)), Twin(w)), s.counters.request, v, w)
  {
    TwinIsValid(v, s.counters.request);
    TwinIsValid(w, s.counters.request + 1);
  }

  lemma TwinIsValid(w: Id, id: Id)
    ensures Validate(Twin(w).(id := id, gen := 1), POLICY).None?
  {
  }

  /** With room to spare, of two requests for one collective that cannot run together the
      one submitted first is selected, whichever it is. */
  lemma TiesGoToTheFirst(v: Id, w: Id) returns (z: Sys)
    ensures Reaches(START, OPENING + [DoSubmit(Twin(v)), DoSubmit(Twin(w))], z)
    ensures |z.st.records| < z.st.policy.bounds.maxCollectives && SelectsJust(z.st, Twin(v))
  {
    var y := Opening();
    z := SubmitBoth(START, y, Twin(v), Twin(w));
    TwinsFiled(y.st, v, w);
    ScheduleNeverThrows(z.st);
    OnlyFirstTwin(z.st, y.st.counters.request, v, w);
    TwoKeys(z.st.records, y.st.counters.request);
  }

  lemma TwoKeys(m: map<Id, Record>, a: Id)
    requires m.Keys == {a, a + 1}
    ensures |m| == 2
  {
    assert |m.Keys| == |m|;
  }
}
