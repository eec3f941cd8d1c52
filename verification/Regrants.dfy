/** One grant per request generation, across restarts: it holds when every restart has caught
    up with the grants issued, and a restart that has not can always be followed by a second
    grant of the same generation. */
module Regrants {
  import opened Types
  import opened Lifecycles
  import opened States
  import opened Steps
  import opened Invariants
  import opened Decisions
  import opened Images
  import opened Runs
  import opened Scenarios

  ghost predicate SameGeneration(g: Grant, h: Grant) { g.request == h.request && g.requestGen == h.requestGen }

  // ---- Which records a step can add ----

  /** Only `submit` adds a record: the next id, at generation 1. */
  ghost predicate KeysGrow(s: State, t: State) {
    forall id | id in t.records && id !in s.records :: id == s.counters.request && t.records[id].request.gen == 1
  }

  lemma GrantStepKeys(s: State, gr: GrantStep)
    ensures GrantStepState(s, gr).records.Keys == s.records.Keys
  {
  }

  lemma SubmitKeys(s: State, req: Request)
    ensures KeysGrow(s, Submit(s, req))
  {
    if SubmitError(s, req).None? { assert KeysGrow(s, Admit(s, Labelled(s, req))); }
  }

  lemma SupersedeKeys(s: State, req: Request)
    ensures Supersede(s, req).records.Keys == s.records.Keys
  {
    if SupersedeError(s, req).None? { assert Replace(s, s.records[req.id], req).records.Keys == s.records.Keys; }
  }

  lemma CancelKeys(s: State, id: Id)
    ensures Cancel(s, id).records.Keys == s.records.Keys
  {
  }

  lemma StepKeys(s: State, step: Step)
    requires Inv(s) && !ScheduleThrows(s) && !step.DoRestart?
    ensures KeysGrow(s, NextState(s, step))
  {
    match step
    case DoEvidence(ev) => EvidenceShape(s, ev);
    case DoGrant(gr) => GrantStepKeys(s, gr);
    case DoSubmit(r) => SubmitKeys(s, r);
    case DoSupersede(r) => SupersedeKeys(s, r);
    case DoCancel(id) => CancelKeys(s, id);
    case DoSchedule => ScheduleTouchesOnly(s);
    case _ =>
  }

  // ---- Restarts that have caught up ----

  /** What a restart must leave behind for the generation to be granted again: an older
      generation of the request, or room to submit it anew under the same id. */
  ghost predicate Regrantable(s: State, g: Grant) {
    if g.request in s.records then s.records[g.request].request.gen < g.requestGen
    else s.counters.request <= g.request && 1 <= g.requestGen
  }

  /** The generation has been granted and cannot be granted again. */
  ghost predicate Spent(s: State, g: Grant) {
    if g.request in s.records
    then var r := s.records[g.request];
         && g.requestGen <= r.request.gen
         && (g.requestGen == r.request.gen ==> !Ungranted(r.lifecycle) && (r.current == Some(g) || r.current.None?))
    else g.request < s.counters.request || g.requestGen < 1
  }

  ghost predicate Unrepeated(y: Sys) { (forall g | g in y.issued :: Spent(y.st, g)) && OnePerGeneration(y.issued) }

  /** A restart leaves none of the grants issued so far to be granted again. A caller can
      tell from the image. */
  ghost predicate CaughtUp(y: Sys, step: Step) {
    step.DoRestart? ==>
      forall g | g in y.issued :: !Regrantable(Restarted(step.source, step.policy, step.epoch), g)
  }

  lemma SpentEvolves(s: State, t: State, g: Grant)
    requires Spent(s, g) && Evolves(s, t) && KeysGrow(s, t)
    ensures Spent(t, g)
  {
    if g.request in s.records { assert RecordEvolves(s.records[g.request], t.records[g.request]); }
  }

  lemma UnrepeatedStep(y: Sys, step: Step)
    requires SysInv(y) && Enabled(y, step) && !ScheduleThrows(y.st) && Unrepeated(y) && CaughtUp(y, step)
    ensures Unrepeated(Next(y, step))
  {
    if step.DoRestart? {
      UnrepeatedRestart(y, step);
    } else {
      StateStep(y, step);
      FreshStep(y, step);
      StepKeys(y.st, step);
      SpentStays(y, NextState(y.st, step));
      NewGrantsDiffer(y, Next(y, step));
    }
  }

  lemma UnrepeatedRestart(y: Sys, step: Step)
    requires !ScheduleThrows(y.st) && Unrepeated(y) && CaughtUp(y, step) && step.DoRestart?
    ensures Unrepeated(Next(y, step))
  {
    RestartedFacts(step.source, step.policy, step.epoch);
  }

  lemma SpentStays(y: Sys, t: State)
    requires Unrepeated(y) && Evolves(y.st, t) && KeysGrow(y.st, t)
    ensures forall g | g in y.issued :: Spent(t, g)
  {
    forall g | g in y.issued ensures Spent(t, g) { SpentEvolves(y.st, t, g); }
  }

  lemma NewGrantsDiffer(y: Sys, z: Sys)
    requires OnePerGeneration(y.issued) && forall g | g in y.issued :: Spent(z.st, g)
    requires forall g | g in z.issued && g !in y.issued :: g in z.own && FreshOk(z.st, g)
               && z.st.records[g.request].current == Some(g) && g.requestGen == z.st.records[g.request].request.gen
    ensures Unrepeated(z)
  {
    forall g, h | g in z.issued && h in z.issued && g.request == h.request && g.requestGen == h.requestGen
      ensures g == h
    {
      assert Spent(z.st, g) && Spent(z.st, h);
    }
  }

  ghost predicate CaughtUpRun(y: Sys, steps: seq<Step>)
    requires ValidRun(y, steps)
    decreases |steps|
  {
    steps == [] || (CaughtUp(y, steps[0]) && CaughtUpRun(Next(y, steps[0]), steps[1..]))
  }

  lemma {:induction false} UnrepeatedOverRuns(y: Sys, steps: seq<Step>)
    requires SysInv(y) && Unrepeated(y) && ValidRun(y, steps) && CaughtUpRun(y, steps)
    ensures Unrepeated(Run(y, steps))
    decreases |steps|
  {
    if steps != [] {
      UnrepeatedStep(y, steps[0]);
      SysStep(y, steps[0]);
      UnrepeatedOverRuns(Next(y, steps[0]), steps[1..]);
    }
  }

  /** In every run none of whose restarts leaves an issued grant to be granted again, each
      generation of a request receives at most one grant. */
  lemma OneGrantPerGeneration(policy: Policy, epoch: Gen, steps: seq<Step>)
    requires ValidRun(NewSystem(policy, epoch), steps) && CaughtUpRun(NewSystem(policy, epoch), steps)
    ensures OnePerGeneration(Run(NewSystem(policy, epoch), steps).issued)
  {
    NewSystemOk(policy, epoch);
    UnrepeatedOverRuns(NewSystem(policy, epoch), steps);
  }

  // ---- A generation that stays closed ----

  ghost predicate Closed(s: State, g: Grant) {
    if g.request in s.records
    then var r := s.records[g.request];
         g.requestGen < r.request.gen || (g.requestGen == r.request.gen && !Ungranted(r.lifecycle) && r.current.None?)
    else g.request < s.counters.request || g.requestGen < 1
  }

  lemma ClosedStays(s: State, t: State, g: Grant)
    requires Closed(s, g) && Evolves(s, t) && KeysGrow(s, t)
    ensures Closed(t, g)
  {
    if g.request in s.records { assert RecordEvolves(s.records[g.request], t.records[g.request]); }
  }

  ghost predicate GrantedSince(y: Sys, g: Grant) { exists h | h in y.own :: SameGeneration(g, h) }

  lemma ClosedStep(y: Sys, step: Step, g: Grant)
    requires SysInv(y) && Enabled(y, step) && !step.DoRestart? && !ScheduleThrows(y.st)
    requires Closed(y.st, g) && !GrantedSince(y, g)
    ensures Closed(Next(y, step).st, g) && !GrantedSince(Next(y, step), g)
  {
    StateStep(y, step);
    FreshStep(y, step);
    StepKeys(y.st, step);
    ClosedStays(y.st, Next(y, step).st, g);
  }

  lemma {:induction false} ClosedOverRuns(y: Sys, steps: seq<Step>, g: Grant)
    requires SysInv(y) && ValidRun(y, steps) && NoRestart(steps) && Closed(y.st, g) && !GrantedSince(y, g)
    ensures !GrantedSince(Run(y, steps), g)
    decreases |steps|
  {
    if steps != [] {
      ClosedStep(y, steps[0], g);
      SysStep(y, steps[0]);
      ClosedOverRuns(Next(y, steps[0]), steps[1..], g);
    }
  }

  // ---- And one that can be granted again ----

  lemma NoRestartYet(steps: seq<Step>, step: Step)
    requires NoRestart(steps) && !step.DoRestart?
    ensures NoRestart(steps + [step])
  {
  }

  /** A process that has just been started. */
  ghost predicate JustStarted(o: Sys) {
    && SysInv(o) && NoGrants(o.st) && NoEvidence(o.st) && o.st.now == 0
    && forall id | id in o.st.records :: AtRestart(o.st.records[id])
  }

  function RoomyPolicy(n: nat): Policy { POLICY.(bounds := POLICY.bounds.(maxCollectives := n + 1)) }

  /** The records are as they were; policy and evidence are settled. */
  ghost predicate Reopened(s: State, t: State) {
    && Settled(t) && t.records == s.records && t.counters == s.counters && t.epoch == s.epoch
    && t.grants == map[] && t.activeGrants == 0 && |t.records| < t.policy.bounds.maxCollectives
    && forall id | id in t.records :: AtRestart(t.records[id])
  }

  lemma UnknownMember(s: State, p: Participant)
    requires p.id !in s.participants
    ensures PublishParticipant(s, p).records == s.records
  {
  }

  lemma ReopenedState(s: State)
    requires NoGrants(s) && NoEvidence(s) && s.now == 0 && forall id | id in s.records :: AtRestart(s.records[id])
    ensures var t := PublishParticipant(
              PublishParticipant(SetPolicy(s, RoomyPolicy(|s.records|)), Member(7)), Member(8));
            Reopened(s, PublishPlan(t, PLAN))
  {
    var s0 := SetPolicy(s, RoomyPolicy(|s.records|));
    UnknownMember(s0, Member(7));
    UnknownMember(PublishParticipant(s0, Member(7)), Member(8));
  }

  /** Two members join. */
  lemma Members(o: Sys, steps: seq<Step>, y: Sys) returns (more: seq<Step>, z: Sys)
    requires Reaches(o, steps, y) && NoRestart(steps)
    ensures Reaches(o, more, z) && NoRestart(more)
    ensures z.st == PublishParticipant(PublishParticipant(y.st, Member(7)), Member(8))
  {
    var s1, y1 := Publish(o, steps, y, Member(7));
    more, z := Publish(o, s1, y1, Member(8));
    NoRestartYet(steps, DoPublishParticipant(Member(7)));
    NoRestartYet(s1, DoPublishParticipant(Member(8)));
  }

  lemma Reopen(o: Sys) returns (steps: seq<Step>, y: Sys)
    requires JustStarted(o)
    ensures Reaches(o, steps, y) && NoRestart(steps) && Reopened(o.st, y.st)
  {
    var s1, y1 := MakeRoom(o);
    var s2, y2 := Members(o, s1, y1);
    ReopenedState(o.st);
    steps, y := GiveEvidence(o, s2, y2, DoPublishPlan(PLAN));
    NoRestartYet(s2, DoEvidence(DoPublishPlan(PLAN)));
  }

  lemma MakeRoom(o: Sys) returns (steps: seq<Step>, y: Sys)
    requires SysInv(o)
    ensures Reaches(o, steps, y) && NoRestart(steps) && y.st == SetPolicy(o.st, RoomyPolicy(|o.st.records|))
  {
    steps, y := GiveEvidence(o, [], o, DoSetPolicy(RoomyPolicy(|o.st.records|)));
    NoRestartYet([], DoEvidence(DoSetPolicy(RoomyPolicy(|o.st.records|))));
  }

  /** The job of this generation is the only one that can be granted. */
  ghost predicate Poised(o: State, s: State, id: Id, gen: Gen) {
    Settled(s) && Next1(s, id, 7, gen) && s.epoch == o.epoch
  }

  lemma SupersededPoised(o: State, s: State, id: Id, gen: Gen)
    requires Settled(s) && s.epoch == o.epoch && s.grants == map[] && s.activeGrants == 0
    requires id in s.records && s.records[id].request.gen < gen && s.records[id].current.None?
    requires forall x | x in s.records && x != id :: !Ungranted(s.records[x].lifecycle)
    ensures Poised(o, Supersede(s, JobAs(7, id, gen)), id, gen)
  {
    JobIsValid(7, id, gen, s.policy);
    assert Supersede(s, JobAs(7, id, gen)) == Refiled(s, s.records[id], JobAs(7, id, gen));
  }

  lemma ReopenedPoised(o: State, s: State, id: Id, gen: Gen)
    requires Reopened(o, s) && id in o.records && o.records[id].request.gen < gen
    ensures Poised(o, Supersede(s, JobAs(7, id, gen)), id, gen)
  {
    SupersededPoised(o, s, id, gen);
  }

  /** A request the process knows at an older generation is superseded. */
  lemma PoisedBySupersede(o: Sys, g: Grant) returns (steps: seq<Step>, y: Sys)
    requires JustStarted(o) && g.request in o.st.records && o.st.records[g.request].request.gen < g.requestGen
    ensures Reaches(o, steps, y) && NoRestart(steps) && Poised(o.st, y.st, g.request, g.requestGen)
  {
    var before, y0 := Reopen(o);
    ReopenedPoised(o.st, y0.st, g.request, g.requestGen);
    steps, y := SupersedeJob(o, before, y0, JobAs(7, g.request, g.requestGen));
    NoRestartYet(before, DoSupersede(JobAs(7, g.request, g.requestGen)));
  }

  /** A request that is refused uses up an id. */
  function Refused(): Request { Job(7).(kind := KIND_UNKNOWN) }

  lemma RefusedOne(s: State)
    requires |s.records| < s.policy.bounds.maxCollectives
    ensures Submit(s, Refused()) == s.(counters := s.counters.(request := s.counters.request + 1))
  {
  }

  lemma {:induction false} SkipIds(o: Sys, steps: seq<Step>, y: Sys, k: nat) returns (more: seq<Step>, z: Sys)
    requires Reaches(o, steps, y) && NoRestart(steps) && |y.st.records| < y.st.policy.bounds.maxCollectives
    ensures Reaches(o, more, z) && NoRestart(more)
    ensures z.st == y.st.(counters := y.st.counters.(request := y.st.counters.request + k))
  {
    if k == 0 {
      more, z := steps, y;
    } else {
      var s1, y1 := SkipIds(o, steps, y, k - 1);
      RefusedOne(y1.st);
      more, z := Go(o, s1, y1, DoSubmit(Refused()));
      NoRestartYet(s1, DoSubmit(Refused()));
    }
  }

  lemma SubmittedPoised(o: State, s: State, id: Id)
    requires Settled(s) && s.epoch == o.epoch && s.grants == map[] && s.activeGrants == 0
    requires id !in s.records && forall x | x in s.records :: !Ungranted(s.records[x].lifecycle)
    ensures var t := Admit(s, JobAs(7, id, 1));
            Poised(o, t, id, 1) && t.grants == map[] && t.activeGrants == 0 && t.records[id].current.None?
  {
  }

  /** A request the process does not know is submitted once its id is next. */
  lemma PoisedBySubmit(o: Sys, id: Id) returns (steps: seq<Step>, y: Sys)
    requires JustStarted(o) && id !in o.st.records && o.st.counters.request <= id
    ensures Reaches(o, steps, y) && NoRestart(steps) && Poised(o.st, y.st, id, 1)
    ensures y.st.grants == map[] && y.st.activeGrants == 0 && y.st.records[id].current.None?
  {
    var s0, y0 := Reopen(o);
    var s1, y1 := SkipIds(o, s0, y0, id - o.st.counters.request);
    SkippedState(o.st, y0.st, y1.st, id);
    SubmittedPoised(o.st, y1.st, id);
    var a;
    steps, y, a := SubmitJob(o, s1, y1, 7);
    NoRestartYet(s1, DoSubmit(Job(7)));
  }

  lemma SkippedState(o: State, s: State, t: State, id: Id)
    requires Reopened(o, s) && id !in o.records && o.counters.request <= id
    requires t == s.(counters := s.counters.(request := id))
    ensures Settled(t) && t.epoch == o.epoch && t.grants == map[] && t.activeGrants == 0
    ensures id !in t.records && (forall x | x in t.records :: !Ungranted(t.records[x].lifecycle))
    ensures |t.records| < t.policy.bounds.maxCollectives && t.counters.request == id
  {
  }

  lemma PoisedLater(o: Sys, id: Id, gen: Gen) returns (steps: seq<Step>, y: Sys)
    requires JustStarted(o) && id !in o.st.records && o.st.counters.request <= id && 1 <= gen
    ensures Reaches(o, steps, y) && NoRestart(steps) && Poised(o.st, y.st, id, gen)
  {
    steps, y := PoisedBySubmit(o, id);
    if gen > 1 {
      var before, y0 := steps, y;
      SupersededPoised(o.st, y0.st, id, gen);
      steps, y := SupersedeJob(o, before, y0, JobAs(7, id, gen));
      NoRestartYet(before, DoSupersede(JobAs(7, id, gen)));
    }
  }

  /** From a regrantable start there is a run that grants the generation again. */
  lemma RegrantRun(o: Sys, g: Grant) returns (steps: seq<Step>, h: Grant)
    requires JustStarted(o) && Regrantable(o.st, g)
    ensures ValidRun(o, steps) && NoRestart(steps)
    ensures h in Run(o, steps).own && SameGeneration(g, h) && h.evidence.epoch == o.st.epoch
  {
    var before, y;
    if g.request in o.st.records {
      before, y := PoisedBySupersede(o, g);
    } else {
      before, y := PoisedLater(o, g.request, g.requestGen);
    }
    steps, h := GrantPoised(o, before, y, g.request, g.requestGen);
  }

  lemma GrantPoised(o: Sys, before: seq<Step>, y: Sys, id: Id, gen: Gen) returns (steps: seq<Step>, h: Grant)
    requires Reaches(o, before, y) && NoRestart(before) && Poised(o.st, y.st, id, gen)
    ensures ValidRun(o, steps) && NoRestart(steps)
    ensures h in Run(o, steps).own && h.request == id && h.requestGen == gen && h.evidence.epoch == o.st.epoch
  {
    var z;
    steps, z := Decide(o, before, y, id, 7, gen);
    NoRestartYet(before, DoSchedule);
    h := z.st.records[id].current.value;
    assert z.st.grants[h.id].grant in OnFileGrants(z.st);
  }

  lemma StartedAfresh(y: Sys, restart: Step)
    requires SysInv(y) && restart.DoRestart? && Enabled(y, restart) && !ScheduleThrows(y.st)
    ensures JustStarted(Next(y, restart)) && Next(y, restart).own == {}
    ensures forall g :: Closed(Next(y, restart).st, g) <==> !Regrantable(Next(y, restart).st, g)
  {
    SysStep(y, restart);
    RestartedFacts(restart.source, restart.policy, restart.epoch);
  }

  ghost predicate Repeats(z: Sys, steps: seq<Step>, g: Grant) {
    ValidRun(z, steps) && NoRestart(steps) && GrantedSince(Run(z, steps), g)
  }

  /** After a restart, the generation of an earlier grant can be granted again if and only
      if the new process knows the request at an older generation only, or not at all with
      its id still to be assigned. */
  lemma RegrantIff(y: Sys, restart: Step, g: Grant)
    requires SysInv(y) && restart.DoRestart? && Enabled(y, restart) && !ScheduleThrows(y.st) && g in y.issued
    ensures (exists steps :: Repeats(Next(y, restart), steps, g)) <==> Regrantable(Next(y, restart).st, g)
  {
    var z := Next(y, restart);
    StartedAfresh(y, restart);
    if Regrantable(z.st, g) {
      var steps, h := RegrantRun(z, g);
      assert Repeats(z, steps, g);
    } else {
      forall steps | ValidRun(z, steps) && NoRestart(steps) ensures !Repeats(z, steps, g) {
        ClosedOverRuns(z, steps, g);
      }
    }
  }

  // ---- The run that shows it ----

  lemma {:induction false} IssuedGrows(y: Sys, steps: seq<Step>)
    requires ValidRun(y, steps)
    ensures y.issued <= Run(y, steps).issued
    decreases |steps|
  {
    if steps != [] { IssuedGrows(Next(y, steps[0]), steps[1..]); }
  }

  /** The image of a scheduler with one record. */
  ghost function ImageOf1(s: State, a: Id): Image
    requires a in s.records
  {
    Image(s.epoch, s.counters, s.policyGen, [SavedForm(s.records[a])])
  }

  lemma SnapshotOf1(s: State, a: Id)
    requires s.records.Keys == {a} && s.records[a].request.id == a
    ensures Snapshot(s, ImageOf1(s, a))
  {
    OneKey(s.records, a);
    var d := ImageOf1(s, a);
    assert d.records[0] == SavedForm(s.records[a]);
  }

  /** A job saved at generation 1. */
  ghost predicate SavedFirst(y: Sys, a: Id, d: Image) {
    && Settled(y.st) && y.st.policy == POLICY && y.st.epoch == 1 && y.st.records.Keys == {a} && HasJob(y.st, a, 7, 1)
    && y.st.records[a].current.None? && y.st.grants == map[] && y.st.activeGrants == 0
    && d in y.images && OldImage(d, a)
  }

  ghost predicate OldImage(d: Image, a: Id) {
    |d.records| == 1 && d.records[0].request.id == a && d.records[0].request.gen == 1 && d.epoch == 1
  }

  lemma FirstSaved(s: State, a: Id)
    requires Opened(s) && a == s.counters.request
    ensures var t := Admit(s, JobAs(7, a, 1));
            && t.records.Keys == {a} && HasJob(t, a, 7, 1) && t.records[a].current.None? && t.grants == map[]
            && t.activeGrants == 0 && t.epoch == 1 && t.policy == POLICY
            && Snapshot(t, ImageOf1(t, a)) && OldImage(ImageOf1(t, a), a)
  {
    SnapshotOf1(Admit(s, JobAs(7, a, 1)), a);
  }

  lemma SaveFirst() returns (steps: seq<Step>, y: Sys, a: Id, d: Image)
    ensures Reaches(START, steps, y) && SavedFirst(y, a, d)
  {
    var y0 := Opening();
    var s1, y1;
    s1, y1, a := SubmitJob(START, OPENING, y0, 7);
    FirstSaved(y0.st, a);
    d := ImageOf1(y1.st, a);
    steps, y := Go(START, s1, y1, DoSave(d));
  }

  /** Superseded and granted at generation 2, with the image of generation 1 still around. */
  ghost predicate Overtaken(y: Sys, a: Id, d: Image, g: Grant) {
    && d in y.images && OldImage(d, a) && g in y.issued && g.request == a && g.requestGen == 2 && y.st.epoch == 1
  }

  lemma Overtake() returns (steps: seq<Step>, y: Sys, a: Id, d: Image, g: Grant)
    ensures Reaches(START, steps, y) && Overtaken(y, a, d, g)
  {
    var s0, y0;
    s0, y0, a, d := SaveFirst();
    SupersededPoised(y0.st, y0.st, a, 2);
    var s1, y1 := SupersedeJob(START, s0, y0, JobAs(7, a, 2));
    steps, y := Decide(START, s1, y1, a, 7, 2);
    g := y.st.records[a].current.value;
    assert y.st.grants[g.id].grant in OnFileGrants(y.st);
  }

  lemma OldImageIsRegrantable(d: Image, a: Id, g: Grant)
    requires OldImage(d, a) && g.request == a && g.requestGen == 2
    ensures Regrantable(Restarted(Some(d), POLICY, 2), g) && Restarted(Some(d), POLICY, 2).epoch == 2
  {
    assert d.records[1..] == [];
    assert LoadedRecords(d.records) == map[a := LoadedRecord(d.records[0])];
  }

  /** Saved at generation 1, superseded and granted at generation 2, restarted from the old
      image, superseded and granted at generation 2 again: two grants for one generation. */
  lemma GrantedTwice() returns (steps: seq<Step>)
    ensures ValidRun(START, steps) && !OnePerGeneration(Run(START, steps).issued)
  {
    var s0, y, a, d, g := Overtake();
    var restart := DoRestart(Some(d), POLICY, 2);
    OldImageIsRegrantable(d, a, g);
    forall k | k in y.issued ensures k.evidence.epoch < 2 {
      if k in y.own { assert FreshOk(y.st, k); }
    }
    var s1, z := Go(START, s0, y, restart);
    StartedAfresh(y, restart);
    var s2, h := RegrantRun(z, g);
    steps := s1 + s2;
    RunAppend(START, s1, s2);
    IssuedGrows(z, s2);
    RunKeeps(z, s2);
  }
}
