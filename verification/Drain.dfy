/** Draining: with fixed evidence and an accepting fabric, repeating schedule, handoff and
    complete finishes a closed population of eligible requests, each exactly once. */
module Drain {
  import opened Types
  import opened Lifecycles
  import opened States
  import opened Steps
  import opened Invariants
  import opened Selection
  import opened Decisions
  import opened Runs
  import opened Staleness

  /** Nothing is granted, dispatching or running. */
  ghost predicate Idle(s: State) {
    && (forall id | id in s.records :: !Holding(s.records[id].lifecycle))
    && (forall x | x in s.grants :: !s.grants[x].active)
    && s.activeGrants == 0
  }

  ghost predicate PositiveBounds(s: State) {
    s.policy.bounds.maxActiveGrants >= 1 && s.policy.bounds.maxOverlapGroup >= 1
  }

  // ---- Who is a candidate ----

  /** The candidates are the requests that have not been granted and whose evidence,
      window and workload are in order. */
  lemma CandidatesAre(s: State, id: Id)
    requires Inv(s) && !ScheduleThrows(s) && id in s.records
    ensures id in Candidates(s) <==>
            && Ungranted(s.records[id].lifecycle) && AuthorityCurrent(s, s.records[id].request)
            && WindowOpen(s.now, s.records[id].request.window) && s.records[id].request.workloadGen != 0
  {
    if id in Candidates(s) {
      CandidateIsAuthorized(s, id);
      PreparedRecordFacts(s, id);
    } else if Ungranted(s.records[id].lifecycle) && AuthorityCurrent(s, s.records[id].request)
              && WindowOpen(s.now, s.records[id].request.window) && s.records[id].request.workloadGen != 0 {
      AuthorizedIsCandidate(s, id);
    }
  }

  /** With nothing running and positive bounds, the best candidate is always selected. */
  lemma TopRankedIsSelected(s: State)
    requires Inv(s) && !ScheduleThrows(s) && Idle(s) && PositiveBounds(s) && Candidates(s) != {}
    ensures Ranking(s) != [] && Ranking(s)[0] in Selected(s)
  {
    RankingIsCandidates(s);
    var c :| c in Candidates(s);
    assert c in Ranking(s);
    assert RunningSharers(s, s.records[Ranking(s)[0]].request) == {};
    TopIsSelected(s);
  }

  // ---- Serving one grant ----

  /** A worker of the grant's first participant hands off and completes it. */
  function ServeSteps(ps: map<Id, Participant>, g: Grant): seq<Step> {
    var known := |g.participants| > 0 && g.participants[0] in ps;
    [DoGrant(DoHandoffBegin(g)), DoGrant(DoHandoffEnd(g, true)),
     DoGrant(DoComplete(g, if known then ps[g.participants[0]].workerBoot else 0,
                        if known then ps[g.participants[0]].sourceBoot else 0))]
  }

  ghost predicate Servable(s: State, g: Grant) {
    && g.request in s.records && RecordOk(s, g.request)
    && s.records[g.request].lifecycle.Granted? && s.records[g.request].current == Some(g)
    && Revalidate(s, g) == Valid
  }

  /** Everything but records, grants and the account of running grants is the same. */
  ghost predicate OnlyLedgerChanged(s: State, t: State) {
    t == s.(records := t.records, counters := t.counters, grants := t.grants,
            activeByParticipant := t.activeByParticipant, activeGrants := t.activeGrants)
  }

  /** What serving a grant makes of the state. */
  ghost predicate Served(s: State, t: State, g: Grant)
    requires g.request in s.records
  {
    && OnlyLedgerChanged(s, t) && t.counters == s.counters && t.activeGrants == s.activeGrants
    && t.records == s.records[g.request := s.records[g.request].(lifecycle := Lifecycle.Completed)]
    && t.grants.Keys == s.grants.Keys
    && (forall x | x in t.grants :: t.grants[x].active ==> s.grants[x].active)
  }

  lemma ServedStates(s: State, g: Grant, wb: Id, sb: Id)
    requires Servable(s, g)
    requires g.participants[0] in s.participants
    requires wb == s.participants[g.participants[0]].workerBoot && sb == s.participants[g.participants[0]].sourceBoot
    ensures HandoffStarts(s, g)
    ensures CompletionAccepted(HandoffEnd(HandoffBegin(s, g), g, true), g, wb, sb)
    ensures Served(s, Complete(HandoffEnd(HandoffBegin(s, g), g, true), g, wb, sb), g)
  {
    var t := Activated(Dispatched(s, g), g);
    forall i | 0 <= i < |g.participants| ensures GenerationCurrent(t, g.participants, g.participantGens, i) {
      assert GenerationCurrent(s, g.participants, g.participantGens, i);
    }
    assert g.participants[0] in g.participants;
    assert BootMatches(t, g, wb, sb);
  }

  lemma BeginNext(y: Sys, g: Grant)
    requires !ScheduleThrows(y.st) && HandoffStarts(y.st, g) && g.id in y.st.grants
    ensures var z := Next(y, DoGrant(DoHandoffBegin(g)));
            z.st == HandoffBegin(y.st, g) && g in z.inflight && z.completed == y.completed && y.issued <= z.issued
  {
  }

  lemma EndNext(y: Sys, g: Grant)
    requires !ScheduleThrows(y.st)
    ensures var z := Next(y, DoGrant(DoHandoffEnd(g, true)));
            z.st == HandoffEnd(y.st, g, true) && z.completed == y.completed && y.issued <= z.issued
  {
  }

  lemma CompleteNext(y: Sys, g: Grant, wb: Id, sb: Id)
    requires !ScheduleThrows(y.st) && CompletionAccepted(y.st, g, wb, sb)
    ensures var z := Next(y, DoGrant(DoComplete(g, wb, sb)));
            z.st == Complete(y.st, g, wb, sb) && z.completed == y.completed + [g]
  {
  }

  lemma ServeRun(y: Sys, g: Grant)
    requires SysInv(y) && Servable(y.st, g)
    ensures ValidRun(y, ServeSteps(y.st.participants, g))
    ensures var z := Run(y, ServeSteps(y.st.participants, g));
            SysInv(z) && Served(y.st, z.st, g) && z.completed == y.completed + [g]
  {
    var p := y.st.participants;
    assert GenerationCurrent(y.st, g.participants, g.participantGens, 0);
    var wb, sb := p[g.participants[0]].workerBoot, p[g.participants[0]].sourceBoot;
    ServedStates(y.st, g, wb, sb);
    assert g in y.issued by { assert y.st.grants[g.id].grant in OnFileGrants(y.st); }
    SysStep(y, DoGrant(DoHandoffBegin(g)));
    BeginNext(y, g);
    AnswerThenComplete(Next(y, DoGrant(DoHandoffBegin(g))), g, wb, sb);
    ThreeSteps(y, DoGrant(DoHandoffBegin(g)), DoGrant(DoHandoffEnd(g, true)), DoGrant(DoComplete(g, wb, sb)));
  }

  lemma AnswerThenComplete(y: Sys, g: Grant, wb: Id, sb: Id)
    requires SysInv(y) && g in y.inflight && g in y.issued
    requires CompletionAccepted(HandoffEnd(y.st, g, true), g, wb, sb)
    ensures !ScheduleThrows(y.st)
    ensures var w := Next(y, DoGrant(DoHandoffEnd(g, true)));
            && g in w.issued && !ScheduleThrows(w.st)
            && var z := Next(w, DoGrant(DoComplete(g, wb, sb)));
               SysInv(z) && z.st == Complete(HandoffEnd(y.st, g, true), g, wb, sb) && z.completed == y.completed + [g]
  {
    SysStep(y, DoGrant(DoHandoffEnd(g, true)));
    EndNext(y, g);
    var w := Next(y, DoGrant(DoHandoffEnd(g, true)));
    SysStep(w, DoGrant(DoComplete(g, wb, sb)));
    CompleteNext(w, g, wb, sb);
  }

  lemma ThreeSteps(y: Sys, a: Step, b: Step, c: Step)
    requires !ScheduleThrows(y.st) && Enabled(y, a)
    requires !ScheduleThrows(Next(y, a).st) && Enabled(Next(y, a), b)
    requires !ScheduleThrows(Next(Next(y, a), b).st) && Enabled(Next(Next(y, a), b), c)
    ensures ValidRun(y, [a, b, c]) && Run(y, [a, b, c]) == Next(Next(Next(y, a), b), c)
  {
    OneStep(Next(Next(y, a), b), c);
    assert [b, c][1..] == [c] && [a, b, c][1..] == [b, c];
    assert ValidRun(Next(y, a), [b, c]) && Run(Next(y, a), [b, c]) == Next(Next(Next(y, a), b), c);
  }

  // ---- Serving all grants of a decision ----

  function Serving(ps: map<Id, Participant>, gs: seq<Grant>): seq<Step> {
    if gs == [] then [] else ServeSteps(ps, gs[0]) + Serving(ps, gs[1..])
  }

  ghost predicate AllServable(s: State, gs: seq<Grant>) {
    && (forall i | 0 <= i < |gs| :: Servable(s, gs[i]))
    && (forall i, j | 0 <= i < j < |gs| :: gs[i].request != gs[j].request)
  }

  ghost function RequestsOf(gs: seq<Grant>): set<Id> { set i | 0 <= i < |gs| :: gs[i].request }

  ghost predicate AllServed(s: State, t: State, gs: seq<Grant>) {
    && OnlyLedgerChanged(s, t) && t.counters == s.counters && t.activeGrants == s.activeGrants
    && t.records.Keys == s.records.Keys
    && (forall id | id in s.records && id !in RequestsOf(gs) :: t.records[id] == s.records[id])
    && (forall id | id in RequestsOf(gs) && id in s.records ::
          t.records[id] == s.records[id].(lifecycle := Lifecycle.Completed))
    && t.grants.Keys == s.grants.Keys
    && (forall x | x in t.grants :: t.grants[x].active ==> s.grants[x].active)
  }

  /** Serving one grant takes nothing from another. */
  lemma StaysServable(s: State, t: State, g: Grant, h: Grant)
    requires Servable(s, g) && Served(s, t, g) && Servable(s, h) && h.request != g.request && Inv(t)
    ensures Servable(t, h)
  {
    assert t.records[h.request] == s.records[h.request];
    forall i | 0 <= i < |h.participants| ensures GenerationCurrent(t, h.participants, h.participantGens, i) {
      assert GenerationCurrent(s, h.participants, h.participantGens, i);
    }
  }

  lemma ServedThenAll(s: State, t: State, u: State, gs: seq<Grant>)
    requires gs != [] && AllServable(s, gs) && Served(s, t, gs[0]) && AllServed(t, u, gs[1..])
    ensures AllServed(s, u, gs)
  {
    FirstAndRest(s, gs);
  }

  lemma FirstAndRest(s: State, gs: seq<Grant>)
    requires gs != [] && AllServable(s, gs)
    ensures RequestsOf(gs) == RequestsOf(gs[1..]) + {gs[0].request} && gs[0].request !in RequestsOf(gs[1..])
  {
    forall i | 0 <= i < |gs| ensures gs[i].request == gs[0].request || gs[i].request in RequestsOf(gs[1..]) {
      if i > 0 { assert gs[1..][i - 1] == gs[i]; }
    }
  }

  lemma AllStayServable(s: State, t: State, gs: seq<Grant>)
    requires gs != [] && AllServable(s, gs) && Served(s, t, gs[0]) && Inv(t)
    ensures AllServable(t, gs[1..])
  {
    forall i | 0 <= i < |gs| - 1 ensures Servable(t, gs[1..][i]) { StaysServable(s, t, gs[0], gs[i + 1]); }
  }

  lemma AppendFirst(c: seq<Grant>, gs: seq<Grant>)
    requires gs != []
    ensures c + [gs[0]] + gs[1..] == c + gs
  {
    assert gs == [gs[0]] + gs[1..];
  }

  lemma NoneServed(s: State)
    ensures AllServed(s, s, [])
  {
  }

  lemma {:induction false} ServeAllRun(y: Sys, gs: seq<Grant>)
    requires SysInv(y) && AllServable(y.st, gs)
    ensures ValidRun(y, Serving(y.st.participants, gs))
    ensures var z := Run(y, Serving(y.st.participants, gs));
            SysInv(z) && AllServed(y.st, z.st, gs) && z.completed == y.completed + gs
    decreases |gs|
  {
    if gs == [] {
      NoneServed(y.st);
    } else {
      var ps, rest := y.st.participants, gs[1..];
      ServeRun(y, gs[0]);
      var z := Run(y, ServeSteps(ps, gs[0]));
      AllStayServable(y.st, z.st, gs);
      ServeAllRun(z, rest);
      RunAppend(y, ServeSteps(ps, gs[0]), Serving(ps, rest));
      ServedThenAll(y.st, z.st, Run(z, Serving(ps, rest)).st, gs);
      AppendFirst(y.completed, gs);
    }
  }

  // ---- One round ----

  ghost function GrantsFor(t: State, ids: seq<Id>): (gs: seq<Grant>)
    requires forall id | id in ids :: id in t.records && t.records[id].current.Some?
    ensures |gs| == |ids| && forall i | 0 <= i < |ids| :: gs[i] == t.records[ids[i]].current.value
  {
    seq(|ids|, i requires 0 <= i < |ids| => t.records[ids[i]].current.value)
  }

  lemma NewGrantServable(s: State, id: Id)
    requires Inv(s) && !ScheduleThrows(s) && id in Selected(s)
    ensures id in ScheduledState(s).records && ScheduledState(s).records[id].current.Some?
    ensures ScheduledState(s).records[id].current.value.request == id
    ensures Servable(ScheduledState(s), ScheduledState(s).records[id].current.value)
  {
    NewGrantMatches(s, id);
    NewGrantIsValid(s, id);
    ScheduleKeeps(s);
    assert RecordOk(ScheduledState(s), id);
  }

  lemma Grants(s: State)
    requires Inv(s) && !ScheduleThrows(s)
    ensures forall id | id in Selected(s) ::
              id in ScheduledState(s).records && ScheduledState(s).records[id].current.Some?
  {
    forall id | id in Selected(s) { NewGrantServable(s, id); }
  }

  /** The grants of a decision, in the order of the selection. */
  ghost function DecisionGrants(s: State): seq<Grant>
    requires Inv(s) && !ScheduleThrows(s)
  {
    Grants(s);
    GrantsFor(ScheduledState(s), Selected(s))
  }

  /** Every request is served at most once. */
  ghost predicate ExactlyOnce(gs: seq<Grant>, ids: set<Id>) {
    RequestsOf(gs) == ids && forall i, j | 0 <= i < j < |gs| :: gs[i].request != gs[j].request
  }

  ghost function SelectedSet(s: State): set<Id>
    requires !ScheduleThrows(s)
  {
    set id | id in Selected(s)
  }

  lemma DecisionServable(s: State)
    requires Inv(s) && !ScheduleThrows(s)
    ensures AllServable(ScheduledState(s), DecisionGrants(s))
    ensures ExactlyOnce(DecisionGrants(s), SelectedSet(s))
  {
    var gs, sel := DecisionGrants(s), Selected(s);
    SelectedFacts(s);
    forall i | 0 <= i < |gs| ensures Servable(ScheduledState(s), gs[i]) && gs[i].request == sel[i] {
      NewGrantServable(s, sel[i]);
    }
    OneEach(gs, sel);
  }

  lemma OneEach(gs: seq<Grant>, ids: seq<Id>)
    requires |gs| == |ids| && NoDuplicates(ids) && forall i | 0 <= i < |ids| :: gs[i].request == ids[i]
    ensures ExactlyOnce(gs, set id | id in ids)
  {
    forall id | id in ids ensures id in RequestsOf(gs) {
      var i :| 0 <= i < |ids| && ids[i] == id;
      assert gs[i].request == id;
    }
  }

  /** Schedule, then hand off and complete each grant of the decision. */
  ghost function RoundSteps(s: State): seq<Step>
    requires Inv(s) && !ScheduleThrows(s)
  {
    [DoSchedule] + Serving(s.participants, DecisionGrants(s))
  }

  ghost predicate RoundEffect(s: State, u: State)
    requires !ScheduleThrows(s)
  {
    && OnlyLedgerChanged(s, u) && u.activeGrants == s.activeGrants && u.records.Keys == s.records.Keys
    && (forall id | id in s.records :: RoundRecord(s, u, id))
    && (forall x | x in u.grants && u.grants[x].active :: x in s.grants && s.grants[x].active)
  }

  ghost predicate RoundRecord(s: State, u: State, id: Id)
    requires !ScheduleThrows(s) && id in s.records && id in u.records
  {
    && u.records[id].request == s.records[id].request
    && u.records[id].lifecycle
       == if id in SelectedSet(s) then Lifecycle.Completed else Prepared(s).records[id].lifecycle
  }

  lemma ServedRecord(s: State, u: State, id: Id)
    requires Inv(s) && !ScheduleThrows(s) && id in s.records
    requires AllServed(ScheduledState(s), u, DecisionGrants(s)) && ExactlyOnce(DecisionGrants(s), SelectedSet(s))
    ensures id in u.records && RoundRecord(s, u, id)
  {
    ScheduledRecord(s, id);
  }

  lemma ServedRound(s: State, u: State)
    requires Inv(s) && !ScheduleThrows(s)
    requires AllServed(ScheduledState(s), u, DecisionGrants(s)) && ExactlyOnce(DecisionGrants(s), SelectedSet(s))
    ensures RoundEffect(s, u)
  {
    ScheduleTouchesOnly(s);
    ScheduleFiles(s);
    forall id | id in s.records { ServedRecord(s, u, id); }
  }

  lemma ScheduleNext(y: Sys)
    requires !ScheduleThrows(y.st)
    ensures ValidRun(y, [DoSchedule]) && Run(y, [DoSchedule]) == Next(y, DoSchedule)
    ensures Next(y, DoSchedule).st == ScheduledState(y.st) && Next(y, DoSchedule).completed == y.completed
  {
    OneStep(y, DoSchedule);
  }

  lemma RoundRun(y: Sys)
    requires SysInv(y) && !ScheduleThrows(y.st)
    ensures ValidRun(y, RoundSteps(y.st))
    ensures var z := Run(y, RoundSteps(y.st));
            SysInv(z) && RoundEffect(y.st, z.st) && z.completed == y.completed + DecisionGrants(y.st)
  {
    ScheduleNext(y);
    SysStep(y, DoSchedule);
    DecisionServable(y.st);
    ScheduleTouchesOnly(y.st);
    var w := Next(y, DoSchedule);
    ServeAllRun(w, DecisionGrants(y.st));
    RunAppend(y, [DoSchedule], Serving(y.st.participants, DecisionGrants(y.st)));
    ServedRound(y.st, Run(w, Serving(y.st.participants, DecisionGrants(y.st))).st);
  }

  // ---- Round after round ----

  ghost predicate Drainable(y: Sys) {
    SysInv(y) && Idle(y.st) && PositiveBounds(y.st) && !ScheduleThrows(y.st)
  }

  lemma RoundCandidate(s: State, u: State, id: Id)
    requires Inv(s) && Inv(u) && !ScheduleThrows(s) && !ScheduleThrows(u) && RoundEffect(s, u) && id in s.records
    ensures id in Candidates(u) <==> id in Candidates(s) && id !in SelectedSet(s)
  {
    assert RoundRecord(s, u, id);
    CandidatesAre(s, id);
    CandidatesAre(u, id);
    AuthorityFramed(s, u, s.records[id].request);
    PreparedRecordFacts(s, id);
    if id in Candidates(s) { CandidateIsAuthorized(s, id); }
  }

  /** A round serves the selected candidates and leaves the others as candidates. */
  lemma RoundCandidates(s: State, u: State)
    requires Inv(s) && Inv(u) && !ScheduleThrows(s) && !ScheduleThrows(u) && RoundEffect(s, u)
    ensures Candidates(u) == Candidates(s) - SelectedSet(s)
  {
    forall id | id in s.records { RoundCandidate(s, u, id); }
  }

  lemma RoundKeepsIdle(s: State, u: State)
    requires Inv(s) && !ScheduleThrows(s) && RoundEffect(s, u) && Idle(s) && PositiveBounds(s)
    ensures Idle(u) && PositiveBounds(u)
  {
    forall id | id in s.records ensures !Holding(u.records[id].lifecycle) {
      assert RoundRecord(s, u, id);
      PreparedRecordFacts(s, id);
    }
  }

  ghost function AfterRound(y: Sys): (z: Sys)
    requires Drainable(y)
    ensures Drainable(z) && RoundEffect(y.st, z.st) && z.completed == y.completed + DecisionGrants(y.st)
  {
    RoundRun(y);
    var z := Run(y, RoundSteps(y.st));
    RoundKeepsIdle(y.st, z.st);
    ScheduleNeverThrows(z.st);
    z
  }

  /** Once no candidate is left, completed requests stay as they are. */
  lemma CompletedStays(s: State, u: State, id: Id)
    requires Inv(s) && !ScheduleThrows(s) && RoundEffect(s, u) && id in s.records && s.records[id].lifecycle.Completed?
    ensures id in u.records && u.records[id].lifecycle.Completed?
  {
    assert RoundRecord(s, u, id);
    PreparedRecordFacts(s, id);
  }

  ghost predicate AllCompleted(s: State, ids: set<Id>) {
    forall id | id in ids :: id in s.records && s.records[id].lifecycle.Completed?
  }

  lemma CompletedStay(s: State, u: State, ids: set<Id>)
    requires Inv(s) && !ScheduleThrows(s) && RoundEffect(s, u) && AllCompleted(s, ids)
    ensures AllCompleted(u, ids)
  {
    forall id | id in ids ensures id in u.records && u.records[id].lifecycle.Completed? { CompletedStays(s, u, id); }
  }

  lemma SelectedComplete(s: State, u: State)
    requires Inv(s) && !ScheduleThrows(s) && RoundEffect(s, u) && SelectedSet(s) <= s.records.Keys
    ensures AllCompleted(u, SelectedSet(s))
  {
    forall id | id in SelectedSet(s) ensures id in u.records && u.records[id].lifecycle.Completed? {
      assert RoundRecord(s, u, id);
    }
  }

  lemma OnceMore(gs: seq<Grant>, hs: seq<Grant>, a: set<Id>, b: set<Id>)
    requires ExactlyOnce(gs, a) && ExactlyOnce(hs, b) && a !! b
    ensures ExactlyOnce(gs + hs, a + b)
  {
    var all := gs + hs;
    forall i | 0 <= i < |all| ensures all[i].request in a + b {
      if i < |gs| { assert gs[i].request in RequestsOf(gs); } else { assert hs[i - |gs|].request in RequestsOf(hs); }
    }
    forall i, j | 0 <= i < j < |all| ensures all[i].request != all[j].request {
      if i < |gs| <= j {
        assert gs[i].request in RequestsOf(gs) && hs[j - |gs|].request in RequestsOf(hs);
      }
    }
    forall id | id in a + b ensures id in RequestsOf(all) {
      if id in RequestsOf(gs) {
        var i :| 0 <= i < |gs| && gs[i].request == id;
        assert all[i].request == id;
      } else {
        var i :| 0 <= i < |hs| && hs[i].request == id;
        assert all[|gs| + i].request == id;
      }
    }
  }

  lemma SelectionShrinks(s: State)
    requires Inv(s) && !ScheduleThrows(s) && Idle(s) && PositiveBounds(s)
    ensures SelectedSet(s) <= Candidates(s) <= s.records.Keys
    ensures Candidates(s) != {} ==> |Candidates(s) - SelectedSet(s)| < |Candidates(s)|
  {
    SelectedFacts(s);
    if Candidates(s) != {} {
      TopRankedIsSelected(s);
      SmallerBy(Candidates(s), SelectedSet(s), Ranking(s)[0]);
    }
  }

  lemma SmallerBy(a: set<Id>, b: set<Id>, x: Id)
    requires b <= a && x in b
    ensures |a - b| < |a|
  {
    assert a == (a - b) + b;
    assert |a| == |a - b| + |b|;
  }

  /** Progress: as long as there are candidates, each round selects the best one, so the
      number of candidates falls. */
  lemma RoundProgress(y: Sys)
    requires Drainable(y)
    ensures SelectedSet(y.st) <= Candidates(y.st) <= y.st.records.Keys
    ensures Candidates(AfterRound(y).st) == Candidates(y.st) - SelectedSet(y.st)
    ensures Candidates(y.st) != {} ==> |Candidates(AfterRound(y).st)| < |Candidates(y.st)|
  {
    RoundCandidates(y.st, AfterRound(y).st);
    SelectionShrinks(y.st);
  }

  /** The completions accepted after `y` finish each of the requests exactly once. */
  ghost predicate CompletedSince(y: Sys, z: Sys, ids: set<Id>) {
    && |y.completed| <= |z.completed| && z.completed[..|y.completed|] == y.completed
    && ExactlyOnce(z.completed[|y.completed|..], ids)
  }

  lemma CompletedMore(y: Sys, w: Sys, z: Sys, gs: seq<Grant>, a: set<Id>, b: set<Id>)
    requires CompletedSince(y, w, a) && z.completed == w.completed + gs && ExactlyOnce(gs, b) && a !! b
    ensures CompletedSince(y, z, a + b)
  {
    OnceMore(w.completed[|y.completed|..], gs, a, b);
    assert z.completed[|y.completed|..] == w.completed[|y.completed|..] + gs;
    assert z.completed[..|y.completed|] == w.completed[..|y.completed|];
  }

  /** Where draining stands: the candidates gone since `y` are those completed since `y`. */
  ghost predicate Draining(y: Sys, z: Sys)
    requires !ScheduleThrows(y.st) && !ScheduleThrows(z.st)
  {
    && Candidates(z.st) <= Candidates(y.st)
    && CompletedSince(y, z, Candidates(y.st) - Candidates(z.st))
    && AllCompleted(z.st, Candidates(y.st) - Candidates(z.st))
  }

  lemma DrainingStarts(y: Sys)
    requires !ScheduleThrows(y.st)
    ensures Draining(y, y)
  {
    assert y.completed[|y.completed|..] == [];
    assert Candidates(y.st) - Candidates(y.st) == {};
  }

  lemma DrainingAdvances(y: Sys, w: Sys, z: Sys)
    requires !ScheduleThrows(y.st) && Drainable(w) && !ScheduleThrows(z.st) && Draining(y, w)
    requires RoundEffect(w.st, z.st) && z.completed == w.completed + DecisionGrants(w.st)
    requires SelectedSet(w.st) <= Candidates(w.st) <= w.st.records.Keys
    requires Candidates(z.st) == Candidates(w.st) - SelectedSet(w.st)
    ensures Draining(y, z)
  {
    var gone := Candidates(y.st) - Candidates(w.st);
    DecisionServable(w.st);
    CompletedMore(y, w, z, DecisionGrants(w.st), gone, SelectedSet(w.st));
    CompletedStay(w.st, z.st, gone);
    SelectedComplete(w.st, z.st);
    assert Candidates(y.st) - Candidates(z.st) == gone + SelectedSet(w.st);
  }

  /** Candidates left after `n` rounds, if at least one is served per round. */
  ghost predicate FewLeft(y: Sys, z: Sys, n: nat)
    requires !ScheduleThrows(y.st) && !ScheduleThrows(z.st)
  {
    |Candidates(z.st)| + n <= |Candidates(y.st)| || |Candidates(z.st)| == 0
  }

  lemma DrainRound(y: Sys, w: Sys, n: nat)
    requires Drainable(y) && Drainable(w) && Draining(y, w) && FewLeft(y, w, n)
    ensures Draining(y, AfterRound(w)) && FewLeft(y, AfterRound(w), n + 1)
  {
    RoundProgress(w);
    DrainingAdvances(y, w, AfterRound(w));
  }

  /** Systems one round apart. */
  ghost predicate Rounds(ys: seq<Sys>) {
    |ys| > 0 && Drainable(ys[0])
    && forall i | 0 <= i < |ys| - 1 :: Drainable(ys[i]) && ys[i + 1] == AfterRound(ys[i])
  }

  /** Rounds can go on for as long as one likes. */
  lemma {:induction false} RoundsExist(y: Sys, n: nat) returns (ys: seq<Sys>)
    requires Drainable(y)
    ensures Rounds(ys) && |ys| == n + 1 && ys[0] == y && Drainable(ys[n])
  {
    if n == 0 {
      ys := [y];
    } else {
      var zs := RoundsExist(y, n - 1);
      ys := zs + [AfterRound(zs[n - 1])];
      RoundsExtend(zs);
    }
  }

  lemma RoundsExtend(zs: seq<Sys>)
    requires Rounds(zs) && Drainable(zs[|zs| - 1])
    ensures Rounds(zs + [AfterRound(zs[|zs| - 1])])
  {
    var ys := zs + [AfterRound(zs[|zs| - 1])];
    forall i | 0 <= i < |ys| - 1 ensures Drainable(ys[i]) && ys[i + 1] == AfterRound(ys[i]) {
      if i < |zs| - 1 { assert ys[i] == zs[i] && ys[i + 1] == zs[i + 1]; }
    }
  }

  lemma {:induction false} DrainTo(ys: seq<Sys>, i: nat)
    requires Rounds(ys) && i < |ys|
    ensures Drainable(ys[i]) && Draining(ys[0], ys[i]) && FewLeft(ys[0], ys[i], i)
  {
    if i == 0 {
      DrainingStarts(ys[0]);
    } else {
      DrainTo(ys, i - 1);
      DrainRound(ys[0], ys[i - 1], i - 1);
      assert ys[i - 1 + 1] == AfterRound(ys[i - 1]);
    }
  }

  /** All N candidates complete, each exactly once, within N rounds. */
  lemma DrainCompletesAll(ys: seq<Sys>)
    requires Rounds(ys) && |ys| == |Candidates(ys[0].st)| + 1
    ensures var y, z := ys[0], ys[|ys| - 1];
            && !ScheduleThrows(z.st) && Candidates(z.st) == {}
            && CompletedSince(y, z, Candidates(y.st))
            && AllCompleted(z.st, Candidates(y.st))
  {
    DrainTo(ys, |ys| - 1);
    NoneLeft(ys[0], ys[|ys| - 1]);
  }

  lemma NoneLeft(y: Sys, z: Sys)
    requires !ScheduleThrows(y.st) && !ScheduleThrows(z.st) && Draining(y, z)
    requires FewLeft(y, z, |Candidates(y.st)|)
    ensures Candidates(z.st) == {}
    ensures CompletedSince(y, z, Candidates(y.st)) && AllCompleted(z.st, Candidates(y.st))
  {
    assert Candidates(y.st) - {} == Candidates(y.st);
  }
}
