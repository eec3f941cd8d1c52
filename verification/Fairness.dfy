/** Starvation dominance: a starved candidate outranks every other, and only a running
    grant, a bound or starved requests can keep it from being selected. */
module FairnessBounds {
  import opened Types
  import opened Lifecycles
  import opened Rankings
  import opened States
  import opened Steps
  import opened Invariants
  import opened Selection
  import opened Decisions

  lemma PressureIsAFraction(f: Fairness, maxBypassCount: nat)
    ensures 0.0 <= StarvationPressure(f, maxBypassCount) <= 1.0
  {
  }

  /** A record's score without the starvation factor. */
  ghost function OtherFactors(s: State, r: Record): real { Total(RankingKey(s, r)) - StarvationFactor(s, r) }

  /** The other factors cannot make up for 999 times the starvation weight. */
  ghost predicate SpreadBelow(s: State, a: Record, b: Record) {
    OtherFactors(s, b) - OtherFactors(s, a) < 999.0 * s.policy.weights.starvationRisk
  }

  lemma MulMonotone(a: real, b: real, w: real)
    requires a <= b && 0.0 <= w
    ensures a * w <= b * w
  {
  }

  /** A starved candidate comes before one that is not. */
  lemma StarvedFirst(s: State, a: Id, b: Id)
    requires a in s.records && b in s.records && s.policy.weights.starvationRisk >= 0.0
    requires Starved(s, s.records[a].fairness) && !Starved(s, s.records[b].fairness)
    requires SpreadBelow(s, s.records[a], s.records[b])
    ensures Before(EntryOf(s, a), EntryOf(s, b))
  {
    var w := s.policy.weights.starvationRisk;
    var p := StarvationPressure(s.records[b].fairness, s.policy.maxBypassCount);
    PressureIsAFraction(s.records[b].fairness, s.policy.maxBypassCount);
    MulMonotone(p, 1.0, w);
    assert StarvationFactor(s, s.records[a]) == 1000.0 * w;
  }

  ghost predicate StarvedIn(s: State, id: Id) { id in s.records && Starved(s, s.records[id].fairness) }

  /** For every pair of candidates the spread of the other factors stays below the bound. */
  ghost predicate SpreadBounded(s: State)
    requires !ScheduleThrows(s)
  {
    var p := Prepared(s);
    p.policy.weights.starvationRisk >= 0.0
    && forall a, b | a in Candidates(s) && b in Candidates(s) && StarvedIn(p, a) && !StarvedIn(p, b) ::
         SpreadBelow(p, p.records[a], p.records[b])
  }

  /** In the ranking of a decision nothing precedes a starved candidate but starved ones. */
  lemma OnlyStarvedPrecede(s: State, x: Id, id: Id)
    requires !ScheduleThrows(s) && SpreadBounded(s) && Precedes(Ranking(s), x, id) && StarvedIn(Prepared(s), id)
    ensures StarvedIn(Prepared(s), x)
  {
    var p := Prepared(s);
    var es := RankingOf(Entries(p, Candidates(s)));
    RankingIsCandidates(s);
    var i, j :| 0 <= i < j < |Ranking(s)| && Ranking(s)[i] == x && Ranking(s)[j] == id;
    assert es[i] in Elements(es) && es[j] in Elements(es);
    assert es[i] == EntryOf(p, x) && es[j] == EntryOf(p, id);
    if !StarvedIn(p, x) {
      assert SpreadBelow(p, p.records[id], p.records[x]);
      StarvedFirst(p, id, x);
      BeforeIsStrictTotalOrder(es[i], es[j], es[i]);
    }
  }

  /** A starved candidate that is passed over again is obstructed by the requests selected
      ahead of it, all of them starved themselves, or by a running grant. */
  lemma StarvedIsBypassedOnlyByStarved(s: State, id: Id) returns (k: nat)
    requires Inv(s) && !ScheduleThrows(s) && SpreadBounded(s)
    requires id in Candidates(s) && StarvedIn(Prepared(s), id) && id !in Selected(s)
    ensures k <= |Selected(s)| && forall i | 0 <= i < k :: StarvedIn(Prepared(s), Selected(s)[i])
    ensures Obstructed(Prepared(s), Selected(s)[..k], id)
  {
    RankingIsCandidates(s);
    k := SelectIsMaximal(Prepared(s), Ranking(s), [], id);
    forall i | 0 <= i < k ensures StarvedIn(Prepared(s), Selected(s)[i]) {
      OnlyStarvedPrecede(s, Selected(s)[i], id);
    }
  }

  /** Nothing below zero. */
  ghost function AtLeastZero(x: real): real { if x < 0.0 then 0.0 else x }

  /** What a decision does to a record's account. Being passed over counts a bypass and a tick
      of waiting, adds the growth to the deficit, and starves at the limit. Being selected
      counts a grant and a unit of service, takes the growth off the deficit, but not below
      zero, and starts counting bypasses afresh. Others keep their accounts, and every record
      still in play ages. */
  lemma AccountsAfterSchedule(s: State, id: Id)
    requires Inv(s) && !ScheduleThrows(s) && id in s.records
    ensures id in ScheduledState(s).records
    ensures var f, g := s.records[id].fairness, ScheduledState(s).records[id].fairness;
            && g.cls == f.cls && g.targetShare == f.targetShare
            && (id !in Candidates(s) ==> g == f)
            && (id in Selected(s) ==>
                  && g.observedGrants == f.observedGrants + 1 && g.observedService == f.observedService + 1.0
                  && g.waitTicks == f.waitTicks && g.consecutiveBypasses == 0 && !g.starved
                  && g.deficit == AtLeastZero(f.deficit - s.policy.agingGrowth))
            && (id in Candidates(s) && id !in Selected(s) ==>
                  && g.observedGrants == f.observedGrants && g.observedService == f.observedService
                  && g.waitTicks == f.waitTicks + 1 && g.consecutiveBypasses == f.consecutiveBypasses + 1
                  && (g.starved <==> g.consecutiveBypasses >= s.policy.maxBypassCount)
                  && g.deficit == f.deficit + s.policy.agingGrowth)
    ensures ScheduledState(s).records[id].age
         == s.records[id].age + (if Terminal(s.records[id].lifecycle) then 0 else 1)
  {
    GrantedRecord(s, id);
    AccountedRecord(s, id);
    ScheduleTouchesOnly(s);
    SelectedFacts(s);
  }
}
