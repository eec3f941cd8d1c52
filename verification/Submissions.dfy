/** Submission order: submitting the same requests in another order gives the same decision,
    up to the ids and sequence numbers that submission assigns. */
module Submissions {
  import opened Types
  import opened Lifecycles
  import opened States
  import opened Steps
  import opened Invariants
  import opened Decisions
  import opened Order
  import opened Rearrangements

  /** The state after the submissions, in order. */
  function SubmitAll(s: State, rs: seq<Request>): State {
    if rs == [] then s else Submit(SubmitAll(s, rs[..|rs| - 1]), rs[|rs| - 1])
  }

  predicate Acceptable(r: Request, policy: Policy) { Validate(r, policy).None? }

  function Acceptances(rs: seq<Request>, policy: Policy): nat {
    if rs == [] then 0
    else Acceptances(rs[..|rs| - 1], policy) + (if Acceptable(rs[|rs| - 1], policy) then 1 else 0)
  }

  /** The bound on collectives refuses none of the acceptable requests. */
  predicate Fits(s: State, rs: seq<Request>) {
    |s.records| + Acceptances(rs, s.policy) <= s.policy.bounds.maxCollectives
  }

  /** The bound on collectives admits some of the acceptable requests but not all of them. */
  predicate RunsOut(s: State, rs: seq<Request>) {
    |s.records| < s.policy.bounds.maxCollectives < |s.records| + Acceptances(rs, s.policy)
  }

  /** Validation does not look at the labels that submission assigns. */
  lemma ValidationIgnoresLabels(r: Request, id: Id, gen: Gen, policy: Policy)
    ensures Validate(r.(id := id, gen := gen), policy) == Validate(r, policy)
  {
  }

  lemma {:induction false} AcceptancesWithout(rs: seq<Request>, policy: Policy, j: nat)
    requires j < |rs|
    ensures Acceptances(rs, policy)
         == Acceptances(rs[..j] + rs[j + 1..], policy) + (if Acceptable(rs[j], policy) then 1 else 0)
  {
    var n, rest := |rs| - 1, rs[..j] + rs[j + 1..];
    if j == n {
      assert rest == rs[..n];
    } else {
      AcceptancesWithout(rs[..n], policy, j);
      assert rest[..n - 1] == rs[..n][..j] + rs[..n][j + 1..];
    }
  }

  lemma {:induction false} SameAcceptances(rs: seq<Request>, qs: seq<Request>, policy: Policy)
    requires multiset(rs) == multiset(qs)
    ensures Acceptances(rs, policy) == Acceptances(qs, policy)
    decreases |rs|
  {
    if rs == [] {
      assert |multiset(qs)| == |qs|;
    } else {
      assert rs[0] in multiset(qs);
      var j :| 0 <= j < |qs| && qs[j] == rs[0];
      assert multiset(rs[1..]) == multiset(qs[..j] + qs[j + 1..]) by { WithoutFirst(rs, qs, j); }
      SameAcceptances(rs[1..], qs[..j] + qs[j + 1..], policy);
      AcceptancesWithout(qs, policy, j);
      AcceptancesWithout(rs, policy, 0);
      assert rs[..0] + rs[1..] == rs[1..];
    }
  }

  // ---- What a list of submissions leaves behind ----

  /** A record without the labels that submission assigns. */
  ghost function Unlabelled(r: Record): Record {
    r.(request := r.request.(id := 0), seqNo := 0, current := None)
  }

  ghost function View(s: State): map<Id, Record> { map id | id in s.records :: Unlabelled(s.records[id]) }

  /** The record a request leaves behind, if it is acceptable. */
  ghost function Mark(r: Request, policy: Policy): Option<Record> {
    if Acceptable(r, policy)
    then Some(NewRecord(r.(id := 0, gen := 1), Declared, 0, FreshFairness(r.fairnessClass))) else None
  }

  ghost function Marks(rs: seq<Request>, policy: Policy): (m: seq<Option<Record>>)
    ensures |m| == |rs| && forall i | 0 <= i < |rs| :: m[i] == Mark(rs[i], policy)
  {
    seq(|rs|, i requires 0 <= i < |rs| => Mark(rs[i], policy))
  }

  ghost predicate AllFiled(s: State, t: State, rs: seq<Request>) {
    && t == s.(records := t.records, participantRequests := t.participantRequests, counters := t.counters)
    && (forall id | id in s.records :: id in t.records && t.records[id] == s.records[id])
    && Filed(s.counters.request, View(s), View(t), Marks(rs, s.policy))
    && |t.records| == |s.records| + Acceptances(rs, s.policy)
    && (|t.records| < s.policy.bounds.maxCollectives ==> t.counters.request == s.counters.request + |rs|)
  }

  lemma MarksLonger(rs: seq<Request>, r: Request, policy: Policy)
    ensures Marks(rs + [r], policy) == Marks(rs, policy) + [Mark(r, policy)]
    ensures Acceptances(rs + [r], policy) == Acceptances(rs, policy) + (if Acceptable(r, policy) then 1 else 0)
  {
    assert (rs + [r])[..|rs|] == rs;
  }

  lemma AdmittedView(t: State, u: State, r: Request, policy: Policy)
    requires Acceptable(r, policy) && u == Admit(t, Labelled(t, r))
    ensures View(u) == View(t)[t.counters.request := Mark(r, policy).value]
  {
  }

  lemma AdmittedIsFiled(s: State, t: State, u: State, rs: seq<Request>, r: Request)
    requires Below(View(s), s.counters.request) && Filed(s.counters.request, View(s), View(t), Marks(rs, s.policy))
    requires Acceptable(r, s.policy) && u == Admit(t, Labelled(t, r)) && t.counters.request == s.counters.request + |rs|
    ensures Filed(s.counters.request, View(s), View(u), Marks(rs + [r], s.policy))
    ensures t.counters.request !in t.records
  {
    MarksLonger(rs, r, s.policy);
    AdmittedView(t, u, r, s.policy);
    FiledOne(s.counters.request, View(s), View(t), View(u), Marks(rs, s.policy), Mark(r, s.policy).value);
  }

  lemma AdmittedFacts(t: State, u: State, r: Request)
    requires u == Admit(t, Labelled(t, r)) && t.counters.request !in t.records
    ensures |u.records| == |t.records| + 1 && u.counters.request == t.counters.request + 1
    ensures u == t.(records := u.records, participantRequests := u.participantRequests, counters := u.counters)
    ensures forall id | id in t.records :: id in u.records && u.records[id] == t.records[id]
  {
  }

  lemma OneMoreAdmitted(s: State, t: State, u: State, rs: seq<Request>, r: Request)
    requires AllFiled(s, t, rs) && Acceptable(r, s.policy) && |t.records| < s.policy.bounds.maxCollectives
    requires Below(View(s), s.counters.request) && u == Admit(t, Labelled(t, r))
    ensures AllFiled(s, u, rs + [r])
  {
    MarksLonger(rs, r, s.policy);
    AdmittedIsFiled(s, t, u, rs, r);
    AdmittedFacts(t, u, r);
  }

  lemma OneMoreRefused(s: State, t: State, c: Counters, rs: seq<Request>, r: Request)
    requires AllFiled(s, t, rs) && !Acceptable(r, s.policy)
    requires |t.records| < s.policy.bounds.maxCollectives ==> c.request == t.counters.request + 1
    ensures AllFiled(s, t.(counters := c), rs + [r])
  {
    MarksLonger(rs, r, s.policy);
    FiledNone(s.counters.request, View(s), View(t), Marks(rs, s.policy));
    assert View(t.(counters := c)) == View(t);
  }

  lemma IdsAreBelow(s: State)
    requires Inv(s)
    ensures Below(View(s), s.counters.request)
  {
    forall id | id in s.records ensures id < s.counters.request { assert RecordOk(s, id); }
  }

  lemma OneMoreFiled(s: State, t: State, rs: seq<Request>, r: Request)
    requires Inv(s) && AllFiled(s, t, rs) && Fits(s, rs + [r])
    ensures AllFiled(s, Submit(t, r), rs + [r])
  {
    MarksLonger(rs, r, s.policy);
    ValidationIgnoresLabels(r, t.counters.request, 1, s.policy);
    if Acceptable(r, s.policy) {
      IdsAreBelow(s);
      OneMoreAdmitted(s, t, Submit(t, r), rs, r);
    } else if |t.records| < s.policy.bounds.maxCollectives {
      OneMoreRefused(s, t, t.counters.(request := t.counters.request + 1), rs, r);
    } else {
      OneMoreRefused(s, t, t.counters, rs, r);
    }
  }

  lemma {:induction false} SubmittedAll(s: State, rs: seq<Request>)
    requires Inv(s) && Fits(s, rs)
    ensures Inv(SubmitAll(s, rs)) && AllFiled(s, SubmitAll(s, rs), rs)
  {
    if rs != [] {
      var before := rs[..|rs| - 1];
      assert before + [rs[|rs| - 1]] == rs;
      SubmittedAll(s, before);
      OneMoreFiled(s, SubmitAll(s, before), before, rs[|rs| - 1]);
      SubmitKeeps(SubmitAll(s, before), rs[|rs| - 1]);
    }
  }

  // ---- From one order to the other ----

  lemma MarksRearrange(rs: seq<Request>, qs: seq<Request>, policy: Policy, there: seq<nat>, back: seq<nat>)
    requires Rearranges(rs, qs, there, back)
    ensures Rearranges(Marks(rs, policy), Marks(qs, policy), there, back)
  {
  }

  lemma SameViewIsAlike(r: Record, q: Record)
    requires Unlabelled(r) == Unlabelled(q)
    ensures Alike(r, q)
  {
  }

  lemma NamedAlike(t: State, u: State, f: map<Id, Id>)
    requires Names(f, View(t), View(u))
    ensures Injective(f) && f.Keys == t.records.Keys && f.Values == u.records.Keys
    ensures forall id | id in t.records :: f[id] in u.records && Alike(t.records[id], u.records[f[id]])
  {
    assert View(t).Keys == t.records.Keys && View(u).Keys == u.records.Keys;
    forall id | id in t.records ensures f[id] in u.records && Alike(t.records[id], u.records[f[id]]) {
      assert f[id] in View(u) && View(u)[f[id]] == View(t)[id];
      SameViewIsAlike(t.records[id], u.records[f[id]]);
    }
  }

  lemma GrantsKeepNames(s: State, t: State, u: State, there: seq<nat>)
    requires Inv(s) && t.grants == s.grants == u.grants
    requires forall id | id in s.records :: id in t.records
    ensures GrantsRenamed(t, u, Renaming(s.counters.request, View(t), there))
  {
    forall x | x in s.grants ensures s.grants[x].grant.request in s.records { assert GrantOk(s, x); }
    forall id | id in s.records ensures Relocated(s.counters.request, there, id) == id { assert RecordOk(s, id); }
  }

  lemma FiledAlike(s: State, t: State, u: State, rs: seq<Request>, qs: seq<Request>, there: seq<nat>, back: seq<nat>)
    requires Inv(s) && AllFiled(s, t, rs) && AllFiled(s, u, qs) && Rearranges(rs, qs, there, back)
    ensures Relabelled(t, u, Renaming(s.counters.request, View(t), there))
  {
    IdsAreBelow(s);
    MarksRearrange(rs, qs, s.policy, there, back);
    Renames(s.counters.request, View(s), View(t), View(u), Marks(rs, s.policy), Marks(qs, s.policy), there, back);
    NamedAlike(t, u, Renaming(s.counters.request, View(t), there));
    GrantsKeepNames(s, t, u, there);
  }

  lemma FittingOrdersAreRelabelled(s: State, rs: seq<Request>, qs: seq<Request>) returns (f: map<Id, Id>)
    requires Inv(s) && multiset(rs) == multiset(qs) && Fits(s, rs)
    ensures Inv(SubmitAll(s, rs)) && Inv(SubmitAll(s, qs)) && Relabelled(SubmitAll(s, rs), SubmitAll(s, qs), f)
    ensures forall id | id in s.records :: id in f && f[id] == id
  {
    SameAcceptances(rs, qs, s.policy);
    SubmittedAll(s, rs);
    SubmittedAll(s, qs);
    var there, back := SameItemsRearrange(rs, qs);
    FiledAlike(s, SubmitAll(s, rs), SubmitAll(s, qs), rs, qs, there, back);
    f := Renaming(s.counters.request, View(SubmitAll(s, rs)), there);
    OldNamesStay(s, SubmitAll(s, rs), rs, there);
  }

  lemma OldNamesStay(s: State, t: State, rs: seq<Request>, there: seq<nat>)
    requires Inv(s) && AllFiled(s, t, rs)
    ensures var f := Renaming(s.counters.request, View(t), there); forall id | id in s.records :: id in f && f[id] == id
  {
    forall id | id in s.records ensures id < s.counters.request { assert RecordOk(s, id); }
  }

  /** A full scheduler takes nothing more. */
  lemma {:induction false} FullTakesNothing(s: State, rs: seq<Request>)
    requires |s.records| >= s.policy.bounds.maxCollectives
    ensures SubmitAll(s, rs) == s
  {
    if rs != [] { FullTakesNothing(s, rs[..|rs| - 1]); }
  }

  lemma RelabelledItself(s: State) returns (f: map<Id, Id>)
    requires Inv(s)
    ensures Relabelled(s, s, f) && forall id | id in s.records :: id in f && f[id] == id
  {
    f := map id | id in s.records :: id;
    forall id | id in s.records ensures id in f.Values { assert f[id] == id; }
    assert f.Values == s.records.Keys;
    forall x | x in s.grants ensures s.grants[x].grant.request in f { assert GrantOk(s, x); }
  }

  /** Unless room runs out on the way, submitting the same requests in two orders leads to
      the same state up to labels. */
  lemma OrdersAreRelabelled(s: State, rs: seq<Request>, qs: seq<Request>) returns (f: map<Id, Id>)
    requires Inv(s) && multiset(rs) == multiset(qs) && !RunsOut(s, rs)
    ensures Inv(SubmitAll(s, rs)) && Inv(SubmitAll(s, qs)) && Relabelled(SubmitAll(s, rs), SubmitAll(s, qs), f)
    ensures forall id | id in s.records :: id in f && f[id] == id
  {
    if Fits(s, rs) {
      f := FittingOrdersAreRelabelled(s, rs, qs);
    } else {
      FullTakesNothing(s, rs);
      FullTakesNothing(s, qs);
      f := RelabelledItself(s);
    }
  }

  /** The collectives behind a list of requests. */
  ghost function Collectives(s: State, ids: seq<Id>): (cs: seq<Id>)
    requires forall x | x in ids :: x in s.records
    ensures |cs| == |ids| && forall i | 0 <= i < |ids| :: cs[i] == s.records[ids[i]].request.collective
  {
    seq(|ids|, i requires 0 <= i < |ids| => s.records[ids[i]].request.collective)
  }

  lemma SameCollectives(t: State, u: State, f: map<Id, Id>, ids: seq<Id>)
    requires Relabelled(t, u, f) && forall x | x in ids :: x in t.records
    ensures (forall x | x in Renamed(f, ids) :: x in u.records)
            && Collectives(u, Renamed(f, ids)) == Collectives(t, ids)
  {
    forall i | 0 <= i < |ids| ensures Renamed(f, ids)[i] in u.records
      ensures u.records[Renamed(f, ids)[i]].request.collective == t.records[ids[i]].request.collective
    {
      assert ids[i] in ids;
      assert Alike(t.records[ids[i]], u.records[f[ids[i]]]);
    }
  }

  /** The collectives a decision selects and those it leaves as fallback, in order. */
  ghost predicate DecidesFor(t: State, selected: seq<Id>, fallback: seq<Id>)
    requires !ScheduleThrows(t)
  {
    && (forall x | x in MakeDecision(t).selected :: x in t.records)
    && (forall x | x in MakeDecision(t).fallback :: x in t.records)
    && Collectives(t, MakeDecision(t).selected) == selected && Collectives(t, MakeDecision(t).fallback) == fallback
  }

  lemma DecisionMembers(t: State)
    requires Inv(t) && !ScheduleThrows(t)
    ensures forall x | x in MakeDecision(t).selected || x in MakeDecision(t).fallback :: x in t.records
  {
    DecisionSplitsCandidates(t);
    forall x | x in MakeDecision(t).selected || x in MakeDecision(t).fallback ensures x in t.records {
      assert x in multiset(MakeDecision(t).selected) + multiset(MakeDecision(t).fallback);
      assert x in multiset(Ranking(t));
    }
  }

  lemma SameDecision(t: State, u: State, f: map<Id, Id>) returns (selected: seq<Id>, fallback: seq<Id>)
    requires Inv(t) && Relabelled(t, u, f) && !ScheduleThrows(t) && !ScheduleThrows(u) && NoTies(t)
    ensures DecidesFor(t, selected, fallback) && DecidesFor(u, selected, fallback)
  {
    DecisionIgnoresLabels(t, u, f);
    DecisionMembers(t);
    SameCollectives(t, u, f, MakeDecision(t).selected);
    SameCollectives(t, u, f, MakeDecision(t).fallback);
    selected, fallback := Collectives(t, MakeDecision(t).selected), Collectives(t, MakeDecision(t).fallback);
  }

  /** Submitting the same requests in another order leads to the same decision: the same
      collectives are selected, and the same ones are next, in the same order. */
  lemma SubmissionOrderIsIrrelevant(s: State, rs: seq<Request>, qs: seq<Request>)
    returns (selected: seq<Id>, fallback: seq<Id>)
    requires Inv(s) && multiset(rs) == multiset(qs) && !RunsOut(s, rs)
    requires ScheduleThrows(SubmitAll(s, rs)) || NoTies(SubmitAll(s, rs))
    ensures !ScheduleThrows(SubmitAll(s, rs)) && !ScheduleThrows(SubmitAll(s, qs))
    ensures DecidesFor(SubmitAll(s, rs), selected, fallback) && DecidesFor(SubmitAll(s, qs), selected, fallback)
  {
    var f := OrdersAreRelabelled(s, rs, qs);
    ScheduleNeverThrows(SubmitAll(s, rs));
    ScheduleNeverThrows(SubmitAll(s, qs));
    selected, fallback := SameDecision(SubmitAll(s, rs), SubmitAll(s, qs), f);
  }

  // ---- A condition on the requests alone ----

  /** Every collective is asked for once: on file, in the list, and across the two. */
  ghost predicate OncePerCollective(s: State, rs: seq<Request>) {
    && (forall x, y | x in s.records && y in s.records && x != y ::
          s.records[x].request.collective != s.records[y].request.collective)
    && (forall i, j | 0 <= i < |rs| && 0 <= j < |rs| && i != j :: rs[i].collective != rs[j].collective)
    && (forall x, i | x in s.records && 0 <= i < |rs| :: s.records[x].request.collective != rs[i].collective)
  }

  lemma FiledCollective(s: State, t: State, rs: seq<Request>, x: Id)
    requires AllFiled(s, t, rs) && x in t.records && x !in s.records
    ensures 0 <= x - s.counters.request < |rs|
    ensures t.records[x].request.collective == rs[x - s.counters.request].collective
  {
    assert x in View(t) && x !in View(s);
    var i := x - s.counters.request;
    assert Marks(rs, s.policy)[i] == Some(View(t)[x]) && Marks(rs, s.policy)[i] == Mark(rs[i], s.policy);
  }

  lemma OnceMeansDistinct(s: State, t: State, rs: seq<Request>, x: Id, y: Id)
    requires AllFiled(s, t, rs) && OncePerCollective(s, rs) && x in t.records && y in t.records && x != y
    ensures t.records[x].request.collective != t.records[y].request.collective
  {
    if x !in s.records { FiledCollective(s, t, rs, x); }
    if y !in s.records { FiledCollective(s, t, rs, y); }
  }

  lemma OnceIsDistinct(s: State, rs: seq<Request>)
    requires Inv(s) && !RunsOut(s, rs) && OncePerCollective(s, rs)
    ensures !ScheduleThrows(SubmitAll(s, rs)) && DistinctCollectives(SubmitAll(s, rs))
  {
    var t := SubmitAll(s, rs);
    SubmitAllKeeps(s, rs);
    ScheduleNeverThrows(t);
    if Fits(s, rs) {
      SubmittedAll(s, rs);
      forall x, y | x in t.records && y in t.records && x != y
        ensures t.records[x].request.collective != t.records[y].request.collective
      {
        OnceMeansDistinct(s, t, rs, x, y);
      }
    } else {
      FullTakesNothing(s, rs);
    }
  }

  /** So when each collective is asked for once, any order gives the same decision, unless
      room runs out on the way. */
  lemma AnyOrderDecidesAlike(s: State, rs: seq<Request>, qs: seq<Request>)
    returns (selected: seq<Id>, fallback: seq<Id>)
    requires Inv(s) && multiset(rs) == multiset(qs) && !RunsOut(s, rs) && OncePerCollective(s, rs)
    ensures !ScheduleThrows(SubmitAll(s, rs)) && !ScheduleThrows(SubmitAll(s, qs))
    ensures DecidesFor(SubmitAll(s, rs), selected, fallback) && DecidesFor(SubmitAll(s, qs), selected, fallback)
  {
    OnceIsDistinct(s, rs);
    DistinctMeansNoTies(SubmitAll(s, rs));
    selected, fallback := SubmissionOrderIsIrrelevant(s, rs, qs);
  }

  // ---- When room runs out ----

  /** The collectives that have a record. */
  ghost function CollectivesOnFile(s: State): set<Id> { set id | id in s.records :: s.records[id].request.collective }

  ghost predicate Extends(rs: map<Id, Record>, qs: map<Id, Record>) {
    forall id | id in rs :: id in qs && qs[id] == rs[id]
  }

  lemma NewRecordExtends(rs: map<Id, Record>, id: Id, r: Record)
    requires id !in rs
    ensures Extends(rs, rs[id := r])
  {
  }

  lemma SubmitExtends(s: State, r: Request)
    requires Inv(s)
    ensures Extends(s.records, Submit(s, r).records)
  {
    IdsAreBelow(s);
    assert s.counters.request !in View(s);
    NewIdExtends(s, r);
  }

  lemma NewIdExtends(s: State, r: Request)
    requires s.counters.request !in s.records
    ensures Extends(s.records, Submit(s, r).records)
  {
    var q := Labelled(s, r);
    NewRecordExtends(s.records, q.id, NewRecord(q, Declared, s.counters.seqNo, FreshFairness(q.fairnessClass)));
  }

  lemma {:induction false} SubmitAllKeeps(s: State, rs: seq<Request>)
    requires Inv(s)
    ensures Inv(SubmitAll(s, rs)) && Extends(s.records, SubmitAll(s, rs).records)
  {
    if rs != [] {
      var t := SubmitAll(s, rs[..|rs| - 1]);
      SubmitAllKeeps(s, rs[..|rs| - 1]);
      SubmitKeeps(t, rs[|rs| - 1]);
      SubmitExtends(t, rs[|rs| - 1]);
    }
  }

  lemma {:induction false} SubmitInTwoGoes(s: State, rs: seq<Request>, qs: seq<Request>)
    ensures SubmitAll(s, rs + qs) == SubmitAll(SubmitAll(s, rs), qs)
    decreases |qs|
  {
    if qs == [] {
      assert rs + [] == rs;
    } else {
      var n := |qs| - 1;
      assert (rs + qs)[..|rs| + n] == rs + qs[..n];
      SubmitInTwoGoes(s, rs, qs[..n]);
    }
  }

  /** The first acceptable request that is refused for lack of room. */
  lemma {:induction false} FirstRefused(s: State, rs: seq<Request>) returns (k: nat)
    requires RunsOut(s, rs)
    ensures k < |rs| && Acceptable(rs[k], s.policy)
    ensures |s.records| + Acceptances(rs[..k], s.policy) == s.policy.bounds.maxCollectives
    decreases |rs|
  {
    var n := |rs| - 1;
    if RunsOut(s, rs[..n]) {
      k := FirstRefused(s, rs[..n]);
      assert rs[..n][..k] == rs[..k];
    } else {
      k := n;
    }
  }

  lemma OnlyEarlierOnFile(s: State, t: State, rs: seq<Request>, r: Request)
    requires AllFiled(s, t, rs)
    requires forall x | x in s.records :: s.records[x].request.collective != r.collective
    requires forall i | 0 <= i < |rs| :: rs[i].collective != r.collective
    ensures r.collective !in CollectivesOnFile(t)
  {
    forall x | x in t.records ensures t.records[x].request.collective != r.collective {
      if x !in s.records { FiledCollective(s, t, rs, x); }
    }
  }

  lemma RefusedIsNotOnFile(s: State, rs: seq<Request>, k: nat)
    requires Inv(s) && OncePerCollective(s, rs) && k < |rs|
    requires |s.records| + Acceptances(rs[..k], s.policy) == s.policy.bounds.maxCollectives
    ensures rs[k].collective !in CollectivesOnFile(SubmitAll(s, rs))
  {
    var before, rest := rs[..k], rs[k..];
    assert rs == before + rest;
    SubmittedAll(s, before);
    SubmitInTwoGoes(s, before, rest);
    FullTakesNothing(SubmitAll(s, before), rest);
    OnlyEarlierOnFile(s, SubmitAll(s, before), before, rs[k]);
  }

  lemma FirstIsOnFile(s: State, r: Request, rs: seq<Request>)
    requires Inv(s) && |s.records| < s.policy.bounds.maxCollectives && Acceptable(r, s.policy)
    ensures r.collective in CollectivesOnFile(SubmitAll(s, [r] + rs))
  {
    var t := Submit(s, r);
    ValidationIgnoresLabels(r, s.counters.request, 1, s.policy);
    assert SubmitAll(s, [r]) == t by { assert [r][..0] == []; }
    SubmitKeeps(s, r);
    SubmitInTwoGoes(s, [r], rs);
    SubmitAllKeeps(t, rs);
    assert t.records[s.counters.request].request.collective == r.collective;
  }

  lemma MovedToTheFront(rs: seq<Request>, k: nat)
    requires k < |rs|
    ensures multiset([rs[k]] + (rs[..k] + rs[k + 1..])) == multiset(rs)
  {
    assert rs == rs[..k] + [rs[k]] + rs[k + 1..];
  }

  /** When room runs out, whoever is refused could have come first. */
  lemma SomeOrderDiffers(s: State, rs: seq<Request>) returns (qs: seq<Request>)
    requires Inv(s) && OncePerCollective(s, rs) && RunsOut(s, rs)
    ensures multiset(qs) == multiset(rs) && CollectivesOnFile(SubmitAll(s, qs)) != CollectivesOnFile(SubmitAll(s, rs))
  {
    var k := FirstRefused(s, rs);
    qs := [rs[k]] + (rs[..k] + rs[k + 1..]);
    MovedToTheFront(rs, k);
    RefusedIsNotOnFile(s, rs, k);
    FirstIsOnFile(s, rs[k], rs[..k] + rs[k + 1..]);
  }

  lemma RelabelledOnFile(t: State, u: State, f: map<Id, Id>)
    requires Relabelled(t, u, f)
    ensures CollectivesOnFile(t) == CollectivesOnFile(u)
  {
    forall x | x in t.records ensures u.records[f[x]].request.collective == t.records[x].request.collective {
      assert Alike(t.records[x], u.records[f[x]]);
    }
    forall y | y in u.records ensures u.records[y].request.collective in CollectivesOnFile(t) {
      assert y in f.Values;
      var x :| x in f && f[x] == y;
    }
  }

  /** When each collective is asked for once, every order of submission leaves the same
      collectives on file if and only if room does not run out on the way. */
  lemma OrderIsIrrelevantIff(s: State, rs: seq<Request>)
    requires Inv(s) && OncePerCollective(s, rs)
    ensures (forall qs | multiset(qs) == multiset(rs) ::
               CollectivesOnFile(SubmitAll(s, qs)) == CollectivesOnFile(SubmitAll(s, rs)))
            <==> !RunsOut(s, rs)
  {
    if RunsOut(s, rs) {
      var qs := SomeOrderDiffers(s, rs);
    } else {
      forall qs | multiset(qs) == multiset(rs)
        ensures CollectivesOnFile(SubmitAll(s, qs)) == CollectivesOnFile(SubmitAll(s, rs))
      {
        var f := OrdersAreRelabelled(s, rs, qs);
        RelabelledOnFile(SubmitAll(s, rs), SubmitAll(s, qs), f);
      }
    }
  }
}
