/** What a scheduling decision guarantees: hard eligibility, the greedy selection, and
    the participant index behind the conflict test. */
module Selection {
  import opened Types
  import opened States
  import opened Steps

  // ---- Hard eligibility ----

  lemma {:induction false} DependenciesReady(s: State, ds: seq<DependencyRequirement>)
    ensures DependencyReadiness(s, ds).Ready? <==> forall d | d in ds :: DependencySatisfied(s, d)
  {
    if ds != [] {
      assert ds == [ds[0]] + ds[1..] && ds[0] in ds;
      DependenciesReady(s, ds[1..]);
      if forall d | d in ds :: DependencySatisfied(s, d) {
        assert DependencySatisfied(s, ds[0]);
      }
    }
  }

  lemma {:induction false} ParticipantsAccepted(s: State, ps: seq<Id>, gens: seq<Gen>)
    ensures ParticipantRejection(s, ps, gens).None? <==>
            ParticipantsCurrent(s, ps, gens) && ParticipantsAvailable(s, ps)
  {
    if ps != [] {
      assert ps == [ps[0]] + ps[1..];
      if gens == [] {
        assert !GenerationCurrent(s, ps, gens, 0);
      } else {
        ParticipantsAccepted(s, ps[1..], gens[1..]);
        assert forall i | 0 <= i < |ps| - 1 ::
            GenerationCurrent(s, ps[1..], gens[1..], i) <==> GenerationCurrent(s, ps, gens, i + 1);
        if ParticipantsCurrent(s, ps[1..], gens[1..]) && GenerationCurrent(s, ps, gens, 0) {
          forall i | 0 <= i < |ps| ensures GenerationCurrent(s, ps, gens, i) {
            if i > 0 { assert GenerationCurrent(s, ps[1..], gens[1..], i - 1); }
          }
        }
        if ParticipantsCurrent(s, ps, gens) {
          assert GenerationCurrent(s, ps, gens, 0);
          forall i | 0 <= i < |ps| - 1 ensures GenerationCurrent(s, ps[1..], gens[1..], i) {
            assert GenerationCurrent(s, ps, gens, i + 1);
          }
        }
      }
    }
  }

  /** All the evidence a request needs is published, current and sufficient. */
  ghost predicate AuthorityCurrent(s: State, req: Request) {
    && ParticipantsCurrent(s, req.participants, req.participantGens)
    && ParticipantsAvailable(s, req.participants)
    && PlanCurrent(s, req.plan, req.planGen)
    && (forall d | d in req.dependencies :: DependencySatisfied(s, d))
    && ReservationCurrent(s, req.reservation)
    && BelowCeiling(s)
    && WithinCapacity(s, req.claims)
  }

  lemma ReadyMeansAuthority(s: State, req: Request)
    ensures ComputeReadiness(s, req).Ready? <==> AuthorityCurrent(s, req)
  {
    DependenciesReady(s, req.dependencies);
    if ParticipantsCurrent(s, req.participants, req.participantGens) {
      assert forall i | 0 <= i < |req.participants| :: GenerationCurrent(s, req.participants, req.participantGens, i);
    } else {
      var i :| 0 <= i < |req.participants| && !GenerationCurrent(s, req.participants, req.participantGens, i);
      assert req.participants[i] in req.participants;
    }
  }

  /** The re-checks inside `hard_eligible` add nothing: given fresh readiness it asks
      only for an open window and an execution authority. */
  lemma EligibilityIsReadinessWindowAndWorkload(s: State, req: Request)
    ensures HardRejection(s, ComputeReadiness(s, req), req).None? <==>
            AuthorityCurrent(s, req) && WindowOpen(s.now, req.window) && req.workloadGen != 0
  {
    ReadyMeansAuthority(s, req);
    ParticipantsAccepted(s, req.participants, req.participantGens);
  }

  /** Authority depends on published evidence only. */
  lemma AuthorityFramed(s: State, t: State, req: Request)
    requires t == s.(records := t.records, counters := t.counters, grants := t.grants,
                     activeByParticipant := t.activeByParticipant, activeGrants := t.activeGrants)
    ensures AuthorityCurrent(s, req) <==> AuthorityCurrent(t, req)
  {
    assert forall i | 0 <= i < |req.participants| ::
        GenerationCurrent(s, req.participants, req.participantGens, i)
        <==> GenerationCurrent(t, req.participants, req.participantGens, i);
    if ParticipantsCurrent(s, req.participants, req.participantGens) {
      assert forall i | 0 <= i < |req.participants| :: GenerationCurrent(s, req.participants, req.participantGens, i);
    }
    if ParticipantsCurrent(t, req.participants, req.participantGens) {
      assert forall i | 0 <= i < |req.participants| :: GenerationCurrent(t, req.participants, req.participantGens, i);
    }
  }

  // ---- Subsequences ----

  ghost predicate Subsequence(a: seq<Id>, b: seq<Id>) {
    a == [] || (b != [] && ((a[0] == b[0] && Subsequence(a[1..], b[1..])) || Subsequence(a, b[1..])))
  }

  lemma {:induction false} SubsequenceMembers(a: seq<Id>, b: seq<Id>)
    requires Subsequence(a, b)
    ensures forall x | x in a :: x in b
  {
    if a != [] {
      assert b == [b[0]] + b[1..] && a == [a[0]] + a[1..];
      if Subsequence(a, b[1..]) { SubsequenceMembers(a, b[1..]); } else { SubsequenceMembers(a[1..], b[1..]); }
    }
  }

  /** Dropping the members of a subsequence leaves exactly the others. */
  lemma {:induction false} SplitOff(a: seq<Id>, b: seq<Id>)
    requires Subsequence(a, b) && NoDuplicates(b)
    ensures NoDuplicates(a)
    ensures multiset(a) + multiset(Without(b, a)) == multiset(b)
    decreases |b|, 1
  {
    if b != [] {
      var x, rest := b[0], b[1..];
      assert b == [x] + rest && x !in rest;
      if Subsequence(a, rest) {
        SplitOff(a, rest);
        SubsequenceMembers(a, rest);
        assert Without(b, a) == [x] + Without(rest, a);
      } else {
        SplitOffFirst(a, b);
      }
    }
  }

  lemma {:induction false} SplitOffFirst(a: seq<Id>, b: seq<Id>)
    requires a != [] && b != [] && a[0] == b[0] && Subsequence(a[1..], b[1..]) && NoDuplicates(b)
    ensures NoDuplicates(a)
    ensures multiset(a) + multiset(Without(b, a)) == multiset(b)
    decreases |b|, 0
  {
    var x, t, rest := b[0], a[1..], b[1..];
    assert b == [x] + rest && a == [x] + t && x !in rest;
    SplitOff(t, rest);
    SubsequenceMembers(t, rest);
    WithoutIgnores(rest, t, x);
    NoDuplicatesCons(x, t);
    assert Without(b, a) == [] + Without(rest, a) == Without(rest, t);
    OneMoreEach(x, t, Without(rest, t), rest);
  }

  lemma OneMoreEach(x: Id, t: seq<Id>, w: seq<Id>, rest: seq<Id>)
    requires multiset(t) + multiset(w) == multiset(rest)
    ensures multiset([x] + t) + multiset(w) == multiset([x] + rest)
  {
  }

  lemma NoDuplicatesCons(x: Id, t: seq<Id>)
    requires NoDuplicates(t) && x !in t
    ensures NoDuplicates([x] + t)
  {
  }

  lemma {:induction false} WithoutIgnores(b: seq<Id>, a: seq<Id>, x: Id)
    requires x !in b
    ensures Without(b, [x] + a) == Without(b, a)
  {
    if b != [] {
      assert b == [b[0]] + b[1..];
      WithoutIgnores(b[1..], a, x);
    }
  }

  // ---- The greedy pass ----

  /** `x` comes before `y` in the list. */
  ghost predicate Precedes(ranked: seq<Id>, x: Id, y: Id) {
    exists i, j :: 0 <= i < j < |ranked| && ranked[i] == x && ranked[j] == y
  }

  ghost predicate Compatible(s: State, chosen: seq<Id>)
    requires forall x | x in chosen :: x in s.records
  {
    && (forall i, j | 0 <= i < j < |chosen| :: CanOverlap(s, s.records[chosen[j]], s.records[chosen[i]]))
    && (forall x | x in chosen :: ActiveConflicts(s, s.records[x]) == 0)
  }

  /** Sound: the selection extends what was chosen by a subsequence of the ranking, its
      members may all overlap, none conflicts with a running grant, and the bounds hold. */
  lemma {:induction false} SelectIsSound(s: State, ranked: seq<Id>, chosen: seq<Id>)
    requires forall x | x in ranked :: x in s.records
    requires forall x | x in chosen :: x in s.records
    requires Compatible(s, chosen) && |chosen| <= s.policy.bounds.maxOverlapGroup
    ensures var r := Select(s, ranked, chosen);
            && |chosen| <= |r| && r[..|chosen|] == chosen && Subsequence(r[|chosen|..], ranked)
            && Compatible(s, r) && |r| <= s.policy.bounds.maxOverlapGroup
            && (|r| > |chosen| ==> s.activeGrants + |r| <= s.policy.bounds.maxActiveGrants)
    decreases |ranked|
  {
    if ranked != [] {
      var id, rest := ranked[0], ranked[1..];
      assert ranked == [id] + rest;
      var next := chosen + [id];
      var r := Select(s, ranked, chosen);
      if r == chosen {
      } else if r == Select(s, rest, chosen) {
        SelectIsSound(s, rest, chosen);
        SubsequenceExtends(r[|chosen|..], rest, id);
      } else {
        assert Compatible(s, next);
        if r == next {
          assert r[|chosen|..] == [id];
        } else {
          SelectIsSound(s, rest, next);
          TakenThenRest(r, chosen, id, rest);
        }
      }
    }
  }

  lemma TakenThenRest(r: seq<Id>, chosen: seq<Id>, id: Id, rest: seq<Id>)
    requires |chosen| < |r| && r[..|chosen| + 1] == chosen + [id] && Subsequence(r[|chosen| + 1..], rest)
    ensures r[..|chosen|] == chosen && Subsequence(r[|chosen|..], [id] + rest)
  {
    assert r[..|chosen|] == r[..|chosen| + 1][..|chosen|];
    assert r[|chosen|] == r[..|chosen| + 1][|chosen|];
    assert r[|chosen|..] == [id] + r[|chosen| + 1..];
    assert ([id] + rest)[1..] == rest && ([id] + r[|chosen| + 1..])[1..] == r[|chosen| + 1..];
  }

  lemma SubsequenceExtends(a: seq<Id>, b: seq<Id>, x: Id)
    requires Subsequence(a, b)
    ensures Subsequence(a, [x] + b)
  {
    assert ([x] + b)[1..] == b;
  }

  /** Why a candidate cannot join those taken so far: a bound is reached, it conflicts with
      a running grant, or it may not overlap one of them. */
  ghost predicate Obstructed(s: State, taken: seq<Id>, id: Id)
    requires id in s.records && forall x | x in taken :: x in s.records
  {
    || s.activeGrants + |taken| >= s.policy.bounds.maxActiveGrants
    || |taken| >= s.policy.bounds.maxOverlapGroup
    || ActiveConflicts(s, s.records[id]) > 0
    || exists x | x in taken :: !CanOverlap(s, s.records[id], s.records[x])
  }

  /** The first `k` selected, all ranked ahead of the candidate, obstruct it. */
  ghost predicate Blocked(s: State, ranked: seq<Id>, chosen: seq<Id>, selected: seq<Id>, id: Id, k: nat)
    requires id in s.records && forall x | x in selected :: x in s.records
  {
    && |chosen| <= k <= |selected|
    && (forall i | |chosen| <= i < k :: Precedes(ranked, selected[i], id))
    && Obstructed(s, selected[..k], id)
  }

  /** Maximal: every candidate that was not selected is blocked by those selected ahead
      of it. */
  lemma {:induction false} SelectIsMaximal(s: State, ranked: seq<Id>, chosen: seq<Id>, id: Id) returns (k: nat)
    requires forall x | x in ranked :: x in s.records
    requires forall x | x in chosen :: x in s.records
    requires Compatible(s, chosen) && |chosen| <= s.policy.bounds.maxOverlapGroup
    requires id in ranked && id !in Select(s, ranked, chosen)
    ensures Blocked(s, ranked, chosen, Select(s, ranked, chosen), id, k)
    decreases |ranked|
  {
    var r := Select(s, ranked, chosen);
    var first, rest := ranked[0], ranked[1..];
    assert ranked == [first] + rest;
    SelectIsSound(s, ranked, chosen);
    k := |chosen|;
    if s.activeGrants + |chosen| >= s.policy.bounds.maxActiveGrants {
    } else if Passed(s, first, chosen) {
      if first == id {
        PassedIsObstructed(s, id, chosen);
      } else {
        k := SelectIsMaximal(s, rest, chosen, id);
        BlockedLater(s, first, rest, chosen, r, id, k);
      }
    } else if |chosen| >= s.policy.bounds.maxOverlapGroup {
    } else {
      SelectTakes(s, ranked, chosen, chosen + [first]);
      if Exclusive(s, first) {
        k := |chosen| + 1;
        BlockedByExclusive(s, first, rest, chosen, id);
      } else {
        SelectIsSound(s, rest, chosen + [first]);
        k := SelectIsMaximal(s, rest, chosen + [first], id);
        BlockedAfter(s, first, rest, chosen, r, id, k);
      }
    }
  }

  /** The greedy pass skips this candidate. */
  ghost predicate Passed(s: State, id: Id, chosen: seq<Id>)
    requires id in s.records && forall x | x in chosen :: x in s.records
  {
    (Exclusive(s, id) && chosen != []) || ActiveConflicts(s, s.records[id]) > 0 || !FitsWith(s, id, chosen)
  }

  lemma PassedIsObstructed(s: State, id: Id, chosen: seq<Id>)
    requires id in s.records && (forall x | x in chosen :: x in s.records) && Passed(s, id, chosen)
    ensures Obstructed(s, chosen, id)
  {
    if Exclusive(s, id) && chosen != [] {
      assert chosen[0] in chosen && !CanOverlap(s, s.records[id], s.records[chosen[0]]);
    }
  }

  lemma BlockedByExclusive(s: State, first: Id, rest: seq<Id>, chosen: seq<Id>, id: Id)
    requires first in s.records && id in s.records && id in rest && Exclusive(s, first)
    requires forall x | x in chosen :: x in s.records
    ensures Blocked(s, [first] + rest, chosen, chosen + [first], id, |chosen| + 1)
  {
    PrecedesFirst(first, rest, id);
    assert (chosen + [first])[..|chosen| + 1] == chosen + [first];
    assert first in chosen + [first] && !CanOverlap(s, s.records[id], s.records[first]);
  }

  lemma ChosenStay(s: State, ranked: seq<Id>, chosen: seq<Id>)
    requires forall x | x in ranked :: x in s.records
    requires forall x | x in chosen :: x in s.records
    requires Compatible(s, chosen) && |chosen| <= s.policy.bounds.maxOverlapGroup
    ensures forall x | x in chosen :: x in Select(s, ranked, chosen)
  {
    SelectIsSound(s, ranked, chosen);
    var r := Select(s, ranked, chosen);
    assert forall i | 0 <= i < |chosen| :: chosen[i] == r[..|chosen|][i] == r[i];
  }

  lemma SelectTakes(s: State, ranked: seq<Id>, chosen: seq<Id>, next: seq<Id>)
    requires forall x | x in ranked :: x in s.records
    requires forall x | x in chosen :: x in s.records
    requires Compatible(s, chosen) && |chosen| < s.policy.bounds.maxOverlapGroup
    requires ranked != [] && next == chosen + [ranked[0]]
    requires s.activeGrants + |chosen| < s.policy.bounds.maxActiveGrants
    requires !(Exclusive(s, ranked[0]) && chosen != []) && ActiveConflicts(s, s.records[ranked[0]]) == 0
    requires FitsWith(s, ranked[0], chosen)
    ensures Compatible(s, next)
    ensures ranked[0] in Select(s, ranked, chosen)
  {
    assert ranked[0] in next;
    if !Exclusive(s, ranked[0]) { ChosenStay(s, ranked[1..], next); }
  }

  lemma PrecedesFirst(first: Id, rest: seq<Id>, id: Id)
    requires id in rest
    ensures Precedes([first] + rest, first, id)
  {
    var j :| 0 <= j < |rest| && rest[j] == id;
    assert ([first] + rest)[0] == first && ([first] + rest)[j + 1] == id;
  }

  lemma PrecedesLater(first: Id, rest: seq<Id>, x: Id, id: Id)
    requires Precedes(rest, x, id)
    ensures Precedes([first] + rest, x, id)
  {
    var i, j :| 0 <= i < j < |rest| && rest[i] == x && rest[j] == id;
    assert ([first] + rest)[i + 1] == x && ([first] + rest)[j + 1] == id;
  }

  lemma BlockedLater(s: State, first: Id, rest: seq<Id>, chosen: seq<Id>, r: seq<Id>, id: Id, k: nat)
    requires id in s.records && forall x | x in r :: x in s.records
    requires Blocked(s, rest, chosen, r, id, k)
    ensures Blocked(s, [first] + rest, chosen, r, id, k)
  {
    forall i | |chosen| <= i < k ensures Precedes([first] + rest, r[i], id) { PrecedesLater(first, rest, r[i], id); }
  }

  lemma BlockedAfter(s: State, first: Id, rest: seq<Id>, chosen: seq<Id>, r: seq<Id>, id: Id, k: nat)
    requires id in s.records && id in rest && forall x | x in r :: x in s.records
    requires |chosen| < |r| && r[..|chosen| + 1] == chosen + [first]
    requires Blocked(s, rest, chosen + [first], r, id, k)
    ensures Blocked(s, [first] + rest, chosen, r, id, k)
  {
    PrecedesFirst(first, rest, id);
    forall i | |chosen| <= i < k ensures Precedes([first] + rest, r[i], id) {
      if i == |chosen| {
        assert r[i] == r[..|chosen| + 1][i];
      } else {
        PrecedesLater(first, rest, r[i], id);
      }
    }
  }
}
