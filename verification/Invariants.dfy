/** What every operation keeps: the invariant that ties records, grants, indexes and
    published generations together, and the direction in which records evolve. */
module Invariants {
  import opened Types
  import opened Lifecycles
  import opened Conflicts
  import opened States
  import opened Steps

  /** The grant was made for this very generation of the request. */
  ghost predicate Matches(g: Grant, req: Request) {
    && g.request == req.id && g.requestGen == req.gen && g.collectiveGen == req.collectiveGen
    && g.participants == req.participants && g.participantGens == req.participantGens
    && g.plan == req.plan && g.planGen == req.planGen
    && g.revalidation == DEFAULT_REVALIDATION && !g.active
  }

  /** The record's current grant is on file and belongs to its request. */
  ghost predicate CurrentOk(s: State, r: Record) {
    r.current.Some? ==>
      && r.current.value.id in s.grants
      && s.grants[r.current.value.id].grant == r.current.value
      && Matches(r.current.value, r.request)
  }

  ghost predicate ListedForAll(idx: Index, ps: seq<Id>, x: Id) {
    forall p | p in ps :: Listed(idx, p, x)
  }

  ghost predicate RecordOk(s: State, id: Id)
    requires id in s.records
  {
    var r := s.records[id];
    && r.request.id == id && id < s.counters.request && WellFormed(r.request)
    && AtRest(r.lifecycle)
    && CurrentOk(s, r)
    && (Ungranted(r.lifecycle) ==> r.current.None?)
    && (Holding(r.lifecycle) ==> r.current.Some? && !s.grants[r.current.value.id].terminal)
    && (Ungranted(r.lifecycle) || Holding(r.lifecycle) ==>
          ListedForAll(s.participantRequests, r.request.participants, id))
    && (Holding(r.lifecycle) ==> ParticipantsCurrent(s, r.request.participants, r.request.participantGens))
  }

  ghost predicate GrantOk(s: State, x: Id)
    requires x in s.grants
  {
    var gs := s.grants[x];
    && gs.grant.id == x && x < s.counters.grant
    && gs.grant.request in s.records
    && (!gs.terminal ==>
          s.records[gs.grant.request].current == Some(gs.grant) && !Terminal(s.records[gs.grant.request].lifecycle))
    && (gs.Running() ==>
          && (s.records[gs.grant.request].lifecycle.Active?
             || s.records[gs.grant.request].lifecycle.RevalidationRequired?)
          && ListedForAll(s.activeByParticipant, gs.grant.participants, x))
  }

  /** A grant is listed only under its own participants. */
  ghost predicate IndexSound(s: State) {
    forall p, x | Listed(s.activeByParticipant, p, x) :: x in s.grants && p in s.grants[x].grant.participants
  }

  ghost predicate CongestionOk(s: State) {
    s.congestionGen == if s.congestion.Some? then s.congestion.value.gen else 0
  }

  ghost predicate Inv(s: State) {
    && (forall id | id in s.records :: RecordOk(s, id))
    && (forall x | x in s.grants :: GrantOk(s, x))
    && IndexSound(s)
    && CongestionOk(s)
  }

  // ---- The direction of change ----

  /** A record moves to a later generation, or stays in its generation and only moves
      up the lifecycle; it gains a grant only by leaving the ungranted states. */
  ghost predicate RecordEvolves(r: Record, q: Record) {
    || q.request.gen > r.request.gen
    || (&& q.request == r.request
        && (q.lifecycle == r.lifecycle || Rank(q.lifecycle) > Rank(r.lifecycle))
        && (r.lifecycle.RevalidationRequired? ==> q.lifecycle.RevalidationRequired? || q.lifecycle.Cancelled?)
        && (q.current == r.current || q.current.None? || (Ungranted(r.lifecycle) && !Ungranted(q.lifecycle))))
  }

  ghost predicate GrantEvolves(s: State, t: State, x: Id) {
    x in t.grants && x < s.counters.grant ==>
      && x in s.grants && t.grants[x].grant == s.grants[x].grant
      && (s.grants[x].terminal ==> t.grants[x].terminal)
  }

  ghost predicate Evolves(s: State, t: State) {
    && s.epoch <= t.epoch && s.counters.grant <= t.counters.grant && s.counters.request <= t.counters.request
    && (forall id | id in s.records :: id in t.records && RecordEvolves(s.records[id], t.records[id]))
    && (forall x | x in t.grants :: GrantEvolves(s, t, x))
  }

  lemma RecordEvolvesTransitive(r: Record, q: Record, w: Record)
    requires RecordEvolves(r, q) && RecordEvolves(q, w)
    ensures RecordEvolves(r, w)
  {
  }

  lemma EvolvesTransitive(s: State, t: State, u: State)
    requires Evolves(s, t) && Evolves(t, u)
    ensures Evolves(s, u)
  {
    forall id | id in s.records ensures id in u.records && RecordEvolves(s.records[id], u.records[id]) {
      RecordEvolvesTransitive(s.records[id], t.records[id], u.records[id]);
    }
    forall x | x in u.grants ensures GrantEvolves(s, u, x) {
      assert GrantEvolves(t, u, x);
      if x < s.counters.grant { assert x in t.grants && GrantEvolves(s, t, x); }
    }
  }

  // ---- Framing ----

  /** Enough for a record that keeps its request and grant to stay in order. */
  lemma RecordFrameCore(s: State, t: State, id: Id)
    requires id in s.records && id in t.records && RecordOk(s, id)
    requires t.records[id].request == s.records[id].request && t.records[id].current == s.records[id].current
    requires AtRest(t.records[id].lifecycle)
    requires Ungranted(t.records[id].lifecycle) ==> Ungranted(s.records[id].lifecycle)
    requires Holding(t.records[id].lifecycle) ==>
               && Holding(s.records[id].lifecycle)
               && ParticipantsCurrent(t, s.records[id].request.participants, s.records[id].request.participantGens)
    requires s.counters.request <= t.counters.request
    requires s.records[id].current.Some? ==>
               var x := s.records[id].current.value.id;
               && x in t.grants && (x in s.grants ==> t.grants[x].grant == s.grants[x].grant)
               && (Holding(t.records[id].lifecycle) && x in s.grants && !s.grants[x].terminal ==> !t.grants[x].terminal)
    requires forall p | Listed(s.participantRequests, p, id) :: Listed(t.participantRequests, p, id)
    ensures RecordOk(t, id)
  {
  }

  lemma RecordFrame(s: State, t: State, id: Id)
    requires id in s.records && id in t.records && RecordOk(s, id)
    requires t.records[id].request == s.records[id].request && t.records[id].current == s.records[id].current
    requires AtRest(t.records[id].lifecycle)
    requires Ungranted(t.records[id].lifecycle) ==> Ungranted(s.records[id].lifecycle)
    requires Holding(t.records[id].lifecycle) ==> Holding(s.records[id].lifecycle)
    requires s.counters.request <= t.counters.request && t.participants == s.participants
    requires s.records[id].current.Some? ==>
               var x := s.records[id].current.value.id;
               && x in t.grants && (x in s.grants ==> t.grants[x].grant == s.grants[x].grant)
               && (Holding(t.records[id].lifecycle) && x in s.grants && !s.grants[x].terminal ==> !t.grants[x].terminal)
    requires forall p | Listed(s.participantRequests, p, id) :: Listed(t.participantRequests, p, id)
    ensures RecordOk(t, id)
  {
    var ps, gens := s.records[id].request.participants, s.records[id].request.participantGens;
    if Holding(t.records[id].lifecycle) {
      forall i | 0 <= i < |ps| ensures GenerationCurrent(t, ps, gens, i) {
        assert GenerationCurrent(s, ps, gens, i);
      }
    }
    RecordFrameCore(s, t, id);
  }

  /** Steps that touch no grant and no lifecycle of a granted record. */
  lemma GrantsUntouched(s: State, t: State)
    requires Inv(s) && t.grants == s.grants && t.activeByParticipant == s.activeByParticipant
    requires s.counters.grant <= t.counters.grant
    requires forall id | id in s.records ::
               && id in t.records && t.records[id].current == s.records[id].current
               && (!Ungranted(s.records[id].lifecycle) ==> t.records[id].lifecycle == s.records[id].lifecycle)
    ensures IndexSound(t)
    ensures forall x | x in t.grants :: GrantOk(t, x) && GrantEvolves(s, t, x)
  {
  }

  /** Grants on file keep their contents, and no grant gets listed anew. */
  lemma IndexFrame(s: State, t: State)
    requires IndexSound(s)
    requires forall x | x in s.grants :: x in t.grants && t.grants[x].grant == s.grants[x].grant
    requires forall p, x | Listed(t.activeByParticipant, p, x) :: Listed(s.activeByParticipant, p, x)
    ensures IndexSound(t)
  {
  }

  // ---- Evidence ----

  /** Every record that still holds authority after the publication expects exactly
      the generation just published. */
  lemma PublishedGenerationAgrees(s: State, p: Participant, id: Id)
    requires Inv(s) && !RefusesParticipant(s, p) && id in s.records
    requires Holding(PublishParticipant(s, p).records[id].lifecycle)
    ensures ParticipantsCurrent(PublishParticipant(s, p), s.records[id].request.participants,
                                s.records[id].request.participantGens)
  {
    var t := PublishParticipant(s, p);
    var ps, gens := s.records[id].request.participants, s.records[id].request.participantGens;
    assert RecordOk(s, id);
    forall i | 0 <= i < |ps| ensures GenerationCurrent(t, ps, gens, i) {
      assert GenerationCurrent(s, ps, gens, i);
      if ps[i] == p.id {
        assert Listed(s.participantRequests, ps[i], id);
        assert p.gen != gens[i] ==> Affected(s.records[id].request, p);
      }
    }
  }

  lemma PublishParticipantRecord(s: State, p: Participant, id: Id)
    requires Inv(s) && !RefusesParticipant(s, p) && id in s.records
    ensures RecordOk(PublishParticipant(s, p), id)
    ensures RecordEvolves(s.records[id], PublishParticipant(s, p).records[id])
  {
    var t := PublishParticipant(s, p);
    if Holding(t.records[id].lifecycle) { PublishedGenerationAgrees(s, p, id); }
    RecordFrameCore(s, t, id);
  }

  lemma PublishParticipantGrant(s: State, p: Participant, x: Id)
    requires !RefusesParticipant(s, p) && x in s.grants && GrantOk(s, x)
    ensures GrantOk(PublishParticipant(s, p), x) && GrantEvolves(s, PublishParticipant(s, p), x)
  {
  }

  lemma PublishParticipantKeeps(s: State, p: Participant)
    requires Inv(s)
    ensures Inv(PublishParticipant(s, p)) && Evolves(s, PublishParticipant(s, p))
  {
    var t := PublishParticipant(s, p);
    if !RefusesParticipant(s, p) {
      forall id | id in s.records { PublishParticipantRecord(s, p, id); }
      forall x | x in s.grants { PublishParticipantGrant(s, p, x); }
    }
  }

  /** Steps that touch neither records, grants nor indexes and let no generation of a
      participant change. */
  ghost predicate EvidenceOnly(s: State, t: State) {
    && t.records == s.records && t.grants == s.grants && t.participants == s.participants
    && t.participantRequests == s.participantRequests && t.activeByParticipant == s.activeByParticipant
    && t.counters == s.counters && s.epoch <= t.epoch
  }

  lemma EvidenceKeeps(s: State, t: State)
    requires Inv(s) && EvidenceOnly(s, t) && CongestionOk(t)
    ensures Inv(t) && Evolves(s, t)
  {
    forall id | id in s.records { RecordFrame(s, t, id); }
    GrantsUntouched(s, t);
  }

  // ---- Submitting, superseding, cancelling ----

  /** One record changes and its current grant `x` is finished; nothing else moves. */
  ghost predicate FinishesCurrent(s: State, t: State, id: Id, x: Id) {
    && id in s.records && s.records[id].current.Some? && s.records[id].current.value.id == x && x in s.grants
    && id in t.records && t.records == s.records[id := t.records[id]]
    && x in t.grants && t.grants == s.grants[x := t.grants[x]]
    && t.grants[x].grant == s.grants[x].grant && t.grants[x].terminal && !t.grants[x].active
    && t.counters == s.counters && s.epoch <= t.epoch
    && (forall p, y :: Listed(t.activeByParticipant, p, y)
                       <==> Listed(s.activeByParticipant, p, y) && !(p in s.grants[x].grant.participants && y == x))
  }

  lemma FinishedGrant(s: State, t: State, id: Id, x: Id, y: Id)
    requires FinishesCurrent(s, t, id, x) && y in s.grants && GrantOk(s, y)
    ensures GrantOk(t, y) && GrantEvolves(s, t, y)
  {
  }

  lemma FinishedGrants(s: State, t: State, id: Id, x: Id)
    requires FinishesCurrent(s, t, id, x) && Inv(s)
    ensures IndexSound(t)
    ensures forall y | y in t.grants :: GrantOk(t, y) && GrantEvolves(s, t, y)
  {
    forall y | y in s.grants { FinishedGrant(s, t, id, x, y); }
    IndexFrame(s, t);
  }

  lemma FinishedOther(s: State, t: State, id: Id, x: Id, i: Id)
    requires FinishesCurrent(s, t, id, x) && i in s.records && i != id
    requires RecordOk(s, id) && RecordOk(s, i)
    requires t.participants == s.participants
    requires forall p | Listed(s.participantRequests, p, i) :: Listed(t.participantRequests, p, i)
    ensures RecordOk(t, i)
  {
    RecordFrame(s, t, i);
  }

  /** Enough for a step that finishes one record's current grant. */
  lemma FinishKeeps(s: State, t: State, id: Id, x: Id)
    requires Inv(s) && FinishesCurrent(s, t, id, x) && CongestionOk(t)
    requires RecordOk(t, id) && RecordEvolves(s.records[id], t.records[id])
    requires t.participants == s.participants
    requires forall p, i | Listed(s.participantRequests, p, i) :: Listed(t.participantRequests, p, i)
    ensures Inv(t) && Evolves(s, t)
  {
    FinishedGrants(s, t, id, x);
    forall i | i in s.records && i != id { FinishedOther(s, t, id, x, i); }
  }

  lemma MovedRecord(s: State, id: Id, l: Lifecycle, i: Id)
    requires id in s.records && i in s.records && RecordOk(s, i) && Terminal(l) && AtRest(l)
    ensures RecordOk(Moved(s, id, l), i)
  {
    RecordFrame(s, Moved(s, id, l), i);
  }

  lemma MovedGrant(s: State, id: Id, l: Lifecycle, x: Id)
    requires id in s.records && x in s.grants && GrantOk(s, x)
    requires s.grants[x].grant.request == id ==> s.grants[x].terminal
    requires x in Moved(s, id, l).grants
    ensures GrantOk(Moved(s, id, l), x)
  {
  }

  lemma CancelOpenRecord(s: State, id: Id, x: Id)
    requires id in s.records && x in s.grants && RecordOk(s, id) && s.records[id].current == Some(s.grants[x].grant)
    ensures RecordOk(CancelOpen(s, id, x), id)
  {
    RecordFrame(s, CancelOpen(s, id, x), id);
  }

  lemma CancelOpenKeeps(s: State, id: Id, x: Id)
    requires Inv(s) && id in s.records && !Terminal(s.records[id].lifecycle)
    requires x in s.grants && s.records[id].current == Some(s.grants[x].grant) && s.grants[x].grant.id == x
    ensures Inv(CancelOpen(s, id, x)) && Evolves(s, CancelOpen(s, id, x))
  {
    var t := CancelOpen(s, id, x);
    CancelOpenRecord(s, id, x);
    FinishKeeps(s, t, id, x);
  }

  lemma CancelIdleKeeps(s: State, id: Id)
    requires Inv(s) && id in s.records && !Terminal(s.records[id].lifecycle)
    requires s.records[id].current.Some? ==> s.grants[s.records[id].current.value.id].terminal
    ensures Inv(Moved(s, id, Lifecycle.Cancelled)) && Evolves(s, Moved(s, id, Lifecycle.Cancelled))
  {
    forall i | i in s.records { MovedRecord(s, id, Lifecycle.Cancelled, i); }
    forall x | x in s.grants { MovedGrant(s, id, Lifecycle.Cancelled, x); }
    IndexFrame(s, Moved(s, id, Lifecycle.Cancelled));
  }

  lemma CancelKeeps(s: State, id: Id)
    requires Inv(s)
    ensures Inv(Cancel(s, id)) && Evolves(s, Cancel(s, id))
  {
    if id in s.records && !Terminal(s.records[id].lifecycle) {
      if OnFile(s, s.records[id]) && !s.grants[s.records[id].current.value.id].terminal {
        CancelOpenKeeps(s, id, s.records[id].current.value.id);
      } else {
        CancelIdleKeeps(s, id);
      }
    } else {
      EvolvesReflexive(s);
    }
  }

  lemma ReplaceGrantedKeeps(s: State, prev: Record, req: Request, x: Id)
    requires Inv(s) && WellFormed(req) && req.id in s.records && prev == s.records[req.id] && req.gen > prev.request.gen
    requires prev.current.Some? && x == prev.current.value.id && x in s.grants
    ensures Inv(ReplaceGranted(s, prev, req, x)) && Evolves(s, ReplaceGranted(s, prev, req, x))
  {
    FinishKeeps(s, ReplaceGranted(s, prev, req, x), req.id, x);
  }

  lemma RefiledOther(s: State, prev: Record, req: Request, i: Id)
    requires i in s.records && i != req.id && RecordOk(s, i)
    ensures RecordOk(Refiled(s, prev, req), i)
  {
    RecordFrame(s, Refiled(s, prev, req), i);
  }

  lemma RefiledGrant(s: State, prev: Record, req: Request, x: Id)
    requires req.id in s.records && prev == s.records[req.id] && prev.current.None? && x in s.grants && GrantOk(s, x)
    ensures GrantOk(Refiled(s, prev, req), x)
  {
  }

  lemma RefiledKeeps(s: State, prev: Record, req: Request)
    requires Inv(s) && WellFormed(req) && req.id in s.records && prev == s.records[req.id] && req.gen > prev.request.gen
    requires prev.current.None?
    ensures Inv(Refiled(s, prev, req)) && Evolves(s, Refiled(s, prev, req))
  {
    forall i | i in s.records && i != req.id { RefiledOther(s, prev, req, i); }
    forall x | x in s.grants { RefiledGrant(s, prev, req, x); }
    IndexFrame(s, Refiled(s, prev, req));
  }

  lemma ReplaceKeeps(s: State, prev: Record, req: Request)
    requires Inv(s) && WellFormed(req) && req.id in s.records && prev == s.records[req.id] && req.gen > prev.request.gen
    ensures Inv(Replace(s, prev, req)) && Evolves(s, Replace(s, prev, req))
  {
    if prev.current.None? {
      RefiledKeeps(s, prev, req);
    } else {
      assert RecordOk(s, req.id);
      ReplaceGrantedKeeps(s, prev, req, prev.current.value.id);
    }
  }

  /** The grants in `gone` are finished; all others are as they were. */
  ghost predicate EndsJust(s: State, t: State, gone: set<Id>) {
    && gone <= s.grants.Keys == t.grants.Keys
    && (forall x | x in gone :: t.grants[x].grant == s.grants[x].grant && t.grants[x].terminal && !t.grants[x].active)
    && (forall x | x in s.grants && x !in gone :: t.grants[x] == s.grants[x])
  }

  /** Superseding finishes the grant of the old generation, if it is on file, and no other. */
  lemma SupersedeEnds(s: State, req: Request)
    ensures EndsJust(s, Supersede(s, req),
                     if SupersedeError(s, req).None? && OnFile(s, s.records[req.id])
                     then {s.records[req.id].current.value.id} else {})
  {
  }

  lemma SupersedeKeeps(s: State, req: Request)
    requires Inv(s)
    ensures Inv(Supersede(s, req)) && Evolves(s, Supersede(s, req))
  {
    if SupersedeError(s, req).None? {
      ReplaceKeeps(s, s.records[req.id], req);
    } else {
      EvolvesReflexive(s);
    }
  }

  lemma EvolvesReflexive(s: State)
    ensures Evolves(s, s)
  {
  }

  lemma AdmitKeeps(s: State, q: Request)
    requires Inv(s) && q.id == s.counters.request && WellFormed(q)
    ensures Inv(Admit(s, q)) && Evolves(s, Admit(s, q))
  {
    forall i | i in s.records { AdmitFrame(s, q, i); }
    GrantsUntouched(s, Admit(s, q));
  }

  lemma AdmitFrame(s: State, q: Request, i: Id)
    requires q.id == s.counters.request && i in s.records && RecordOk(s, i)
    ensures RecordOk(Admit(s, q), i)
  {
    RecordFrame(s, Admit(s, q), i);
  }

  lemma SubmitKeeps(s: State, req: Request)
    requires Inv(s)
    ensures Inv(Submit(s, req)) && Evolves(s, Submit(s, req))
  {
    if |s.records| >= s.policy.bounds.maxCollectives {
      EvolvesReflexive(s);
    } else if SubmitError(s, req).Some? {
      CountersOnlyKeeps(s, s.(counters := s.counters.(request := s.counters.request + 1)));
    } else {
      AdmitKeeps(s, Labelled(s, req));
    }
  }

  lemma CountersOnlyKeeps(s: State, t: State)
    requires Inv(s) && t == s.(counters := t.counters)
    requires s.counters.request <= t.counters.request && s.counters.grant <= t.counters.grant
    ensures Inv(t) && Evolves(s, t)
  {
    forall i | i in s.records { RecordFrame(s, t, i); }
  }

  // ---- Handing off and completing ----

  /** The caller presents the grant that is on file under its id, if any is. */
  ghost predicate Genuine(s: State, g: Grant) {
    g.id in s.grants ==> s.grants[g.id].grant == g
  }

  lemma DispatchedRecord(s: State, g: Grant, i: Id)
    requires g.request in s.records && s.records[g.request].lifecycle.Granted?
    requires g.id in s.grants && s.grants[g.id].grant == g && i in s.records && RecordOk(s, i)
    ensures RecordOk(Dispatched(s, g), i)
    ensures RecordEvolves(s.records[i], Dispatched(s, g).records[i])
  {
    RecordFrame(s, Dispatched(s, g), i);
  }

  lemma DispatchedGrant(s: State, g: Grant, x: Id)
    requires g.request in s.records && s.records[g.request].lifecycle.Granted?
    requires g.id in s.grants && s.grants[g.id].grant == g && x in s.grants && GrantOk(s, x)
    ensures GrantOk(Dispatched(s, g), x) && GrantEvolves(s, Dispatched(s, g), x)
  {
  }

  lemma DispatchedKeeps(s: State, g: Grant)
    requires Inv(s) && g.request in s.records && s.records[g.request].lifecycle.Granted?
    requires g.id in s.grants && s.grants[g.id].grant == g
    ensures Inv(Dispatched(s, g)) && Evolves(s, Dispatched(s, g))
  {
    forall i | i in s.records { DispatchedRecord(s, g, i); }
    forall x | x in s.grants { DispatchedGrant(s, g, x); }
    IndexFrame(s, Dispatched(s, g));
  }

  /** Only a GRANTED record is dispatched. */
  lemma DispatchStartsFromGranted(s: State, g: Grant)
    requires HandoffStarts(s, g) && RecordOk(s, g.request)
    ensures s.records[g.request].lifecycle.Granted?
  {
  }

  lemma HandoffBeginKeeps(s: State, g: Grant)
    requires Inv(s) && Genuine(s, g)
    ensures Inv(HandoffBegin(s, g)) && Evolves(s, HandoffBegin(s, g))
  {
    if HandoffStarts(s, g) {
      DispatchStartsFromGranted(s, g);
      if g.id in s.grants { DispatchedKeeps(s, g); } else { MovedForwardKeeps(s, g.request, Dispatching); }
    } else {
      EvolvesReflexive(s);
    }
  }

  /** Moving a held record on to DISPATCHING or ACTIVE. */
  lemma MovedForwardKeeps(s: State, id: Id, l: Lifecycle)
    requires Inv(s) && id in s.records && Holding(s.records[id].lifecycle)
    requires l == s.records[id].lifecycle || (l.Dispatching? && s.records[id].lifecycle.Granted?)
             || (l.Active? && s.records[id].lifecycle.Dispatching?)
    ensures Inv(Moved(s, id, l)) && Evolves(s, Moved(s, id, l))
  {
    forall i | i in s.records { MovedForwardRecord(s, id, l, i); }
    forall x | x in s.grants { MovedForwardGrant(s, id, l, x); }
    IndexFrame(s, Moved(s, id, l));
  }

  lemma MovedForwardRecord(s: State, id: Id, l: Lifecycle, i: Id)
    requires id in s.records && Holding(s.records[id].lifecycle) && Holding(l) && i in s.records && RecordOk(s, i)
    ensures RecordOk(Moved(s, id, l), i)
  {
    RecordFrame(s, Moved(s, id, l), i);
  }

  lemma MovedForwardGrant(s: State, id: Id, l: Lifecycle, x: Id)
    requires id in s.records && x in s.grants && GrantOk(s, x) && Holding(l)
    requires l == s.records[id].lifecycle || Pending(s.records[id].lifecycle)
    requires x in Moved(s, id, l).grants
    ensures GrantOk(Moved(s, id, l), x)
  {
  }

  lemma ActivatedRecord(s: State, g: Grant, i: Id)
    requires g.request in s.records
             && (s.records[g.request].lifecycle.Active? || s.records[g.request].lifecycle.Dispatching?)
    requires g.id in s.grants && i in s.records && RecordOk(s, i)
    ensures RecordOk(Activated(s, g), i)
    ensures RecordEvolves(s.records[i], Activated(s, g).records[i])
  {
    RecordFrame(s, Activated(s, g), i);
  }

  lemma ActivatedGrant(s: State, g: Grant, x: Id)
    requires g.request in s.records && !Terminal(s.records[g.request].lifecycle)
    requires g.id in s.grants && s.grants[g.id].grant == g && x in s.grants && GrantOk(s, x)
    ensures GrantOk(Activated(s, g), x) && GrantEvolves(s, Activated(s, g), x)
  {
  }

  lemma ActivatedKeeps(s: State, g: Grant)
    requires Inv(s) && g.request in s.records
    requires s.records[g.request].lifecycle.Active? || s.records[g.request].lifecycle.Dispatching?
    requires g.id in s.grants && s.grants[g.id].grant == g
    ensures Inv(Activated(s, g)) && Evolves(s, Activated(s, g))
  {
    forall i | i in s.records { ActivatedRecord(s, g, i); }
    forall x | x in s.grants { ActivatedGrant(s, g, x); }
    assert IndexSound(Activated(s, g));
  }

  /** The fabric refused, or the record is no longer dispatching. */
  lemma DeactivatedKeeps(s: State, x: Id)
    requires Inv(s) && x in s.grants
    ensures var t := s.(grants := s.grants[x := s.grants[x].(active := false)]); Inv(t) && Evolves(s, t)
  {
    var t := s.(grants := s.grants[x := s.grants[x].(active := false)]);
    forall i | i in s.records { DeactivatedRecord(s, x, i); }
    forall y | y in s.grants { DeactivatedGrant(s, x, y); }
    IndexFrame(s, t);
  }

  lemma DeactivatedRecord(s: State, x: Id, i: Id)
    requires x in s.grants && i in s.records && RecordOk(s, i)
    ensures RecordOk(s.(grants := s.grants[x := s.grants[x].(active := false)]), i)
  {
    RecordFrame(s, s.(grants := s.grants[x := s.grants[x].(active := false)]), i);
  }

  lemma DeactivatedGrant(s: State, x: Id, y: Id)
    requires x in s.grants && y in s.grants && GrantOk(s, y)
    ensures GrantOk(s.(grants := s.grants[x := s.grants[x].(active := false)]), y)
  {
  }

  lemma HandoffEndKeeps(s: State, g: Grant, accepted: bool)
    requires Inv(s) && Genuine(s, g)
    ensures Inv(HandoffEnd(s, g, accepted)) && Evolves(s, HandoffEnd(s, g, accepted))
  {
    if g.request !in s.records {
      EvolvesReflexive(s);
    } else {
      var l := AfterDispatch(s.records[g.request].lifecycle, accepted);
      if g.id !in s.grants {
        if l == s.records[g.request].lifecycle {
          assert s.records[g.request := s.records[g.request]] == s.records;
          EvolvesReflexive(s);
        } else {
          MovedForwardKeeps(s, g.request, l);
        }
      } else if l.Active? {
        ActivatedKeeps(s, g);
      } else {
        DeactivatedKeeps(s, g.id);
      }
    }
  }

  lemma CompletedRecord(s: State, g: Grant, wb: Id, sb: Id)
    requires Genuine(s, g) && CompletionAccepted(s, g, wb, sb) && RecordOk(s, g.request)
    ensures RecordOk(Complete(s, g, wb, sb), g.request)
    ensures RecordEvolves(s.records[g.request], Complete(s, g, wb, sb).records[g.request])
  {
    assert Complete(s, g, wb, sb).records[g.request].current == s.records[g.request].current;
    RecordFrame(s, Complete(s, g, wb, sb), g.request);
  }

  lemma CompleteFinishes(s: State, g: Grant, wb: Id, sb: Id)
    requires CompletionAccepted(s, g, wb, sb) && Genuine(s, g)
    ensures FinishesCurrent(s, Complete(s, g, wb, sb), g.request, g.id)
  {
  }

  /** Completing finishes that grant and no other. */
  lemma CompleteEnds(s: State, g: Grant, wb: Id, sb: Id)
    ensures EndsJust(s, Complete(s, g, wb, sb), if CompletionAccepted(s, g, wb, sb) then {g.id} else {})
  {
  }

  lemma CompleteKeeps(s: State, g: Grant, wb: Id, sb: Id)
    requires Inv(s) && Genuine(s, g)
    ensures Inv(Complete(s, g, wb, sb)) && Evolves(s, Complete(s, g, wb, sb))
  {
    var t := Complete(s, g, wb, sb);
    if CompletionAccepted(s, g, wb, sb) {
      CompleteFinishes(s, g, wb, sb);
      CompletedRecord(s, g, wb, sb);
      FinishKeeps(s, t, g.request, g.id);
    } else {
      EvolvesReflexive(s);
    }
  }

  // ---- Fencing and recovery ----

  lemma FenceRecord(s: State, w: Id, b: Id, i: Id)
    requires i in s.records && RecordOk(s, i)
    requires s.records[i].current.Some? && s.records[i].current.value.id in FencedGrants(s, w, b) ==>
               Fenced(s, s.records[i], w, b)
    ensures RecordOk(Fence(s, w, b), i) && RecordEvolves(s.records[i], Fence(s, w, b).records[i])
  {
    var r := s.records[i];
    FenceKeepsGenerations(s, w, b, r.request.participants, r.request.participantGens);
    RecordFrameCore(s, Fence(s, w, b), i);
  }

  /** A fence withdraws readiness but changes no generation. */
  lemma FenceKeepsGenerations(s: State, w: Id, b: Id, ps: seq<Id>, gens: seq<Gen>)
    ensures ParticipantsCurrent(s, ps, gens) ==> ParticipantsCurrent(Fence(s, w, b), ps, gens)
  {
    if ParticipantsCurrent(s, ps, gens) {
      forall k | 0 <= k < |ps| ensures GenerationCurrent(Fence(s, w, b), ps, gens, k) {
        assert GenerationCurrent(s, ps, gens, k);
      }
    }
  }

  /** A fence that finishes a record's current grant has hit that record itself. */
  lemma FencedGrantIsOurs(s: State, w: Id, b: Id, i: Id)
    requires Inv(s) && i in s.records && s.records[i].current.Some?
    requires s.records[i].current.value.id in FencedGrants(s, w, b)
    ensures Fenced(s, s.records[i], w, b)
  {
    var x := s.records[i].current.value.id;
    var j :| j in s.records && Fenced(s, s.records[j], w, b) && s.records[j].current.Some?
             && s.records[j].current.value.id == x;
    assert s.grants[x].grant.request == i && s.grants[x].grant.request == j;
  }

  lemma FenceGrants(s: State, w: Id, b: Id)
    requires Inv(s)
    ensures IndexSound(Fence(s, w, b))
    ensures forall x | x in s.grants :: GrantOk(Fence(s, w, b), x) && GrantEvolves(s, Fence(s, w, b), x)
  {
    IndexFrame(s, Fence(s, w, b));
  }

  /** Fencing finishes exactly the grants of the records it hits and changes no generation
      of a participant or a request. */
  lemma FenceEndsGrants(s: State, w: Id, b: Id)
    ensures EndsJust(s, Fence(s, w, b), FencedGrants(s, w, b))
    ensures Fence(s, w, b).participants.Keys == s.participants.Keys && Fence(s, w, b).records.Keys == s.records.Keys
    ensures forall p | p in s.participants :: Fence(s, w, b).participants[p].gen == s.participants[p].gen
    ensures forall id | id in s.records :: Fence(s, w, b).records[id].request == s.records[id].request
  {
  }

  lemma FenceKeeps(s: State, w: Id, b: Id)
    requires Inv(s)
    ensures Inv(Fence(s, w, b)) && Evolves(s, Fence(s, w, b))
  {
    forall i | i in s.records
      ensures RecordOk(Fence(s, w, b), i) && RecordEvolves(s.records[i], Fence(s, w, b).records[i]) {
      if s.records[i].current.Some? && s.records[i].current.value.id in FencedGrants(s, w, b) {
        FencedGrantIsOurs(s, w, b, i);
      }
      FenceRecord(s, w, b, i);
    }
    FenceGrants(s, w, b);
  }

  lemma RecoverRecord(s: State, i: Id)
    requires i in s.records && RecordOk(s, i)
    ensures RecordOk(Recover(s), i) && RecordEvolves(s.records[i], Recover(s).records[i])
  {
  }

  lemma RecoverKeeps(s: State)
    requires Inv(s)
    ensures Inv(Recover(s)) && Evolves(s, Recover(s))
  {
    forall i | i in s.records { RecoverRecord(s, i); }
  }

  // ---- Scheduling ----

  lemma PreparedRecord(s: State, i: Id)
    requires !ScheduleThrows(s) && i in s.records && RecordOk(s, i)
    ensures RecordOk(Prepared(s), i) && RecordEvolves(s.records[i], Prepared(s).records[i])
  {
    RecordFrame(s, Prepared(s), i);
  }

  /** Preparing a decision never gives or takes a grant. */
  lemma PreparedRecordFacts(s: State, id: Id)
    requires !ScheduleThrows(s) && id in s.records && RecordOk(s, id)
    ensures !Ungranted(s.records[id].lifecycle) ==> Prepared(s).records[id].lifecycle == s.records[id].lifecycle
    ensures Ungranted(s.records[id].lifecycle) ==> !Holding(Prepared(s).records[id].lifecycle)
    ensures Prepared(s).records[id].current == s.records[id].current
  {
  }

  lemma PreparedKeeps(s: State)
    requires Inv(s) && !ScheduleThrows(s)
    ensures Inv(Prepared(s)) && Evolves(s, Prepared(s))
  {
    forall i | i in s.records { PreparedRecord(s, i); }
    forall i | i in s.records { PreparedRecordFacts(s, i); }
    GrantsUntouched(s, Prepared(s));
  }

  /** Refreshing builds a normal footprint, or leaves a finished record's as it is. */
  lemma RefreshedIsNormal(s: State, r: Record)
    requires !RefreshThrows(s, r) && Normalized(r.footprint)
    ensures Normalized(Refresh(s, r).footprint)
  {
    MakeFootprintNormalized(r.request.participants, r.request.claims, PlanOf(s, r.request.plan));
  }

  lemma PreparedIsNormal(s: State)
    requires !ScheduleThrows(s) && NormalFootprints(s)
    ensures NormalFootprints(Prepared(s))
  {
    forall id | id in s.records ensures Normalized(Refresh(s, s.records[id]).footprint) {
      RefreshedIsNormal(s, s.records[id]);
    }
  }

  /** Derivation throws in exactly one situation, which never arises at rest. */
  lemma DerivationThrowsOnlyFromEligible(l: Lifecycle, rd: Readiness)
    ensures Derived(l, rd).None? <==> l.Eligible? && WaitingReadiness(rd)
    ensures AtRest(l) ==> Derived(l, rd).Some? && AtRest(Derived(l, rd).value)
  {
  }

  lemma ScheduleNeverThrows(s: State)
    requires Inv(s)
    ensures !ScheduleThrows(s)
  {
    forall id | id in s.records ensures !RefreshThrows(s, s.records[id]) {
      DerivationThrowsOnlyFromEligible(s.records[id].lifecycle, ComputeReadiness(s, s.records[id].request));
    }
  }

  /** What a record must satisfy to be granted: still READY, expecting the published
      generations of its participants. */
  ghost predicate Grantable(s: State, id: Id) {
    && id in s.records && s.records[id].lifecycle.Ready?
    && ParticipantsCurrent(s, s.records[id].request.participants, s.records[id].request.participantGens)
  }

  lemma GrantOneRecord(s: State, id: Id, sid: Id, sgen: Gen, i: Id)
    requires Grantable(s, id) && i in s.records && RecordOk(s, id) && RecordOk(s, i)
    requires forall x | x in s.grants :: x < s.counters.grant
    ensures RecordOk(GrantOne(s, id, sid, sgen), i)
    ensures RecordEvolves(s.records[i], GrantOne(s, id, sid, sgen).records[i])
  {
    var t := GrantOne(s, id, sid, sgen);
    if i != id {
      RecordFrame(s, t, i);
    } else {
      var ps, gens := s.records[id].request.participants, s.records[id].request.participantGens;
      forall k | 0 <= k < |ps| ensures GenerationCurrent(t, ps, gens, k) {
        assert GenerationCurrent(s, ps, gens, k);
      }
    }
  }

  lemma GrantOneGrants(s: State, id: Id, sid: Id, sgen: Gen)
    requires Inv(s) && Grantable(s, id)
    ensures forall x | x in GrantOne(s, id, sid, sgen).grants ::
              GrantOk(GrantOne(s, id, sid, sgen), x) && GrantEvolves(s, GrantOne(s, id, sid, sgen), x)
  {
  }

  lemma GrantOneKeeps(s: State, id: Id, sid: Id, sgen: Gen)
    requires Inv(s) && Grantable(s, id)
    ensures Inv(GrantOne(s, id, sid, sgen)) && Evolves(s, GrantOne(s, id, sid, sgen))
  {
    forall i | i in s.records { GrantOneRecord(s, id, sid, sgen, i); }
    GrantOneGrants(s, id, sid, sgen);
  }

  /** Bookkeeping that leaves requests, lifecycles and grants alone. */
  lemma AccountedKeeps(s: State, candidates: set<Id>, selected: seq<Id>)
    requires Inv(s)
    ensures Inv(Accounted(s, candidates, selected)) && Evolves(s, Accounted(s, candidates, selected))
  {
    var t := Accounted(s, candidates, selected);
    forall i | i in s.records { RecordFrame(s, t, i); }
    GrantsUntouched(s, t);
  }
}
