/** Generation agreement: records that hold authority expect exactly the published
    generations, and the indexed invalidation equals a scan of all records. */
module Agreement {
  import opened Types
  import opened Lifecycles
  import opened States
  import opened Steps
  import opened Invariants
  import opened Runs

  /** What a publication would do to the records if it looked at every one of them. */
  function ScannedRecords(s: State, p: Participant): map<Id, Record> {
    map id | id in s.records ::
      if ParticipantMoved(s, p) && Affected(s.records[id].request, p) then Invalidated(s.records[id]) else s.records[id]
  }

  lemma AffectedIsListed(s: State, p: Participant, id: Id)
    requires id in s.records && RecordOk(s, id) && Revocable(s.records[id].lifecycle)
    requires Affected(s.records[id].request, p)
    ensures Listed(s.participantRequests, p.id, id)
  {
    var req := s.records[id].request;
    var i :| 0 <= i < |req.participants| && req.participants[i] == p.id;
    assert req.participants[i] in req.participants;
  }

  /** The index reaches every record that the publication has to invalidate. */
  lemma IndexedInvalidationIsAScan(s: State, p: Participant)
    requires Inv(s) && !RefusesParticipant(s, p)
    ensures PublishParticipant(s, p).records == ScannedRecords(s, p)
  {
    forall id | id in s.records ensures PublishParticipant(s, p).records[id] == ScannedRecords(s, p)[id] {
      if Revocable(s.records[id].lifecycle) && Affected(s.records[id].request, p) {
        assert RecordOk(s, id);
        AffectedIsListed(s, p, id);
      }
    }
  }

  /** In every state of every run, a record that is GRANTED, DISPATCHING or ACTIVE expects
      exactly the published generation of each of its participants, its current grant is
      on file, and a running grant is listed under each of its participants. */
  lemma AgreementOverRuns(policy: Policy, epoch: Gen, steps: seq<Step>)
    requires ValidRun(NewSystem(policy, epoch), steps)
    ensures var s := Run(NewSystem(policy, epoch), steps).st;
            && (forall id | id in s.records && Holding(s.records[id].lifecycle) ::
                  ParticipantsCurrent(s, s.records[id].request.participants, s.records[id].request.participantGens)
                  && s.records[id].current.Some? && s.records[id].current.value.id in s.grants)
            && (forall x, q | x in s.grants && s.grants[x].Running() && q in s.grants[x].grant.participants ::
                  Listed(s.activeByParticipant, q, x))
  {
    NewSystemOk(policy, epoch);
    RunKeeps(NewSystem(policy, epoch), steps);
    var s := Run(NewSystem(policy, epoch), steps).st;
    forall id | id in s.records && Holding(s.records[id].lifecycle)
      ensures ParticipantsCurrent(s, s.records[id].request.participants, s.records[id].request.participantGens)
      ensures s.records[id].current.Some? && s.records[id].current.value.id in s.grants
    {
      assert RecordOk(s, id);
    }
    forall x, q | x in s.grants && s.grants[x].Running() && q in s.grants[x].grant.participants
      ensures Listed(s.activeByParticipant, q, x)
    {
      assert GrantOk(s, x);
    }
  }

  /** ELIGIBLE, QUEUED, DRAINING and FAILED never occur between calls, so `schedule` never
      meets an illegal transition. */
  lemma ScheduleIsAlwaysLegal(policy: Policy, epoch: Gen, steps: seq<Step>)
    requires ValidRun(NewSystem(policy, epoch), steps)
    ensures var s := Run(NewSystem(policy, epoch), steps).st;
            !ScheduleThrows(s) && forall id | id in s.records :: AtRest(s.records[id].lifecycle)
  {
    NewSystemOk(policy, epoch);
    RunKeeps(NewSystem(policy, epoch), steps);
    var s := Run(NewSystem(policy, epoch), steps).st;
    ScheduleNeverThrows(s);
    forall id | id in s.records ensures AtRest(s.records[id].lifecycle) { assert RecordOk(s, id); }
  }
}
