/** The scheduler's state and the parts of src/scheduler.cpp that only read it:
    request validation, readiness, hard eligibility, ranking keys, grant
    revalidation and overlap. */
module States {
  import opened Types
  import opened Lifecycles
  import opened Conflicts
  import opened Rankings

  datatype Record = Record(
    request: Request, lifecycle: Lifecycle, readiness: Readiness, seqNo: nat, age: nat,
    fairness: Fairness, hardEligible: bool, footprint: Footprint, current: Option<Grant>)

  /** The counters that hand out identities; all of them are saved. */
  datatype Counters = Counters(
    request: Id, schedule: Id, grant: Id, group: Id,
    scheduleGen: Gen, grantGen: Gen, groupGen: Gen, seqNo: nat)

  /** Sets of ids kept per participant. */
  type Index = map<Id, set<Id>>

  /** A flat record of tables; the tables are type parameters, fixed in `State` below. */
  datatype StateOf<Records, Participants, Plans, Deps, Reservations, Grants, Table> = State(
    epoch: Gen, now: nat, policy: Policy, policyGen: Gen,
    records: Records,
    participants: Participants, plans: Plans, deps: Deps,
    reservations: Reservations, congestion: Option<Congestion>, capacity: Option<Capacity>,
    grants: Grants,
    participantRequests: Table, activeByParticipant: Table,
    counters: Counters, activeGrants: nat,
    capacityGen: Gen, congestionGen: Gen, reservationGen: Gen)

  type State = StateOf<map<Id, Record>, map<Id, Participant>, map<Id, Plan>, map<Id, Dependency>,
                       map<Gen, Reservation>, map<Id, GrantState>, Index>

  function NewState(policy: Policy, epoch: Gen): State {
    State(epoch, 0, policy, 0, map[], map[], map[], map[], map[], None, None, map[], map[], map[],
          Counters(1, 1, 1, 1, 1, 1, 1, 0), 0, 0, 0, 0)
  }

  // ---- Indexes ----

  predicate Listed(idx: Index, key: Id, x: Id) { key in idx && x in idx[key] }

  function IndexAdd(idx: Index, keys: seq<Id>, x: Id): (r: Index)
    ensures forall k, y :: Listed(r, k, y) <==> Listed(idx, k, y) || (k in keys && y == x)
  {
    map k | k in idx.Keys + (set p | p in keys) ::
      (if k in idx then idx[k] else {}) + (if k in keys then {x} else {})
  }

  /** Removes `x` under each key; a key left without entries is dropped. */
  function IndexRemove(idx: Index, keys: seq<Id>, x: Id): (r: Index)
    ensures forall k, y :: Listed(r, k, y) <==> Listed(idx, k, y) && !(k in keys && y == x)
  {
    assert forall k, y | k in idx && y in idx[k] && y != x :: y in idx[k] - {x};
    map k | k in idx && !(k in keys && idx[k] - {x} == {}) :: if k in keys then idx[k] - {x} else idx[k]
  }

  // ---- Request validation ----

  predicate NoDuplicates<T(==)>(v: seq<T>) {
    forall i, j | 0 <= i < j < |v| :: v[i] != v[j]
  }

  function Sum(v: seq<nat>): nat {
    if v == [] then 0 else v[0] + Sum(v[1..])
  }

  const PAYLOAD_LIMIT: nat := 0x1_0000_0000_0000_0000

  /** The first complaint of `validate_request`, if any. */
  function Validate(req: Request, policy: Policy): Option<Error> {
    var w := req.window;
    if req.kind == KIND_UNKNOWN then Some(Malformed)
    else if req.participants == [] then Some(Malformed)
    else if |req.participants| > policy.bounds.maxParticipantsPerCollective then Some(OutOfBounds)
    else if !NoDuplicates(req.participants) then Some(Malformed)
    else if |req.participantGens| != |req.participants| then Some(Malformed)
    else if req.perParticipantPayload != [] && |req.perParticipantPayload| != |req.participants| then Some(Malformed)
    else if req.plan == 0 then Some(Malformed)
    else if req.planGen == 0 then Some(Malformed)
    else if w.latest != 0 && w.earliest > w.latest then Some(Malformed)
    else if w.deadline != 0 && w.deadline < w.earliest then Some(Malformed)
    else if w.deadline != 0 && w.latest != 0 && w.latest > w.deadline then Some(Malformed)
    else if |req.claims| > policy.bounds.maxParticipantsPerCollective then Some(OutOfBounds)
    else if |req.dependencies| > policy.bounds.maxDependencies then Some(OutOfBounds)
    else if !NoDuplicates(req.exclusionClasses) then Some(Malformed)
    else if Sum(req.perParticipantPayload) >= PAYLOAD_LIMIT then Some(Overflow)
    else None
  }

  /** What validation guarantees and every later operation relies on. */
  predicate WellFormed(req: Request) {
    req.participants != [] && |req.participantGens| == |req.participants|
  }

  // ---- Readiness ----

  function PlanOf(s: State, id: Id): Option<Plan> {
    if id in s.plans then Some(s.plans[id]) else None
  }

  predicate Available(p: Participant) { p.ready && p.readinessSource != PROVENANCE_UNKNOWN }

  /** Participant `ps[i]` is published at exactly the generation `gens[i]`. */
  predicate GenerationCurrent(s: State, ps: seq<Id>, gens: seq<Gen>, i: nat)
    requires i < |ps|
  {
    i < |gens| && ps[i] in s.participants && s.participants[ps[i]].gen == gens[i]
  }

  predicate ParticipantsCurrent(s: State, ps: seq<Id>, gens: seq<Gen>) {
    forall i | 0 <= i < |ps| :: GenerationCurrent(s, ps, gens, i)
  }

  predicate ParticipantsAvailable(s: State, ps: seq<Id>) {
    forall p | p in ps :: p in s.participants && Available(s.participants[p])
  }

  predicate AnyParticipantStale(s: State, ps: seq<Id>, gens: seq<Gen>) {
    exists i | 0 <= i < |ps| :: ps[i] in s.participants && !GenerationCurrent(s, ps, gens, i)
  }

  predicate PlanCurrent(s: State, plan: Id, gen: Gen) {
    plan in s.plans && s.plans[plan].gen == gen && s.plans[plan].valid
  }

  predicate DependencySatisfied(s: State, d: DependencyRequirement) {
    d.id in s.deps && s.deps[d.id].gen == d.gen && s.deps[d.id].satisfied
  }

  predicate ReservationCurrent(s: State, r: Option<Gen>) {
    r.Some? ==> r.value == s.reservationGen && r.value in s.reservations && s.reservations[r.value].valid
  }

  predicate BelowCeiling(s: State) {
    s.congestion.Some? && s.congestion.value.hardCeiling ==>
      s.congestion.value.utilization < s.congestion.value.hardCeilingUtilization
  }

  function Demand(claims: seq<ResourceClaim>): real {
    if claims == [] then 0.0 else claims[0].units + Demand(claims[1..])
  }

  predicate WithinCapacity(s: State, claims: seq<ResourceClaim>) {
    s.capacity.Some? ==> Demand(claims) <= s.capacity.value.usable
  }

  /** The loop over dependencies stops at the first one that is not satisfied. */
  function DependencyReadiness(s: State, ds: seq<DependencyRequirement>): Readiness {
    if ds == [] then Readiness.Ready
    else if ds[0].id !in s.deps then WaitingDependency
    else if s.deps[ds[0].id].gen != ds[0].gen then StaleEvidence
    else if !s.deps[ds[0].id].satisfied then WaitingDependency
    else DependencyReadiness(s, ds[1..])
  }

  function ComputeReadiness(s: State, req: Request): Readiness {
    if AnyParticipantStale(s, req.participants, req.participantGens) then StaleEvidence
    else if !ParticipantsAvailable(s, req.participants) then WaitingParticipant
    else if req.plan !in s.plans then WaitingPlan
    else if s.plans[req.plan].gen != req.planGen then StaleEvidence
    else if !s.plans[req.plan].valid then WaitingPlan
    else
      var d := DependencyReadiness(s, req.dependencies);
      if d != Readiness.Ready then d
      else if req.reservation.Some? && req.reservation.value != s.reservationGen then StaleEvidence
      else if !ReservationCurrent(s, req.reservation) then WaitingReservation
      else if !BelowCeiling(s) then BlockedCongestion
      else if !WithinCapacity(s, req.claims) then WaitingCapacity
      else Readiness.Ready
  }

  // ---- Hard eligibility ----

  predicate WindowOpen(now: nat, w: Window) {
    && (w.earliest != 0 ==> now >= w.earliest)
    && (w.latest != 0 ==> now <= w.latest)
    && (w.deadline != 0 ==> now + w.expectedDuration <= w.deadline)
  }

  function ParticipantRejection(s: State, ps: seq<Id>, gens: seq<Gen>): Option<Rejection>
  {
    if ps == [] then None
    else if ps[0] !in s.participants then Some(MissingParticipant)
    else if gens == [] || s.participants[ps[0]].gen != gens[0] then Some(StaleParticipantGeneration)
    else if !Available(s.participants[ps[0]]) then Some(MissingParticipant)
    else ParticipantRejection(s, ps[1..], gens[1..])
  }

  function ReadinessRejection(rd: Readiness): Rejection {
    match rd
    case StaleEvidence => StaleCollectiveGeneration
    case BlockedCongestion => HardCongestionCeiling
    case BlockedPolicy => ExclusionPolicy
    case _ => UnknownRejection
  }

  /** The first reason `hard_eligible` gives against a record, if any. */
  function HardRejection(s: State, readiness: Readiness, req: Request): Option<Rejection> {
    if readiness != Readiness.Ready then Some(ReadinessRejection(readiness))
    else if !WindowOpen(s.now, req.window) then Some(InvalidWindow)
    else
      var p := ParticipantRejection(s, req.participants, req.participantGens);
      if p.Some? then p
      else if !PlanCurrent(s, req.plan, req.planGen) then Some(InvalidPlan)
      else if exists d | d in req.dependencies :: !DependencySatisfied(s, d) then Some(UnsatisfiedDependency)
      else if !ReservationCurrent(s, req.reservation) then Some(InvalidReservation)
      else if !BelowCeiling(s) then Some(HardCongestionCeiling)
      else if req.workloadGen == 0 then Some(NoExecutionAuthority)
      else None
  }

  // ---- Ranking keys ----

  function StarvationPressure(f: Fairness, maxBypassCount: nat): real {
    var cap := if maxBypassCount > 0 then maxBypassCount else 1;
    var frac := f.consecutiveBypasses as real / cap as real;
    var bypass := if frac > 1.0 then 1.0 else frac;
    var deficit := if f.deficit > 1.0 then 1.0 else f.deficit;
    var p := 0.5 * bypass + 0.5 * deficit;
    if p < 0.0 then 0.0 else if p > 1.0 then 1.0 else p
  }

  predicate Starved(s: State, f: Fairness) { f.consecutiveBypasses >= s.policy.maxBypassCount }

  function DeadlineUrgency(now: nat, w: Window): real {
    if w.deadline != 0 && now < w.deadline
    then 1.0 / (1.0 + (w.deadline - now) as real / 1000000000.0)
    else 0.0
  }

  function StarvationFactor(s: State, r: Record): real {
    (if Starved(s, r.fairness) then 1000.0 else StarvationPressure(r.fairness, s.policy.maxBypassCount))
      * s.policy.weights.starvationRisk
  }

  function RankingKey(s: State, r: Record): seq<real> {
    var req, w := r.request, s.policy.weights;
    var duration := req.window.expectedDuration as real / 1000000000.0;
    [ DeadlineUrgency(s.now, req.window) * w.deadline,
      req.priority.value as real / 100.0 * w.priority,
      StarvationFactor(s, r),
      (if r.fairness.deficit > 1.0 then 1.0 else r.fairness.deficit) * w.fairnessDeficit,
      r.age as real / 1000.0 * w.age,
      -(duration * w.expectedDuration),
      (if req.reservation.Some? && req.reservation.value in s.reservations then 1.0 else 0.0) * w.reservationFit,
      -(duration * w.communicationCost),
      -(|req.claims| as real * w.resourceFootprint),
      -((if s.congestion.Some? then s.congestion.value.utilization else 0.0) * w.congestionPenalty),
      w.participantAvailability ]
  }

  function Total(key: seq<real>): real {
    if key == [] then 0.0 else key[0] + Total(key[1..])
  }

  function EntryOf(s: State, id: Id): Entry
    requires id in s.records
  {
    var r := s.records[id];
    var key := RankingKey(s, r);
    Entry(id, key, Total(key), r.seqNo, r.request.collective)
  }

  // ---- Grant revalidation ----

  function Revalidate(s: State, g: Grant): Adjudication {
    if g.request !in s.records then StaleGrant
    else
      var rec := s.records[g.request];
      if rec.request.gen != g.requestGen then GrantSuperseded
      else if rec.request.collectiveGen != g.collectiveGen then StaleGrant
      else if g.evidence.epoch != s.epoch then EpochMismatch
      else if rec.lifecycle.Cancelled? then GrantCancelled
      else if rec.lifecycle.Superseded? then GrantSuperseded
      else if rec.lifecycle.Stale? then StaleGrant
      else if g.revalidation.plan && !PlanCurrent(s, g.plan, g.planGen) then StaleGrant
      else if g.revalidation.participants &&
              (|g.participants| != |rec.request.participants| ||
               !ParticipantsCurrent(s, g.participants, g.participantGens) ||
               !ParticipantsAvailable(s, g.participants)) then StaleGrant
      else if g.revalidation.dependencies &&
              exists d | d in rec.request.dependencies :: !(d.id in s.deps && s.deps[d.id].gen == d.gen) then StaleGrant
      else if g.revalidation.reservation && rec.request.reservation.Some? &&
              rec.request.reservation.value != s.reservationGen then StaleGrant
      else if g.revalidation.congestion && s.congestion.Some? &&
              s.congestion.value.gen != g.evidence.congestionGen then StaleGrant
      else if rec.lifecycle.Completed? then AlreadyTerminal
      else Valid
  }

  // ---- Overlap ----

  function Bandwidth(s: State, plan: Id): real {
    if plan in s.plans then s.plans[plan].estimatedBandwidth else 0.0
  }

  /** Every footprint is sorted and free of duplicates. */
  ghost predicate NormalFootprints(s: State) {
    forall id | id in s.records :: Normalized(s.records[id].footprint)
  }

  predicate CanOverlap(s: State, a: Record, b: Record) {
    && a.request.overlap != OVERLAP_UNKNOWN && b.request.overlap != OVERLAP_UNKNOWN
    && a.request.overlap != OVERLAP_EXCLUSIVE && b.request.overlap != OVERLAP_EXCLUSIVE
    && !ForbidsOverlap(Classify(a.footprint, b.footprint))
    && !(a.request.reservation.Some? && a.request.reservation == b.request.reservation)
    && (s.congestion.Some? ==>
          Bandwidth(s, a.request.plan) + Bandwidth(s, b.request.plan) <= s.congestion.value.residualBandwidth)
    && BelowCeiling(s)
  }

  /** Grants listed under any of the participants. */
  function ListedUnder(idx: Index, ps: seq<Id>): set<Id> {
    set p, x | p in ps && p in idx && x in idx[p] :: x
  }

  /** The running grants that `active_conflicts` counts against a candidate, found
      through the participant index. */
  function ConflictingGrants(s: State, r: Record): set<Id> {
    set x | x in ListedUnder(s.activeByParticipant, r.request.participants)
            && x in s.grants && s.grants[x].Running()
            && s.grants[x].grant.request in s.records
            && ForbidsOverlap(Classify(r.footprint, s.records[s.grants[x].grant.request].footprint))
  }

  function ActiveConflicts(s: State, r: Record): nat { |ConflictingGrants(s, r)| }
}
