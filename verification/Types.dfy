/** The entities of the scheduler: requests, published evidence, grants and records.
    Identifiers, generations and times are natural numbers; weights, units and
    utilizations are reals. Enumerations that the code stores without checking
    keep their numeric code. */
module Types {

  datatype Option<+T> = None | Some(value: T)

  type Id = nat
  type Gen = nat
  type Code = nat

  const KIND_UNKNOWN: Code := 10
  const PROVENANCE_UNKNOWN: Code := 7

  const OVERLAP_EXCLUSIVE: Code := 0
  const OVERLAP_ALLOWED: Code := 1
  const OVERLAP_UNKNOWN: Code := 4

  // ---- Requests (include/collective_scheduler/request.hpp) ----

  datatype DependencyRequirement = DependencyRequirement(id: Id, gen: Gen, kind: Code, provenance: Code)

  datatype ResourceClaim =
    ResourceClaim(resource: Id, gen: Gen, units: real, exclusive: bool, provenance: Code)

  datatype Window =
    Window(earliest: nat, latest: nat, deadline: nat, expectedDuration: nat, slack: nat, source: Code)

  datatype Priority = Priority(value: int, gen: Gen, authoritative: bool)

  datatype Request = Request(
    id: Id, gen: Gen, collective: Id, collectiveGen: Gen, kind: Code, payloadBytes: nat,
    participants: seq<Id>, participantGens: seq<Gen>, perParticipantPayload: seq<nat>,
    plan: Id, planGen: Gen,
    dependencies: seq<DependencyRequirement>, claims: seq<ResourceClaim>, exclusionClasses: seq<seq<nat>>,
    priority: Priority, window: Window, overlap: Code, fairnessClass: Code,
    reservation: Option<Gen>, workload: Id, workloadGen: Gen, queueClass: Code,
    maxRetries: nat, retryCount: nat, policyGen: Gen, provenance: Code)

  // ---- Published evidence ----

  datatype Participant = Participant(
    id: Id, gen: Gen, worker: Id, workerBoot: Id, source: Id, sourceBoot: Id,
    ready: bool, readinessSource: Code)

  datatype Plan = Plan(
    id: Id, gen: Gen, resources: seq<Id>, links: seq<Id>, estimatedBandwidth: real, valid: bool)

  datatype Dependency = Dependency(id: Id, gen: Gen, satisfied: bool)

  datatype Reservation = Reservation(gen: Gen, valid: bool)

  datatype Congestion = Congestion(
    gen: Gen, utilization: real, residualBandwidth: real, hardCeiling: bool, hardCeilingUtilization: real)

  datatype Capacity = Capacity(gen: Gen, usable: real)

  // ---- Policy (include/collective_scheduler/config.hpp) ----

  datatype Weights = Weights(
    priority: real, deadline: real, age: real, fairnessDeficit: real, starvationRisk: real,
    expectedDuration: real, congestionPenalty: real, reservationFit: real, communicationCost: real,
    resourceFootprint: real, participantAvailability: real)

  datatype Bounds = Bounds(
    maxCollectives: nat, maxParticipantsPerCollective: nat, maxDependencies: nat,
    maxActiveGrants: nat, maxOverlapGroup: nat, maxHistoryRecords: nat)

  datatype Policy = Policy(weights: Weights, maxBypassCount: nat, agingGrowth: real, bounds: Bounds)

  // ---- Grants (include/collective_scheduler/scheduling.hpp) ----

  datatype Evidence = Evidence(
    epoch: Gen, collectiveGen: Gen, requestGen: Gen, planGen: Gen, participantGen: Gen, dependencyGen: Gen,
    reservationGen: Gen, congestionGen: Gen, capacityGen: Gen, policyGen: Gen, priorityGen: Gen,
    fairnessGen: Gen, topologyGen: Gen, capabilityGen: Gen, healthGen: Gen)

  datatype Revalidation = Revalidation(
    participants: bool, plan: bool, reservation: bool, dependencies: bool,
    congestion: bool, capacity: bool, executionAuthority: bool, currentEpoch: bool)

  const DEFAULT_REVALIDATION := Revalidation(true, true, true, true, true, true, true, true)

  datatype Grant = Grant(
    id: Id, gen: Gen, request: Id, requestGen: Gen, collective: Id, collectiveGen: Gen,
    schedule: Id, scheduleGen: Gen, participants: seq<Id>, participantGens: seq<Gen>,
    plan: Id, planGen: Gen, evidence: Evidence, revalidation: Revalidation,
    workload: Id, executionAttempt: Id, executionAttemptGen: Gen, policyGen: Gen,
    active: bool, terminal: bool)

  datatype GrantState = GrantState(
    grant: Grant, handedOff: bool, active: bool, terminal: bool, completedBy: Id, completedBySource: Id)
  {
    /** Handed off, running and not yet finished. */
    predicate Running() { active && !terminal }
  }

  // ---- Fairness (include/collective_scheduler/fairness.hpp) ----

  datatype Fairness = Fairness(
    cls: Code, observedGrants: nat, observedService: real, deficit: real,
    waitTicks: nat, consecutiveBypasses: nat, starved: bool, targetShare: real)

  // ---- Outcomes ----

  datatype Readiness =
    | Ready | WaitingDependency | WaitingParticipant | WaitingPlan | WaitingReservation | WaitingResource
    | WaitingCapacity | BlockedCongestion | BlockedPolicy | RevalidationNeeded | StaleEvidence | UnknownReadiness

  datatype Rejection =
    | StaleCollectiveGeneration | StaleParticipantGeneration | MissingParticipant | UnsatisfiedDependency
    | InvalidPlan | InvalidReservation | NoExecutionAuthority | InvalidWindow | ExclusionPolicy
    | HardCongestionCeiling | UnknownRejection

  datatype Adjudication = Valid | StaleGrant | GrantCancelled | GrantSuperseded | AlreadyTerminal | EpochMismatch

  datatype Error = Malformed | OutOfBounds | Overflow | InvalidArgument | IllegalTransition
}
