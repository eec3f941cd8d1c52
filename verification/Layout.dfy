/** The layouts of the saved entities and the conversions between entities and codec values.
    Each entity has two tables: the fields in the order in which its serializer writes them
    and, under `_READ`, in the order in which its deserializer reads them (src/serialize.cpp,
    `serializeState` and `deserializeState` in src/scheduler.cpp). Doubles are written by their
    bit patterns, which the model leaves to a pair of functions; strings are counted bytes. */
module Layout {
  import opened Bytes
  import opened Types
  import opened Lifecycles
  import opened States
  import opened Images
  import opened Codec

  const TWO32: nat := 0x1_0000_0000
  const TWO64: nat := 0x1_0000_0000_0000_0000

  const U8 := Word(1, 256)
  const U32 := Word(4, TWO32)
  const U64 := Word(8, TWO64)
  const U64S := Many(U64, TWO64)

  /** How a double is turned into its bits and back. */
  datatype Doubles = Doubles(bits: real -> nat, value: nat -> real)

  predicate Exact(f: Doubles, x: real) { f.value(f.bits(x)) == x }

  function Fields(ss: seq<Schema>): Schema {
    if ss == [] then Nothing else Then(ss[0], Fields(ss[1..]))
  }

  // ---- Reading codec values ----

  function Nat(v: Val): nat { if v.Num? then v.n else 0 }
  function Bit(v: Val): bool { v.Truth? && v.b }
  function Items(v: Val): seq<Val> { if v.List? then v.vs else [] }
  function Field(v: Val, i: nat): Val { if i < |Items(v)| then Items(v)[i] else Num(0) }

  function Nums(ns: seq<nat>): seq<Val> { seq(|ns|, i requires 0 <= i < |ns| => Num(ns[i])) }
  function Nats(vs: seq<Val>): seq<nat> { seq(|vs|, i requires 0 <= i < |vs| => Nat(vs[i])) }

  lemma NatsOfNums(ns: seq<nat>)
    ensures Nats(Nums(ns)) == ns
  {
  }

  /** Two's complement in 32 bits. */
  function FromSigned(v: int): nat { if v >= 0 then v else if v >= -0x8000_0000 then v + TWO32 else 0 }
  function ToSigned(n: nat): int { if n < 0x8000_0000 then n else n - TWO32 }
  predicate Signed32(v: int) { -0x8000_0000 <= v < 0x8000_0000 }

  // ---- Requests ----

  const DEPENDENCY := Fields([U64, U64, U8, U8])
  const DEPENDENCY_READ := Fields([U64, U64, U8, U8])

  function DependencyVal(d: DependencyRequirement): Val {
    List([Num(d.id), Num(d.gen), Num(d.kind), Num(d.provenance)])
  }

  function DependencyOf(v: Val): DependencyRequirement {
    DependencyRequirement(Nat(Field(v, 0)), Nat(Field(v, 1)), Nat(Field(v, 2)), Nat(Field(v, 3)))
  }

  function DependencyVals(ds: seq<DependencyRequirement>): seq<Val> {
    seq(|ds|, i requires 0 <= i < |ds| => DependencyVal(ds[i]))
  }

  function DependenciesOf(vs: seq<Val>): seq<DependencyRequirement> {
    seq(|vs|, i requires 0 <= i < |vs| => DependencyOf(vs[i]))
  }

  const CLAIM := Fields([U64, U64, U64, Flag, U8])
  const CLAIM_READ := Fields([U64, U64, U64, Flag, U8])

  function ClaimVal(f: Doubles, c: ResourceClaim): Val {
    List([Num(c.resource), Num(c.gen), Num(f.bits(c.units)), Truth(c.exclusive), Num(c.provenance)])
  }

  function ClaimOf(f: Doubles, v: Val): ResourceClaim {
    ResourceClaim(Nat(Field(v, 0)), Nat(Field(v, 1)), f.value(Nat(Field(v, 2))), Bit(Field(v, 3)), Nat(Field(v, 4)))
  }

  function ClaimVals(f: Doubles, cs: seq<ResourceClaim>): seq<Val> {
    seq(|cs|, i requires 0 <= i < |cs| => ClaimVal(f, cs[i]))
  }

  function ClaimsOf(f: Doubles, vs: seq<Val>): seq<ResourceClaim> {
    seq(|vs|, i requires 0 <= i < |vs| => ClaimOf(f, vs[i]))
  }

  function ClassVals(cs: seq<seq<nat>>): seq<Val> { seq(|cs|, i requires 0 <= i < |cs| => List(Nums(cs[i]))) }
  function ClassesOf(vs: seq<Val>): seq<seq<nat>> { seq(|vs|, i requires 0 <= i < |vs| => Nats(Items(vs[i]))) }

  const PRIORITY := Fields([U32, U64, Flag])
  const PRIORITY_READ := Fields([U32, U64, Flag])

  function PriorityVal(p: Priority): Val { List([Num(FromSigned(p.value)), Num(p.gen), Truth(p.authoritative)]) }
  function PriorityOf(v: Val): Priority { Priority(ToSigned(Nat(Field(v, 0))), Nat(Field(v, 1)), Bit(Field(v, 2))) }

  const WINDOW := Fields([U64, U64, U64, U64, U64, U8])
  const WINDOW_READ := Fields([U64, U64, U64, U64, U64, U8])

  function WindowVal(w: Window): Val {
    List([Num(w.earliest), Num(w.latest), Num(w.deadline), Num(w.expectedDuration), Num(w.slack), Num(w.source)])
  }

  function WindowOf(v: Val): Window {
    Window(Nat(Field(v, 0)), Nat(Field(v, 1)), Nat(Field(v, 2)), Nat(Field(v, 3)), Nat(Field(v, 4)), Nat(Field(v, 5)))
  }

  /** A request is written in four groups, one after the other. */
  const IDENTITY := Fields([U64, U64, U64, U64, U8, U64])
  const IDENTITY_READ := Fields([U64, U64, U64, U64, U8, U64])

  function IdentityVal(q: Request): Val {
    List([Num(q.id), Num(q.gen), Num(q.collective), Num(q.collectiveGen), Num(q.kind), Num(q.payloadBytes)])
  }

  const MEMBERS := Fields([U64S, U64S, U64S, U64, U64])
  const MEMBERS_READ := Fields([U64S, U64S, U64S, U64, U64])

  function MembersVal(q: Request): Val {
    List([List(Nums(q.participants)), List(Nums(q.participantGens)), List(Nums(q.perParticipantPayload)),
          Num(q.plan), Num(q.planGen)])
  }

  const NEEDS := Fields([Many(DEPENDENCY, TWO64), Many(CLAIM, TWO64), Many(Many(U8, TWO64), TWO64), PRIORITY, WINDOW])
  const NEEDS_READ := Fields([
    Many(DEPENDENCY_READ, TWO64), Many(CLAIM_READ, TWO64), Many(Many(U8, TWO64), TWO64), PRIORITY_READ, WINDOW_READ])

  function NeedsVal(f: Doubles, q: Request): Val {
    List([List(DependencyVals(q.dependencies)), List(ClaimVals(f, q.claims)), List(ClassVals(q.exclusionClasses)),
          PriorityVal(q.priority), WindowVal(q.window)])
  }

  const TERMS := Fields([U8, U8, Maybe(U64), U64, U64, U8, U32, U32, U64, U8])
  const TERMS_READ := Fields([U8, U8, Maybe(U64), U64, U64, U8, U32, U32, U64, U8])

  function TermsVal(q: Request): Val {
    List([Num(q.overlap), Num(q.fairnessClass),
          Choice(if q.reservation.None? then None else Some(Num(q.reservation.value))),
          Num(q.workload), Num(q.workloadGen), Num(q.queueClass), Num(q.maxRetries), Num(q.retryCount),
          Num(q.policyGen), Num(q.provenance)])
  }

  const REQUEST := Fields([IDENTITY, MEMBERS, NEEDS, TERMS])
  const REQUEST_READ := Fields([IDENTITY_READ, MEMBERS_READ, NEEDS_READ, TERMS_READ])

  function RequestVal(f: Doubles, q: Request): Val {
    List([IdentityVal(q), MembersVal(q), NeedsVal(f, q), TermsVal(q)])
  }

  function RequestOf(f: Doubles, v: Val): Request {
    var a, b, c, d := Field(v, 0), Field(v, 1), Field(v, 2), Field(v, 3);
    var res := Field(d, 2);
    Request(
      Nat(Field(a, 0)), Nat(Field(a, 1)), Nat(Field(a, 2)), Nat(Field(a, 3)), Nat(Field(a, 4)), Nat(Field(a, 5)),
      Nats(Items(Field(b, 0))), Nats(Items(Field(b, 1))), Nats(Items(Field(b, 2))), Nat(Field(b, 3)), Nat(Field(b, 4)),
      DependenciesOf(Items(Field(c, 0))), ClaimsOf(f, Items(Field(c, 1))), ClassesOf(Items(Field(c, 2))),
      PriorityOf(Field(c, 3)), WindowOf(Field(c, 4)), Nat(Field(d, 0)), Nat(Field(d, 1)),
      if res.Choice? && res.o.Some? then Some(Nat(res.o.value)) else None,
      Nat(Field(d, 3)), Nat(Field(d, 4)), Nat(Field(d, 5)), Nat(Field(d, 6)), Nat(Field(d, 7)),
      Nat(Field(d, 8)), Nat(Field(d, 9)))
  }

  /** The request's doubles survive, and its priority is a 32-bit integer. */
  predicate RequestExact(f: Doubles, q: Request) {
    Signed32(q.priority.value) && forall i | 0 <= i < |q.claims| :: Exact(f, q.claims[i].units)
  }

  lemma DependenciesConvert(ds: seq<DependencyRequirement>)
    ensures DependenciesOf(DependencyVals(ds)) == ds
  {
  }

  lemma ClaimsConvert(f: Doubles, cs: seq<ResourceClaim>)
    requires forall i | 0 <= i < |cs| :: Exact(f, cs[i].units)
    ensures ClaimsOf(f, ClaimVals(f, cs)) == cs
  {
  }

  lemma ClassesConvert(cs: seq<seq<nat>>)
    ensures ClassesOf(ClassVals(cs)) == cs
  {
    forall i | 0 <= i < |cs| ensures ClassesOf(ClassVals(cs))[i] == cs[i] { NatsOfNums(cs[i]); }
  }

  lemma PriorityAndWindowConvert(p: Priority, w: Window)
    ensures Signed32(p.value) ==> PriorityOf(PriorityVal(p)) == p
    ensures WindowOf(WindowVal(w)) == w
  {
  }

  lemma RequestConverts(f: Doubles, q: Request)
    requires RequestExact(f, q)
    ensures RequestOf(f, RequestVal(f, q)) == q
  {
    NatsOfNums(q.participants);
    NatsOfNums(q.participantGens);
    NatsOfNums(q.perParticipantPayload);
    DependenciesConvert(q.dependencies);
    ClaimsConvert(f, q.claims);
    ClassesConvert(q.exclusionClasses);
    PriorityAndWindowConvert(q.priority, q.window);
  }

  // ---- Fairness accounts ----

  const FAIRNESS := Fields([U8, U64, U64, U64, U64, U64, Flag, U64])
  const FAIRNESS_READ := Fields([U8, U64, U64, U64, U64, U64, Flag, U64])

  function FairnessVal(f: Doubles, a: Fairness): Val {
    List([Num(a.cls), Num(a.observedGrants), Num(f.bits(a.observedService)), Num(f.bits(a.deficit)),
          Num(a.waitTicks), Num(a.consecutiveBypasses), Truth(a.starved), Num(f.bits(a.targetShare))])
  }

  function FairnessOf(f: Doubles, v: Val): Fairness {
    Fairness(Nat(Field(v, 0)), Nat(Field(v, 1)), f.value(Nat(Field(v, 2))), f.value(Nat(Field(v, 3))),
             Nat(Field(v, 4)), Nat(Field(v, 5)), Bit(Field(v, 6)), f.value(Nat(Field(v, 7))))
  }

  predicate FairnessExact(f: Doubles, a: Fairness) {
    Exact(f, a.observedService) && Exact(f, a.deficit) && Exact(f, a.targetShare)
  }

  lemma FairnessConverts(f: Doubles, a: Fairness)
    requires FairnessExact(f, a)
    ensures FairnessOf(f, FairnessVal(f, a)) == a
  {
  }

  // ---- Grants ----

  const EVIDENCE := Fields([U64, U64, U64, U64, U64, U64, U64, U64, U64, U64, U64, U64, U64, U64, U64])
  const EVIDENCE_READ := Fields([U64, U64, U64, U64, U64, U64, U64, U64, U64, U64, U64, U64, U64, U64, U64])

  function EvidenceVal(e: Evidence): Val {
    List(Nums([e.epoch, e.collectiveGen, e.requestGen, e.planGen, e.participantGen, e.dependencyGen, e.reservationGen,
               e.congestionGen, e.capacityGen, e.policyGen, e.priorityGen, e.fairnessGen, e.topologyGen,
               e.capabilityGen, e.healthGen]))
  }

  function EvidenceOf(v: Val): Evidence {
    Evidence(Nat(Field(v, 0)), Nat(Field(v, 1)), Nat(Field(v, 2)), Nat(Field(v, 3)), Nat(Field(v, 4)), Nat(Field(v, 5)),
             Nat(Field(v, 6)), Nat(Field(v, 7)), Nat(Field(v, 8)), Nat(Field(v, 9)), Nat(Field(v, 10)),
             Nat(Field(v, 11)),
             Nat(Field(v, 12)), Nat(Field(v, 13)), Nat(Field(v, 14)))
  }

  const REVALIDATION := Fields([Flag, Flag, Flag, Flag, Flag, Flag, Flag, Flag])
  const REVALIDATION_READ := Fields([Flag, Flag, Flag, Flag, Flag, Flag, Flag, Flag])

  function RevalidationVal(r: Revalidation): Val {
    List([Truth(r.participants), Truth(r.plan), Truth(r.reservation), Truth(r.dependencies), Truth(r.congestion),
          Truth(r.capacity), Truth(r.executionAuthority), Truth(r.currentEpoch)])
  }

  function RevalidationOf(v: Val): Revalidation {
    Revalidation(Bit(Field(v, 0)), Bit(Field(v, 1)), Bit(Field(v, 2)), Bit(Field(v, 3)), Bit(Field(v, 4)),
                 Bit(Field(v, 5)), Bit(Field(v, 6)), Bit(Field(v, 7)))
  }

  const GRANT := Fields([
    U64, U64, U64, U64, U64, U64, U64, U64, U64S, U64S, U64, U64, EVIDENCE, REVALIDATION,
    U64, U64, U64, U64, Flag, Flag])

  const GRANT_READ := Fields([
    U64, U64, U64, U64, U64, U64, U64, U64, U64S, U64S, U64, U64, EVIDENCE_READ, REVALIDATION_READ,
    U64, U64, U64, U64, Flag, Flag])

  function GrantVal(g: Grant): Val {
    List([Num(g.id), Num(g.gen), Num(g.request), Num(g.requestGen), Num(g.collective), Num(g.collectiveGen),
          Num(g.schedule), Num(g.scheduleGen), List(Nums(g.participants)), List(Nums(g.participantGens)),
          Num(g.plan), Num(g.planGen), EvidenceVal(g.evidence), RevalidationVal(g.revalidation),
          Num(g.workload), Num(g.executionAttempt), Num(g.executionAttemptGen), Num(g.policyGen),
          Truth(g.active), Truth(g.terminal)])
  }

  function GrantOf(v: Val): Grant {
    Grant(Nat(Field(v, 0)), Nat(Field(v, 1)), Nat(Field(v, 2)), Nat(Field(v, 3)), Nat(Field(v, 4)), Nat(Field(v, 5)),
          Nat(Field(v, 6)), Nat(Field(v, 7)), Nats(Items(Field(v, 8))), Nats(Items(Field(v, 9))),
          Nat(Field(v, 10)), Nat(Field(v, 11)), EvidenceOf(Field(v, 12)), RevalidationOf(Field(v, 13)),
          Nat(Field(v, 14)), Nat(Field(v, 15)), Nat(Field(v, 16)), Nat(Field(v, 17)),
          Bit(Field(v, 18)), Bit(Field(v, 19)))
  }

  lemma EvidenceConverts(e: Evidence)
    ensures EvidenceOf(EvidenceVal(e)) == e
  {
  }

  lemma GrantConverts(g: Grant)
    ensures GrantOf(GrantVal(g)) == g
  {
    NatsOfNums(g.participants);
    NatsOfNums(g.participantGens);
    EvidenceConverts(g.evidence);
    var v := GrantVal(g);
    assert Field(v, 12) == EvidenceVal(g.evidence) && Field(v, 13) == RevalidationVal(g.revalidation);
  }

  // ---- Plans ----

  /** A plan with the fields that only travel with it; the scheduler looks at `Plan`. */
  datatype WirePlan = WirePlan(
    id: Id, gen: Gen, kind: Code, topologyGen: Gen,
    participants: seq<Id>, flows: seq<Id>, resources: seq<Id>, links: seq<Id>, paths: seq<Id>,
    byteCount: nat, estimatedBandwidth: real, estimatedDuration: nat, communicationCost: nat,
    provenance: Code, valid: bool)

  const PLAN := Fields([U64, U64, U8, U64, U64S, U64S, U64S, U64S, U64S, U64, U64, U64, U64, U8, Flag])
  const PLAN_READ := Fields([U64, U64, U8, U64, U64S, U64S, U64S, U64S, U64S, U64, U64, U64, U64, U8, Flag])

  function PlanVal(f: Doubles, p: WirePlan): Val {
    List([Num(p.id), Num(p.gen), Num(p.kind), Num(p.topologyGen), List(Nums(p.participants)), List(Nums(p.flows)),
          List(Nums(p.resources)), List(Nums(p.links)), List(Nums(p.paths)), Num(p.byteCount),
          Num(f.bits(p.estimatedBandwidth)), Num(p.estimatedDuration), Num(p.communicationCost),
          Num(p.provenance), Truth(p.valid)])
  }

  function WirePlanOf(f: Doubles, v: Val): WirePlan {
    WirePlan(Nat(Field(v, 0)), Nat(Field(v, 1)), Nat(Field(v, 2)), Nat(Field(v, 3)), Nats(Items(Field(v, 4))),
             Nats(Items(Field(v, 5))), Nats(Items(Field(v, 6))), Nats(Items(Field(v, 7))), Nats(Items(Field(v, 8))),
             Nat(Field(v, 9)), f.value(Nat(Field(v, 10))), Nat(Field(v, 11)), Nat(Field(v, 12)), Nat(Field(v, 13)),
             Bit(Field(v, 14)))
  }

  lemma PlanConverts(f: Doubles, p: WirePlan)
    requires Exact(f, p.estimatedBandwidth)
    ensures WirePlanOf(f, PlanVal(f, p)) == p
  {
    NatsOfNums(p.participants);
    NatsOfNums(p.flows);
    NatsOfNums(p.resources);
    NatsOfNums(p.links);
    NatsOfNums(p.paths);
  }

  // ---- Each deserializer inverts its serializer ----

  /** Writers and readers agree on the order and the widths of the fields. */
  lemma TablesAgree()
    ensures REQUEST_READ == REQUEST && FAIRNESS_READ == FAIRNESS && GRANT_READ == GRANT && PLAN_READ == PLAN
    ensures RECORD_READ == RECORD && COUNTERS_READ == COUNTERS
  {
  }

  /** What is written by one table, the other reads back exactly; it leaves the rest, and
      rejects every strict prefix. */
  ghost predicate Inverts(read: Schema, written: Schema, v: Val)
    requires Typed(written, v)
  {
    && (forall tail :: Dec(read, Enc(written, v) + tail) == Some(Parsed(v, tail)))
    && (forall n: nat | n < |Enc(written, v)| :: Dec(read, Enc(written, v)[..n]).None?)
  }

  lemma LayoutInverts(sc: Schema, v: Val)
    requires Typed(sc, v)
    ensures Inverts(sc, sc, v)
  {
    forall tail ensures Dec(sc, Enc(sc, v) + tail) == Some(Parsed(v, tail)) { DecOfEnc(sc, v, tail); }
    forall n: nat | n < |Enc(sc, v)| ensures Dec(sc, Enc(sc, v)[..n]).None? { TruncationIsRejected(sc, v, n); }
  }

  /** `deserialize_request` inverts `serialize_request` on any suffix and rejects every strict prefix. */
  lemma RequestRoundTrips(f: Doubles, q: Request)
    requires Typed(REQUEST, RequestVal(f, q)) && RequestExact(f, q)
    ensures Inverts(REQUEST_READ, REQUEST, RequestVal(f, q)) && RequestOf(f, RequestVal(f, q)) == q
  {
    TablesAgree();
    LayoutInverts(REQUEST, RequestVal(f, q));
    RequestConverts(f, q);
  }

  lemma FairnessRoundTrips(f: Doubles, a: Fairness)
    requires Typed(FAIRNESS, FairnessVal(f, a)) && FairnessExact(f, a)
    ensures Inverts(FAIRNESS_READ, FAIRNESS, FairnessVal(f, a)) && FairnessOf(f, FairnessVal(f, a)) == a
  {
    TablesAgree();
    LayoutInverts(FAIRNESS, FairnessVal(f, a));
    FairnessConverts(f, a);
  }

  lemma GrantRoundTrips(g: Grant)
    requires Typed(GRANT, GrantVal(g))
    ensures Inverts(GRANT_READ, GRANT, GrantVal(g)) && GrantOf(GrantVal(g)) == g
  {
    TablesAgree();
    LayoutInverts(GRANT, GrantVal(g));
    GrantConverts(g);
  }

  lemma PlanRoundTrips(f: Doubles, p: WirePlan)
    requires Typed(PLAN, PlanVal(f, p)) && Exact(f, p.estimatedBandwidth)
    ensures Inverts(PLAN_READ, PLAN, PlanVal(f, p)) && WirePlanOf(f, PlanVal(f, p)) == p
  {
    TablesAgree();
    LayoutInverts(PLAN, PlanVal(f, p));
    PlanConverts(f, p);
  }

  // ---- Records and whole images ----

  function LifecycleCode(l: Lifecycle): (n: nat)
    ensures n < 16
  {
    match l
    case Declared => 0 case Waiting => 1 case Ready => 2 case Eligible => 3
    case Queued => 4 case Granted => 5 case Dispatching => 6 case Active => 7
    case Draining => 8 case Completed => 9 case Cancelled => 10 case Failed => 11
    case RevalidationRequired => 12 case Superseded => 13 case Stale => 14 case Retired => 15
  }

  function LifecycleOf(n: nat): Lifecycle {
    if n == 0 then Declared else if n == 1 then Waiting else if n == 2 then Lifecycle.Ready else if n == 3 then Eligible
    else if n == 4 then Queued else if n == 5 then Granted else if n == 6 then Dispatching else if n == 7 then Active
    else if n == 8 then Draining else if n == 9 then Completed else if n == 10 then Cancelled
    else if n == 11 then Failed
    else if n == 12 then RevalidationRequired else if n == 13 then Superseded else if n == 14 then Stale else Retired
  }

  /** Only the sixteen lifecycle codes are accepted. */
  const RECORD := Fields([REQUEST, Word(1, 16), U64, U64, FAIRNESS])
  const RECORD_READ := Fields([REQUEST_READ, Word(1, 16), U64, U64, FAIRNESS_READ])

  function RecordVal(f: Doubles, r: SavedRecord): Val {
    List([RequestVal(f, r.request), Num(LifecycleCode(r.lifecycle)), Num(r.seqNo), Num(r.age),
          FairnessVal(f, r.fairness)])
  }

  function RecordOf(f: Doubles, v: Val): SavedRecord {
    SavedRecord(RequestOf(f, Field(v, 0)), LifecycleOf(Nat(Field(v, 1))), Nat(Field(v, 2)), Nat(Field(v, 3)),
                FairnessOf(f, Field(v, 4)))
  }

  predicate RecordExact(f: Doubles, r: SavedRecord) { RequestExact(f, r.request) && FairnessExact(f, r.fairness) }

  lemma RecordConverts(f: Doubles, r: SavedRecord)
    requires RecordExact(f, r)
    ensures RecordOf(f, RecordVal(f, r)) == r
  {
    RequestConverts(f, r.request);
    FairnessConverts(f, r.fairness);
    LifecycleConverts(r.lifecycle);
    FieldsOfFive(RequestVal(f, r.request), Num(LifecycleCode(r.lifecycle)), Num(r.seqNo), Num(r.age),
                 FairnessVal(f, r.fairness));
  }

  lemma LifecycleConverts(l: Lifecycle)
    ensures LifecycleOf(LifecycleCode(l)) == l
  {
  }

  lemma FieldsOfFive(a: Val, b: Val, c: Val, d: Val, e: Val)
    ensures var v := List([a, b, c, d, e]);
            Field(v, 0) == a && Field(v, 1) == b && Field(v, 2) == c && Field(v, 3) == d && Field(v, 4) == e
  {
  }

  const COUNTERS := Fields([U64, U64, U64, U64, U64, U64, U64, U64, U64, U64])
  const COUNTERS_READ := Fields([U64, U64, U64, U64, U64, U64, U64, U64, U64, U64])

  function CountersVal(d: Image): Val {
    List([Num(d.epoch), Num(d.counters.request), Num(d.counters.schedule), Num(d.counters.grant), Num(d.counters.group),
          Num(d.counters.scheduleGen), Num(d.counters.grantGen), Num(d.counters.groupGen), Num(d.counters.seqNo),
          Num(d.policyGen)])
  }

  function RecordVals(f: Doubles, rs: seq<SavedRecord>): seq<Val> {
    seq(|rs|, i requires 0 <= i < |rs| => RecordVal(f, rs[i]))
  }

  function RecordsOf(f: Doubles, vs: seq<Val>): seq<SavedRecord> {
    seq(|vs|, i requires 0 <= i < |vs| => RecordOf(f, vs[i]))
  }

  /** The durable state, as written. */
  const STATE := Two(COUNTERS, Many(RECORD, TWO64))

  /** The durable state, as read; a reader accepts at most `most` records. */
  function StateRead(most: nat): Schema { Two(COUNTERS_READ, Many(RECORD_READ, most)) }

  function ImageVal(f: Doubles, d: Image): Val { List([CountersVal(d), List(RecordVals(f, d.records))]) }

  function ImageOf(f: Doubles, v: Val): Image {
    var c := Field(v, 0);
    Image(Nat(Field(c, 0)),
          Counters(Nat(Field(c, 1)), Nat(Field(c, 2)), Nat(Field(c, 3)), Nat(Field(c, 4)), Nat(Field(c, 5)),
                   Nat(Field(c, 6)), Nat(Field(c, 7)), Nat(Field(c, 8))),
          Nat(Field(c, 9)), RecordsOf(f, Items(Field(v, 1))))
  }

  /** Every number of the image fits its width and every double survives. */
  ghost predicate Storable(f: Doubles, d: Image) {
    && Typed(STATE, ImageVal(f, d))
    && forall i | 0 <= i < |d.records| :: RecordExact(f, d.records[i])
  }

  lemma ImageConverts(f: Doubles, d: Image)
    requires forall i | 0 <= i < |d.records| :: RecordExact(f, d.records[i])
    ensures ImageOf(f, ImageVal(f, d)) == d
  {
    var v := ImageVal(f, d);
    assert Field(v, 0) == CountersVal(d) && Field(v, 1) == List(RecordVals(f, d.records));
    forall i | 0 <= i < |d.records| ensures RecordOf(f, RecordVals(f, d.records)[i]) == d.records[i] {
      RecordConverts(f, d.records[i]);
    }
    assert RecordsOf(f, RecordVals(f, d.records)) == d.records;
  }

  // ---- Reading back what was written ----

  /** A state section can be read back, whatever follows it, if and only if the reader
      accepts that many records. */
  lemma StateReadsBack(f: Doubles, d: Image, most: nat, tail: seq<byte>)
    requires Storable(f, d)
    ensures |d.records| <= most ==>
              Dec(StateRead(most), Enc(STATE, ImageVal(f, d)) + tail) == Some(Parsed(ImageVal(f, d), tail))
    ensures |d.records| > most ==> Dec(StateRead(most), Enc(STATE, ImageVal(f, d)) + tail).None?
  {
    TablesAgree();
    TableReadsBack(COUNTERS, RECORD, CountersVal(d), List(RecordVals(f, d.records)), most, tail);
  }

  lemma TableReadsBack(a: Schema, e: Schema, head: Val, items: Val, most: nat, tail: seq<byte>)
    requires Typed(Two(a, Many(e, TWO64)), List([head, items]))
    ensures items.List?
    ensures var bytes := Enc(Two(a, Many(e, TWO64)), List([head, items])) + tail;
            if |items.vs| <= most then Dec(Two(a, Many(e, most)), bytes) == Some(Parsed(List([head, items]), tail))
            else Dec(Two(a, Many(e, most)), bytes).None?
  {
    TwoTyped(a, Many(e, TWO64), head, items);
    var body := Enc(Many(e, TWO64), items) + tail;
    DecOfEnc(a, head, body);
    assert Enc(a, head) + Enc(Many(e, TWO64), items) + tail == Enc(a, head) + body;
    ItemsReadBack(e, items, most, tail);
    TwoDecoded(a, Many(e, most), Enc(a, head) + body, Parsed(head, body));
  }

  lemma ItemsReadBack(e: Schema, items: Val, most: nat, tail: seq<byte>)
    requires Typed(Many(e, TWO64), items)
    ensures var bytes := Enc(Many(e, TWO64), items) + tail;
            if |items.vs| <= most then Dec(Many(e, most), bytes) == Some(Parsed(items, tail))
            else Dec(Many(e, most), bytes).None?
  {
    var bytes := Enc(Many(e, TWO64), items) + tail;
    if |items.vs| <= most {
      assert Typed(Many(e, most), items);
      DecOfEnc(Many(e, most), items, tail);
    } else {
      FromLeOfLe(|items.vs|, 8);
      assert bytes[..8] == Le(|items.vs|, 8);
    }
  }
}
