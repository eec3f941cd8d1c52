/** What moves a candidate up or down the ranking: how much each field of a record is worth,
    in the units of its weight, and where it stands when scores are equal. */
module Factors {
  import opened Types
  import opened Rankings
  import opened States
  import opened Steps
  import opened Selection
  import opened Order

  /** The score by which `schedule` ranks the record. */
  ghost function Score(s: State, r: Record): real { Total(RankingKey(s, r)) }

  datatype Factor = Deadline | Urgency | Bypasses | Deficit | Age | Duration | Reserved | Claims

  /** The records agree in all that the ranking looks at, except perhaps in one respect.
      `Urgency` is the external priority. */
  ghost predicate AlikeBut(r: Record, q: Record, f: Factor) {
    && (f.Deadline? || r.request.window.deadline == q.request.window.deadline)
    && (f.Urgency? || r.request.priority.value == q.request.priority.value)
    && (f.Bypasses? || r.fairness.consecutiveBypasses == q.fairness.consecutiveBypasses)
    && (f.Deficit? || r.fairness.deficit == q.fairness.deficit)
    && (f.Age? || r.age == q.age)
    && (f.Duration? || r.request.window.expectedDuration == q.request.window.expectedDuration)
    && (f.Reserved? || r.request.reservation == q.request.reservation)
    && (f.Claims? || |r.request.claims| == |q.request.claims|)
  }

  /** The key with one of its components raised. */
  ghost function Raised(key: seq<real>, i: nat, amount: real): seq<real>
    requires i < |key|
  {
    key[i := key[i] + amount]
  }

  lemma {:induction false} TotalRaised(key: seq<real>, i: nat, amount: real)
    requires i < |key|
    ensures Total(Raised(key, i, amount)) == Total(key) + amount
  {
    if i > 0 {
      assert Raised(key, i, amount)[1..] == Raised(key[1..], i - 1, amount);
      TotalRaised(key[1..], i - 1, amount);
    } else {
      assert Raised(key, i, amount)[1..] == key[1..];
    }
  }

  /** `b` is `a` but for its `i`-th component, which is higher by the amount; so is its total. */
  ghost predicate Above(a: seq<real>, b: seq<real>, i: nat, amount: real) {
    i < |a| && b == Raised(a, i, amount) && Total(b) == Total(a) + amount
  }

  lemma IsAbove(a: seq<real>, b: seq<real>, i: nat, amount: real)
    requires |a| == |b| && i < |a| && b[i] == a[i] + amount && forall k | 0 <= k < |a| && k != i :: a[k] == b[k]
    ensures Above(a, b, i, amount)
  {
    assert b == Raised(a, i, amount);
    TotalRaised(a, i, amount);
  }

  /** The same, at two places. */
  ghost predicate AboveTwice(a: seq<real>, b: seq<real>, i: nat, x: real, j: nat, y: real) {
    && i < |a| && j < |a| && i != j && b == Raised(Raised(a, i, x), j, y)
    && Total(b) == Total(a) + x + y
  }

  lemma IsAboveTwice(a: seq<real>, b: seq<real>, i: nat, x: real, j: nat, y: real)
    requires |a| == |b| && i < |a| && j < |a| && i != j && b[i] == a[i] + x && b[j] == a[j] + y
    requires forall k | 0 <= k < |a| && k != i && k != j :: a[k] == b[k]
    ensures AboveTwice(a, b, i, x, j, y)
  {
    assert b == Raised(Raised(a, i, x), j, y);
    TotalRaised(a, i, x);
    TotalRaised(Raised(a, i, x), j, y);
  }

  /** What going from one quantity to another is worth under a weight. */
  ghost function Gain(from: real, to: real, weight: real): real { (to - from) * weight }

  lemma GainAdds(a: real, b: real, w: real)
    ensures b * w == a * w + Gain(a, b, w)
  {
  }

  lemma GainSign(a: real, b: real, w: real)
    requires a <= b && 0.0 <= w
    ensures Gain(a, b, w) >= 0.0
    ensures a < b && 0.0 < w ==> Gain(a, b, w) > 0.0
  {
    var gap := b - a;
    NotNegative(gap, w);
    if a < b && 0.0 < w { Positive(gap, w); }
    assert Gain(a, b, w) == gap * w;
  }

  lemma Positive(x: real, w: real)
    requires x > 0.0 && w > 0.0
    ensures x * w > 0.0
  {
  }

  lemma NotNegative(x: real, w: real)
    requires x >= 0.0 && w >= 0.0
    ensures x * w >= 0.0
  {
  }

  /** The keys differ at one place, where they hold `a` and `b` times the weight. */
  ghost predicate OnePlace(k: seq<real>, m: seq<real>, i: nat, a: real, b: real, w: real) {
    && |k| == |m| && i < |k| && k[i] == a * w && m[i] == b * w
    && (forall n | 0 <= n < |k| && n != i :: k[n] == m[n])
  }

  lemma OneGap(k: seq<real>, m: seq<real>, i: nat, a: real, b: real, w: real)
    requires OnePlace(k, m, i, a, b, w)
    ensures Above(k, m, i, Gain(a, b, w))
  {
    GainAdds(a, b, w);
    IsAbove(k, m, i, Gain(a, b, w));
  }

  ghost predicate TwoPlaces(k: seq<real>, m: seq<real>,
                            i: nat, a: real, b: real, v: real, j: nat, c: real, d: real, w: real) {
    && |k| == |m| && i < |k| && j < |k| && i != j
    && k[i] == a * v && m[i] == b * v && k[j] == c * w && m[j] == d * w
    && (forall n | 0 <= n < |k| && n != i && n != j :: k[n] == m[n])
  }

  lemma TwoGaps(k: seq<real>, m: seq<real>, i: nat, a: real, b: real, v: real, j: nat, c: real, d: real, w: real)
    requires TwoPlaces(k, m, i, a, b, v, j, c, d, w)
    ensures AboveTwice(k, m, i, Gain(a, b, v), j, Gain(c, d, w))
  {
    GainAdds(a, b, v);
    GainAdds(c, d, w);
    IsAboveTwice(k, m, i, Gain(a, b, v), j, Gain(c, d, w));
  }

  /** What the records agree in, the keys agree in. */
  lemma SamePlaces(s: State, r: Record, q: Record, f: Factor)
    requires AlikeBut(r, q, f)
    ensures var a, b := RankingKey(s, r), RankingKey(s, q);
            && |a| == |b| == 11 && a[9] == b[9] && a[10] == b[10]
            && (!f.Deadline? ==> a[0] == b[0]) && (!f.Urgency? ==> a[1] == b[1])
            && (!f.Bypasses? && !f.Deficit? ==> a[2] == b[2]) && (!f.Deficit? ==> a[3] == b[3])
            && (!f.Age? ==> a[4] == b[4]) && (!f.Duration? ==> a[5] == b[5] && a[7] == b[7])
            && (!f.Reserved? ==> a[6] == b[6]) && (!f.Claims? ==> a[8] == b[8])
  {
    if !f.Bypasses? && !f.Deficit? { assert StarvationFactor(s, r) == StarvationFactor(s, q); }
  }

  // ---- What each field is worth ----

  ghost function Hundreds(r: Record): real { r.request.priority.value as real / 100.0 }

  /** A hundred points of priority are worth the priority weight, at the second place. */
  lemma PriorityCounts(s: State, r: Record, q: Record)
    requires AlikeBut(r, q, Urgency)
    ensures Above(RankingKey(s, r), RankingKey(s, q), 1, Gain(Hundreds(r), Hundreds(q), s.policy.weights.priority))
  {
    SamePlaces(s, r, q, Urgency);
    PriorityAt(s, r);
    PriorityAt(s, q);
    OneGap(RankingKey(s, r), RankingKey(s, q), 1, Hundreds(r), Hundreds(q), s.policy.weights.priority);
  }

  lemma PriorityAt(s: State, r: Record)
    ensures |RankingKey(s, r)| == 11 && RankingKey(s, r)[1] == Hundreds(r) * s.policy.weights.priority
  {
  }

  ghost function Thousands(r: Record): real { r.age as real / 1000.0 }

  /** A thousand ticks of age are worth the age weight, at the fifth place. */
  lemma AgeCounts(s: State, r: Record, q: Record)
    requires AlikeBut(r, q, Age)
    ensures Above(RankingKey(s, r), RankingKey(s, q), 4, Gain(Thousands(r), Thousands(q), s.policy.weights.age))
  {
    SamePlaces(s, r, q, Age);
    AgeAt(s, r);
    AgeAt(s, q);
    OneGap(RankingKey(s, r), RankingKey(s, q), 4, Thousands(r), Thousands(q), s.policy.weights.age);
  }

  lemma AgeAt(s: State, r: Record)
    ensures |RankingKey(s, r)| == 11 && RankingKey(s, r)[4] == Thousands(r) * s.policy.weights.age
  {
  }

  ghost function ClaimCount(r: Record): real { |r.request.claims| as real }

  /** Each claim costs the footprint weight, at the ninth place. */
  lemma ClaimsCount(s: State, r: Record, q: Record)
    requires AlikeBut(r, q, Claims)
    ensures Above(RankingKey(s, r), RankingKey(s, q), 8,
                  Gain(ClaimCount(q), ClaimCount(r), s.policy.weights.resourceFootprint))
  {
    SamePlaces(s, r, q, Claims);
    ClaimsAt(s, r);
    ClaimsAt(s, q);
    GainAdds(ClaimCount(q), ClaimCount(r), s.policy.weights.resourceFootprint);
    IsAbove(RankingKey(s, r), RankingKey(s, q), 8,
            Gain(ClaimCount(q), ClaimCount(r), s.policy.weights.resourceFootprint));
  }

  lemma ClaimsAt(s: State, r: Record)
    ensures |RankingKey(s, r)| == 11 && RankingKey(s, r)[8] == -(ClaimCount(r) * s.policy.weights.resourceFootprint)
  {
  }

  ghost function Seconds(r: Record): real { r.request.window.expectedDuration as real / 1000000000.0 }

  /** Each second of expected duration costs the duration weight, at the sixth place, and the
      communication weight, at the eighth. */
  lemma DurationCounts(s: State, r: Record, q: Record)
    requires AlikeBut(r, q, Duration)
    ensures AboveTwice(RankingKey(s, r), RankingKey(s, q),
                       5, Gain(Seconds(q), Seconds(r), s.policy.weights.expectedDuration),
                       7, Gain(Seconds(q), Seconds(r), s.policy.weights.communicationCost))
  {
    SamePlaces(s, r, q, Duration);
    DurationAt(s, r);
    DurationAt(s, q);
    var x := Gain(Seconds(q), Seconds(r), s.policy.weights.expectedDuration);
    var y := Gain(Seconds(q), Seconds(r), s.policy.weights.communicationCost);
    GainAdds(Seconds(q), Seconds(r), s.policy.weights.expectedDuration);
    GainAdds(Seconds(q), Seconds(r), s.policy.weights.communicationCost);
    IsAboveTwice(RankingKey(s, r), RankingKey(s, q), 5, x, 7, y);
  }

  lemma DurationAt(s: State, r: Record)
    ensures |RankingKey(s, r)| == 11
    ensures RankingKey(s, r)[5] == -(Seconds(r) * s.policy.weights.expectedDuration)
    ensures RankingKey(s, r)[7] == -(Seconds(r) * s.policy.weights.communicationCost)
  {
  }

  ghost predicate HasReservation(s: State, r: Record) {
    r.request.reservation.Some? && r.request.reservation.value in s.reservations
  }

  /** A published reservation is worth the reservation weight, at the seventh place. */
  lemma ReservationCounts(s: State, r: Record, q: Record)
    requires AlikeBut(r, q, Reserved) && HasReservation(s, q) && !HasReservation(s, r)
    ensures Above(RankingKey(s, r), RankingKey(s, q), 6, s.policy.weights.reservationFit)
  {
    SamePlaces(s, r, q, Reserved);
    IsAbove(RankingKey(s, r), RankingKey(s, q), 6, s.policy.weights.reservationFit);
  }

  /** What is left until the deadline, in seconds. */
  ghost function SecondsLeft(s: State, r: Record): real
    requires s.now < r.request.window.deadline
  {
    (r.request.window.deadline - s.now) as real / 1000000000.0
  }

  /** A deadline ahead is worth the deadline weight over one more than the seconds left, at
      the first place; a deadline that has passed is worth as little as none. */
  lemma DeadlineCounts(s: State, r: Record, q: Record)
    requires AlikeBut(r, q, Deadline) && r.request.window.deadline <= s.now
    ensures Above(RankingKey(s, r), RankingKey(s, q), 0,
                  if s.now < q.request.window.deadline
                  then 1.0 / (1.0 + SecondsLeft(s, q)) * s.policy.weights.deadline else 0.0)
  {
    SamePlaces(s, r, q, Deadline);
    IsAbove(RankingKey(s, r), RankingKey(s, q), 0,
            if s.now < q.request.window.deadline
            then 1.0 / (1.0 + SecondsLeft(s, q)) * s.policy.weights.deadline else 0.0);
  }

  /** A deficit counts up to one. */
  ghost function Counted(deficit: real): real { if deficit > 1.0 then 1.0 else deficit }

  /** The pressure on a record that has been passed over: half its share of the limit on
      bypasses and half its deficit; a thousand once the limit is reached. */
  ghost function Pressure(f: Fairness, most: nat): real {
    if f.consecutiveBypasses >= most then 1000.0
    else 0.5 * (f.consecutiveBypasses as real / most as real) + 0.5 * Counted(f.deficit)
  }

  lemma FractionIsSmall(n: nat, most: nat)
    requires n < most
    ensures 0.0 <= n as real / most as real < 1.0
  {
  }

  lemma PressureAt(s: State, r: Record)
    requires 0.0 <= r.fairness.deficit
    ensures |RankingKey(s, r)| == 11
    ensures RankingKey(s, r)[2] == PressureOn(s, r) * s.policy.weights.starvationRisk
  {
    if r.fairness.consecutiveBypasses < s.policy.maxBypassCount {
      FractionIsSmall(r.fairness.consecutiveBypasses, s.policy.maxBypassCount);
    }
  }

  lemma DeficitAt(s: State, r: Record)
    ensures |RankingKey(s, r)| == 11
    ensures RankingKey(s, r)[3] == Counted(r.fairness.deficit) * s.policy.weights.fairnessDeficit
  {
  }

  ghost function PressureOn(s: State, r: Record): real { Pressure(r.fairness, s.policy.maxBypassCount) }

  lemma DeficitPlaces(s: State, r: Record, q: Record)
    requires AlikeBut(r, q, Deficit) && 0.0 <= r.fairness.deficit && 0.0 <= q.fairness.deficit
    ensures TwoPlaces(RankingKey(s, r), RankingKey(s, q),
                      2, PressureOn(s, r), PressureOn(s, q), s.policy.weights.starvationRisk,
                      3, Counted(r.fairness.deficit), Counted(q.fairness.deficit), s.policy.weights.fairnessDeficit)
  {
    SamePlaces(s, r, q, Deficit);
    PressureAt(s, r);
    PressureAt(s, q);
    DeficitAt(s, r);
    DeficitAt(s, q);
  }

  /** Deficit counts the deficit weight, at the fourth place, and through the pressure the
      starvation weight, at the third. */
  lemma DeficitCounts(s: State, r: Record, q: Record)
    requires AlikeBut(r, q, Deficit) && 0.0 <= r.fairness.deficit && 0.0 <= q.fairness.deficit
    ensures AboveTwice(RankingKey(s, r), RankingKey(s, q),
                       2, Gain(PressureOn(s, r), PressureOn(s, q), s.policy.weights.starvationRisk),
                       3, Gain(Counted(r.fairness.deficit), Counted(q.fairness.deficit),
                               s.policy.weights.fairnessDeficit))
  {
    DeficitPlaces(s, r, q);
    TwoGaps(RankingKey(s, r), RankingKey(s, q),
            2, PressureOn(s, r), PressureOn(s, q), s.policy.weights.starvationRisk,
            3, Counted(r.fairness.deficit), Counted(q.fairness.deficit), s.policy.weights.fairnessDeficit);
  }

  lemma BypassPlace(s: State, r: Record, q: Record)
    requires AlikeBut(r, q, Bypasses) && 0.0 <= r.fairness.deficit
    ensures OnePlace(RankingKey(s, r), RankingKey(s, q),
                     2, PressureOn(s, r), PressureOn(s, q), s.policy.weights.starvationRisk)
  {
    SamePlaces(s, r, q, Bypasses);
    PressureAt(s, r);
    PressureAt(s, q);
  }

  /** Bypasses count through the pressure. */
  lemma BypassesCount(s: State, r: Record, q: Record)
    requires AlikeBut(r, q, Bypasses) && 0.0 <= r.fairness.deficit
    ensures Above(RankingKey(s, r), RankingKey(s, q),
                  2, Gain(PressureOn(s, r), PressureOn(s, q), s.policy.weights.starvationRisk))
  {
    BypassPlace(s, r, q);
    OneGap(RankingKey(s, r), RankingKey(s, q), 2, PressureOn(s, r), PressureOn(s, q), s.policy.weights.starvationRisk);
  }

  /** The rest of a score is the same for all records: availability less congestion. */
  lemma PlainScore(s: State, r: Record)
    requires r.request.window.deadline == 0 && r.request.priority.value == 0 && r.fairness.consecutiveBypasses == 0
    requires r.fairness.deficit == 0.0 && r.age == 0 && r.request.window.expectedDuration == 0
    requires r.request.reservation.None? && r.request.claims == [] && 0 < s.policy.maxBypassCount
    ensures Score(s, r) == s.policy.weights.participantAvailability
                           - (if s.congestion.Some? then s.congestion.value.utilization else 0.0)
                             * s.policy.weights.congestionPenalty
  {
    var key := RankingKey(s, r);
    PressureAt(s, r);
    assert key[0] == 0.0 && key[1] == 0.0 && key[2] == 0.0 && key[3] == 0.0 && key[4] == 0.0;
    assert key[5] == 0.0 && key[6] == 0.0 && key[7] == 0.0 && key[8] == 0.0;
    LastTwo(key);
  }

  lemma LastTwo(key: seq<real>)
    requires |key| == 11 && forall i | 0 <= i < 9 :: key[i] == 0.0
    ensures Total(key) == key[9] + key[10]
  {
    TotalFrom(key, 9);
    assert key[9..] == [key[9], key[10]];
    assert Total([key[10]]) == key[10] && [key[9], key[10]][1..] == [key[10]];
  }

  lemma {:induction false} TotalFrom(key: seq<real>, n: nat)
    requires n <= |key| && forall i | 0 <= i < n :: key[i] == 0.0
    ensures Total(key) == Total(key[n..])
  {
    if n > 0 {
      TotalFrom(key[1..], n - 1);
      assert key[1..][n - 1..] == key[n..];
    } else {
      assert key[0..] == key;
    }
  }

  // ---- Who ranks ahead ----

  /** The candidates differ in one respect at most. */
  ghost predicate Rivals(s: State, a: Id, b: Id, f: Factor)
    requires !ScheduleThrows(s)
  {
    a in Candidates(s) && b in Candidates(s) && a != b && AlikeBut(s.records[a], s.records[b], f)
  }

  lemma PreparedRivals(s: State, a: Id, b: Id, f: Factor)
    requires !ScheduleThrows(s) && Rivals(s, a, b, f)
    ensures AlikeBut(Prepared(s).records[a], Prepared(s).records[b], f)
  {
  }

  lemma HigherScoreIsAhead(s: State, a: Id, b: Id)
    requires !ScheduleThrows(s) && a in Candidates(s) && b in Candidates(s)
    requires Score(Prepared(s), Prepared(s).records[a]) > Score(Prepared(s), Prepared(s).records[b])
    ensures Precedes(Ranking(s), a, b)
  {
    var x, y := EntryOf(Prepared(s), a), EntryOf(Prepared(s), b);
    assert x.score > y.score && a != b;
    RankedByOrder(s, a, b);
    assert Before(x, y);
  }

  /** Of two candidates equal in all else, the one with the higher priority ranks ahead. */
  lemma HigherPriorityIsAhead(s: State, a: Id, b: Id)
    requires !ScheduleThrows(s) && Rivals(s, a, b, Urgency) && s.policy.weights.priority > 0.0
    requires s.records[a].request.priority.value > s.records[b].request.priority.value
    ensures Precedes(Ranking(s), a, b)
  {
    var p := Prepared(s);
    PreparedRivals(s, a, b, Urgency);
    PriorityCounts(p, p.records[b], p.records[a]);
    GainSign(Hundreds(p.records[b]), Hundreds(p.records[a]), p.policy.weights.priority);
    HigherScoreIsAhead(s, a, b);
  }

  /** The older one. */
  lemma OlderIsAhead(s: State, a: Id, b: Id)
    requires !ScheduleThrows(s) && Rivals(s, a, b, Age) && s.policy.weights.age > 0.0
    requires s.records[a].age > s.records[b].age
    ensures Precedes(Ranking(s), a, b)
  {
    var p := Prepared(s);
    PreparedRivals(s, a, b, Age);
    AgeCounts(p, p.records[b], p.records[a]);
    GainSign(Thousands(p.records[b]), Thousands(p.records[a]), p.policy.weights.age);
    HigherScoreIsAhead(s, a, b);
  }

  /** The one with fewer claims. */
  lemma FewerClaimsAreAhead(s: State, a: Id, b: Id)
    requires !ScheduleThrows(s) && Rivals(s, a, b, Claims) && s.policy.weights.resourceFootprint > 0.0
    requires |s.records[a].request.claims| < |s.records[b].request.claims|
    ensures Precedes(Ranking(s), a, b)
  {
    var p := Prepared(s);
    PreparedRivals(s, a, b, Claims);
    ClaimsCount(p, p.records[b], p.records[a]);
    GainSign(ClaimCount(p.records[a]), ClaimCount(p.records[b]), p.policy.weights.resourceFootprint);
    HigherScoreIsAhead(s, a, b);
  }

  /** The shorter one. */
  lemma ShorterIsAhead(s: State, a: Id, b: Id)
    requires !ScheduleThrows(s) && Rivals(s, a, b, Duration)
    requires s.policy.weights.expectedDuration >= 0.0 && s.policy.weights.communicationCost >= 0.0
    requires s.policy.weights.expectedDuration > 0.0 || s.policy.weights.communicationCost > 0.0
    requires s.records[a].request.window.expectedDuration < s.records[b].request.window.expectedDuration
    ensures Precedes(Ranking(s), a, b)
  {
    var p := Prepared(s);
    PreparedRivals(s, a, b, Duration);
    DurationCounts(p, p.records[b], p.records[a]);
    GainSign(Seconds(p.records[a]), Seconds(p.records[b]), p.policy.weights.expectedDuration);
    GainSign(Seconds(p.records[a]), Seconds(p.records[b]), p.policy.weights.communicationCost);
    HigherScoreIsAhead(s, a, b);
  }

  /** The one with a published reservation. */
  lemma ReservedIsAhead(s: State, a: Id, b: Id)
    requires !ScheduleThrows(s) && Rivals(s, a, b, Reserved) && s.policy.weights.reservationFit > 0.0
    requires HasReservation(s, s.records[a]) && !HasReservation(s, s.records[b])
    ensures Precedes(Ranking(s), a, b)
  {
    PreparedRivals(s, a, b, Reserved);
    ReservationCounts(Prepared(s), Prepared(s).records[b], Prepared(s).records[a]);
    HigherScoreIsAhead(s, a, b);
  }

  /** The one with the greater deficit, as far as deficits count. */
  lemma NeedierIsAhead(s: State, a: Id, b: Id)
    requires !ScheduleThrows(s) && Rivals(s, a, b, Deficit)
    requires s.policy.weights.fairnessDeficit > 0.0 && s.policy.weights.starvationRisk >= 0.0
    requires 0.0 <= s.records[b].fairness.deficit < s.records[a].fairness.deficit && s.records[b].fairness.deficit < 1.0
    ensures Precedes(Ranking(s), a, b)
  {
    PreparedRivals(s, a, b, Deficit);
    DeficitGap(Prepared(s), Prepared(s).records[a], Prepared(s).records[b]);
    HigherScoreIsAhead(s, a, b);
  }

  lemma DeficitGap(s: State, r: Record, q: Record)
    requires AlikeBut(q, r, Deficit) && s.policy.weights.fairnessDeficit > 0.0 && s.policy.weights.starvationRisk >= 0.0
    requires 0.0 <= q.fairness.deficit < r.fairness.deficit && q.fairness.deficit < 1.0
    ensures Score(s, r) > Score(s, q)
  {
    DeficitCounts(s, q, r);
    PressureGrows(q.fairness, r.fairness, s.policy.maxBypassCount);
    GainSign(PressureOn(s, q), PressureOn(s, r), s.policy.weights.starvationRisk);
    GainSign(Counted(q.fairness.deficit), Counted(r.fairness.deficit), s.policy.weights.fairnessDeficit);
  }

  lemma PressureGrows(f: Fairness, g: Fairness, most: nat)
    requires f.consecutiveBypasses == g.consecutiveBypasses && f.deficit <= g.deficit
    ensures Pressure(f, most) <= Pressure(g, most)
  {
  }

  /** And the one with the nearer deadline; none or a past one counts as farthest. */
  lemma NearerDeadlineIsAhead(s: State, a: Id, b: Id)
    requires !ScheduleThrows(s) && Rivals(s, a, b, Deadline) && s.policy.weights.deadline > 0.0
    requires s.now < s.records[a].request.window.deadline
    requires s.records[b].request.window.deadline <= s.now
             || s.records[a].request.window.deadline < s.records[b].request.window.deadline
    ensures Precedes(Ranking(s), a, b)
  {
    PreparedRivals(s, a, b, Deadline);
    UrgencyGap(Prepared(s), Prepared(s).records[a], Prepared(s).records[b]);
    HigherScoreIsAhead(s, a, b);
  }

  lemma UrgencyGap(s: State, r: Record, q: Record)
    requires AlikeBut(r, q, Deadline) && s.policy.weights.deadline > 0.0 && s.now < r.request.window.deadline
    requires q.request.window.deadline <= s.now || r.request.window.deadline < q.request.window.deadline
    ensures Score(s, r) > Score(s, q)
  {
    var none := r.(request := r.request.(window := r.request.window.(deadline := 0)));
    DeadlineCounts(s, none, r);
    DeadlineCounts(s, none, q);
    var w, x := s.policy.weights.deadline, 1.0 / (1.0 + SecondsLeft(s, r));
    if s.now < q.request.window.deadline {
      SoonerIsMore(SecondsLeft(s, r), SecondsLeft(s, q));
      var y := 1.0 / (1.0 + SecondsLeft(s, q));
      GainSign(y, x, w);
      GainAdds(y, x, w);
    } else {
      Positive(x, w);
    }
  }

  lemma SoonerIsMore(x: real, y: real)
    requires 0.0 <= x < y
    ensures 1.0 / (1.0 + x) > 1.0 / (1.0 + y)
  {
  }

  // ---- Equal scores ----

  /** The keys agree up to place `i`, and there the first one is larger. */
  ghost predicate LargerAt(a: seq<real>, b: seq<real>, i: nat) {
    i < |a| && i < |b| && a[i] > b[i] && forall k | 0 <= k < i :: a[k] == b[k]
  }

  lemma {:induction false} LargerCompares(a: seq<real>, b: seq<real>, i: nat)
    requires LargerAt(a, b, i)
    ensures CmpRank(a, b) == 1
  {
    if i > 0 {
      assert LargerAt(a[1..], b[1..], i - 1);
      LargerCompares(a[1..], b[1..], i - 1);
    }
  }

  /** Of two candidates with equal scores the one whose key is larger at the first place where
      they differ ranks ahead: urgency of the deadline first, then priority, pressure, deficit,
      age, duration, reservation, communication, claims. */
  lemma KeyBreaksTies(s: State, a: Id, b: Id, i: nat)
    requires !ScheduleThrows(s) && a in Candidates(s) && b in Candidates(s)
    requires var p := Prepared(s);
             && Score(p, p.records[a]) == Score(p, p.records[b])
             && LargerAt(RankingKey(p, p.records[a]), RankingKey(p, p.records[b]), i)
    ensures Precedes(Ranking(s), a, b)
  {
    var x, y := EntryOf(Prepared(s), a), EntryOf(Prepared(s), b);
    LargerCompares(x.key, y.key, i);
    assert a != b && Before(x, y);
    RankedByOrder(s, a, b);
  }

  /** And of two with equal keys the one with the smaller collective id. */
  lemma CollectiveBreaksTies(s: State, a: Id, b: Id)
    requires !ScheduleThrows(s) && a in Candidates(s) && b in Candidates(s)
    requires RankingKey(Prepared(s), Prepared(s).records[a]) == RankingKey(Prepared(s), Prepared(s).records[b])
    requires s.records[a].request.collective < s.records[b].request.collective
    ensures Precedes(Ranking(s), a, b)
  {
    var x, y := EntryOf(Prepared(s), a), EntryOf(Prepared(s), b);
    CmpRankZero(x.key, y.key);
    assert a != b && Before(x, y);
    RankedByOrder(s, a, b);
  }
}
