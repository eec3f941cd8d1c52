/** Footprints and their pairwise conflicts (src/conflict.cpp). */
module Conflicts {
  import opened Types

  // ---- Sorted, duplicate-free vectors ----

  ghost predicate StrictlySorted(v: seq<nat>) {
    forall i, j | 0 <= i < j < |v| :: v[i] < v[j]
  }

  ghost predicate SortedWeakly(v: seq<nat>) {
    forall i, j | 0 <= i < j < |v| :: v[i] <= v[j]
  }

  ghost predicate SameElements(a: seq<nat>, b: seq<nat>) {
    forall x :: x in a <==> x in b
  }

  function InsertUnique(x: nat, v: seq<nat>): seq<nat> {
    if v == [] then [x]
    else if x < v[0] then [x] + v
    else if x == v[0] then v
    else [v[0]] + InsertUnique(x, v[1..])
  }

  function SortUnique(v: seq<nat>): seq<nat> {
    if v == [] then [] else InsertUnique(v[0], SortUnique(v[1..]))
  }

  lemma {:induction false} InsertUniqueElements(x: nat, v: seq<nat>)
    ensures forall y :: y in InsertUnique(x, v) <==> y == x || y in v
  {
    if v != [] {
      assert v == [v[0]] + v[1..];
      InsertUniqueElements(x, v[1..]);
    }
  }

  lemma {:induction false} InsertUniqueSorted(x: nat, v: seq<nat>)
    requires StrictlySorted(v)
    ensures StrictlySorted(InsertUnique(x, v))
  {
    if v != [] && x > v[0] {
      InsertUniqueSorted(x, v[1..]);
      InsertUniqueElements(x, v[1..]);
      var t := InsertUnique(x, v[1..]);
      forall i | 0 <= i < |t| ensures v[0] < t[i] {
        assert t[i] in t;
      }
    }
  }

  /** `sort_unique` keeps exactly the elements, in strictly increasing order. */
  lemma {:induction false} SortUniqueSorted(v: seq<nat>)
    ensures StrictlySorted(SortUnique(v))
    ensures SameElements(SortUnique(v), v)
  {
    if v != [] {
      SortUniqueSorted(v[1..]);
      InsertUniqueSorted(v[0], SortUnique(v[1..]));
      InsertUniqueElements(v[0], SortUnique(v[1..]));
      assert v == [v[0]] + v[1..];
    }
  }

  /** The normal form depends on the elements alone, not on their order or repetition. */
  lemma {:induction false} NormalFormUnique(a: seq<nat>, b: seq<nat>)
    requires StrictlySorted(a) && StrictlySorted(b) && SameElements(a, b)
    ensures a == b
  {
    assert |a| > 0 ==> a[0] in b;
    assert |b| > 0 ==> b[0] in a;
    if a != [] {
      assert a[0] in a && a[0] in b;
      assert b[0] in b && b[0] in a;
      assert a == [a[0]] + a[1..] && b == [b[0]] + b[1..];
      forall x ensures x in a[1..] <==> x in b[1..] {
        assert x in a[1..] <==> x in a && x != a[0];
        assert x in b[1..] <==> x in b && x != b[0];
      }
      NormalFormUnique(a[1..], b[1..]);
    }
  }

  // ---- Intersection ----

  predicate Intersects(a: seq<nat>, b: seq<nat>) {
    exists x | x in a :: x in b
  }

  /** The two-cursor walk. A hit is always genuine; on sorted inputs none is missed. */
  method SetIntersect(a: seq<nat>, b: seq<nat>) returns (r: bool)
    ensures r ==> Intersects(a, b)
    ensures SortedWeakly(a) && SortedWeakly(b) ==> (r <==> Intersects(a, b))
  {
    var i, j := 0, 0;
    while i < |a| && j < |b|
      invariant 0 <= i <= |a| && 0 <= j <= |b|
      invariant SortedWeakly(a) && SortedWeakly(b) ==>
                  forall k, l | 0 <= k < |a| && 0 <= l < |b| && a[k] == b[l] :: k >= i && l >= j
      decreases |a| - i + |b| - j
    {
      if a[i] < b[j] {
        i := i + 1;
      } else if b[j] < a[i] {
        j := j + 1;
      } else {
        assert a[i] in a && a[i] in b;
        return true;
      }
    }
    return false;
  }

  // ---- Footprints ----

  datatype Footprint = Footprint(participants: seq<Id>, resources: seq<Id>, links: seq<Id>, unknown: bool)

  const NO_FOOTPRINT := Footprint([], [], [], false)

  function ClaimedResources(claims: seq<ResourceClaim>): seq<Id> {
    if claims == [] then [] else [claims[0].resource] + ClaimedResources(claims[1..])
  }

  function MakeFootprint(participants: seq<Id>, claims: seq<ResourceClaim>, plan: Option<Plan>): Footprint {
    match plan
    case None => Footprint(SortUnique(participants), SortUnique(ClaimedResources(claims)), [], true)
    case Some(p) =>
      Footprint(SortUnique(participants), SortUnique(ClaimedResources(claims) + p.resources),
                SortUnique(p.links), !p.valid)
  }

  datatype Classification = NoConflict | ParticipantConflict | ResourceConflict | LinkConflict | UnknownConflict

  /** The decision chain; exclusion classes never reach a footprint and play no part. */
  function Classify(a: Footprint, b: Footprint): Classification {
    if Intersects(a.participants, b.participants) then ParticipantConflict
    else if Intersects(a.resources, b.resources) then ResourceConflict
    else if Intersects(a.links, b.links) then LinkConflict
    else if a.unknown || b.unknown then UnknownConflict
    else NoConflict
  }

  /** Every classification but NO_CONFLICT has severity HIGH or FATAL, or is UNKNOWN. */
  predicate ForbidsOverlap(c: Classification) { !c.NoConflict? }

  lemma ClassifySymmetric(a: Footprint, b: Footprint)
    ensures Classify(a, b) == Classify(b, a)
  {
    assert Intersects(a.participants, b.participants) == Intersects(b.participants, a.participants);
    assert Intersects(a.resources, b.resources) == Intersects(b.resources, a.resources);
    assert Intersects(a.links, b.links) == Intersects(b.links, a.links);
  }

  ghost predicate Disjoint(a: seq<nat>, b: seq<nat>) {
    forall x | x in a :: x !in b
  }

  lemma DisjointSymmetric(a: seq<nat>, b: seq<nat>)
    requires Disjoint(a, b)
    ensures Disjoint(b, a)
  {
  }

  lemma {:induction false} ClaimedResourcesMember(claims: seq<ResourceClaim>, c: ResourceClaim)
    requires c in claims
    ensures c.resource in ClaimedResources(claims)
  {
    if claims[0] != c { ClaimedResourcesMember(claims[1..], c); }
  }

  /** Two requests whose footprints do not forbid overlap share no participant, no
      claimed or planned resource and no link, and both have a valid plan. */
  lemma NoConflictMeansDisjoint(ps: seq<Id>, cs: seq<ResourceClaim>, p: Option<Plan>,
                                qs: seq<Id>, ds: seq<ResourceClaim>, q: Option<Plan>)
    ensures !ForbidsOverlap(Classify(MakeFootprint(ps, cs, p), MakeFootprint(qs, ds, q))) <==>
            && Disjoint(ps, qs)
            && p.Some? && p.value.valid && q.Some? && q.value.valid
            && Disjoint(ClaimedResources(cs) + p.value.resources, ClaimedResources(ds) + q.value.resources)
            && Disjoint(p.value.links, q.value.links)
  {
    NormalIntersects(ps, qs);
    if p.Some? && q.Some? {
      NormalIntersects(ClaimedResources(cs) + p.value.resources, ClaimedResources(ds) + q.value.resources);
      NormalIntersects(p.value.links, q.value.links);
    }
  }

  /** Which conflict it is: a shared participant comes first, then a shared resource, claimed
      or planned, then a shared link, then a plan that is missing or invalid. */
  lemma ClassificationIff(ps: seq<Id>, cs: seq<ResourceClaim>, p: Option<Plan>,
                          qs: seq<Id>, ds: seq<ResourceClaim>, q: Option<Plan>)
    ensures var c := Classify(MakeFootprint(ps, cs, p), MakeFootprint(qs, ds, q));
            var resources := Disjoint(ClaimedResources(cs) + PlannedResources(p),
                                      ClaimedResources(ds) + PlannedResources(q));
            var links := Disjoint(PlannedLinks(p), PlannedLinks(q));
            && (c.ParticipantConflict? <==> !Disjoint(ps, qs))
            && (c.ResourceConflict? <==> Disjoint(ps, qs) && !resources)
            && (c.LinkConflict? <==> Disjoint(ps, qs) && resources && !links)
            && (c.UnknownConflict? <==> Disjoint(ps, qs) && resources && links
                                        && !(p.Some? && p.value.valid && q.Some? && q.value.valid))
  {
    FootprintParts(ps, cs, p);
    FootprintParts(qs, ds, q);
    NormalIntersects(ps, qs);
    NormalIntersects(ClaimedResources(cs) + PlannedResources(p), ClaimedResources(ds) + PlannedResources(q));
    NormalIntersects(PlannedLinks(p), PlannedLinks(q));
  }

  ghost function PlannedResources(p: Option<Plan>): seq<Id> { if p.Some? then p.value.resources else [] }
  ghost function PlannedLinks(p: Option<Plan>): seq<Id> { if p.Some? then p.value.links else [] }

  lemma FootprintParts(ps: seq<Id>, cs: seq<ResourceClaim>, p: Option<Plan>)
    ensures var f := MakeFootprint(ps, cs, p);
            && f.participants == SortUnique(ps) && f.resources == SortUnique(ClaimedResources(cs) + PlannedResources(p))
            && f.links == SortUnique(PlannedLinks(p)) && f.unknown == !(p.Some? && p.value.valid)
  {
    assert ClaimedResources(cs) + [] == ClaimedResources(cs);
  }

  lemma NormalIntersects(a: seq<nat>, b: seq<nat>)
    ensures Intersects(SortUnique(a), SortUnique(b)) <==> !Disjoint(a, b)
  {
    SortUniqueSorted(a);
    SortUniqueSorted(b);
    if Intersects(SortUnique(a), SortUnique(b)) {
      var x :| x in SortUnique(a) && x in SortUnique(b);
      assert x in a && x in b;
    }
    if !Disjoint(a, b) {
      var x :| x in a && x in b;
      assert x in SortUnique(a) && x in SortUnique(b);
    }
  }

  // ---- The imperative forms ----

  method SortUniqueInto(v: seq<nat>) returns (r: seq<nat>)
    ensures r == SortUnique(v)
  {
    r := [];
    var i := |v|;
    while i > 0
      invariant 0 <= i <= |v|
      invariant r == SortUnique(v[i..])
    {
      i := i - 1;
      r := InsertUnique(v[i], r);
    }
    assert v[0..] == v;
  }

  method BuildFootprint(participants: seq<Id>, claims: seq<ResourceClaim>, plan: Option<Plan>)
    returns (fp: Footprint)
    ensures fp == MakeFootprint(participants, claims, plan)
  {
    var resources: seq<Id> := [];
    var i := |claims|;
    while i > 0
      invariant 0 <= i <= |claims|
      invariant resources == ClaimedResources(claims[i..])
    {
      i := i - 1;
      resources := [claims[i].resource] + resources;
    }
    assert claims[0..] == claims;
    var links: seq<Id> := [];
    if plan.Some? {
      resources := resources + plan.value.resources;
      links := plan.value.links;
    }
    var ps := SortUniqueInto(participants);
    var rs := SortUniqueInto(resources);
    var ls := SortUniqueInto(links);
    fp := Footprint(ps, rs, ls, plan.None? || !plan.value.valid);
  }

  ghost predicate Normalized(f: Footprint) {
    StrictlySorted(f.participants) && StrictlySorted(f.resources) && StrictlySorted(f.links)
  }

  method ClassifyConflict(a: Footprint, b: Footprint) returns (c: Classification)
    requires Normalized(a) && Normalized(b)
    ensures c == Classify(a, b)
  {
    var hit := SetIntersect(a.participants, b.participants);
    if hit { return ParticipantConflict; }
    hit := SetIntersect(a.resources, b.resources);
    if hit { return ResourceConflict; }
    hit := SetIntersect(a.links, b.links);
    if hit { return LinkConflict; }
    if a.unknown || b.unknown { return UnknownConflict; }
    return NoConflict;
  }

  lemma MakeFootprintNormalized(participants: seq<Id>, claims: seq<ResourceClaim>, plan: Option<Plan>)
    ensures Normalized(MakeFootprint(participants, claims, plan))
  {
    SortUniqueSorted(participants);
    SortUniqueSorted(ClaimedResources(claims));
    if plan.Some? {
      SortUniqueSorted(ClaimedResources(claims) + plan.value.resources);
      SortUniqueSorted(plan.value.links);
    }
  }
}
