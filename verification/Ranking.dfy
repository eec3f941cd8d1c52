/** The deterministic ranking of candidates: the comparators of
    include/collective_scheduler/deterministic.hpp and the sort inside `schedule`
    (src/scheduler.cpp). NaN keys are outside the model, so keys are reals. */
module Rankings {
  import opened Types

  // ---- Key comparison ----

  function CmpDouble(a: real, b: real): int {
    if a < b then -1 else if a > b then 1 else 0
  }

  function CmpRank(a: seq<real>, b: seq<real>): int {
    if a == [] && b == [] then 0
    else if a == [] then -1
    else if b == [] then 1
    else
      var c := CmpDouble(a[0], b[0]);
      if c != 0 then c else CmpRank(a[1..], b[1..])
  }

  /** The index loop over the common prefix, then the lengths. */
  method CompareRanks(a: seq<real>, b: seq<real>) returns (c: int)
    ensures c == CmpRank(a, b)
  {
    var n := if |a| < |b| then |a| else |b|;
    var i := 0;
    while i < n
      invariant 0 <= i <= n
      invariant CmpRank(a, b) == CmpRank(a[i..], b[i..])
    {
      c := CmpDouble(a[i], b[i]);
      if c != 0 { return; }
      i := i + 1;
    }
    if |a| < |b| { return -1; }
    if |a| > |b| { return 1; }
    return 0;
  }

  lemma {:induction false} CmpRankOpposite(a: seq<real>, b: seq<real>)
    ensures CmpRank(b, a) == -CmpRank(a, b)
    ensures -1 <= CmpRank(a, b) <= 1
  {
    if a != [] && b != [] { CmpRankOpposite(a[1..], b[1..]); }
  }

  lemma {:induction false} CmpRankZero(a: seq<real>, b: seq<real>)
    ensures CmpRank(a, b) == 0 <==> a == b
  {
    if a != [] && b != [] {
      CmpRankZero(a[1..], b[1..]);
      assert a == [a[0]] + a[1..] && b == [b[0]] + b[1..];
    }
  }

  lemma {:induction false} CmpRankTransitive(a: seq<real>, b: seq<real>, c: seq<real>)
    requires CmpRank(a, b) > 0 && CmpRank(b, c) > 0
    ensures CmpRank(a, c) > 0
  {
    if b != [] && c != [] && a[0] == b[0] && b[0] == c[0] { CmpRankTransitive(a[1..], b[1..], c[1..]); }
  }

  // ---- The sort order ----

  /** One candidate as the sort sees it. */
  datatype Entry = Entry(id: Id, key: seq<real>, score: real, seqNo: nat, collective: Id)

  /** Higher score, then larger key, then smaller collective id, then earlier
      submission, then smaller request id. */
  predicate Before(a: Entry, b: Entry) {
    if a.score != b.score then a.score > b.score
    else
      var c := CmpRank(a.key, b.key);
      if c != 0 then c > 0
      else if a.collective != b.collective then a.collective < b.collective
      else if a.seqNo != b.seqNo then a.seqNo < b.seqNo
      else a.id < b.id
  }

  /** On distinct requests the comparator is a strict total order. */
  lemma BeforeIsStrictTotalOrder(a: Entry, b: Entry, c: Entry)
    ensures !Before(a, a)
    ensures Before(a, b) ==> !Before(b, a)
    ensures a.id != b.id ==> Before(a, b) || Before(b, a)
    ensures Before(a, b) && Before(b, c) ==> Before(a, c)
  {
    CmpRankZero(a.key, a.key);
    CmpRankZero(a.key, b.key);
    CmpRankZero(b.key, c.key);
    CmpRankOpposite(a.key, b.key);
    if CmpRank(a.key, b.key) > 0 && CmpRank(b.key, c.key) > 0 { CmpRankTransitive(a.key, b.key, c.key); }
  }

  /** Nothing but the labels that submission assigns tells the candidates apart. */
  predicate Ties(a: Entry, b: Entry) { a.score == b.score && a.key == b.key && a.collective == b.collective }

  /** The order looks at sequence numbers and assigned ids exactly when candidates tie. */
  lemma BeforeIgnoresLabels(a: Entry, b: Entry, c: Entry, d: Entry)
    requires c == a.(id := c.id, seqNo := c.seqNo) && d == b.(id := d.id, seqNo := d.seqNo)
    ensures !Ties(a, b) ==> (Before(a, b) <==> Before(c, d))
    ensures Ties(a, b) ==> (Before(a, b) <==> a.seqNo < b.seqNo || (a.seqNo == b.seqNo && a.id < b.id))
  {
    CmpRankZero(a.key, b.key);
  }

  // ---- Rankings ----

  ghost predicate Sorted(es: seq<Entry>) {
    forall i, j | 0 <= i < j < |es| :: Before(es[i], es[j])
  }

  ghost predicate DistinctIds(c: set<Entry>) {
    forall x, y | x in c && y in c && x.id == y.id :: x == y
  }

  ghost function Elements(es: seq<Entry>): set<Entry> { set e | e in es }

  lemma {:induction false} FirstExists(c: set<Entry>)
    requires c != {} && DistinctIds(c)
    ensures exists f | f in c :: forall x | x in c && x != f :: Before(f, x)
    decreases |c|
  {
    var y :| y in c;
    if c == {y} {
      assert forall x | x in c && x != y :: Before(y, x);
    } else {
      var d := c - {y};
      FirstExists(d);
      var f :| f in d && forall x | x in d && x != f :: Before(f, x);
      BeforeIsStrictTotalOrder(f, y, f);
      if Before(f, y) {
        assert forall x | x in c && x != f :: Before(f, x);
      } else {
        forall x | x in c && x != y ensures Before(y, x) { BeforeIsStrictTotalOrder(y, f, x); }
        assert forall x | x in c && x != y :: Before(y, x);
      }
    }
  }

  lemma FirstThenRest(c: set<Entry>, f: Entry, rest: seq<Entry>)
    requires f in c && (forall x | x in c && x != f :: Before(f, x)) && Sorted(rest) && Elements(rest) == c - {f}
    ensures Sorted([f] + rest) && Elements([f] + rest) == c
  {
    var es := [f] + rest;
    forall j | 0 <= j < |rest| ensures Before(f, rest[j]) { assert rest[j] in Elements(rest); }
    forall i, j | 0 <= i < j < |es| ensures Before(es[i], es[j]) {
      if i > 0 { assert es[i] == rest[i - 1] && es[j] == rest[j - 1]; }
    }
    forall x ensures x in Elements(es) <==> x in c {
      assert x in es <==> x == f || x in rest;
      assert x in rest <==> x in Elements(rest);
    }
  }

  /** The ranking of a set of candidates: a function of the set, so the iteration
      order of the record map cannot matter. */
  ghost function RankingOf(c: set<Entry>): (es: seq<Entry>)
    requires DistinctIds(c)
    ensures Sorted(es)
    ensures Elements(es) == c
  {
    if c == {} then []
    else
      FirstExists(c);
      var f :| f in c && forall x | x in c && x != f :: Before(f, x);
      var rest := RankingOf(c - {f});
      FirstThenRest(c, f, rest);
      [f] + rest
  }

  /** There is only one sorted arrangement of the same candidates. */
  lemma {:induction false} SortedUnique(a: seq<Entry>, b: seq<Entry>)
    requires Sorted(a) && Sorted(b) && Elements(a) == Elements(b)
    ensures a == b
  {
    assert |b| > 0 ==> b[0] in Elements(a);
    if a != [] {
      assert a[0] in Elements(a);
      assert b != [] && b[0] in Elements(b);
      var i :| 0 <= i < |b| && b[i] == a[0];
      var j :| 0 <= j < |a| && a[j] == b[0];
      BeforeIsStrictTotalOrder(a[0], b[0], a[0]);
      assert a[0] == b[0];
      assert a == [a[0]] + a[1..] && b == [b[0]] + b[1..];
      forall x ensures x in a[1..] <==> x in b[1..] {
        TailElement(a, x);
        TailElement(b, x);
        assert x in a <==> x in Elements(a);
        assert x in b <==> x in Elements(b);
      }
      SortedUnique(a[1..], b[1..]);
    }
  }

  lemma TailElement(a: seq<Entry>, x: Entry)
    requires Sorted(a) && a != []
    ensures x in a[1..] <==> x in a && x != a[0]
  {
    assert a == [a[0]] + a[1..];
    BeforeIsStrictTotalOrder(a[0], a[0], a[0]);
  }

  /** Any sorted arrangement of the candidates is the ranking. */
  lemma RankingIsForced(es: seq<Entry>, c: set<Entry>)
    requires DistinctIds(c) && Sorted(es) && Elements(es) == c
    ensures es == RankingOf(c)
  {
    SortedUnique(es, RankingOf(c));
  }

  /** Re-labelling the candidates (other request ids, other submission order) yields
      the same ranking up to those labels, provided no two candidates tie. */
  lemma RankingIgnoresLabels(a: seq<Entry>, b: seq<Entry>)
    requires Sorted(a) && |a| == |b|
    requires forall i | 0 <= i < |a| :: b[i] == a[i].(id := b[i].id, seqNo := b[i].seqNo)
    requires forall i, j | 0 <= i < j < |a| :: !Ties(a[i], a[j])
    requires DistinctIds(Elements(b))
    ensures RankingOf(Elements(b)) == b
  {
    forall i, j | 0 <= i < j < |b| ensures Before(b[i], b[j]) {
      BeforeIgnoresLabels(a[i], a[j], b[i], b[j]);
    }
    RankingIsForced(b, Elements(b));
  }

  // ---- Sorting ----

  /** The comparator of the sort. */
  method ComesBefore(a: Entry, b: Entry) returns (r: bool)
    ensures r == Before(a, b)
  {
    if a.score != b.score { return a.score > b.score; }
    var c := CompareRanks(a.key, b.key);
    if c != 0 { return c > 0; }
    if a.collective != b.collective { return a.collective < b.collective; }
    if a.seqNo != b.seqNo { return a.seqNo < b.seqNo; }
    r := a.id < b.id;
  }

  method InsertSorted(es: seq<Entry>, e: Entry) returns (r: seq<Entry>)
    requires Sorted(es) && forall x | x in es :: x.id != e.id
    ensures Sorted(r)
    ensures Elements(r) == Elements(es) + {e}
  {
    var i := 0;
    while i < |es|
      invariant 0 <= i <= |es|
      invariant forall k | 0 <= k < i :: Before(es[k], e)
    {
      var first := ComesBefore(es[i], e);
      if !first { break; }
      i := i + 1;
    }
    r := es[..i] + [e] + es[i..];
    forall k | i <= k < |es| ensures Before(e, es[k]) {
      BeforeIsStrictTotalOrder(es[i], e, es[i]);
      if k > i { BeforeIsStrictTotalOrder(e, es[i], es[k]); }
    }
    assert es == es[..i] + es[i..];
    forall x ensures x in r <==> x in es || x == e {}
  }
}
