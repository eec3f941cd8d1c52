/** Two lists with the same members, position by position, and what is left behind when
    each is filed away item by item. */
module Rearrangements {
  import opened Types

  /** `there` and `back` take positions in one list to positions of the same item in the
      other, and undo each other. */
  ghost predicate Rearranges<T>(xs: seq<T>, ys: seq<T>, there: seq<nat>, back: seq<nat>) {
    && |there| == |xs| && |back| == |ys| && |xs| == |ys|
    && (forall i | 0 <= i < |xs| :: there[i] < |ys| && ys[there[i]] == xs[i] && back[there[i]] == i)
    && (forall j | 0 <= j < |ys| :: back[j] < |xs| && there[back[j]] == j)
  }

  /** Positions once an item is put in at `j`. */
  ghost function Inserted(there: seq<nat>, j: nat): (more: seq<nat>)
    ensures |more| == |there| + 1 && more[0] == j
    ensures forall i | 0 <= i < |there| :: more[i + 1] == if there[i] < j then there[i] else there[i] + 1
  {
    [j] + seq(|there|, i requires 0 <= i < |there| => if there[i] < j then there[i] else there[i] + 1)
  }

  ghost function Pushed(back: seq<nat>, j: nat): (undo: seq<nat>)
    requires j <= |back|
    ensures |undo| == |back| + 1 && undo[j] == 0
    ensures forall k | 0 <= k < |back| :: undo[if k < j then k else k + 1] == back[k] + 1
  {
    var shifted := seq(|back|, k requires 0 <= k < |back| => back[k] + 1);
    shifted[..j] + [0] + shifted[j..]
  }

  lemma InsertArrangement<T>(xs: seq<T>, ys: seq<T>, j: nat, there: seq<nat>, back: seq<nat>)
    requires xs != [] && j < |ys| && ys[j] == xs[0]
    requires Rearranges(xs[1..], ys[..j] + ys[j + 1..], there, back)
    ensures Rearranges(xs, ys, Inserted(there, j), Pushed(back, j))
  {
    var rest, more, undo := ys[..j] + ys[j + 1..], Inserted(there, j), Pushed(back, j);
    forall i | 0 <= i < |xs| ensures more[i] < |ys| && ys[more[i]] == xs[i] && undo[more[i]] == i {
      if i > 0 {
        assert more[(i - 1) + 1] == if there[i - 1] < j then there[i - 1] else there[i - 1] + 1;
        assert rest[there[i - 1]] == xs[1..][i - 1];
      }
    }
    forall k | 0 <= k < |ys| ensures undo[k] < |xs| && more[undo[k]] == k {
      if k != j {
        var h := if k < j then k else k - 1;
        assert undo[if h < j then h else h + 1] == back[h] + 1;
        assert there[back[h]] == h;
      }
    }
  }

  lemma WithoutFirst<T>(xs: seq<T>, ys: seq<T>, j: nat)
    requires xs != [] && j < |ys| && ys[j] == xs[0] && multiset(xs) == multiset(ys)
    ensures multiset(xs[1..]) == multiset(ys[..j] + ys[j + 1..])
  {
    assert xs == [xs[0]] + xs[1..];
    assert ys == ys[..j] + [ys[j]] + ys[j + 1..];
    assert multiset(xs) == multiset{xs[0]} + multiset(xs[1..]);
    assert multiset(ys) == multiset(ys[..j]) + multiset{xs[0]} + multiset(ys[j + 1..]);
    assert multiset(ys[..j] + ys[j + 1..]) == multiset(ys) - multiset{xs[0]};
    assert multiset(xs[1..]) == multiset(xs) - multiset{xs[0]};
  }

  lemma {:induction false} SameItemsRearrange<T>(xs: seq<T>, ys: seq<T>) returns (there: seq<nat>, back: seq<nat>)
    requires multiset(xs) == multiset(ys)
    ensures Rearranges(xs, ys, there, back)
    decreases |xs|
  {
    if xs == [] {
      assert |multiset(ys)| == |ys|;
      there, back := [], [];
    } else {
      assert xs[0] in multiset(ys);
      var j :| 0 <= j < |ys| && ys[j] == xs[0];
      WithoutFirst(xs, ys, j);
      there, back := SameItemsRearrange(xs[1..], ys[..j] + ys[j + 1..]);
      InsertArrangement(xs, ys, j, there, back);
      there, back := Inserted(there, j), Pushed(back, j);
    }
  }

  // ---- Filing a list away ----

  ghost predicate Below<K>(m: map<nat, K>, base: nat) { forall x | x in m :: x < base }

  /** Position `i` of `marks` is filed under `base + i`, unless it is to be left out. */
  ghost predicate Filed<K>(base: nat, before: map<nat, K>, after: map<nat, K>, marks: seq<Option<K>>) {
    && (forall x | x in before :: x in after && after[x] == before[x])
    && (forall x | x in after && x !in before :: base <= x < base + |marks| && marks[x - base] == Some(after[x]))
    && (forall i | 0 <= i < |marks| && marks[i].Some? :: base + i in after)
  }

  lemma FiledOne<K>(base: nat, before: map<nat, K>, after: map<nat, K>, more: map<nat, K>,
                    marks: seq<Option<K>>, k: K)
    requires Below(before, base) && Filed(base, before, after, marks) && more == after[base + |marks| := k]
    ensures base + |marks| !in after && Filed(base, before, more, marks + [Some(k)])
  {
  }

  lemma FiledNone<K>(base: nat, before: map<nat, K>, after: map<nat, K>, marks: seq<Option<K>>)
    requires Filed(base, before, after, marks)
    ensures Filed(base, before, after, marks + [None])
  {
  }

  /** Keys on file stay; the new ones go where the same item went. */
  ghost function Relocated(base: nat, there: seq<nat>, x: nat): (y: nat)
    ensures x < base <==> y < base
  {
    if base <= x < base + |there| then base + there[x - base] else x
  }

  lemma RelocatedBack<T>(xs: seq<T>, ys: seq<T>, there: seq<nat>, back: seq<nat>, base: nat, x: nat)
    requires Rearranges(xs, ys, there, back) && x < base + |xs|
    ensures Relocated(base, back, Relocated(base, there, x)) == x
  {
  }

  lemma Turned<T>(xs: seq<T>, ys: seq<T>, there: seq<nat>, back: seq<nat>)
    requires Rearranges(xs, ys, there, back)
    ensures Rearranges(ys, xs, back, there)
  {
  }

  /** What is filed under a key is filed, in the other order, under the key it moves to. */
  lemma RelocatedIsFiled<K>(base: nat, before: map<nat, K>, after: map<nat, K>, other: map<nat, K>,
                        marks: seq<Option<K>>, others: seq<Option<K>>, there: seq<nat>, back: seq<nat>, x: nat)
    requires Below(before, base) && Rearranges(marks, others, there, back)
    requires Filed(base, before, after, marks) && Filed(base, before, other, others) && x in after
    ensures x < base + |marks|
    ensures Relocated(base, there, x) in other && other[Relocated(base, there, x)] == after[x]
  {
    if x !in before {
      var i := x - base;
      assert others[there[i]] == Some(after[x]);
      if base + there[i] in before { assert base + there[i] < base; }
    }
  }

  ghost function Renaming<K>(base: nat, after: map<nat, K>, there: seq<nat>): map<nat, nat> {
    map x | x in after :: Relocated(base, there, x)
  }

  lemma RenamesOnto<K>(base: nat, before: map<nat, K>, after: map<nat, K>, other: map<nat, K>,
                       marks: seq<Option<K>>, others: seq<Option<K>>, there: seq<nat>, back: seq<nat>, y: nat)
    requires Below(before, base) && Rearranges(marks, others, there, back)
    requires Filed(base, before, after, marks) && Filed(base, before, other, others) && y in other
    ensures y in Renaming(base, after, there).Values
  {
    Turned(marks, others, there, back);
    RelocatedIsFiled(base, before, other, after, others, marks, back, there, y);
    RelocatedBack(others, marks, back, there, base, y);
    assert Renaming(base, after, there)[Relocated(base, back, y)] == y;
  }

  lemma RenamesInjectively<K>(base: nat, before: map<nat, K>, after: map<nat, K>, other: map<nat, K>,
                              marks: seq<Option<K>>, others: seq<Option<K>>, there: seq<nat>, back: seq<nat>,
                              x: nat, y: nat)
    requires Below(before, base) && Rearranges(marks, others, there, back)
    requires Filed(base, before, after, marks) && Filed(base, before, other, others) && x in after && y in after
    requires Relocated(base, there, x) == Relocated(base, there, y)
    ensures x == y
  {
    RelocatedIsFiled(base, before, after, other, marks, others, there, back, x);
    RelocatedIsFiled(base, before, after, other, marks, others, there, back, y);
    RelocatedBack(marks, others, there, back, base, x);
    RelocatedBack(marks, others, there, back, base, y);
  }

  /** `f` names the items of one map as they are named in the other. */
  ghost predicate Names<K>(f: map<nat, nat>, after: map<nat, K>, other: map<nat, K>) {
    && (forall x, y | x in f && y in f && f[x] == f[y] :: x == y)
    && f.Keys == after.Keys && f.Values == other.Keys
    && (forall x | x in after :: f[x] in other && other[f[x]] == after[x])
  }

  lemma NamesAll<K>(base: nat, after: map<nat, K>, other: map<nat, K>, there: seq<nat>)
    requires forall x | x in after :: Relocated(base, there, x) in other && other[Relocated(base, there, x)] == after[x]
    requires forall x, y | x in after && y in after && Relocated(base, there, x) == Relocated(base, there, y) :: x == y
    requires forall y | y in other :: y in Renaming(base, after, there).Values
    ensures Names(Renaming(base, after, there), after, other)
  {
    assert Renaming(base, after, there).Values == other.Keys;
  }

  lemma Renames<K>(base: nat, before: map<nat, K>, after: map<nat, K>, other: map<nat, K>,
                   marks: seq<Option<K>>, others: seq<Option<K>>, there: seq<nat>, back: seq<nat>)
    requires Below(before, base) && Rearranges(marks, others, there, back)
    requires Filed(base, before, after, marks) && Filed(base, before, other, others)
    ensures Names(Renaming(base, after, there), after, other)
  {
    forall x | x in after { RelocatedIsFiled(base, before, after, other, marks, others, there, back, x); }
    forall x, y | x in after && y in after && Relocated(base, there, x) == Relocated(base, there, y) {
      RenamesInjectively(base, before, after, other, marks, others, there, back, x, y);
    }
    forall y | y in other { RenamesOnto(base, before, after, other, marks, others, there, back, y); }
    NamesAll(base, after, other, there);
  }
}
