/** The standard sort, as far as its callers rely on it. */
module Sorting {

  function Insert(sorted: seq<nat>, x: nat, before: (nat, nat) -> bool): seq<nat> {
    if sorted == [] || before(x, sorted[0]) then [x] + sorted
    else [sorted[0]] + Insert(sorted[1..], x, before)
  }

  function Sort(items: seq<nat>, before: (nat, nat) -> bool): seq<nat> {
    if items == [] then [] else Insert(Sort(items[..|items| - 1], before), items[|items| - 1], before)
  }

  ghost predicate Ordered(items: seq<nat>, before: (nat, nat) -> bool) {
    forall i, j :: 0 <= i < j < |items| ==> before(items[i], items[j])
  }

  ghost predicate Distinct(items: seq<nat>) {
    forall i, j :: 0 <= i < j < |items| ==> items[i] != items[j]
  }

  /** `before` puts any two of the numbers below `limit` in an order. */
  ghost predicate Ranks(before: (nat, nat) -> bool, limit: nat) {
    && (forall x: nat, y: nat :: x < limit && y < limit && x != y ==> before(x, y) || before(y, x))
    && (forall x: nat, y: nat, z: nat :: x < limit && y < limit && z < limit && before(x, y) && before(y, z) ==> before(x, z))
  }

  ghost predicate Below(items: seq<nat>, limit: nat) {
    forall i :: 0 <= i < |items| ==> items[i] < limit
  }

  lemma OrderedFront(x: nat, rest: seq<nat>, before: (nat, nat) -> bool)
    requires Ordered(rest, before) && forall i :: 0 <= i < |rest| ==> before(x, rest[i])
    ensures Ordered([x] + rest, before)
  {
  }

  lemma {:induction false} InsertKeepsAll(sorted: seq<nat>, x: nat, before: (nat, nat) -> bool)
    ensures multiset(Insert(sorted, x, before)) == multiset(sorted) + multiset{x}
    decreases |sorted|
  {
    if sorted != [] && !before(x, sorted[0]) {
      assert sorted == [sorted[0]] + sorted[1..];
      InsertKeepsAll(sorted[1..], x, before);
    }
  }

  lemma InsertStaysBelow(sorted: seq<nat>, x: nat, before: (nat, nat) -> bool, limit: nat)
    requires Below(sorted, limit) && x < limit
    ensures Below(Insert(sorted, x, before), limit)
  {
    InsertKeepsAll(sorted, x, before);
    var inserted := Insert(sorted, x, before);
    forall i | 0 <= i < |inserted| ensures inserted[i] < limit {
      assert inserted[i] in multiset(inserted);
    }
  }

  /** What goes before the first goes before all. */
  lemma BeforeAll(x: nat, sorted: seq<nat>, before: (nat, nat) -> bool, limit: nat)
    requires Ranks(before, limit) && Below(sorted, limit) && x < limit && Ordered(sorted, before)
    requires sorted != [] ==> before(x, sorted[0])
    ensures forall i :: 0 <= i < |sorted| ==> before(x, sorted[i])
  {
    forall i | 0 <= i < |sorted| ensures before(x, sorted[i]) {
      if i > 0 { assert before(sorted[0], sorted[i]); }
    }
  }

  lemma EitherWay(before: (nat, nat) -> bool, limit: nat, x: nat, y: nat)
    requires Ranks(before, limit) && x < limit && y < limit && x != y && !before(x, y)
    ensures before(y, x)
  {
  }

  lemma {:induction false} InsertIsRight(sorted: seq<nat>, x: nat, before: (nat, nat) -> bool, limit: nat)
    requires Ranks(before, limit) && Below(sorted, limit) && x < limit && x !in sorted && Ordered(sorted, before)
    ensures Below(Insert(sorted, x, before), limit) && Ordered(Insert(sorted, x, before), before)
    ensures multiset(Insert(sorted, x, before)) == multiset(sorted) + multiset{x}
    decreases |sorted|
  {
    hide Ranks;
    InsertStaysBelow(sorted, x, before, limit);
    InsertKeepsAll(sorted, x, before);
    if sorted == [] || before(x, sorted[0]) {
      BeforeAll(x, sorted, before, limit);
      OrderedFront(x, sorted, before);
    } else {
      assert sorted[0] in sorted;
      EitherWay(before, limit, x, sorted[0]);
      InsertIsRight(sorted[1..], x, before, limit);
      var rest := Insert(sorted[1..], x, before);
      forall i | 0 <= i < |rest| ensures before(sorted[0], rest[i]) {
        assert rest[i] in multiset(rest);
      }
      OrderedFront(sorted[0], rest, before);
    }
  }

  /** Sorting distinct numbers keeps them all and puts them in order. */
  lemma {:induction false} SortIsRight(items: seq<nat>, before: (nat, nat) -> bool, limit: nat)
    requires Ranks(before, limit) && Below(items, limit) && Distinct(items)
    ensures Ordered(Sort(items, before), before) && multiset(Sort(items, before)) == multiset(items)
    ensures Below(Sort(items, before), limit)
    decreases |items|
  {
    if items != [] {
      var front, last := items[..|items| - 1], items[|items| - 1];
      assert items == front + [last];
      SortIsRight(front, before, limit);
      assert last !in multiset(Sort(front, before));
      InsertIsRight(Sort(front, before), last, before, limit);
    }
  }
}
