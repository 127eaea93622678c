/** Choosing which blocks of a document go into its digest: best first, no
    repeats, within a budget. */
module Distill {
  import opened Domain
  import opened Sorting

  datatype BlockKind = Heading | Table | Body

  datatype Block = Block(page: nat, order: nat, kind: BlockKind, text: string, score: int, mandatory: bool)

  const WINDOW := 80
  const TAIL_MINIMUM := 3 * WINDOW

  /** How a block's text is reduced to keys: `exact` reads it with clause labels,
      case and spacing dropped; `masked` also blanks its digits. */
  datatype Keys = Keys(exact: string -> string, masked: string -> string)

  // ---- rank -----------------------------------------------------------------

  /** Mandatory blocks first, then by score, then in document order. */
  predicate Outranks(blocks: seq<Block>, i: nat, j: nat) {
    i < |blocks| && j < |blocks| &&
    var a, b := blocks[i], blocks[j];
    if a.mandatory != b.mandatory then a.mandatory
    else if a.score != b.score then a.score > b.score
    else if a.order != b.order then a.order < b.order
    else i < j
  }

  function Indices(n: nat): (indices: seq<nat>)
    ensures |indices| == n && forall i :: 0 <= i < n ==> indices[i] == i
  {
    seq(n, i => i)
  }

  function Ranked(blocks: seq<Block>): seq<nat> {
    Sort(Indices(|blocks|), (i: nat, j: nat) => Outranks(blocks, i, j))
  }

  /** Every block once; mandatory ones before the others, among equals in that a
      higher score before a lower, among equals in both an earlier block first. */
  lemma RankedIsRight(blocks: seq<Block>)
    ensures |Ranked(blocks)| == |blocks| && Below(Ranked(blocks), |blocks|) && Distinct(Ranked(blocks))
    ensures forall p, q :: 0 <= p < q < |blocks| ==> Outranks(blocks, Ranked(blocks)[p], Ranked(blocks)[q])
    ensures forall p, q :: 0 <= p < q < |blocks| ==>
      var i, j := Ranked(blocks)[p], Ranked(blocks)[q];
      && (blocks[j].mandatory ==> blocks[i].mandatory)
      && (blocks[i].mandatory == blocks[j].mandatory ==> blocks[i].score >= blocks[j].score)
      && (blocks[i].mandatory == blocks[j].mandatory && blocks[i].score == blocks[j].score ==>
            blocks[i].order < blocks[j].order || (blocks[i].order == blocks[j].order && i < j))
    ensures forall i :: 0 <= i < |blocks| ==> i in Ranked(blocks)
  {
    var before := (i: nat, j: nat) => Outranks(blocks, i, j);
    var indices := Indices(|blocks|);
    SortIsRight(indices, before, |blocks|);
    var ranked := Ranked(blocks);
    assert |multiset(ranked)| == |multiset(indices)|;
    forall i | 0 <= i < |blocks| ensures i in ranked {
      assert indices[i] in multiset(ranked);
    }
    assert forall p, q :: 0 <= p < q < |ranked| ==> before(ranked[p], ranked[q]);
  }

  // ---- repeats --------------------------------------------------------------

  /** The head of the masked text, and for a long body its tail. */
  function DuplicateShapes(kind: BlockKind, masked: string): (string, Option<string>) {
    (if |masked| <= WINDOW then masked else masked[..WINDOW],
     if kind.Body? && |masked| >= TAIL_MINIMUM then Some(masked[|masked| - WINDOW..]) else None)
  }

  function Shapes(block: Block, keys: Keys): set<string> {
    var (head, tail) := DuplicateShapes(block.kind, keys.masked(block.text));
    if tail.Some? then {head, tail.value} else {head}
  }

  function Cost(block: Block): nat {
    |block.text| + 2
  }

  /** When two blocks share a shape: their masked texts agree in their first 80
      characters, or, both being long bodies, in their last 80; or the one's first
      are the long other's last. */
  lemma SharedShape(a: Block, b: Block, keys: Keys)
    ensures
      var s, t := keys.masked(a.text), keys.masked(b.text);
      Shapes(a, keys) * Shapes(b, keys) != {} <==>
        || s == t
        || (|s| >= 80 && |t| >= 80 && s[..80] == t[..80])
        || (a.kind.Body? && b.kind.Body? && |s| >= 240 && |t| >= 240 && s[|s| - 80..] == t[|t| - 80..])
        || (a.kind.Body? && |s| >= 240 && |t| >= 80 && s[|s| - 80..] == t[..80])
        || (b.kind.Body? && |t| >= 240 && |s| >= 80 && t[|t| - 80..] == s[..80])
  {
    var s, t := keys.masked(a.text), keys.masked(b.text);
    var (headA, tailA) := DuplicateShapes(a.kind, s);
    var (headB, tailB) := DuplicateShapes(b.kind, t);
    SetsMeet(headA, tailA, headB, tailB);
    assert |s| == 80 ==> s[..80] == s;
    assert |t| == 80 ==> t[..80] == t;
    assert headA == headB <==> s == t || (|s| >= 80 && |t| >= 80 && s[..80] == t[..80]);
  }

  lemma SetsMeet(headA: string, tailA: Option<string>, headB: string, tailB: Option<string>)
    ensures
      var a := if tailA.Some? then {headA, tailA.value} else {headA};
      var b := if tailB.Some? then {headB, tailB.value} else {headB};
      a * b != {} <==>
        || headA == headB || tailA == Some(headB) || tailB == Some(headA) || (tailA.Some? && tailA == tailB)
  {
    var a := if tailA.Some? then {headA, tailA.value} else {headA};
    var b := if tailB.Some? then {headB, tailB.value} else {headB};
    if headA == headB || tailA == Some(headB) { assert headB in a * b; }
    if tailB == Some(headA) { assert headA in a * b; }
    if tailA.Some? && tailA == tailB { assert tailA.value in a * b; }
  }

  // ---- what should be kept --------------------------------------------------

  /** What the kept blocks among the first `p` of the ranking take up, each with the
      two characters that part it from the next. */
  function Spent(blocks: seq<Block>, ranked: seq<nat>, kept: set<nat>, p: nat): nat
    requires p <= |ranked| && Below(ranked, |blocks|)
  {
    if p == 0 then 0
    else Spent(blocks, ranked, kept, p - 1) + (if ranked[p - 1] in kept then |blocks[ranked[p - 1]].text| + 2 else 0)
  }

  /** Some block ranked above the `p`-th reads the same. */
  ghost predicate Repeated(blocks: seq<Block>, ranked: seq<nat>, keys: Keys, p: nat)
    requires p < |ranked| && Below(ranked, |blocks|)
  {
    exists q :: 0 <= q < p && keys.exact(blocks[ranked[q]].text) == keys.exact(blocks[ranked[p]].text)
  }

  /** Some block ranked above the `p`-th shares a head or a tail with it. */
  ghost predicate ShapedAlike(blocks: seq<Block>, ranked: seq<nat>, keys: Keys, p: nat)
    requires p < |ranked| && Below(ranked, |blocks|)
  {
    exists q :: 0 <= q < p && Shapes(blocks[ranked[q]], keys) * Shapes(blocks[ranked[p]], keys) != {}
  }

  /** The first block is always taken; another must fit what is left. */
  ghost predicate Affordable(blocks: seq<Block>, ranked: seq<nat>, kept: set<nat>, budget: nat, p: nat)
    requires p < |ranked| && Below(ranked, |blocks|)
  {
    Spent(blocks, ranked, kept, p) == 0 || Spent(blocks, ranked, kept, p) + |blocks[ranked[p]].text| + 2 <= budget
  }

  /** The rule, rank by rank: a block is kept exactly when nothing above it reads
      the same, it is mandatory or shaped like nothing above it, and the blocks
      kept above it leave room. */
  ghost predicate Deserves(blocks: seq<Block>, ranked: seq<nat>, keys: Keys, kept: set<nat>, budget: nat, p: nat)
    requires p < |ranked| && Below(ranked, |blocks|)
  {
    && !Repeated(blocks, ranked, keys, p)
    && (blocks[ranked[p]].mandatory || !ShapedAlike(blocks, ranked, keys, p))
    && Affordable(blocks, ranked, kept, budget, p)
  }

  function Members(kept: seq<nat>): set<nat> {
    set i | i in kept
  }

  /** Exactly the blocks that deserve it are kept. */
  ghost predicate IsSelection(blocks: seq<Block>, keys: Keys, kept: set<nat>, budget: nat)
  {
    RankedIsRight(blocks);
    forall p :: 0 <= p < |blocks| ==>
      (Ranked(blocks)[p] in kept <==> Deserves(blocks, Ranked(blocks), keys, kept, budget, p))
  }

  lemma {:induction false} LaterBlocksCostNothingYet(blocks: seq<Block>, ranked: seq<nat>, kept: set<nat>, p: nat, q: nat)
    requires q <= p < |ranked| && Below(ranked, |blocks|) && Distinct(ranked)
    ensures Spent(blocks, ranked, kept + {ranked[p]}, q) == Spent(blocks, ranked, kept, q)
    decreases q
  {
    if q > 0 { LaterBlocksCostNothingYet(blocks, ranked, kept, p, q - 1); }
  }

  lemma {:induction false} SpentGrows(blocks: seq<Block>, ranked: seq<nat>, kept: set<nat>, p: nat, q: nat)
    requires p <= q <= |ranked| && Below(ranked, |blocks|)
    ensures Spent(blocks, ranked, kept, p) <= Spent(blocks, ranked, kept, q)
    decreases q
  {
    if p < q { SpentGrows(blocks, ranked, kept, p, q - 1); }
  }

  /** Walks the blocks in rank order, then lists the kept ones in document order. */
  method Select(blocks: seq<Block>, keys: Keys, budget: nat) returns (kept: seq<nat>)
    ensures Below(kept, |blocks|) && forall i, j :: 0 <= i < j < |kept| ==> kept[i] < kept[j]
    ensures IsSelection(blocks, keys, Members(kept), budget)
    ensures forall i: nat, j: nat ::
      (&& i < |blocks| && j in kept && blocks[i].mandatory == blocks[j].mandatory && blocks[i].score > blocks[j].score
       && |blocks[i].text| <= |blocks[j].text| && Alone(blocks, keys, i)) ==> i in kept
  {
    hide Ranked, Deserves, Alone;
    RankedIsRight(blocks);
    var chosen := Walk(blocks, Ranked(blocks), keys, budget);
    var ascending := (i: nat, j: nat) => i < j;
    kept := Sort(chosen, ascending);
    SortIsRight(chosen, ascending, |blocks|);
    forall i ensures i in kept <==> i in chosen {
      assert i in kept <==> i in multiset(kept);
      assert i in chosen <==> i in multiset(chosen);
    }
    assert Members(kept) == Members(chosen);
    assert IsSelection(blocks, keys, Members(chosen), budget);
    assert forall i, j :: 0 <= i < j < |kept| ==> ascending(kept[i], kept[j]);
    BetterOnesAreKept(blocks, keys, kept, budget);
  }

  lemma BetterOnesAreKept(blocks: seq<Block>, keys: Keys, kept: seq<nat>, budget: nat)
    requires IsSelection(blocks, keys, Members(kept), budget) && Below(kept, |blocks|)
    ensures forall i: nat, j: nat ::
      (&& i < |blocks| && j in kept && blocks[i].mandatory == blocks[j].mandatory && blocks[i].score > blocks[j].score
       && |blocks[i].text| <= |blocks[j].text| && Alone(blocks, keys, i)) ==> i in kept
  {
    hide IsSelection, Alone;
    forall i: nat, j: nat | (&& i < |blocks| && j in kept && blocks[i].mandatory == blocks[j].mandatory
      && blocks[i].score > blocks[j].score && |blocks[i].text| <= |blocks[j].text| && Alone(blocks, keys, i))
      ensures i in kept
    {
      BetterIsKept(blocks, keys, Members(kept), budget, i, j);
    }
  }

  method Walk(blocks: seq<Block>, ranked: seq<nat>, keys: Keys, budget: nat)
    returns (chosen: seq<nat>)
    requires Below(ranked, |blocks|) && Distinct(ranked)
    ensures Below(chosen, |blocks|) && Distinct(chosen)
    ensures forall p :: 0 <= p < |ranked| ==>
              (ranked[p] in Members(chosen) <==> Deserves(blocks, ranked, keys, Members(chosen), budget, p))
  {
    hide Shapes, Spent, Deserves, SeenExact, SeenShapes;
    var used, exact: set<string>, shapes: set<string> := 0, {}, {};
    chosen := [];
    ghost var taken: set<nat> := {};
    NothingSeen(blocks, ranked, keys, taken);
    var p := 0;
    while p < |ranked|
      invariant p <= |ranked|
      invariant Below(chosen, |blocks|) && Distinct(chosen) && (forall i :: i in taken <==> i in chosen)
      invariant forall i :: i in taken ==> i in ranked[..p]
      invariant used == Spent(blocks, ranked, taken, p) && (used == 0 <==> chosen == [])
      invariant SeenExact(blocks, ranked, keys, exact, p) && SeenShapes(blocks, ranked, keys, shapes, p)
      invariant forall q :: 0 <= q < p ==> (ranked[q] in taken <==> Deserves(blocks, ranked, keys, taken, budget, q))
    {
      var block := blocks[ranked[p]];
      var key := keys.exact(block.text);
      var repeated := key in exact;
      var blockShapes := Shapes(block, keys);
      var shapedLikeKept := blockShapes * shapes != {};
      var skip := repeated || (shapedLikeKept && !block.mandatory) || (used + Cost(block) > budget && chosen != []);
      Decides(blocks, ranked, keys, exact, shapes, taken, budget, p);
      SeenOneMore(blocks, ranked, keys, exact, shapes, p);
      TakeOne(blocks, ranked, keys, taken, budget, p, !skip);
      exact, shapes := exact + {key}, shapes + blockShapes;
      p := p + 1;
      if !skip {
        used := used + Cost(block);
        chosen := chosen + [ranked[p - 1]];
        taken := taken + {ranked[p - 1]};
        if used >= budget { break; }
      }
    }
    forall q | p <= q < |ranked| ensures ranked[q] !in taken && !Deserves(blocks, ranked, keys, taken, budget, q) {
      NothingMoreFits(blocks, ranked, keys, taken, budget, p, q);
    }
    assert Members(chosen) == taken;
  }

  lemma NothingSeen(blocks: seq<Block>, ranked: seq<nat>, keys: Keys, kept: set<nat>)
    requires Below(ranked, |blocks|)
    ensures Spent(blocks, ranked, kept, 0) == 0
    ensures SeenExact(blocks, ranked, keys, {}, 0) && SeenShapes(blocks, ranked, keys, {}, 0)
  {
  }

  /** What the walk looks at is what the rule asks. */
  lemma Decides(blocks: seq<Block>, ranked: seq<nat>, keys: Keys, exact: set<string>, shapes: set<string>,
                taken: set<nat>, budget: nat, p: nat)
    requires p < |ranked| && Below(ranked, |blocks|)
    requires SeenExact(blocks, ranked, keys, exact, p) && SeenShapes(blocks, ranked, keys, shapes, p)
    ensures
      var block := blocks[ranked[p]];
      var used := Spent(blocks, ranked, taken, p);
      Deserves(blocks, ranked, keys, taken, budget, p) <==>
        && keys.exact(block.text) !in exact
        && (Shapes(block, keys) * shapes == {} || block.mandatory)
        && (used + Cost(block) <= budget || used == 0)
  {
    hide Repeated, ShapedAlike, SeenExact, SeenShapes, Shapes, Spent;
    Judged(blocks, ranked, keys, exact, shapes, p);
  }

  lemma NothingMoreFits(blocks: seq<Block>, ranked: seq<nat>, keys: Keys, taken: set<nat>, budget: nat, p: nat, q: nat)
    requires p <= q < |ranked| && Below(ranked, |blocks|) && Distinct(ranked)
    requires Spent(blocks, ranked, taken, p) >= budget && Spent(blocks, ranked, taken, p) > 0
    requires forall i :: i in taken ==> i in ranked[..p]
    ensures ranked[q] !in taken && !Deserves(blocks, ranked, keys, taken, budget, q)
  {
    SpentGrows(blocks, ranked, taken, p, q);
  }

  /** `exact` holds the exact keys of the first `p` ranked blocks. */
  ghost predicate SeenExact(blocks: seq<Block>, ranked: seq<nat>, keys: Keys, exact: set<string>, p: nat)
    requires p <= |ranked| && Below(ranked, |blocks|)
  {
    && (forall q :: 0 <= q < p ==> keys.exact(blocks[ranked[q]].text) in exact)
    && (forall key :: key in exact ==> exists q :: 0 <= q < p && keys.exact(blocks[ranked[q]].text) == key)
  }

  /** `shapes` holds the shapes of the first `p` ranked blocks. */
  ghost predicate SeenShapes(blocks: seq<Block>, ranked: seq<nat>, keys: Keys, shapes: set<string>, p: nat)
    requires p <= |ranked| && Below(ranked, |blocks|)
  {
    && (forall q :: 0 <= q < p ==> Shapes(blocks[ranked[q]], keys) <= shapes)
    && (forall shape :: shape in shapes ==> exists q :: 0 <= q < p && shape in Shapes(blocks[ranked[q]], keys))
  }

  lemma Judged(blocks: seq<Block>, ranked: seq<nat>, keys: Keys, exact: set<string>, shapes: set<string>, p: nat)
    requires p < |ranked| && Below(ranked, |blocks|)
    requires SeenExact(blocks, ranked, keys, exact, p) && SeenShapes(blocks, ranked, keys, shapes, p)
    ensures keys.exact(blocks[ranked[p]].text) in exact <==> Repeated(blocks, ranked, keys, p)
    ensures Shapes(blocks[ranked[p]], keys) * shapes != {} <==> ShapedAlike(blocks, ranked, keys, p)
  {
    hide Shapes;
    var mine := Shapes(blocks[ranked[p]], keys);
    if mine * shapes != {} {
      var shape :| shape in mine && shape in shapes;
      var q :| 0 <= q < p && shape in Shapes(blocks[ranked[q]], keys);
      assert shape in Shapes(blocks[ranked[q]], keys) * mine;
    }
    if ShapedAlike(blocks, ranked, keys, p) {
      var q :| 0 <= q < p && Shapes(blocks[ranked[q]], keys) * mine != {};
      var shape :| shape in Shapes(blocks[ranked[q]], keys) * mine;
      assert shape in mine * shapes;
    }
  }

  lemma SeenOneMore(blocks: seq<Block>, ranked: seq<nat>, keys: Keys, exact: set<string>, shapes: set<string>, p: nat)
    requires p < |ranked| && Below(ranked, |blocks|)
    requires SeenExact(blocks, ranked, keys, exact, p) && SeenShapes(blocks, ranked, keys, shapes, p)
    ensures SeenExact(blocks, ranked, keys, exact + {keys.exact(blocks[ranked[p]].text)}, p + 1)
    ensures SeenShapes(blocks, ranked, keys, shapes + Shapes(blocks[ranked[p]], keys), p + 1)
  {
    hide Shapes;
  }

  /** Keeping or leaving the next block changes nothing about those above it. */
  lemma TakeOne(blocks: seq<Block>, ranked: seq<nat>, keys: Keys, taken: set<nat>, budget: nat, p: nat, take: bool)
    requires p < |ranked| && Below(ranked, |blocks|) && Distinct(ranked)
    requires forall i :: i in taken ==> i in ranked[..p]
    requires take <==> Deserves(blocks, ranked, keys, taken, budget, p)
    requires forall q :: 0 <= q < p ==> (ranked[q] in taken <==> Deserves(blocks, ranked, keys, taken, budget, q))
    ensures
      var taken' := if take then taken + {ranked[p]} else taken;
      && ranked[p] !in taken
      && (forall i :: i in taken' ==> i in ranked[..p + 1])
      && Spent(blocks, ranked, taken', p + 1)
           == Spent(blocks, ranked, taken, p) + (if take then Cost(blocks[ranked[p]]) else 0)
      && forall q :: 0 <= q < p + 1 ==> (ranked[q] in taken' <==> Deserves(blocks, ranked, keys, taken', budget, q))
  {
    hide Repeated, ShapedAlike;
    if take {
      forall q | 0 <= q <= p ensures Spent(blocks, ranked, taken + {ranked[p]}, q) == Spent(blocks, ranked, taken, q) {
        LaterBlocksCostNothingYet(blocks, ranked, taken, p, q);
      }
    }
  }

  // ---- what follows from the rule -------------------------------------------

  /** The best block is always kept, and the kept ones stay within the budget
      unless that one alone is over it. */
  lemma SelectionFitsBudget(blocks: seq<Block>, keys: Keys, kept: set<nat>, budget: nat)
    requires IsSelection(blocks, keys, kept, budget) && blocks != []
    ensures Below(Ranked(blocks), |blocks|) && |Ranked(blocks)| == |blocks| && Ranked(blocks)[0] in kept
    ensures
      || Spent(blocks, Ranked(blocks), kept, |blocks|) <= budget
      || forall p :: 0 < p < |blocks| ==> Ranked(blocks)[p] !in kept
  {
    hide Ranked;
    RankedIsRight(blocks);
    assert Ranked(blocks)[0] in kept by {
      assert Deserves(blocks, Ranked(blocks), keys, kept, budget, 0);
    }
    PrefixFitsBudget(blocks, keys, kept, budget, |blocks|);
  }

  lemma {:induction false} PrefixFitsBudget(blocks: seq<Block>, keys: Keys, kept: set<nat>, budget: nat, p: nat)
    requires IsSelection(blocks, keys, kept, budget)
    requires 0 < p <= |blocks| && Below(Ranked(blocks), |blocks|) && |Ranked(blocks)| == |blocks|
    requires Ranked(blocks)[0] in kept
    ensures
      || Spent(blocks, Ranked(blocks), kept, p) <= budget
      || (&& Spent(blocks, Ranked(blocks), kept, p) == Cost(blocks[Ranked(blocks)[0]])
          && forall q :: 0 < q < p ==> Ranked(blocks)[q] !in kept)
    decreases p
  {
    hide Ranked, Repeated, ShapedAlike;
    var ranked := Ranked(blocks);
    if p > 1 {
      PrefixFitsBudget(blocks, keys, kept, budget, p - 1);
      SpentGrows(blocks, ranked, kept, 1, p - 1);
      assert Spent(blocks, ranked, kept, 1) == Cost(blocks[ranked[0]]);
      assert ranked[p - 1] in kept <==> Deserves(blocks, ranked, keys, kept, budget, p - 1);
    } else {
      assert Spent(blocks, ranked, kept, 1) == Cost(blocks[ranked[0]]);
    }
  }

  /** No two kept blocks read the same, and a kept block that is not mandatory
      is shaped like no block ranked above it, kept or not. */
  lemma SelectionHasNoRepeats(blocks: seq<Block>, keys: Keys, kept: set<nat>, budget: nat, i: nat, j: nat)
    requires IsSelection(blocks, keys, kept, budget)
    requires j < |blocks| && i < |blocks| && j in kept && Outranks(blocks, i, j)
    ensures keys.exact(blocks[i].text) != keys.exact(blocks[j].text)
    ensures blocks[j].mandatory || Shapes(blocks[i], keys) * Shapes(blocks[j], keys) == {}
  {
    hide Ranked, Shapes, Affordable;
    RankedIsRight(blocks);
    var ranked := Ranked(blocks);
    assert i in ranked && j in ranked;
    var p :| 0 <= p < |ranked| && ranked[p] == i;
    var q :| 0 <= q < |ranked| && ranked[q] == j;
    if q <= p { OutranksIsStrict(blocks, i, j); }
    assert Deserves(blocks, ranked, keys, kept, budget, q);
  }

  lemma OutranksIsStrict(blocks: seq<Block>, i: nat, j: nat)
    requires Outranks(blocks, i, j)
    ensures i != j && !Outranks(blocks, j, i)
  {
  }

  /** The block shares neither its text nor a shape with any other. */
  ghost predicate Alone(blocks: seq<Block>, keys: Keys, i: nat)
    requires i < |blocks|
  {
    forall k :: 0 <= k < |blocks| && k != i ==>
      keys.exact(blocks[k].text) != keys.exact(blocks[i].text) && Shapes(blocks[k], keys) * Shapes(blocks[i], keys) == {}
  }

  /** The better of two equally mandatory blocks, unlike all others and no longer, is
      kept if the worse one is. */
  lemma BetterIsKept(blocks: seq<Block>, keys: Keys, kept: set<nat>, budget: nat, i: nat, j: nat)
    requires IsSelection(blocks, keys, kept, budget) && i < |blocks| && j < |blocks| && j in kept
    requires blocks[i].mandatory == blocks[j].mandatory && blocks[i].score > blocks[j].score
    requires |blocks[i].text| <= |blocks[j].text| && Alone(blocks, keys, i)
    ensures i in kept
  {
    hide Ranked, Shapes, Spent;
    RankedIsRight(blocks);
    var ranked := Ranked(blocks);
    assert i in ranked && j in ranked;
    var p :| 0 <= p < |ranked| && ranked[p] == i;
    var q :| 0 <= q < |ranked| && ranked[q] == j;
    assert p < q;
    assert Deserves(blocks, ranked, keys, kept, budget, q);
    SpentGrows(blocks, ranked, kept, p, q);
    forall r | 0 <= r < p ensures ranked[r] != i { }
    assert Deserves(blocks, ranked, keys, kept, budget, p);
  }

  /** A block left out repeats a better one, is optional and shaped like a better
      one, or does not fit beside the better ones that were kept. */
  lemma OmissionsAreExplained(blocks: seq<Block>, keys: Keys, kept: set<nat>, budget: nat, p: nat)
    requires IsSelection(blocks, keys, kept, budget)
    requires Below(Ranked(blocks), |blocks|) && p < |Ranked(blocks)| == |blocks| && Ranked(blocks)[p] !in kept
    ensures
      var ranked := Ranked(blocks);
      || Repeated(blocks, ranked, keys, p)
      || (!blocks[ranked[p]].mandatory && ShapedAlike(blocks, ranked, keys, p))
      || Spent(blocks, ranked, kept, p) + |blocks[ranked[p]].text| + 2 > budget
  {
    assert !Deserves(blocks, Ranked(blocks), keys, kept, budget, p);
  }
}
