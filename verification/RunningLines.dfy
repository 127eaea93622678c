/** Running headers and footers: lines repeated across many pages are kept once. */
module RunningLines {
  import opened Counting
  import opened Domain
  import opened Distill

  const MAX_RUNNING_LINE_CHARACTERS := 120

  predicate Short(b: Block) {
    |b.text| <= MAX_RUNNING_LINE_CHARACTERS
  }

  /** A short line of this shape; `shape` blanks digits, so page numbers do not
      tell two footers apart. */
  predicate Shaped(b: Block, shape: string -> string, s: string) {
    |b.text| <= 120 && shape(b.text) == s
  }

  /** The pages some short line of this shape is on. */
  function PagesOf(blocks: seq<Block>, shape: string -> string, s: string): set<nat> {
    set i | 0 <= i < |blocks| && Shaped(blocks[i], shape, s) :: blocks[i].page
  }

  function Threshold(pageCount: nat): nat {
    if pageCount / 2 < 3 then 3 else pageCount / 2
  }

  /** Short lines of this shape are on three pages at least, and on half of them. */
  predicate Running(blocks: seq<Block>, shape: string -> string, pageCount: nat, s: string) {
    |PagesOf(blocks, shape, s)| >= 3 && |PagesOf(blocks, shape, s)| >= pageCount / 2
  }

  /** The `i`-th block stays unless it is a running line seen before. */
  predicate Stays(blocks: seq<Block>, shape: string -> string, pageCount: nat, i: nat)
    requires i < |blocks|
  {
    && (|blocks[i].text| <= 120 && Running(blocks, shape, pageCount, shape(blocks[i].text)) ==>
          forall j :: 0 <= j < i ==> !Shaped(blocks[j], shape, shape(blocks[i].text)))
  }

  /** The first `n` blocks, without the running lines seen before. */
  function Collapsed(blocks: seq<Block>, shape: string -> string, pageCount: nat, n: nat): seq<Block>
    requires n <= |blocks|
  {
    if n == 0 then []
    else Collapsed(blocks, shape, pageCount, n - 1)
         + (if Stays(blocks, shape, pageCount, n - 1) then [blocks[n - 1]] else [])
  }

  /** What collapsing a document of so many pages leaves. */
  function Result(blocks: seq<Block>, shape: string -> string, pageCount: nat): seq<Block> {
    if pageCount < 3 then blocks else Collapsed(blocks, shape, pageCount, |blocks|)
  }

  method CollapseRunningLines(blocks: seq<Block>, shape: string -> string, pageCount: nat) returns (left: seq<Block>)
    ensures left == Result(blocks, shape, pageCount)
  {
    if pageCount < 3 { return blocks; }
    var pages := CountPages(blocks, shape);
    var running := set s | s in pages && |pages[s]| >= Threshold(pageCount);
    left := Retain(blocks, shape, pageCount, running);
  }

  /** Drops the running lines seen before. */
  method Retain(blocks: seq<Block>, shape: string -> string, pageCount: nat, running: set<string>)
    returns (left: seq<Block>)
    requires forall s :: s in running <==> Running(blocks, shape, pageCount, s)
    ensures left == Collapsed(blocks, shape, pageCount, |blocks|)
  {
    hide Running, Shaped;
    var seen: set<string> := {};
    left := [];
    for i := 0 to |blocks|
      invariant left == Collapsed(blocks, shape, pageCount, i)
      invariant forall s :: s in running ==> (s in seen <==> exists j :: 0 <= j < i && Shaped(blocks[j], shape, s))
    {
      var s := shape(blocks[i].text);
      ShapedByItself(blocks[i], shape);
      if !Short(blocks[i]) || s !in running {
        left := left + [blocks[i]];
      } else {
        if s !in seen { left := left + [blocks[i]]; }
        seen := seen + {s};
      }
    }
  }

  lemma ShapedByItself(b: Block, shape: string -> string)
    ensures Short(b) <==> |b.text| <= 120
    ensures forall s :: Shaped(b, shape, s) <==> |b.text| <= 120 && s == shape(b.text)
  {
  }

  method CountPages(blocks: seq<Block>, shape: string -> string) returns (pages: map<string, set<nat>>)
    ensures forall s :: (if s in pages then pages[s] else {}) == PagesOf(blocks, shape, s)
  {
    pages := map[];
    for i := 0 to |blocks|
      invariant forall s :: (if s in pages then pages[s] else {}) == PagesOf(blocks[..i], shape, s)
    {
      var s := shape(blocks[i].text);
      forall t ensures PagesOf(blocks[..i + 1], shape, t)
        == PagesOf(blocks[..i], shape, t) + (if Shaped(blocks[i], shape, t) then {blocks[i].page} else {})
      {
        OneMoreBlock(blocks, shape, i, t);
      }
      if Short(blocks[i]) {
        pages := pages[s := (if s in pages then pages[s] else {}) + {blocks[i].page}];
      }
    }
    assert blocks[..|blocks|] == blocks;
  }

  lemma OneMoreBlock(blocks: seq<Block>, shape: string -> string, i: nat, s: string)
    requires i < |blocks|
    ensures PagesOf(blocks[..i + 1], shape, s)
         == PagesOf(blocks[..i], shape, s) + (if Shaped(blocks[i], shape, s) then {blocks[i].page} else {})
  {
    var before, after := blocks[..i], blocks[..i + 1];
    assert forall j :: 0 <= j < i ==> after[j] == before[j];
    assert after[i] == blocks[i];
  }

  // ---- collapsing again -----------------------------------------------------

  lemma {:induction false} ComesFrom(blocks: seq<Block>, shape: string -> string, pageCount: nat, n: nat, k: nat)
    returns (i: nat)
    requires n <= |blocks| && k < |Collapsed(blocks, shape, pageCount, n)|
    ensures i < n && Collapsed(blocks, shape, pageCount, n)[k] == blocks[i] && Stays(blocks, shape, pageCount, i)
    decreases n
  {
    hide Stays;
    if k < |Collapsed(blocks, shape, pageCount, n - 1)| {
      i := ComesFrom(blocks, shape, pageCount, n - 1, k);
    } else {
      i := n - 1;
    }
  }

  /** After collapsing, nothing runs any more. */
  lemma NothingRuns(blocks: seq<Block>, shape: string -> string, pageCount: nat, s: string)
    ensures !Running(Collapsed(blocks, shape, pageCount, |blocks|), shape, pageCount, s)
  {
    var left := Collapsed(blocks, shape, pageCount, |blocks|);
    var pages := PagesOf(left, shape, s);
    if Running(blocks, shape, pageCount, s) {
      forall p, q | p in pages && q in pages ensures p == q {
        var j :| 0 <= j < |left| && Shaped(left[j], shape, s) && left[j].page == p;
        var k :| 0 <= k < |left| && Shaped(left[k], shape, s) && left[k].page == q;
        var a := ComesFrom(blocks, shape, pageCount, |blocks|, j);
        var b := ComesFrom(blocks, shape, pageCount, |blocks|, k);
        assert Shaped(blocks[a], shape, s) && Shaped(blocks[b], shape, s);
      }
      AtMostOne(pages);
    } else {
      forall p | p in pages ensures p in PagesOf(blocks, shape, s) {
        var j :| 0 <= j < |left| && Shaped(left[j], shape, s) && left[j].page == p;
        var a := ComesFrom(blocks, shape, pageCount, |blocks|, j);
      }
      SubsetIsNoLarger(pages, PagesOf(blocks, shape, s));
    }
  }

  lemma {:induction false} AllStay(blocks: seq<Block>, shape: string -> string, pageCount: nat, n: nat)
    requires n <= |blocks| && forall s :: !Running(blocks, shape, pageCount, s)
    ensures Collapsed(blocks, shape, pageCount, n) == blocks[..n]
    decreases n
  {
    if n > 0 { AllStay(blocks, shape, pageCount, n - 1); }
  }

  /** Collapsing is done after one pass: a second one changes nothing. */
  lemma CollapsingTwiceIsOnce(blocks: seq<Block>, shape: string -> string, pageCount: nat)
    ensures Result(Result(blocks, shape, pageCount), shape, pageCount) == Result(blocks, shape, pageCount)
  {
    hide Collapsed, Running;
    if pageCount >= 3 {
      var left := Collapsed(blocks, shape, pageCount, |blocks|);
      forall s ensures !Running(left, shape, pageCount, s) { NothingRuns(blocks, shape, pageCount, s); }
      AllStay(left, shape, pageCount, |left|);
    }
  }

  lemma {:induction false} WhatStaysIsLeft(blocks: seq<Block>, shape: string -> string, pageCount: nat, n: nat, i: nat)
    requires i < n <= |blocks| && Stays(blocks, shape, pageCount, i)
    ensures blocks[i] in Collapsed(blocks, shape, pageCount, n)
    decreases n
  {
    hide Stays;
    if i < n - 1 { WhatStaysIsLeft(blocks, shape, pageCount, n - 1, i); }
  }

  /** Nothing is lost altogether: each block is left, or a short line of its
      shape is. */
  lemma {:induction false} EveryLineIsKeptOnce(blocks: seq<Block>, shape: string -> string, pageCount: nat, i: nat)
    requires i < |blocks|
    ensures exists b :: b in Result(blocks, shape, pageCount) && (b == blocks[i] || Shaped(b, shape, shape(blocks[i].text)))
    decreases i
  {
    hide Collapsed;
    if pageCount < 3 {
      assert blocks[i] in Result(blocks, shape, pageCount);
    } else if Stays(blocks, shape, pageCount, i) {
      WhatStaysIsLeft(blocks, shape, pageCount, |blocks|, i);
      assert blocks[i] in Result(blocks, shape, pageCount);
    } else {
      var j :| 0 <= j < i && Shaped(blocks[j], shape, shape(blocks[i].text));
      EveryLineIsKeptOnce(blocks, shape, pageCount, j);
    }
  }
}
