/**
 * The tree of block index nodes and the pointers that mark the best chain.
 * Connecting and disconnecting the blocks' transactions is a parameter.
 * Source: src/main.h, CBlockIndex; src/main.cpp, Reorganize, SetBestChain,
 * SetBestChainInner, FindBlockByHeight, AddToBlockIndex.
 */
module ChainIndex {
  import opened Bytes

  class BlockIndex {
    const pprev: BlockIndex?
    const height: nat
    const work: nat
    var pnext: BlockIndex?

    constructor (prev: BlockIndex?, height: nat, work: nat)
      ensures this.pprev == prev && this.height == height && this.work == work && pnext == null
    {
      this.pprev, this.height, this.work := prev, height, work;
      pnext := null;
    }
  }

  // ----- Paths -----

  /** Heights count the steps back to a node without predecessor. */
  ghost predicate Rooted(b: BlockIndex)
    decreases b.height
  {
    if b.height == 0 then b.pprev == null
    else b.pprev != null && b.pprev.height == b.height - 1 && Rooted(b.pprev)
  }

  /** The blocks from the root to b. */
  ghost function Path(b: BlockIndex): (p: seq<BlockIndex>)
    requires Rooted(b)
    ensures |p| == b.height + 1 && p[b.height] == b
    ensures forall i :: 0 <= i <= b.height ==> p[i].height == i && Rooted(p[i])
    decreases b.height
  {
    if b.height == 0 then [b] else Path(b.pprev) + [b]
  }

  /** Every node on a path carries the path up to itself. */
  lemma {:induction false} PathPrefix(b: BlockIndex, i: nat)
    requires Rooted(b) && i <= b.height
    ensures Path(Path(b)[i]) == Path(b)[..i + 1]
    decreases b.height
  {
    if i == b.height {
      assert Path(b)[..i + 1] == Path(b);
    } else {
      PathPrefix(b.pprev, i);
      assert Path(b)[..i + 1] == Path(b.pprev)[..i + 1] && Path(b)[i] == Path(b.pprev)[i];
    }
  }

  ghost predicate IsAncestor(a: BlockIndex, b: BlockIndex)
    requires Rooted(b)
  {
    a.height <= b.height && Path(b)[a.height] == a
  }

  lemma AncestorPath(a: BlockIndex, b: BlockIndex)
    requires Rooted(b) && IsAncestor(a, b)
    ensures Rooted(a) && Path(a) == Path(b)[..a.height + 1]
    ensures forall c :: IsAncestor(c, a) ==> IsAncestor(c, b)
    ensures forall c :: IsAncestor(c, b) && c.height <= a.height ==> IsAncestor(c, a)
  {
    PathPrefix(b, a.height);
  }

  lemma ParentIsAncestor(b: BlockIndex)
    requires Rooted(b) && b.height > 0
    ensures IsAncestor(b.pprev, b)
    ensures forall c :: IsAncestor(c, b) && c != b ==> IsAncestor(c, b.pprev)
  {
  }

  // ----- The tree and the pnext pointers -----

  /** A set of nodes closed under pprev with one root. */
  ghost predicate Tree(all: set<BlockIndex>, genesis: BlockIndex) {
    && genesis in all && genesis.height == 0
    && (forall b :: b in all ==> Rooted(b) && Path(b)[0] == genesis)
    && (forall b :: b in all && b.pprev != null ==> b.pprev in all)
  }

  lemma {:induction false} PathInTree(all: set<BlockIndex>, genesis: BlockIndex, b: BlockIndex)
    requires Tree(all, genesis) && b in all
    ensures Rooted(b)
    ensures forall i :: 0 <= i <= b.height ==> Path(b)[i] in all
    decreases b.height
  {
    if b.height > 0 { PathInTree(all, genesis, b.pprev); }
  }

  lemma SameRoot(all: set<BlockIndex>, genesis: BlockIndex, a: BlockIndex, b: BlockIndex)
    requires Tree(all, genesis) && a in all && b in all
    ensures Rooted(a) && Rooted(b) && Path(a)[0] == Path(b)[0]
  {
  }

  /** The successor of b on the path to tip, or null. */
  ghost function NextOn(b: BlockIndex, tip: BlockIndex): BlockIndex?
    requires Rooted(tip)
  {
    if IsAncestor(b, tip) && b.height < tip.height then Path(tip)[b.height + 1] else null
  }

  /** The pnext pointers describe exactly the path to tip. */
  ghost predicate Linked(all: set<BlockIndex>, tip: BlockIndex)
    requires Rooted(tip)
    reads all
  {
    forall b :: b in all ==> b.pnext == NextOn(b, tip)
  }

  predicate IsInMainChain(b: BlockIndex, best: BlockIndex)
    reads b
  {
    b.pnext != null || b == best
  }

  /** With the pointers linked, a block is in the main chain exactly when it is an ancestor-or-self of the tip. */
  lemma MainChainIsPath(all: set<BlockIndex>, best: BlockIndex, b: BlockIndex)
    requires Rooted(best) && Linked(all, best) && b in all
    ensures IsInMainChain(b, best) <==> IsAncestor(b, best)
  {
  }

  // ----- Finding the fork -----

  /** The highest block on both paths. */
  ghost predicate IsFork(fork: BlockIndex, a: BlockIndex, b: BlockIndex)
    requires Rooted(a) && Rooted(b)
  {
    && IsAncestor(fork, a) && IsAncestor(fork, b)
    && forall i :: fork.height < i <= a.height && i <= b.height ==> Path(a)[i] != Path(b)[i]
  }

  /** The two-pointer search of Reorganize; it never runs off the root. */
  method FindFork(best: BlockIndex, newTip: BlockIndex) returns (fork: BlockIndex)
    requires Rooted(best) && Rooted(newTip) && Path(best)[0] == Path(newTip)[0]
    ensures IsFork(fork, best, newTip)
  {
    fork := best;
    var longer: BlockIndex := newTip;
    while fork != longer
      invariant IsAncestor(fork, best) && IsAncestor(longer, newTip)
      invariant Rooted(fork) && Rooted(longer) && Path(fork)[0] == Path(longer)[0]
      invariant forall c :: IsAncestor(c, best) && IsAncestor(c, newTip) ==>
                IsAncestor(c, fork) && IsAncestor(c, longer)
      decreases fork.height + longer.height
    {
      ghost var start := longer.height;
      while longer.height > fork.height
        invariant IsAncestor(longer, newTip) && Rooted(longer) && Path(fork)[0] == Path(longer)[0]
        invariant forall c :: IsAncestor(c, best) && IsAncestor(c, newTip) ==>
                  IsAncestor(c, fork) && IsAncestor(c, longer)
        invariant longer.height <= start
        decreases longer.height
      {
        ghost var was := longer;
        StepBack(longer, newTip);
        longer := longer.pprev;
        forall c | IsAncestor(c, best) && IsAncestor(c, newTip) ensures IsAncestor(c, fork) && IsAncestor(c, longer) {
          assert IsAncestor(c, fork) && IsAncestor(c, was) && c != was;
        }
      }
      if fork == longer { break; }
      assert fork.height > 0;
      ghost var was := fork;
      StepBack(fork, best);
      fork := fork.pprev;
      forall c | IsAncestor(c, best) && IsAncestor(c, newTip) ensures IsAncestor(c, fork) && IsAncestor(c, longer) {
        assert IsAncestor(c, was) && IsAncestor(c, longer) && c != was;
      }
    }
    forall i | fork.height < i <= best.height && i <= newTip.height ensures Path(best)[i] != Path(newTip)[i] {
      var c := Path(best)[i];
      assert IsAncestor(c, best) && !IsAncestor(c, fork);
    }
  }

  lemma StepBack(b: BlockIndex, tip: BlockIndex)
    requires Rooted(tip) && IsAncestor(b, tip) && b.height > 0
    ensures Rooted(b) && b.pprev != null && b.pprev.height == b.height - 1
    ensures Rooted(b.pprev) && IsAncestor(b.pprev, tip) && Path(b.pprev)[0] == Path(b)[0]
    ensures forall c :: IsAncestor(c, b) && c != b ==> IsAncestor(c, b.pprev)
  {
    AncestorPath(b, tip);
    ParentIsAncestor(b);
    assert Path(b)[0] == Path(b.pprev)[0];
  }

  /** The blocks above fork on the way to tip, tip first. */
  method BlocksAbove(tip: BlockIndex, fork: BlockIndex) returns (list: seq<BlockIndex>)
    requires Rooted(tip) && IsAncestor(fork, tip)
    ensures |list| == tip.height - fork.height
    ensures forall i :: 0 <= i < |list| ==> list[i] == Path(tip)[tip.height - i]
  {
    list := [];
    var b: BlockIndex := tip;
    while b != fork
      invariant IsAncestor(b, tip) && Rooted(b) && IsAncestor(fork, b)
      invariant |list| == tip.height - b.height
      invariant forall i :: 0 <= i < |list| ==> list[i] == Path(tip)[tip.height - i]
      decreases b.height
    {
      list := list + [b];
      assert b.height > 0;
      ParentIsAncestor(b);
      StepBack(b, tip);
      b := b.pprev;
    }
  }

  // ----- Relinking -----

  /** Cuts the pointers into the abandoned branch. */
  method Unlink(all: set<BlockIndex>, list: seq<BlockIndex>)
    requires forall i :: 0 <= i < |list| ==> list[i].pprev != null ==> list[i].pprev in all
    modifies all
    ensures forall b :: b in all ==>
              b.pnext == if (exists i :: 0 <= i < |list| && list[i].pprev == b) then null else old(b.pnext)
  {
    for i := 0 to |list|
      invariant forall b :: b in all ==>
                  b.pnext == if (exists j :: 0 <= j < i && list[j].pprev == b) then null else old(b.pnext)
    {
      if list[i].pprev != null { list[i].pprev.pnext := null; }
    }
  }

  /** Points each parent at its child; no two children share a parent. */
  method Relink(all: set<BlockIndex>, list: seq<BlockIndex>)
    requires forall i :: 0 <= i < |list| ==> list[i].pprev != null ==> list[i].pprev in all
    requires forall i, j :: 0 <= i < j < |list| ==> list[i].pprev != list[j].pprev
    modifies all
    ensures forall i :: 0 <= i < |list| && list[i].pprev != null ==> list[i].pprev.pnext == list[i]
    ensures forall b :: b in all && (forall i :: 0 <= i < |list| ==> list[i].pprev != b) ==> b.pnext == old(b.pnext)
  {
    for i := 0 to |list|
      invariant forall j :: 0 <= j < i && list[j].pprev != null ==> list[j].pprev.pnext == list[j]
      invariant forall b :: b in all && (forall j :: 0 <= j < i ==> list[j].pprev != b) ==> b.pnext == old(b.pnext)
    {
      if list[i].pprev != null { list[i].pprev.pnext := list[i]; }
    }
  }

  lemma PathParent(b: BlockIndex, i: nat)
    requires Rooted(b) && 0 < i <= b.height
    ensures Path(b)[i].pprev == Path(b)[i - 1]
  {
    PathPrefix(b, i);
    PathPrefix(b, i - 1);
    var c := Path(b)[i];
    assert Path(c) == Path(c.pprev) + [c];
    assert Path(c)[i - 1] == Path(b)[i - 1];
  }

  lemma ForkSharesPrefix(fork: BlockIndex, a: BlockIndex, b: BlockIndex, i: nat)
    requires Rooted(a) && Rooted(b) && IsFork(fork, a, b)
    requires i <= a.height && i <= b.height
    ensures i <= fork.height <==> Path(a)[i] == Path(b)[i]
  {
    if i <= fork.height {
      AncestorPath(fork, a);
      AncestorPath(fork, b);
      assert Path(a)[i] == Path(a)[..fork.height + 1][i] == Path(b)[..fork.height + 1][i] == Path(b)[i];
    }
  }

  /**
   * Moves the pnext pointers from the path to best to the path to newTip.
   * committed says whether every disconnect, connect and the commit succeeded.
   */
  method Reorganize(all: set<BlockIndex>, genesis: BlockIndex, best: BlockIndex, newTip: BlockIndex, committed: bool)
    returns (ok: bool, disconnect: seq<BlockIndex>, connect: seq<BlockIndex>)
    requires Tree(all, genesis) && best in all && newTip in all && Linked(all, best)
    modifies all
    ensures ok == committed
    ensures ok ==> Linked(all, newTip)
    ensures !ok ==> Linked(all, best) && forall b :: b in all ==> b.pnext == old(b.pnext)
    ensures exists fork :: IsFork(fork, best, newTip)
              && disconnect == Reverse(Path(best)[fork.height + 1..]) && connect == Path(newTip)[fork.height + 1..]
  {
    hide Path, Tree, Rooted, Linked;
    PathInTree(all, genesis, best);
    PathInTree(all, genesis, newTip);
    SameRoot(all, genesis, best, newTip);
    var fork := FindFork(best, newTip);
    disconnect := BlocksAbove(best, fork);
    var above := BlocksAbove(newTip, fork);
    connect := Reverse(above);
    assert disconnect == Reverse(Path(best)[fork.height + 1..]);
    assert connect == Path(newTip)[fork.height + 1..];
    ok := committed;
    if !committed { return; }
    ListParents(all, genesis, best, fork, disconnect, true);
    ListParents(all, genesis, newTip, fork, connect, false);
    MovePointers(all, best, newTip, fork, disconnect, connect);
  }

  /** Disconnect the shorter branch, connect the longer one. */
  method MovePointers(all: set<BlockIndex>, best: BlockIndex, newTip: BlockIndex, ghost fork: BlockIndex,
                      disconnect: seq<BlockIndex>, connect: seq<BlockIndex>)
    requires Rooted(best) && Rooted(newTip) && IsFork(fork, best, newTip) && Linked(all, best)
    requires connect == Path(newTip)[fork.height + 1..]
    requires forall i :: 0 <= i < |disconnect| ==> disconnect[i].pprev != null && disconnect[i].pprev in all
    requires forall i :: 0 <= i < |connect| ==> connect[i].pprev != null && connect[i].pprev in all
    requires forall i, j :: 0 <= i < j < |connect| ==> connect[i].pprev != connect[j].pprev
    requires forall b :: b in all ==>
              (ParentOf(disconnect, b) <==> IsAncestor(b, best) && fork.height <= b.height < best.height)
    requires forall b :: b in all ==>
              (ParentOf(connect, b) <==> IsAncestor(b, newTip) && fork.height <= b.height < newTip.height)
    modifies all
    ensures Linked(all, newTip)
  {
    hide Path, Rooted, NextOn, IsFork;
    Unlink(all, disconnect);
    Relink(all, connect);
    forall b | b in all ensures b.pnext == NextOn(b, newTip) {
      NewNext(best, newTip, fork, disconnect, connect, b, b.pnext);
    }
  }

  ghost predicate ParentOf(list: seq<BlockIndex>, b: BlockIndex) {
    exists i :: 0 <= i < |list| && list[i].pprev == b
  }

  /** The parents of the blocks above fork are the path from fork up to just below tip. */
  lemma ListParents(all: set<BlockIndex>, genesis: BlockIndex, tip: BlockIndex, fork: BlockIndex, list: seq<BlockIndex>,
                    fromTip: bool)
    requires Tree(all, genesis) && tip in all && IsAncestor(fork, tip)
    requires |list| == tip.height - fork.height
    requires forall i :: 0 <= i < |list| ==>
              list[i] == Path(tip)[if fromTip then tip.height - i else fork.height + 1 + i]
    ensures forall i :: 0 <= i < |list| ==> list[i].pprev != null && list[i].pprev in all
    ensures forall i, j :: 0 <= i < j < |list| ==> list[i].pprev != list[j].pprev
    ensures forall b :: b in all ==> (ParentOf(list, b) <==> IsAncestor(b, tip) && fork.height <= b.height < tip.height)
  {
    hide Path, Tree, Rooted, ParentOf, ParentAt;
    PathInTree(all, genesis, tip);
    var f := fork.height;
    forall i | 0 <= i < |list| ensures ParentAt(all, tip, f, list, fromTip, i) {
      OneParent(all, tip, f, list, fromTip, i);
    }
    forall i | 0 <= i < |list| ensures list[i].pprev != null && list[i].pprev in all {
      assert ParentAt(all, tip, f, list, fromTip, i);
      ParentFacts(all, tip, f, list, fromTip, i);
    }
    forall b | b in all ensures ParentOf(list, b) <==> IsAncestor(b, tip) && f <= b.height < tip.height {
      ParentRange(all, tip, f, list, fromTip, b);
    }
    forall i, j | 0 <= i < j < |list| ensures list[i].pprev != list[j].pprev {
      ParentFacts(all, tip, f, list, fromTip, i);
      ParentFacts(all, tip, f, list, fromTip, j);
    }
  }

  lemma OneParent(all: set<BlockIndex>, tip: BlockIndex, f: nat, list: seq<BlockIndex>, fromTip: bool, i: nat)
    requires Rooted(tip) && f <= tip.height && |list| == tip.height - f && i < |list|
    requires list[i] == Path(tip)[if fromTip then tip.height - i else f + 1 + i]
    requires forall j :: 0 <= j <= tip.height ==> Path(tip)[j] in all
    ensures ParentAt(all, tip, f, list, fromTip, i)
  {
    hide Path, Rooted;
    PathParent(tip, list[i].height);
  }

  lemma ParentFacts(all: set<BlockIndex>, tip: BlockIndex, f: nat, list: seq<BlockIndex>, fromTip: bool, i: nat)
    requires Rooted(tip) && i < |list| && ParentAt(all, tip, f, list, fromTip, i)
    ensures list[i].pprev != null && list[i].pprev in all && IsAncestor(list[i].pprev, tip)
    ensures list[i].pprev.height == (if fromTip then tip.height - 1 - i else f + i)
  {
  }

  lemma ParentRange(all: set<BlockIndex>, tip: BlockIndex, f: nat, list: seq<BlockIndex>, fromTip: bool, b: BlockIndex)
    requires Rooted(tip) && f <= tip.height && |list| == tip.height - f
    requires forall i :: 0 <= i < |list| ==> list[i] == Path(tip)[if fromTip then tip.height - i else f + 1 + i]
    requires forall i :: 0 <= i < |list| ==> ParentAt(all, tip, f, list, fromTip, i)
    ensures ParentOf(list, b) <==> IsAncestor(b, tip) && f <= b.height < tip.height
  {
    hide Path, Rooted, ParentAt;
    if ParentOf(list, b) {
      var i :| 0 <= i < |list| && list[i].pprev == b;
      ParentFacts(all, tip, f, list, fromTip, i);
    }
    if IsAncestor(b, tip) && f <= b.height < tip.height { HasChild(tip, f, list, fromTip, b); }
  }

  ghost predicate ParentAt(all: set<BlockIndex>, tip: BlockIndex, f: nat, list: seq<BlockIndex>, fromTip: bool, i: nat)
    requires Rooted(tip) && i < |list|
  {
    && list[i].pprev != null && list[i].pprev in all && IsAncestor(list[i].pprev, tip)
    && list[i].pprev.height == (if fromTip then tip.height - 1 - i else f + i)
  }

  lemma HasChild(tip: BlockIndex, f: nat, list: seq<BlockIndex>, fromTip: bool, b: BlockIndex)
    requires Rooted(tip) && f <= tip.height && |list| == tip.height - f
    requires forall i :: 0 <= i < |list| ==> list[i] == Path(tip)[if fromTip then tip.height - i else f + 1 + i]
    requires IsAncestor(b, tip) && f <= b.height < tip.height
    ensures ParentOf(list, b)
  {
    hide Path;
    PathParent(tip, b.height + 1);
    if fromTip {
      var k := tip.height - (b.height + 1);
      assert list[k] == Path(tip)[b.height + 1];
    } else {
      var k := b.height - f;
      assert list[k] == Path(tip)[b.height + 1];
    }
  }

  lemma NewNext(best: BlockIndex, newTip: BlockIndex, fork: BlockIndex, disconnect: seq<BlockIndex>,
                connect: seq<BlockIndex>,
                b: BlockIndex, next: BlockIndex?)
    requires Rooted(best) && Rooted(newTip) && IsFork(fork, best, newTip)
    requires connect == Path(newTip)[fork.height + 1..]
    requires ParentOf(disconnect, b) <==> IsAncestor(b, best) && fork.height <= b.height < best.height
    requires ParentOf(connect, b) <==> IsAncestor(b, newTip) && fork.height <= b.height < newTip.height
    requires forall i :: 0 <= i < |connect| && connect[i].pprev == b ==> next == connect[i]
    requires !ParentOf(connect, b) ==> next == if ParentOf(disconnect, b) then null else NextOn(b, best)
    ensures next == NextOn(b, newTip)
  {
    hide Rooted, Path, NextOn, IsAncestor, IsFork, ParentOf;
    if b.height < fork.height { BelowFork(fork, best, newTip, b); }
    NextCases(b, best);
    NextCases(b, newTip);
    if ParentOf(connect, b) { OnConnect(newTip, fork, connect, b, next); }
  }

  lemma NextCases(b: BlockIndex, tip: BlockIndex)
    requires Rooted(tip)
    ensures NextOn(b, tip) == null || (IsAncestor(b, tip) && b.height < tip.height)
  {
    hide Path;
  }

  /** Below the fork both branches agree. */
  lemma BelowFork(fork: BlockIndex, best: BlockIndex, newTip: BlockIndex, b: BlockIndex)
    requires Rooted(best) && Rooted(newTip) && IsFork(fork, best, newTip) && b.height < fork.height
    ensures NextOn(b, best) == NextOn(b, newTip) && (IsAncestor(b, best) <==> IsAncestor(b, newTip))
    ensures fork.height <= best.height && fork.height <= newTip.height
  {
    hide Rooted;
    ForkSharesPrefix(fork, best, newTip, b.height);
    ForkSharesPrefix(fork, best, newTip, b.height + 1);
  }

  lemma OnConnect(newTip: BlockIndex, fork: BlockIndex, connect: seq<BlockIndex>, b: BlockIndex, next: BlockIndex?)
    requires Rooted(newTip) && fork.height <= newTip.height && connect == Path(newTip)[fork.height + 1..]
             && ParentOf(connect, b)
    requires forall i :: 0 <= i < |connect| && connect[i].pprev == b ==> next == connect[i]
    ensures next == NextOn(b, newTip)
  {
    hide Rooted, Path, NextOn;
    var i :| 0 <= i < |connect| && connect[i].pprev == b;
    var h := fork.height + 1 + i;
    assert connect[i] == Path(newTip)[h];
    PathParent(newTip, h);
    NextIs(newTip, h);
  }

  lemma NextIs(tip: BlockIndex, h: nat)
    requires Rooted(tip) && 0 < h <= tip.height
    ensures NextOn(Path(tip)[h - 1], tip) == Path(tip)[h]
  {
    hide Path;
  }

  // ----- Extending the best chain -----

  /** After tip.pnext := child the pointers describe the path to child. */
  method LinkChild(all: set<BlockIndex>, tip: BlockIndex, child: BlockIndex)
    requires Rooted(child) && child.height > 0 && child.pprev == tip && tip in all
    requires Rooted(tip) && Linked(all, tip)
    modifies tip
    ensures Linked(all, child)
  {
    tip.pnext := child;
    forall b | b in all ensures b.pnext == NextOn(b, child) {
      ChildNext(tip, child, b);
    }
  }

  lemma ChildNext(tip: BlockIndex, child: BlockIndex, b: BlockIndex)
    requires Rooted(child) && child.height > 0 && child.pprev == tip && Rooted(tip)
    ensures NextOn(b, child) == if b == tip then child else NextOn(b, tip)
  {
    assert Path(child) == Path(tip) + [child];
  }

  /** Pointers that stop at cursor do not describe the longer path to tip. */
  lemma StopsShort(all: set<BlockIndex>, cursor: BlockIndex, tip: BlockIndex)
    requires Rooted(tip) && Rooted(cursor) && IsAncestor(cursor, tip) && cursor != tip && cursor in all
    requires Linked(all, cursor)
    ensures !Linked(all, tip)
    ensures !IsInMainChain(cursor, tip)
  {
    assert cursor.pnext == NextOn(cursor, cursor) == null;
    assert NextOn(cursor, tip) != null;
  }

  /** The block up to which a switch to b reorganises: the lowest one whose parent has at most this work. */
  ghost function Intermediate(b: BlockIndex, work: nat): (r: BlockIndex)
    requires Rooted(b)
    ensures r.height <= b.height
    decreases b.height
  {
    if b.pprev == null || b.pprev.work <= work then b else Intermediate(b.pprev, work)
  }

  /** Every block of the path to tip above a height connects. */
  ghost predicate ConnectsAbove(tip: BlockIndex, height: nat, connects: BlockIndex -> bool)
    requires Rooted(tip)
  {
    forall h :: height < h <= tip.height ==> connects(Path(tip)[h])
  }

  /** Every inner connect of a switch from best to newTip succeeds. */
  ghost predicate InnerConnects(best: BlockIndex, newTip: BlockIndex, connects: BlockIndex -> bool)
    requires Rooted(newTip)
  {
    if newTip.pprev == best then connects(newTip)
    else ConnectsAbove(newTip, Intermediate(newTip, best.work).height, connects)
  }

  // ----- The best-chain globals -----

  class ChainState {
    var all: set<BlockIndex>
    var genesis: BlockIndex
    var best: BlockIndex
    /** The last block FindBlockByHeight returned. */
    var cache: BlockIndex?

    ghost predicate Valid()
      reads this, all
    {
      && Tree(all, genesis) && best in all && Linked(all, best)
      && (cache != null ==> IsAncestor(cache, best))
    }

    /** SetBestChain for the genesis block. */
    constructor (root: BlockIndex)
      requires root.pprev == null && root.height == 0 && root.pnext == null
      ensures Valid() && all == {root} && best == root && genesis == root
    {
      all, genesis, best, cache := {root}, root, root, null;
    }

    /** AddToBlockIndex: a new leaf below a known block. */
    method AddBlock(prev: BlockIndex, trust: nat) returns (b: BlockIndex)
      requires Valid() && prev in all
      modifies this
      ensures Valid() && fresh(b) && all == old(all) + {b} && best == old(best) && genesis == old(genesis)
      ensures b.pprev == prev && b.height == prev.height + 1 && b.work == prev.work + trust
    {
      hide Path, Tree, Rooted;
      PathInTree(all, genesis, best);
      b := new BlockIndex(prev, prev.height + 1, prev.work + trust);
      TreeGrows(all, genesis, prev, b);
      assert !IsAncestor(b, best);
      all := all + {b};
    }

    /**
     * committed: the database work of Reorganize succeeded.  connects: the
     * outcome of SetBestChainInner per block.  The switch takes place unless a
     * direct connect or the reorganisation fails; afterwards the pointers are
     * exact if and only if every inner connect succeeded.
     */
    method SetBestChain(newTip: BlockIndex, committed: bool, connects: BlockIndex -> bool, failedStake: bool)
      returns (ok: bool)
      requires Valid() && newTip in all && newTip != genesis
      modifies this, all
      ensures Rooted(newTip) && all == old(all) && genesis == old(genesis)
      ensures ok <==> if newTip.pprev == old(best) then connects(newTip) || failedStake else committed
      ensures !ok ==> Valid() && best == old(best)
      ensures ok ==> best == newTip && cache == null
      ensures ok ==> (Linked(all, newTip) <==> InnerConnects(old(best), newTip, connects))
      ensures ok && InnerConnects(old(best), newTip, connects) ==>
                Valid() && forall b :: b in all ==> (IsInMainChain(b, newTip) <==> IsAncestor(b, newTip))
      ensures ok && !InnerConnects(old(best), newTip, connects) ==>
                exists b :: b in all && IsAncestor(b, newTip) && !IsInMainChain(b, newTip)
    {
      hide Path, Linked, IsInMainChain, Tree, Rooted, ConnectsAbove, Intermediate;
      PathInTree(all, genesis, newTip);
      PathInTree(all, genesis, best);
      NotRoot(all, genesis, newTip);
      ghost var linked := true;
      if newTip.pprev == best {
        StepBack(newTip, newTip);
        if connects(newTip) {
          LinkChild(all, best, newTip);
        } else {
          if !failedStake { return false; }
          linked := false;
          StopsShort(all, best, newTip);
        }
      } else {
        var first, later := Postponed(all, genesis, best, newTip);
        var done, _, _ := Reorganize(all, genesis, best, first, committed);
        if !done { return false; }
        linked := ConnectLater(all, genesis, first, newTip, later, connects);
      }
      best, cache := newTip, null;
      if linked { AllInMainChain(all, best); }
      ok := true;
    }

    /** Blocks of the new branch that can be connected after the reorganisation proper. */
    static method Postponed(all: set<BlockIndex>, ghost genesis: BlockIndex, best: BlockIndex, newTip: BlockIndex)
      returns (first: BlockIndex, later: seq<BlockIndex>)
      requires Tree(all, genesis) && newTip in all && Rooted(newTip)
      ensures first in all && IsAncestor(first, newTip) && |later| == newTip.height - first.height
      ensures forall i :: 0 <= i < |later| ==> later[i] == Path(newTip)[newTip.height - i]
      ensures first == Intermediate(newTip, best.work)
    {
      hide Path, Tree;
      PathInTree(all, genesis, newTip);
      first, later := newTip, [];
      while first.pprev != null && first.pprev.work > best.work
        invariant first in all && IsAncestor(first, newTip) && |later| == newTip.height - first.height
        invariant forall i :: 0 <= i < |later| ==> later[i] == Path(newTip)[newTip.height - i]
        invariant Rooted(first) && Intermediate(first, best.work) == Intermediate(newTip, best.work)
        decreases first.height
      {
        later := later + [first];
        AncestorPath(first, newTip);
        HasParent(first);
        StepBack(first, newTip);
        first := first.pprev;
      }
    }

    /** Connects the postponed blocks one by one, stopping at the first failure. */
    static method ConnectLater(all: set<BlockIndex>, ghost genesis: BlockIndex, first: BlockIndex, newTip: BlockIndex,
                               later: seq<BlockIndex>, connects: BlockIndex -> bool)
      returns (linked: bool)
      requires Tree(all, genesis) && newTip in all && first in all && Rooted(newTip) && IsAncestor(first, newTip)
      requires Rooted(first) && Linked(all, first)
      requires |later| == newTip.height - first.height
      requires forall i :: 0 <= i < |later| ==> later[i] == Path(newTip)[newTip.height - i]
      modifies all
      ensures linked <==> Linked(all, newTip)
      ensures linked <==> ConnectsAbove(newTip, first.height, connects)
      ensures !linked ==> exists b :: b in all && IsAncestor(b, newTip) && !IsInMainChain(b, newTip)
    {
      hide Path, Tree, Linked, IsInMainChain, Rooted;
      PathInTree(all, genesis, newTip);
      ghost var cursor := first;
      var i := |later|;
      while i > 0
        invariant 0 <= i <= |later|
        invariant cursor in all && IsAncestor(cursor, newTip) && cursor.height == newTip.height - i
        invariant Rooted(cursor) && Linked(all, cursor)
        invariant forall h :: first.height < h <= cursor.height ==> connects(Path(newTip)[h])
      {
        i := i - 1;
        var b := later[i];
        PathParent(newTip, b.height);
        if !connects(b) {
          StopsShort(all, cursor, newTip);
          return false;
        }
        AncestorPath(b, newTip);
        LinkChild(all, b.pprev, b);
        cursor := b;
      }
      linked := true;
    }

    /** Walks from the nearest of genesis, tip and cached block to the block at height h. */
    method FindBlockByHeight(h: nat) returns (b: BlockIndex)
      requires Valid() && h <= best.height
      modifies this`cache
      ensures Valid()
      ensures b == Path(best)[h] && cache == b
    {
      hide Path, Rooted, Tree, Linked;
      PathInTree(all, genesis, best);
      RootIsAncestor(all, genesis, best);
      b := if h < best.height / 2 then genesis else best;
      if cache != null && Distance(h, b.height) > Distance(h, cache.height) { b := cache; }
      while b.height > h
        invariant IsAncestor(b, best) && Rooted(best)
        decreases b.height
      {
        PathParent(best, b.height);
        b := b.pprev;
      }
      while b.height < h
        invariant IsAncestor(b, best) && b.height <= h
        decreases h - b.height
      {
        FollowNext(all, best, b);
        b := b.pnext;
      }
      cache := b;
    }
  }

  lemma TreeGrows(all: set<BlockIndex>, genesis: BlockIndex, prev: BlockIndex, b: BlockIndex)
    requires Tree(all, genesis) && prev in all && b.pprev == prev && b.height == prev.height + 1
    ensures Tree(all + {b}, genesis)
  {
    assert Rooted(b) && Path(b) == Path(prev) + [b];
  }

  lemma FollowNext(all: set<BlockIndex>, best: BlockIndex, b: BlockIndex)
    requires Rooted(best) && Linked(all, best) && b in all && IsAncestor(b, best) && b.height < best.height
    ensures b.pnext == Path(best)[b.height + 1]
  {
  }

  function Distance(a: int, b: int): int { if a < b then b - a else a - b }

  lemma NotRoot(all: set<BlockIndex>, genesis: BlockIndex, b: BlockIndex)
    requires Tree(all, genesis) && b in all && b != genesis
    ensures Rooted(b) && b.height > 0
  {
  }

  lemma HasParent(b: BlockIndex)
    requires Rooted(b)
    ensures b.pprev != null <==> b.height > 0
  {
  }

  lemma RootIsAncestor(all: set<BlockIndex>, genesis: BlockIndex, b: BlockIndex)
    requires Tree(all, genesis) && b in all
    ensures Rooted(b) && IsAncestor(genesis, b)
  {
  }

  lemma AllInMainChain(all: set<BlockIndex>, best: BlockIndex)
    requires Rooted(best) && Linked(all, best)
    ensures forall b :: b in all ==> (IsInMainChain(b, best) <==> IsAncestor(b, best))
  {
    forall b | b in all ensures IsInMainChain(b, best) <==> IsAncestor(b, best) {
      MainChainIsPath(all, best, b);
    }
  }

  /** A tip that is postponed and fails leaves an inner connect undone. */
  lemma PostponedTipFails(best: BlockIndex, tip: BlockIndex, connects: BlockIndex -> bool)
    requires Rooted(tip) && tip.pprev != null && tip.pprev != best && tip.pprev.work > best.work && !connects(tip)
    ensures !InnerConnects(best, tip, connects)
  {
    assert Intermediate(tip, best.work).height <= tip.pprev.height < tip.height;
    assert Path(tip)[tip.height] == tip;
  }

  lemma ChildConnects(best: BlockIndex, tip: BlockIndex, connects: BlockIndex -> bool)
    requires Rooted(tip) && tip.pprev == best && connects(tip)
    ensures InnerConnects(best, tip, connects)
  {
  }

  /** A heavier branch of two blocks whose second, postponed block fails: an ancestor of the tip is left out. */
  method FailedPostponement() returns (chain: ChainState, ghost lost: BlockIndex)
    ensures Rooted(chain.best) && !Linked(chain.all, chain.best)
    ensures lost in chain.all && IsAncestor(lost, chain.best) && !IsInMainChain(lost, chain.best)
  {
    hide Path, Linked, IsInMainChain, Tree, Rooted, InnerConnects, IsAncestor;
    var genesis := new BlockIndex(null, 0, 1);
    chain := new ChainState(genesis);
    var a := chain.AddBlock(genesis, 1);
    var all := (x: BlockIndex) => true;
    var ok := chain.SetBestChain(a, true, all, false);
    ChildConnects(genesis, a, all);
    var b := chain.AddBlock(genesis, 2);
    var c := chain.AddBlock(b, 1);
    var none := (x: BlockIndex) => false;
    ok := chain.SetBestChain(c, true, none, false);
    PostponedTipFails(a, c, none);
    lost :| lost in chain.all && IsAncestor(lost, c) && !IsInMainChain(lost, c);
  }
}
