/**
 * Merkle trees over transaction hashes: the flat array, branches and their
 * check.  Source: src/main.h, CBlock::BuildMerkleTree, GetMerkleBranch and
 * CheckMerkleBranch.  Hashing two hashes is a parameter.
 */
module Merkle {
  type Hash = int
  type Combine = (Hash, Hash) -> Hash

  // ----- Rows, bottom up -----

  /** The row above s; the last hash of an odd row is paired with itself. */
  function Parents(h: Combine, s: seq<Hash>): (r: seq<Hash>)
    ensures |r| == (|s| + 1) / 2
  {
    seq((|s| + 1) / 2, i requires 0 <= i < (|s| + 1) / 2 => h(s[2 * i], s[Partner(2 * i, |s|)]))
  }

  function Partner(i: nat, size: nat): (k: nat)
    requires i < size
    ensures k < size
  {
    if i + 1 < size then i + 1 else size - 1
  }

  /** All rows, bottom first. */
  function Flat(h: Combine, s: seq<Hash>): seq<Hash>
    decreases |s|
  {
    if |s| <= 1 then s else s + Flat(h, Parents(h, s))
  }

  function Last(s: seq<Hash>): Hash { if s == [] then 0 else s[|s| - 1] }

  // ----- The tree, top down -----

  function Width(n: nat, height: nat): nat { if height == 0 then n else (Width(n, height - 1) + 1) / 2 }

  /** The hash of the i-th subtree of a height. */
  function Node(h: Combine, s: seq<Hash>, height: nat, i: nat): Hash
    requires i < Width(|s|, height)
    decreases height
  {
    if height == 0 then s[i]
    else h(Node(h, s, height - 1, 2 * i), Node(h, s, height - 1, Partner(2 * i, Width(|s|, height - 1))))
  }

  /** Where the row of a height begins in the flat array. */
  function Offset(n: nat, height: nat): nat { if height == 0 then 0 else Offset(n, height - 1) + Width(n, height - 1) }

  /** The height of the tree over n leaves. */
  function Height(n: nat): nat { if n <= 1 then 0 else 1 + Height((n + 1) / 2) }

  lemma NodeUp(h: Combine, s: seq<Hash>, height: nat, i: nat)
    requires i < Width(|s|, height + 1)
    ensures 2 * i < Width(|s|, height)
    ensures Node(h, s, height + 1, i)
         == h(Node(h, s, height, 2 * i), Node(h, s, height, Partner(2 * i, Width(|s|, height))))
  {
  }

  /** The subtrees over a row are those over its parents, one level lower. */
  lemma {:induction false} NodeShift(h: Combine, s: seq<Hash>, height: nat, i: nat)
    requires i < Width((|s| + 1) / 2, height)
    ensures Width(|s|, height + 1) == Width((|s| + 1) / 2, height)
    ensures Node(h, s, height + 1, i) == Node(h, Parents(h, s), height, i)
    decreases height
  {
    hide Width, Node, Parents, Partner;
    WidthShift(|s|, height);
    if height == 0 {
      NodeUp(h, s, 0, i);
      NodeLeaves(h, s);
      NodeLeaves(h, Parents(h, s));
      ParentsAt(h, s, i);
    } else {
      var p := Parents(h, s);
      WidthShift(|s|, height - 1);
      NodeUp(h, s, height, i);
      var j := Partner(2 * i, Width(|s|, height));
      NodeUp(h, p, height - 1, i);
      NodeShift(h, s, height - 1, 2 * i);
      NodeShift(h, s, height - 1, j);
    }
  }

  lemma NodeLeaves(h: Combine, s: seq<Hash>)
    ensures Width(|s|, 0) == |s| && forall i: nat :: i < |s| ==> Node(h, s, 0, i) == s[i]
  {
  }

  lemma ParentsAt(h: Combine, s: seq<Hash>, i: nat)
    requires i < |Parents(h, s)|
    ensures Parents(h, s)[i] == h(s[2 * i], s[Partner(2 * i, |s|)])
  {
  }

  lemma {:induction false} WidthShift(n: nat, height: nat)
    ensures Width(n, height + 1) == Width((n + 1) / 2, height)
  {
    if height > 0 { WidthShift(n, height - 1); }
  }

  lemma {:induction false} OffsetShift(n: nat, height: nat)
    ensures Offset(n, height + 1) == n + Offset((n + 1) / 2, height)
  {
    if height > 0 { OffsetShift(n, height - 1); WidthShift(n, height - 1); }
  }

  /** The flat array holds exactly the tree, row by row, with a single root at the end. */
  lemma {:induction false} FlatIsTree(h: Combine, s: seq<Hash>)
    requires s != []
    ensures Width(|s|, Height(|s|)) == 1
    ensures |Flat(h, s)| == Offset(|s|, Height(|s|)) + 1
    ensures forall height: nat, i: nat :: height <= Height(|s|) && i < Width(|s|, height) ==> HoldsNode(h, s, height, i)
    decreases |s|
  {
    hide Parents, Node, HoldsNode;
    FlatRow(h, s);
    hide Flat;
    forall i: nat | i < |s| ensures HoldsNode(h, s, 0, i) { BottomHolds(h, s, i); }
    if |s| > 1 {
      var p := Parents(h, s);
      FlatIsTree(h, p);
      WidthShift(|s|, Height(|p|));
      OffsetShift(|s|, Height(|p|));
      forall height: nat, i: nat | height <= Height(|s|) && i < Width(|s|, height) ensures HoldsNode(h, s, height, i) {
        if height > 0 { WidthShift(|s|, height - 1); HoldsUp(h, s, height - 1, i); }
      }
    }
  }

  /** A subtree's hash is where its row begins plus its position. */
  ghost predicate HoldsNode(h: Combine, s: seq<Hash>, height: nat, i: nat)
    requires i < Width(|s|, height)
  {
    var k := Offset(|s|, height) + i;
    k < |Flat(h, s)| && Flat(h, s)[k] == Node(h, s, height, i)
  }

  lemma FlatRow(h: Combine, s: seq<Hash>)
    ensures |s| > 1 ==> Flat(h, s) == s + Flat(h, Parents(h, s))
    ensures |s| <= 1 ==> Flat(h, s) == s
  {
  }

  lemma BottomHolds(h: Combine, s: seq<Hash>, i: nat)
    requires i < |s|
    ensures HoldsNode(h, s, 0, i)
  {
  }

  lemma HoldsUp(h: Combine, s: seq<Hash>, height: nat, i: nat)
    requires |s| > 1 && i < Width(|Parents(h, s)|, height) && HoldsNode(h, Parents(h, s), height, i)
    ensures i < Width(|s|, height + 1) && HoldsNode(h, s, height + 1, i)
  {
    hide Flat, Node, Parents, Width, Offset;
    WidthShift(|s|, height);
    OffsetShift(|s|, height);
    NodeShift(h, s, height, i);
    FlatRow(h, s);
  }

  /** The root, by recursion on rows. */
  function Root(h: Combine, s: seq<Hash>): Hash
    decreases |s|
  {
    if |s| == 0 then 0 else if |s| == 1 then s[0] else Root(h, Parents(h, s))
  }

  lemma {:induction false} RootIsLast(h: Combine, s: seq<Hash>)
    ensures Root(h, s) == Last(Flat(h, s)) && (s != [] ==> Flat(h, s) != [])
    decreases |s|
  {
    if |s| > 1 { RootIsLast(h, Parents(h, s)); }
  }

  // ----- Branches -----

  /** i ^ 1 */
  function Sibling(i: nat): nat { if i % 2 == 0 then i + 1 else i - 1 }

  function BranchIndex(i: nat, size: nat): (k: nat)
    requires size > 0
    ensures k < size
  {
    if Sibling(i) < size then Sibling(i) else size - 1
  }

  function Branch(h: Combine, s: seq<Hash>, i: nat): seq<Hash>
    decreases |s|
  {
    if |s| <= 1 then [] else [s[BranchIndex(i, |s|)]] + Branch(h, Parents(h, s), i / 2)
  }

  /** The hash a branch leads to from a position. */
  function Climb(h: Combine, hash: Hash, branch: seq<Hash>, i: int): Hash
    decreases |branch|
  {
    if branch == [] then hash
    else Climb(h, if i % 2 == 1 then h(branch[0], hash) else h(hash, branch[0]), branch[1..], i / 2)
  }

  /** The parent of position i, from its own side. */
  lemma ParentOf(h: Combine, s: seq<Hash>, i: nat)
    requires i < |s| && |s| > 1
    ensures Parents(h, s)[i / 2]
              == if i % 2 == 1 then h(s[BranchIndex(i, |s|)], s[i]) else h(s[i], s[BranchIndex(i, |s|)])
  {
    var k := i / 2;
    assert Parents(h, s)[k] == h(s[2 * k], s[Partner(2 * k, |s|)]);
  }

  /** The branch of every transaction leads to the root. */
  lemma {:induction false} BranchChecks(h: Combine, s: seq<Hash>, i: nat)
    requires i < |s|
    ensures Climb(h, s[i], Branch(h, s, i), i) == Root(h, s)
    ensures |Branch(h, s, i)| == Height(|s|)
    decreases |s|
  {
    if |s| > 1 {
      var p := Parents(h, s);
      BranchChecks(h, p, i / 2);
      assert Branch(h, s, i)[1..] == Branch(h, p, i / 2);
      ParentOf(h, s, i);
    }
  }

  // ----- Soundness for a collision-free hash -----

  ghost predicate CollisionFree(h: Combine) {
    forall a, b, c, d :: h(a, b) == h(c, d) ==> a == c && b == d
  }

  lemma Apart(h: Combine, a: Hash, b: Hash, c: Hash, d: Hash)
    requires CollisionFree(h) && h(a, b) == h(c, d)
    ensures a == c && b == d
  {
  }

  /** A branch of full length that checks is the true branch, from the true transaction. */
  lemma {:induction false} OnlyTheBranchChecks(h: Combine, s: seq<Hash>, i: nat, hash: Hash, branch: seq<Hash>)
    requires CollisionFree(h) && i < |s| && |branch| == Height(|s|)
    requires Climb(h, hash, branch, i) == Root(h, s)
    ensures hash == s[i] && branch == Branch(h, s, i)
    decreases |s|
  {
    hide CollisionFree, Parents;
    if |s| > 1 {
      var p := Parents(h, s);
      var other, mate := branch[0], s[BranchIndex(i, |s|)];
      var up := if i % 2 == 1 then h(other, hash) else h(hash, other);
      OnlyTheBranchChecks(h, p, i / 2, up, branch[1..]);
      ParentOf(h, s, i);
      if i % 2 == 1 { Apart(h, other, hash, mate, s[i]); } else { Apart(h, hash, other, s[i], mate); }
      assert branch == [other] + branch[1..];
    }
  }

  /** Equally many transactions with the same root are the same transactions. */
  lemma {:induction false} RootDetermines(h: Combine, s: seq<Hash>, t: seq<Hash>)
    requires CollisionFree(h) && |s| == |t| && Root(h, s) == Root(h, t)
    ensures s == t
    decreases |s|
  {
    hide CollisionFree, Parents;
    if |s| > 1 {
      var p, q := Parents(h, s), Parents(h, t);
      RootDetermines(h, p, q);
      forall i | 0 <= i < |s| ensures s[i] == t[i] {
        ParentOf(h, s, i);
        ParentOf(h, t, i);
        var k := BranchIndex(i, |s|);
        if i % 2 == 1 { Apart(h, s[k], s[i], t[k], t[i]); } else { Apart(h, s[i], s[k], t[i], t[k]); }
      }
    }
  }

  // ----- The code -----

  /** CBlock: its transaction hashes and the cached array. */
  class Block {
    const h: Combine
    const txids: seq<Hash>
    var tree: seq<Hash>

    /** The cache is empty or up to date. */
    ghost predicate Valid()
      reads this
    {
      tree == [] || tree == Flat(h, txids)
    }

    constructor (h: Combine, txids: seq<Hash>)
      ensures Valid() && this.h == h && this.txids == txids
    {
      this.h, this.txids, tree := h, txids, [];
    }

    /** The inner loop: the row above the one at j. */
    method AppendParents(j: nat, size: nat)
      requires |tree| == j + size && size > 1
      modifies this`tree
      ensures tree == old(tree) + Parents(h, old(tree)[j..])
    {
      ghost var base, row := tree, tree[j..];
      ghost var p := Parents(h, row);
      var i := 0;
      while i < size
        invariant 0 <= i <= size + 1 && i % 2 == 0
        invariant tree == base + p[..i / 2]
      {
        var i2 := if i + 1 < size - 1 then i + 1 else size - 1;
        assert tree[j + i] == row[i] && tree[j + i2] == row[i2];
        ParentOf(h, row, i);
        tree := tree + [h(tree[j + i], tree[j + i2])];
        assert p[..i / 2] + [p[i / 2]] == p[..i / 2 + 1];
        i := i + 2;
      }
      assert p[..i / 2] == p;
    }

    method BuildMerkleTree() returns (root: Hash)
      modifies this`tree
      ensures tree == Flat(h, txids) && root == Root(h, txids)
    {
      hide Parents, Flat, Root;
      tree := [];
      var k := 0;
      while k < |txids|
        invariant 0 <= k <= |txids| && tree == txids[..k]
      {
        tree, k := tree + [txids[k]], k + 1;
      }
      assert tree[0..] == txids && tree[..0] == [];
      var j, size := 0, |txids|;
      while size > 1
        invariant 0 <= j <= |tree| && |tree| == j + size
        invariant tree[..j] + Flat(h, tree[j..]) == Flat(h, txids)
        decreases size
      {
        ghost var below, row := tree[..j], tree[j..];
        FlatRow(h, row);
        AppendParents(j, size);
        j, size := j + size, (size + 1) / 2;
        assert tree[..j] == below + row && tree[j..] == Parents(h, row);
      }
      RootIsLast(h, txids);
      FlatRow(h, tree[j..]);
      assert tree == tree[..j] + tree[j..];
      root := if tree == [] then 0 else tree[|tree| - 1];
    }

    method GetMerkleBranch(index: nat) returns (branch: seq<Hash>)
      requires Valid()
      modifies this`tree
      ensures Valid() && branch == Branch(h, txids, index)
    {
      hide Parents, Flat, Root;
      if tree == [] { var root := BuildMerkleTree(); }
      branch := [];
      var j, size, nIndex := 0, |txids|, index;
      ghost var row := txids;
      while size > 1
        invariant 0 <= j <= |tree| && |row| == size && tree[j..] == Flat(h, row)
        invariant branch + Branch(h, row, nIndex) == Branch(h, txids, index)
        invariant tree == Flat(h, txids)
        decreases size
      {
        var i := BranchIndex(nIndex, size);
        ghost var up := Parents(h, row);
        FlatRow(h, row);
        assert tree[j..][i] == row[i];
        branch := branch + [tree[j + i]];
        nIndex := nIndex / 2;
        assert tree[j + size..] == tree[j..][size..];
        j, size := j + size, (size + 1) / 2;
        row := up;
      }
    }
  }

  method CheckMerkleBranch(h: Combine, hash0: Hash, branch: seq<Hash>, index: int) returns (hash: Hash)
    ensures hash == if index == -1 then 0 else Climb(h, hash0, branch, index)
  {
    if index == -1 { return 0; }
    hash := hash0;
    var nIndex, k := index, 0;
    while k < |branch|
      invariant 0 <= k <= |branch|
      invariant Climb(h, hash, branch[k..], nIndex) == Climb(h, hash0, branch, index)
    {
      if nIndex % 2 == 1 { hash := h(branch[k], hash); } else { hash := h(hash, branch[k]); }
      assert branch[k..][1..] == branch[k + 1..];
      nIndex, k := nIndex / 2, k + 1;
    }
  }
}
