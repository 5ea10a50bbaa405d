/**
 The fork tree of recent blocks: insertion, the longest-chain rule, pruning,
 rejection of a tip and the two branches between a pair of blocks.
 */
module ForkTree {
  import opened Options

  /** A block id carries the block number in its first bytes. */
  datatype BlockId = BlockId(num: int, digest: seq<nat>)

  datatype Block = Block(id: BlockId, parentId: BlockId, num: int, txHashes: seq<seq<nat>>, txTrieRoot: seq<nat>)

  /** A node of the tree. Nodes never change once built, so a node is the value of its path to the root. */
  datatype KBlock = KBlock(block: Block, parent: Option<KBlock>)

  type Blocks = map<BlockId, KBlock>

  function Num(n: KBlock): int { n.block.num }

  // ---- chains ----

  /** The path from the root down to n. */
  function Chain(n: KBlock): (c: seq<KBlock>)
    ensures |c| > 0 && c[|c| - 1] == n
  {
    match n.parent
    case None => [n]
    case Some(p) => Chain(p) + [n]
  }

  /** Numbers run up by one along the path, ids name numbers, parent ids name parents. */
  predicate Linked(n: KBlock) {
    && n.block.id.num == n.block.num
    && (match n.parent
        case None => true
        case Some(p) => Num(n) == Num(p) + 1 && n.block.parentId == p.block.id && Linked(p))
  }

  predicate Rooted(root: KBlock, n: KBlock) { Linked(n) && Chain(n)[0] == root }

  lemma {:induction false} ChainNums(n: KBlock)
    requires Linked(n)
    ensures forall i :: 0 <= i < |Chain(n)| ==> Num(Chain(n)[i]) == Num(n) - (|Chain(n)| - 1 - i)
    ensures forall i :: 0 <= i < |Chain(n)| ==> Chain(n)[i].block.id.num == Num(Chain(n)[i])
  {
    match n.parent
    case None =>
    case Some(p) => ChainNums(p);
  }

  /** The chain of an ancestor is the part of the chain up to it. */
  lemma {:induction false} ChainPrefix(n: KBlock, i: nat)
    requires Linked(n) && i < |Chain(n)|
    ensures Chain(Chain(n)[i]) == Chain(n)[..i + 1] && Linked(Chain(n)[i])
  {
    if i == |Chain(n)| - 1 {
      assert Chain(n)[..i + 1] == Chain(n);
    } else {
      ChainPrefix(n.parent.value, i);
      assert Chain(n)[..i + 1] == Chain(n.parent.value)[..i + 1];
    }
  }

  // ---- the tree invariant ----

  predicate Stored(blocks: Blocks, n: KBlock) { n.block.id in blocks && blocks[n.block.id] == n }

  /** n is stored, or lies below everything stored (it was pruned). */
  ghost predicate StoredOrBelow(blocks: Blocks, n: KBlock) {
    Stored(blocks, n) || forall id :: id in blocks ==> Num(n) < Num(blocks[id])
  }

  ghost predicate Wired(root: KBlock, blocks: Blocks) {
    forall id :: id in blocks ==> blocks[id].block.id == id && Rooted(root, blocks[id])
  }

  ghost predicate Grounded(blocks: Blocks) {
    forall id, i :: id in blocks && 0 <= i < |Chain(blocks[id])| ==> StoredOrBelow(blocks, Chain(blocks[id])[i])
  }

  ghost predicate IdsUnique(blocks: Blocks) {
    forall a, b, i, j ::
      a in blocks && b in blocks && 0 <= i < |Chain(blocks[a])| && 0 <= j < |Chain(blocks[b])| &&
      Chain(blocks[a])[i].block.id == Chain(blocks[b])[j].block.id ==>
        Chain(blocks[a])[i] == Chain(blocks[b])[j]
  }

  /** The head is stored and nothing stored is numbered higher. */
  ghost predicate HeadHighest(blocks: Blocks, head: KBlock) {
    Stored(blocks, head) && forall id :: id in blocks ==> Num(blocks[id]) <= Num(head)
  }

  ghost predicate TreeOk(root: KBlock, blocks: Blocks, head: KBlock) {
    Wired(root, blocks) && Grounded(blocks) && IdsUnique(blocks) && HeadHighest(blocks, head)
  }

  /** A new block fits the tree: its number continues its parent's and its id names its number. */
  predicate Fits(blocks: Blocks, b: Block) {
    && b.id !in blocks && b.parentId in blocks
    && b.num == Num(blocks[b.parentId]) + 1 && b.id.num == b.num
  }

  function NodeFor(blocks: Blocks, b: Block): KBlock
    requires b.parentId in blocks
  {
    KBlock(b, Some(blocks[b.parentId]))
  }

  lemma InsertWired(root: KBlock, blocks: Blocks, b: Block)
    requires Wired(root, blocks) && Fits(blocks, b)
    ensures Wired(root, blocks[b.id := NodeFor(blocks, b)])
  {
  }

  lemma InsertGrounded(root: KBlock, blocks: Blocks, b: Block)
    requires Wired(root, blocks) && Grounded(blocks) && Fits(blocks, b)
    ensures Grounded(blocks[b.id := NodeFor(blocks, b)])
  {
    hide Chain, Linked, Wired, OnChain;
    var after := blocks[b.id := NodeFor(blocks, b)];
    forall id, i | id in after && 0 <= i < |Chain(after[id])|
      ensures StoredOrBelow(after, Chain(after[id])[i])
    {
      InsertOnChain(blocks, b, id, i);
      var x := Chain(after[id])[i];
      if OnChain(blocks, x) {
        OnChainGrounded(blocks, x);
        InsertBelow(root, blocks, b, x);
      }
    }
  }

  lemma OnChainGrounded(blocks: Blocks, x: KBlock)
    requires Grounded(blocks) && OnChain(blocks, x)
    ensures StoredOrBelow(blocks, x)
  {
    hide Chain;
  }

  /** What is stored, or below everything stored, stays so. */
  lemma InsertBelow(root: KBlock, blocks: Blocks, b: Block, x: KBlock)
    requires Wired(root, blocks) && Fits(blocks, b) && StoredOrBelow(blocks, x)
    ensures StoredOrBelow(blocks[b.id := NodeFor(blocks, b)], x)
  {
    hide Chain, Linked;
    var after := blocks[b.id := NodeFor(blocks, b)];
    if !Stored(blocks, x) {
      forall id | id in after
        ensures Num(x) < Num(after[id])
      {
        assert Num(x) < Num(blocks[b.parentId]);
      }
    }
  }

  /** No block of any chain already carries the id of a block that fits. */
  lemma FreshId(root: KBlock, blocks: Blocks, b: Block, a: BlockId, i: nat)
    requires Wired(root, blocks) && Grounded(blocks) && Fits(blocks, b)
    requires a in blocks && i < |Chain(blocks[a])|
    ensures Chain(blocks[a])[i].block.id != b.id
  {
    ChainNums(blocks[a]);
    assert StoredOrBelow(blocks, Chain(blocks[a])[i]);
  }

  /** x lies on the chain of some stored block. */
  ghost predicate OnChain(blocks: Blocks, x: KBlock) {
    exists a, j :: a in blocks && 0 <= j < |Chain(blocks[a])| && Chain(blocks[a])[j] == x
  }

  lemma InsertOnChain(blocks: Blocks, b: Block, a: BlockId, i: nat)
    requires b.parentId in blocks
    requires var after := blocks[b.id := NodeFor(blocks, b)]; a in after && i < |Chain(after[a])|
    ensures var x := Chain(blocks[b.id := NodeFor(blocks, b)][a])[i];
            x == NodeFor(blocks, b) || OnChain(blocks, x)
  {
    var n := NodeFor(blocks, b);
    assert Chain(n) == Chain(blocks[b.parentId]) + [n];
    hide Chain;
    var x := Chain(blocks[b.id := n][a])[i];
    if a != b.id {
      assert Chain(blocks[a])[i] == x;
    } else if i < |Chain(n)| - 1 {
      assert Chain(blocks[b.parentId])[i] == x;
    }
  }

  lemma OnChainFresh(root: KBlock, blocks: Blocks, b: Block, x: KBlock)
    requires Wired(root, blocks) && Grounded(blocks) && Fits(blocks, b) && OnChain(blocks, x)
    ensures x.block.id != b.id
  {
    hide Chain, Linked, Wired, Grounded;
    var a, i :| a in blocks && 0 <= i < |Chain(blocks[a])| && Chain(blocks[a])[i] == x;
    FreshId(root, blocks, b, a, i);
  }

  lemma OnChainSame(blocks: Blocks, x: KBlock, y: KBlock)
    requires IdsUnique(blocks) && OnChain(blocks, x) && OnChain(blocks, y) && x.block.id == y.block.id
    ensures x == y
  {
    hide Chain;
  }

  lemma InsertIdsUnique(root: KBlock, blocks: Blocks, b: Block)
    requires Wired(root, blocks) && Grounded(blocks) && IdsUnique(blocks) && Fits(blocks, b)
    ensures IdsUnique(blocks[b.id := NodeFor(blocks, b)])
  {
    hide Chain, Linked, Wired, Grounded, OnChain;
    var n := NodeFor(blocks, b);
    var after := blocks[b.id := n];
    forall a, c, i, j | a in after && c in after && 0 <= i < |Chain(after[a])| && 0 <= j < |Chain(after[c])| &&
                        Chain(after[a])[i].block.id == Chain(after[c])[j].block.id
      ensures Chain(after[a])[i] == Chain(after[c])[j]
    {
      InsertOnChain(blocks, b, a, i);
      InsertOnChain(blocks, b, c, j);
      SameOrFresh(root, blocks, b, Chain(after[a])[i], Chain(after[c])[j]);
    }
  }

  lemma SameOrFresh(root: KBlock, blocks: Blocks, b: Block, x: KBlock, y: KBlock)
    requires Wired(root, blocks) && Grounded(blocks) && IdsUnique(blocks) && Fits(blocks, b)
    requires x == NodeFor(blocks, b) || OnChain(blocks, x)
    requires y == NodeFor(blocks, b) || OnChain(blocks, y)
    requires x.block.id == y.block.id
    ensures x == y
  {
    hide Wired, Grounded, IdsUnique, OnChain;
    if OnChain(blocks, x) {
      OnChainFresh(root, blocks, b, x);
    }
    if OnChain(blocks, y) {
      OnChainFresh(root, blocks, b, y);
    }
    if OnChain(blocks, x) && OnChain(blocks, y) {
      OnChainSame(blocks, x, y);
    }
  }

  /** Inserting a block that fits keeps the tree; it becomes the head exactly when it is longer. */
  lemma InsertOk(root: KBlock, blocks: Blocks, head: KBlock, b: Block)
    requires TreeOk(root, blocks, head) && Fits(blocks, b)
    ensures var n := NodeFor(blocks, b);
            && TreeOk(root, blocks[b.id := n], if Num(n) > Num(head) then n else head)
            && Num(n) <= Num(head) + 1
  {
    hide Chain, Linked, Grounded, IdsUnique;
    InsertWired(root, blocks, b);
    InsertGrounded(root, blocks, b);
    InsertIdsUnique(root, blocks, b);
  }

  /** Drops everything numbered below floor. */
  function Above(blocks: Blocks, floor: int): Blocks { map id | id in blocks && Num(blocks[id]) >= floor :: blocks[id] }

  /** Blocks retained when the head is numbered `num`; a maxSize of 0 keeps everything. */
  function Retained(maxSize: int, blocks: Blocks, num: int): Blocks {
    if maxSize <= 0 then blocks else Above(blocks, num - maxSize)
  }

  /** Fewer blocks have fewer chains to disagree. */
  lemma IdsUniqueSubset(blocks: Blocks, kept: Blocks)
    requires IdsUnique(blocks) && forall id :: id in kept ==> id in blocks && kept[id] == blocks[id]
    ensures IdsUnique(kept)
  {
    hide Chain;
    forall a, b, i, j | a in kept && b in kept && 0 <= i < |Chain(kept[a])| && 0 <= j < |Chain(kept[b])| &&
                        Chain(kept[a])[i].block.id == Chain(kept[b])[j].block.id
      ensures Chain(kept[a])[i] == Chain(kept[b])[j]
    {
      assert Chain(blocks[a])[i].block.id == Chain(blocks[b])[j].block.id;
    }
  }

  lemma PruneGrounded(blocks: Blocks, floor: int)
    requires Grounded(blocks)
    ensures Grounded(Above(blocks, floor))
  {
    hide Chain;
    var kept := Above(blocks, floor);
    forall id, i | id in kept && 0 <= i < |Chain(kept[id])|
      ensures StoredOrBelow(kept, Chain(kept[id])[i])
    {
      assert StoredOrBelow(blocks, Chain(blocks[id])[i]);
    }
  }

  lemma PruneOk(root: KBlock, blocks: Blocks, head: KBlock, floor: int)
    requires TreeOk(root, blocks, head) && floor <= Num(head)
    ensures TreeOk(root, Above(blocks, floor), head)
  {
    hide Chain, Linked, Grounded, IdsUnique;
    PruneGrounded(blocks, floor);
    IdsUniqueSubset(blocks, Above(blocks, floor));
  }

  lemma RejectGrounded(root: KBlock, blocks: Blocks, tip: KBlock)
    requires Wired(root, blocks) && Grounded(blocks) && Stored(blocks, tip)
    requires forall id :: id in blocks && blocks[id] != tip ==> Num(blocks[id]) < Num(tip)
    ensures Grounded(blocks - {tip.block.id})
  {
    hide Chain, Linked;
    var kept := blocks - {tip.block.id};
    forall id, i | id in kept && 0 <= i < |Chain(kept[id])|
      ensures StoredOrBelow(kept, Chain(kept[id])[i])
    {
      ChainNums(blocks[id]);
      assert StoredOrBelow(blocks, Chain(blocks[id])[i]);
    }
  }

  /** Removing the single highest block restores the tree under the previous head. */
  lemma RejectOk(root: KBlock, blocks: Blocks, tip: KBlock, previous: KBlock)
    requires TreeOk(root, blocks, tip) && Stored(blocks, previous) && previous != tip
    requires forall id :: id in blocks && blocks[id] != tip ==> Num(blocks[id]) <= Num(previous) < Num(tip)
    ensures TreeOk(root, blocks - {tip.block.id}, previous)
  {
    hide Chain, Linked, Grounded, IdsUnique;
    RejectGrounded(root, blocks, tip);
    IdsUniqueSubset(blocks, blocks - {tip.block.id});
  }

  lemma SingletonOk(root: KBlock)
    requires root.parent.None? && Linked(root)
    ensures TreeOk(root, map[root.block.id := root], root)
  {
    assert Chain(root) == [root];
    hide Chain, Linked;
    var blocks := map[root.block.id := root];
    assert Wired(root, blocks) && HeadHighest(blocks, root);
    assert Stored(blocks, root);
    assert Grounded(blocks) && IdsUnique(blocks);
  }

  /** What the invariant says about stored blocks, without its quantifiers over chains. */
  lemma StoredFacts(root: KBlock, blocks: Blocks, head: KBlock, id: BlockId)
    requires TreeOk(root, blocks, head) && id in blocks
    ensures Rooted(root, blocks[id]) && blocks[id].block.id == id && Num(blocks[id]) <= Num(head)
    ensures Stored(blocks, head)
  {
  }

  // ---- branches ----

  function Reverse<T>(s: seq<T>): (r: seq<T>)
    ensures |r| == |s| && forall i :: 0 <= i < |s| ==> r[i] == s[|s| - 1 - i]
  {
    if s == [] then [] else Reverse(s[1..]) + [s[0]]
  }

  /** From n, walking parents collects `branch` (tip first) and arrives at m. */
  predicate Walk(n: KBlock, branch: seq<KBlock>, m: KBlock) { Chain(n) == Chain(m) + Reverse(branch) }

  lemma WalkStart(n: KBlock)
    ensures Walk(n, [], n)
  {
  }

  lemma WalkOn(n: KBlock, branch: seq<KBlock>, m: KBlock)
    requires Walk(n, branch, m) && m.parent.Some?
    ensures Walk(n, branch + [m], m.parent.value)
  {
    var longer := branch + [m];
    assert Reverse(longer) == [m] + Reverse(branch);
  }

  /** a and b meet at `meet`, where their chains part for good. */
  predicate Meets(a: KBlock, b: KBlock, branchA: seq<KBlock>, branchB: seq<KBlock>, meet: KBlock) {
    && Walk(a, branchA, meet) && Walk(b, branchB, meet)
    && (branchA != [] && branchB != [] ==> branchA[|branchA| - 1] != branchB[|branchB| - 1])
  }

  /** The meeting point is the lowest common ancestor: no block of one branch is on the other chain. */
  lemma MeetIsLowest(
    a: KBlock, b: KBlock, branchA: seq<KBlock>, branchB: seq<KBlock>, meet: KBlock, x: KBlock)
    requires Linked(a) && Linked(b) && Meets(a, b, branchA, branchB, meet)
    requires x in branchA
    ensures x !in Chain(b)
  {
    hide Chain, Linked, Reverse;
    var m := |Chain(meet)|;
    var r :| 0 <= r < |branchA| && branchA[r] == x;
    var i := m + (|branchA| - 1 - r);
    assert Chain(a)[i] == x;
    forall j | 0 <= j < |Chain(b)|
      ensures Chain(b)[j] != x
    {
      if Chain(b)[j] == x {
        SharedBelow(a, b, i, j, m);
      }
    }
  }

  /** Chains that share a node share everything below it, at the same heights. */
  lemma SharedBelow(a: KBlock, b: KBlock, i: nat, j: nat, m: nat)
    requires Linked(a) && Linked(b) && m <= i < |Chain(a)| && j < |Chain(b)| && Chain(a)[i] == Chain(b)[j]
    ensures i == j && Chain(a)[m] == Chain(b)[m]
  {
    ChainPrefix(a, i);
    ChainPrefix(b, j);
    hide Chain;
    assert Chain(a)[..i + 1] == Chain(b)[..j + 1];
    assert Chain(a)[m] == Chain(a)[..i + 1][m] && Chain(b)[m] == Chain(b)[..j + 1][m];
  }

  class KhaosDb {
    var blocks: Blocks
    var head: Option<KBlock>
    const maxSize: int
    ghost var root: KBlock

    ghost predicate Valid()
      reads this
    {
      head.Some? && root.parent.None? && TreeOk(root, blocks, head.value)
    }

    /** Seeds the tree with its root block. */
    constructor (maxSize: int, block: Block)
      requires block.id.num == block.num
      ensures Valid() && this.maxSize == maxSize
      ensures root == KBlock(block, None) && head == Some(root) && blocks == map[block.id := root]
    {
      this.maxSize := maxSize;
      var node := KBlock(block, None);
      blocks := map[block.id := node];
      head := Some(node);
      root := node;
      SingletonOk(node);
      hide TreeOk;
    }

    function Get(id: BlockId): Option<KBlock>
      reads this
    {
      if id in blocks then Some(blocks[id]) else None
    }

    /** Inserts a block under its parent; the head moves only to a strictly longer chain. */
    method Push(b: Block) returns (node: Option<KBlock>)
      requires Valid()
      requires b.id !in blocks && b.parentId in blocks ==> Fits(blocks, b)
      modifies this
      ensures Valid() && root == old(root)
      ensures b.id in old(blocks) ==> node == Some(old(blocks)[b.id]) && blocks == old(blocks) && head == old(head)
      ensures b.id !in old(blocks) && b.parentId !in old(blocks) ==>
                node == None && blocks == old(blocks) && head == old(head)
      ensures Fits(old(blocks), b) ==>
                var n := NodeFor(old(blocks), b);
                && node == Some(n)
                && (b.num > Num(old(head.value)) ==>
                      head == Some(n) && blocks == Retained(maxSize, old(blocks)[b.id := n], b.num) &&
                      b.num == Num(old(head.value)) + 1 && Stored(blocks, n))
                && (b.num <= Num(old(head.value)) ==> head == old(head) && blocks == old(blocks)[b.id := n])
    {
      hide TreeOk;
      if b.id in blocks {
        return Some(blocks[b.id]);
      }
      if b.parentId !in blocks {
        return None;
      }
      InsertOk(root, blocks, head.value, b);
      var n := KBlock(b, Some(blocks[b.parentId]));
      blocks := blocks[b.id := n];
      if n.block.num > head.value.block.num {
        head := Some(n);
        Prune();
        StoredFacts(root, blocks, n, n.block.id);
      }
      return Some(n);
    }

    /** Drops nodes more than maxSize below the head. */
    method Prune()
      requires Valid()
      modifies this`blocks
      ensures Valid() && blocks == Retained(maxSize, old(blocks), Num(head.value))
      ensures forall id ::
                id in blocks <==>
                id in old(blocks) && (maxSize <= 0 || Num(old(blocks)[id]) >= Num(head.value) - maxSize)
    {
      hide TreeOk;
      if maxSize <= 0 {
        return;
      }
      var floor := head.value.block.num - maxSize;
      ghost var before := blocks;
      var todo := blocks.Keys;
      while todo != {}
        modifies this`blocks
        invariant todo <= before.Keys
        invariant forall id :: id in blocks <==> id in before && (id in todo || Num(before[id]) >= floor)
        invariant forall id :: id in blocks ==> blocks[id] == before[id]
      {
        var id :| id in todo;
        todo := todo - {id};
        if blocks[id].block.num < floor {
          blocks := blocks - {id};
        }
      }
      assert blocks == Above(before, floor);
      PruneOk(root, before, head.value, floor);
    }

    /** Removes a tip whose execution failed and puts the previous head, if any, back. */
    method RejectTip(id: BlockId, previous: Option<KBlock>) returns (ok: bool)
      modifies this
      ensures root == old(root)
      ensures ok <==>
                && old(head).Some? && old(head).value.block.id == id
                && (previous.Some? ==> previous.value.block.id in old(blocks))
      ensures ok ==> blocks == old(blocks) - {id} && head == previous
      ensures !ok ==> blocks == old(blocks) && head == old(head)
    {
      if head.None? || head.value.block.id != id {
        return false;
      }
      if previous.Some? && previous.value.block.id !in blocks {
        return false;
      }
      blocks := blocks - {id};
      head := previous;
      return true;
    }

    /** The branches from two stored blocks back to their lowest common ancestor, tip first. */
    method GetBranch(id1: BlockId, id2: BlockId)
      returns (ok: bool, branch1: seq<KBlock>, branch2: seq<KBlock>, ghost meet: KBlock)
      requires Valid()
      ensures ok <==> id1 in blocks && id2 in blocks
      ensures ok ==> Meets(blocks[id1], blocks[id2], branch1, branch2, meet)
      ensures ok ==> |branch1| - |branch2| == Num(blocks[id1]) - Num(blocks[id2])
    {
      hide TreeOk, Chain, Linked, Reverse, Rooted, Walk;
      meet := root;
      if id1 !in blocks || id2 !in blocks {
        return false, [], [], root;
      }
      StoredFacts(root, blocks, head.value, id1);
      StoredFacts(root, blocks, head.value, id2);
      var a, b := blocks[id1], blocks[id2];
      var n1, n2: KBlock;
      branch1, n1 := Lower(a, b.block.num, b);
      branch2, n2 := Lower(b, n1.block.num, n1);
      while n1 != n2
        invariant Walk(a, branch1, n1) && Walk(b, branch2, n2) && Rooted(root, n1) && Rooted(root, n2)
        invariant Num(n1) == Num(n2) >= Num(root)
        invariant |branch1| - |branch2| == Num(a) - Num(b)
        invariant n1 == n2 && branch1 != [] && branch2 != [] ==> branch1[|branch1| - 1] != branch2[|branch2| - 1]
        decreases Num(n1) - Num(root)
      {
        RootedNums(root, n1);
        RootedNums(root, n2);
        WalkOn(a, branch1, n1);
        WalkOn(b, branch2, n2);
        branch1 := branch1 + [n1];
        branch2 := branch2 + [n2];
        n1 := n1.parent.value;
        n2 := n2.parent.value;
      }
      return true, branch1, branch2, n1;
    }

    /** Walks from a node down to the given height, if it is above it. */
    method Lower(from: KBlock, height: int, ghost other: KBlock) returns (branch: seq<KBlock>, n: KBlock)
      requires Rooted(root, from) && Rooted(root, other) && height == Num(other)
      ensures Walk(from, branch, n) && Rooted(root, n) && Num(n) >= Num(root)
      ensures Num(n) == (if Num(from) > height then height else Num(from)) == Num(from) - |branch|
    {
      hide Chain, Linked, Reverse, Rooted, Walk;
      branch, n := [], from;
      WalkStart(from);
      RootedNums(root, other);
      RootedNums(root, from);
      while n.block.num > height
        invariant Walk(from, branch, n) && Rooted(root, n)
        invariant Num(n) == Num(from) - |branch| && (branch != [] ==> Num(n) >= height)
        decreases Num(n) - height
      {
        RootedNums(root, n);
        WalkOn(from, branch, n);
        branch := branch + [n];
        n := n.parent.value;
        RootedNums(root, n);
      }
    }
  }

  /** Only the root is numbered like the root; everything else has a parent. */
  lemma RootedNums(root: KBlock, n: KBlock)
    requires Rooted(root, n)
    ensures Num(n) == Num(root) + |Chain(n)| - 1 && Num(n) >= Num(root)
    ensures Num(n) == Num(root) ==> n == root
    ensures Num(n) > Num(root) ==>
              n.parent.Some? && Rooted(root, n.parent.value) && Num(n.parent.value) == Num(n) - 1
  {
    ChainNums(n);
  }
}
