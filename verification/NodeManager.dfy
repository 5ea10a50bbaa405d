/**
 The block pipeline: blocks enter the fork tree, the head is extended or a
 longer branch replaces it, and the state moves by opening and revoking one
 database session per block above the base.
 */
module NodeManager {
  import opened Options
  import opened RevokingDb
  import opened ForkTree
  import Merkle

  type Digest = seq<nat>

  /** What executing a block does: the writes it makes, and whether it went through. */
  datatype Execution = Execution(writes: Writes, ok: bool)

  /** Block execution is a deterministic function of the block and the visible store. */
  type Process = (Block, Store) -> Execution

  datatype Ref = Ref(id: BlockId, num: int)

  function Refs(chain: seq<KBlock>): (r: seq<Ref>)
    ensures |r| == |chain| && forall i :: 0 <= i < |chain| ==> r[i] == Ref(chain[i].block.id, chain[i].block.num)
  {
    seq(|chain|, i requires 0 <= i < |chain| => Ref(chain[i].block.id, chain[i].block.num))
  }

  /** The blocks of n's chain above the root. */
  function Body(n: KBlock): (c: seq<KBlock>)
    ensures |c| == |Chain(n)| - 1
  {
    Chain(n)[1..]
  }

  /** The store after executing a chain of blocks on the base, or nothing if one fails. */
  function Replay(process: Process, base: Store, chain: seq<KBlock>): Option<Store> {
    if chain == [] then Some(base)
    else
      match Replay(process, base, chain[..|chain| - 1])
      case None => None
      case Some(s) =>
        var e := process(chain[|chain| - 1].block, s);
        if e.ok then Some(Overlay(s, e.writes)) else None
  }

  lemma RootAlone(root: KBlock)
    requires root.parent.None?
    ensures Body(root) == []
  {
  }

  lemma NothingReplayed(process: Process, base: Store)
    ensures Replay(process, base, []) == Some(base)
  {
  }

  lemma NothingOpen(base: Store)
    ensures Views(base, []) == [base]
  {
  }

  lemma {:induction false} ReplayPrefix(process: Process, base: Store, chain: seq<KBlock>, i: nat)
    requires i <= |chain| && Replay(process, base, chain).Some?
    ensures Replay(process, base, chain[..i]).Some?
    decreases |chain|
  {
    if i < |chain| {
      var init := chain[..|chain| - 1];
      ReplayPrefix(process, base, init, i);
      assert init[..i] == chain[..i];
    } else {
      assert chain[..i] == chain;
    }
  }

  lemma ReplaySnoc(process: Process, base: Store, chain: seq<KBlock>, n: KBlock, s: Store)
    requires Replay(process, base, chain) == Some(s)
    ensures Replay(process, base, chain + [n]) ==
            var e := process(n.block, s); if e.ok then Some(Overlay(s, e.writes)) else None
  {
    assert (chain + [n])[..|chain|] == chain;
  }

  // ---- where two chains part ----

  function CommonLen(a: seq<KBlock>, b: seq<KBlock>): (c: nat)
    ensures c <= |a| && c <= |b| && a[..c] == b[..c]
    ensures c < |a| && c < |b| ==> a[c] != b[c]
  {
    if a == [] || b == [] || a[0] != b[0] then 0
    else
      var c := CommonLen(a[1..], b[1..]) + 1;
      assert a[..c] == [a[0]] + a[1..][..c - 1] && b[..c] == [b[0]] + b[1..][..c - 1];
      c
  }

  lemma CommonLenUnique(a: seq<KBlock>, b: seq<KBlock>, c: nat)
    requires c <= |a| && c <= |b| && a[..c] == b[..c]
    requires c < |a| && c < |b| ==> a[c] != b[c]
    ensures CommonLen(a, b) == c
  {
    var d := CommonLen(a, b);
    PrefixElements(a, b, c);
    PrefixElements(a, b, d);
  }

  lemma PrefixElements(a: seq<KBlock>, b: seq<KBlock>, c: nat)
    requires c <= |a| && c <= |b| && a[..c] == b[..c]
    ensures forall k :: 0 <= k < c ==> a[k] == b[k]
  {
    forall k | 0 <= k < c
      ensures a[k] == b[k]
    {
      assert a[..c][k] == b[..c][k];
    }
  }

  /** The chain of a block split at the meeting point with another. */
  lemma MeetSplits(a: KBlock, b: KBlock, branchA: seq<KBlock>, branchB: seq<KBlock>, meet: KBlock)
    requires Meets(a, b, branchA, branchB, meet)
    ensures Body(a) == Body(meet) + Reverse(branchA) && Body(b) == Body(meet) + Reverse(branchB)
    ensures CommonLen(Body(a), Body(b)) == |Body(meet)|
  {
    hide Chain, Reverse;
    var c := |Body(meet)|;
    assert Body(a) == Body(meet) + Reverse(branchA) && Body(b) == Body(meet) + Reverse(branchB);
    assert Body(a)[..c] == Body(meet) == Body(b)[..c];
    CommonLenUnique(Body(a), Body(b), c);
  }

  /** A switch from head to n fails, but only after the first block of the new branch went through. */
  ghost predicate LateFailure(process: Process, base: Store, head: KBlock, n: KBlock) {
    var c := CommonLen(Body(n), Body(head));
    && c < |Body(n)|
    && Replay(process, base, Body(n)[..c + 1]).Some?
    && Replay(process, base, Body(n)).None?
  }

  /**
   How far a failed switch got: the common blocks, new blocks on top of them, and old blocks put back on top of
   those.
   */
  datatype LeftOver = LeftOver(common: nat, done: nat, restored: nat) {
    ghost predicate Fits(newer: seq<KBlock>, older: seq<KBlock>) {
      common + done <= |newer| && common + restored <= |older|
    }

    ghost function Chain(newer: seq<KBlock>, older: seq<KBlock>): seq<KBlock>
      requires Fits(newer, older)
    {
      newer[..common + done] + older[common..common + restored]
    }
  }

  /**
   What a failed switch leaves applied: the new blocks before the one that fails stay, and the old branch follows them
   as far as it goes through there.
   */
  ghost predicate LeavesBehind(process: Process, base: Store, newer: seq<KBlock>, older: seq<KBlock>, left: LeftOver) {
    && left.common == CommonLen(newer, older) && left.Fits(newer, older)
    && left.common + left.done < |newer|
    && Replay(process, base, newer[..left.common + left.done + 1]).None?
    && Replay(process, base, left.Chain(newer, older)).Some?
    && (left.common + left.restored < |older| ==>
          Replay(process, base, left.(restored := left.restored + 1).Chain(newer, older)).None?)
  }

  lemma LeftBehind(process: Process, base: Store, common: seq<KBlock>, path: seq<KBlock>, back: seq<KBlock>,
      left: LeftOver)
    requires CommonLen(common + path, common + back) == |common| == left.common
    requires left.done < |path| && left.restored <= |back|
    requires Replay(process, base, common + path[..left.done + 1]).None?
    requires Replay(process, base, common + path[..left.done] + back[..left.restored]).Some?
    requires left.restored < |back| ==>
               Replay(process, base, common + path[..left.done] + back[..left.restored + 1]).None?
    ensures LeavesBehind(process, base, common + path, common + back, left)
    ensures left.Chain(common + path, common + back) == common + path[..left.done] + back[..left.restored]
  {
    hide Replay, CommonLen;
    var newer, older := common + path, common + back;
    assert newer[..left.common + left.done + 1] == common + path[..left.done + 1];
    assert newer[..left.common + left.done] == common + path[..left.done];
    assert older[left.common..left.common + left.restored] == back[..left.restored];
    if left.restored < |back| {
      assert older[left.common..left.common + (left.restored + 1)] == back[..left.restored + 1];
    }
  }

  /** The transaction root of a block without transactions. */
  function ZeroHash(): (d: Digest)
    ensures |d| == 32 && forall i :: 0 <= i < 32 ==> d[i] == 0
  {
    seq(32, _ => 0)
  }

  /** The header names the Merkle root of the block's transactions. */
  predicate RootMatches(nodeHash: (Digest, Digest) -> Digest, b: Block) {
    b.txTrieRoot == if b.txHashes == [] then ZeroHash() else Merkle.TreeHash(nodeHash, b.txHashes)
  }

  // ---- what a push does to the tree ----

  datatype Rules = Rules(process: Process, base: Store, nodeHash: (Digest, Digest) -> Digest, maxFork: int)

  datatype TreeState = TreeState(blocks: Blocks, head: KBlock)

  /** A block that enters the tree as a new longest chain. */
  predicate Longest(r: Rules, s: TreeState, b: Block) {
    b.id !in s.blocks && RootMatches(r.nodeHash, b) && b.parentId in s.blocks && b.num > Num(s.head)
  }

  /** The longest chain that replays wins; a longest chain that does not replay loses its tip. */
  function PushSpec(r: Rules, s: TreeState, b: Block): TreeState {
    if b.id in s.blocks || !RootMatches(r.nodeHash, b) || b.parentId !in s.blocks then s
    else
      var n := NodeFor(s.blocks, b);
      var grown := s.blocks[b.id := n];
      if b.num <= Num(s.head) then TreeState(grown, s.head)
      else if Replay(r.process, r.base, Body(n)).Some? then TreeState(Retained(r.maxFork, grown, b.num), n)
      else TreeState(Retained(r.maxFork, grown, b.num) - {b.id}, s.head)
  }

  /** The push starts a switch that fails after the first block of the new branch. */
  ghost predicate FailsLate(r: Rules, s: TreeState, b: Block) {
    Longest(r, s, b) && LateFailure(r.process, r.base, s.head, NodeFor(s.blocks, b))
  }

  /** An unknown block whose parent is known continues its numbering. */
  predicate Numbered(s: TreeState, b: Block) { b.id !in s.blocks && b.parentId in s.blocks ==> Fits(s.blocks, b) }

  function RunSpec(r: Rules, s: TreeState, bs: seq<Block>): TreeState
    decreases |bs|
  {
    if bs == [] then s else RunSpec(r, PushSpec(r, s, bs[0]), bs[1..])
  }

  /** Every block of the run is numbered after its parent and no switch fails late. */
  ghost predicate CleanRun(r: Rules, s: TreeState, bs: seq<Block>)
    decreases |bs|
  {
    bs == [] || (Numbered(s, bs[0]) && !FailsLate(r, s, bs[0]) && CleanRun(r, PushSpec(r, s, bs[0]), bs[1..]))
  }

  /** Extending the head cannot fail late: the first new block is the only one. */
  lemma ExtensionNotLate(process: Process, base: Store, head: KBlock, n: KBlock)
    requires n.parent == Some(head)
    ensures Body(n) == Body(head) + [n]
    ensures !LateFailure(process, base, head, n)
  {
    assert Chain(n) == Chain(head) + [n];
    hide Chain;
    assert Body(n) == Body(head) + [n];
    CommonLenUnique(Body(n), Body(head), |Body(head)|);
    assert Body(n)[..|Body(head)| + 1] == Body(n);
  }

  /** Late failures do happen: a side branch of two blocks whose second one is invalid. */
  lemma LateFailureExists(process: Process, r: KBlock, a: KBlock, b1: KBlock, b2: KBlock)
    requires r.parent == None && a.parent == Some(r)
    requires b1.parent == Some(r) && b1 != a && b2.parent == Some(b1)
    requires forall blk, s :: process(blk, s) == Execution(map[], blk != b2.block)
    requires b1.block != b2.block
    ensures LateFailure(process, map[], a, b2)
  {
    assert Chain(r) == [r] && Chain(a) == [r, a] && Chain(b1) == [r, b1] && Chain(b2) == [r, b1, b2];
    assert Body(a) == [a] && Body(b2) == [b1, b2];
    CommonLenUnique(Body(b2), Body(a), 0);
    assert Body(b2)[..1] == [b1] && [b1, b2][..1] == [b1] && [b1][..0] == [];
    assert Replay(process, map[], []) == Some(map[]);
    assert Replay(process, map[], [b1]).Some?;
    assert Replay(process, map[], [b1, b2]).None?;
  }

  // ---- a run that fails late ----

  function Empty(num: int, digest: nat, parent: BlockId): Block
  {
    Block(BlockId(num, [digest]), parent, num, [], ZeroHash())
  }

  function RootBlock(): Block { Empty(0, 0, BlockId(-1, [])) }
  function OldTip(): Block { Empty(1, 1, RootBlock().id) }
  function SideBlock(): Block { Empty(1, 2, RootBlock().id) }
  function BadTip(): Block { Empty(2, 3, SideBlock().id) }

  /** Every block goes through but one. */
  function AllButBad(): Process { (b: Block, s: Store) => Execution(map[], b != BadTip()) }

  function LateRules(nodeHash: (Digest, Digest) -> Digest): Rules { Rules(AllButBad(), map[], nodeHash, 0) }

  function AtRoot(): TreeState
  {
    TreeState(map[RootBlock().id := KBlock(RootBlock(), None)], KBlock(RootBlock(), None))
  }

  /** The tree after the old tip and the side block came in. */
  lemma BeforeBadTip(nodeHash: (Digest, Digest) -> Digest)
    ensures var r := LateRules(nodeHash);
            var root := KBlock(RootBlock(), None);
            var tip, side := KBlock(OldTip(), Some(root)), KBlock(SideBlock(), Some(root));
            && CleanRun(r, AtRoot(), [OldTip(), SideBlock()])
            && RunSpec(r, AtRoot(), [OldTip(), SideBlock()]) ==
               TreeState(map[RootBlock().id := root, OldTip().id := tip, SideBlock().id := side], tip)
  {
    var r, root := LateRules(nodeHash), KBlock(RootBlock(), None);
    var tip := KBlock(OldTip(), Some(root));
    assert Chain(root) == [root] && Chain(tip) == [root, tip];
    assert Body(tip) == [tip] && [tip][..0] == [];
    assert Replay(r.process, r.base, []) == Some(map[]);
    assert Replay(r.process, r.base, Body(tip)).Some?;
    assert OldTip().id != RootBlock().id && SideBlock().id != OldTip().id && SideBlock().id != RootBlock().id;
    ExtensionNotLate(r.process, r.base, root, tip);
    hide Chain, Replay, LateFailure;
    var one := TreeState(AtRoot().blocks[OldTip().id := tip], tip);
    assert PushSpec(r, AtRoot(), OldTip()) == one;
    assert !FailsLate(r, AtRoot(), OldTip()) && !FailsLate(r, one, SideBlock());
    assert [OldTip(), SideBlock()][1..] == [SideBlock()] && [SideBlock()][1..] == [];
    assert CleanRun(r, PushSpec(r, one, SideBlock()), []);
    assert CleanRun(r, one, [SideBlock()]);
  }

  /** Pushing the bad tip then starts a switch that fails at its second block. */
  lemma BadTipFailsLate(nodeHash: (Digest, Digest) -> Digest)
    ensures var r := LateRules(nodeHash);
            var s := RunSpec(r, AtRoot(), [OldTip(), SideBlock()]);
            Numbered(s, BadTip()) && FailsLate(r, s, BadTip())
  {
    var r, root := LateRules(nodeHash), KBlock(RootBlock(), None);
    var tip, side := KBlock(OldTip(), Some(root)), KBlock(SideBlock(), Some(root));
    BeforeBadTip(nodeHash);
    hide RunSpec, CleanRun, Chain, Replay, LateFailure;
    assert BadTip().id != RootBlock().id && BadTip().id != OldTip().id && BadTip().id != SideBlock().id;
    LateFailureExists(r.process, root, tip, side, KBlock(BadTip(), Some(side)));
  }

  /** A manager that is pushed those three blocks, each correctly numbered, ends without its invariant. */
  method PushLateFailure(nodeHash: (Digest, Digest) -> Digest) returns (m: Manager)
    ensures fresh(m) && !m.Inv() && m.khaos.Valid()
  {
    hide Replay, Chain, TreeOk, PushSpec, RunSpec, CleanRun, FailsLate, Numbered;
    BeforeBadTip(nodeHash);
    BadTipFailsLate(nodeHash);
    m := new Manager(AllButBad(), nodeHash, map[], 0, RootBlock());
    m.PushAll([OldTip(), SideBlock()]);
    var _ := m.PushBlock(BadTip());
  }

  datatype Pushed = Duplicate | BadRoot | Unlinked | SideBranch | Adopted | Refused

  class Manager {
    const process: Process
    const nodeHash: (Digest, Digest) -> Digest
    const db: Database
    const khaos: KhaosDb
    var applied: seq<Ref>

    constructor (process: Process, nodeHash: (Digest, Digest) -> Digest, base: Store, maxFork: int, root: Block)
      requires root.id.num == root.num
      ensures Inv() && fresh(db) && fresh(khaos)
      ensures this.process == process && this.nodeHash == nodeHash && khaos.maxSize == maxFork
      ensures State() == TreeState(map[root.id := KBlock(root, None)], KBlock(root, None))
      ensures db.base == base && Head() == KBlock(root, None) && Body(Head()) == []
    {
      hide TreeOk, View, Overlay;
      this.process := process;
      this.nodeHash := nodeHash;
      db := new Database(base);
      khaos := new KhaosDb(maxFork, root);
      applied := [];
      new;
      RootAlone(KBlock(root, None));
      hide Chain, Body, Replay;
      NothingReplayed(process, base);
      NothingOpen(base);
    }

    ghost function Head(): KBlock
      reads this, khaos
      requires khaos.head.Some?
    {
      khaos.head.value
    }

    /** Sessions, applied list and stores all stand for executing exactly `chain` on the base. */
    ghost predicate Tracks(chain: seq<KBlock>)
      reads this, db
    {
      && applied == Refs(chain)
      && db.Depth() == |chain|
      && forall i :: 0 <= i <= |chain| ==> Replay(process, db.base, chain[..i]) == Some(db.Stack()[i])
    }

    /** The pipeline invariant. */
    ghost predicate Inv()
      reads this, db, khaos
    {
      khaos.Valid() && Tracks(Body(Head()))
    }

    ghost function TheRules(): Rules
      reads db
    {
      Rules(process, db.base, nodeHash, khaos.maxSize)
    }

    ghost function State(): TreeState
      reads khaos
      requires khaos.head.Some?
    {
      TreeState(khaos.blocks, khaos.head.value)
    }

    /** What the invariant promises a caller. */
    lemma InvariantMeans()
      requires Inv()
      ensures applied == Refs(Body(Head())) && |applied| == db.Depth()
      ensures Replay(process, db.base, Body(Head())) == Some(db.Visible())
      ensures Stored(khaos.blocks, Head()) && forall id :: id in khaos.blocks ==> Num(khaos.blocks[id]) <= Num(Head())
    {
      TracksReplay(Body(Head()));
    }

    /** A tracked chain is replayable and the visible store is its replay. */
    lemma TracksReplay(chain: seq<KBlock>)
      requires Tracks(chain)
      ensures Replay(process, db.base, chain) == Some(db.Visible())
    {
      assert chain[..|chain|] == chain;
    }

    /** Opens a session and executes one block in it; a failed block leaves no trace. */
    method ApplyBlock(n: KBlock, ghost chain: seq<KBlock>) returns (ok: bool)
      requires Tracks(chain)
      modifies this, db
      ensures db.base == old(db.base)
      ensures ok <==> Replay(process, db.base, chain + [n]).Some?
      ensures Tracks(if ok then chain + [n] else chain)
    {
      hide Replay, View, Overlay;
      ghost var st := db.Stack();
      TracksReplay(chain);
      ReplaySnoc(process, db.base, chain, n, db.Visible());
      var _ := db.Open();
      var e := process(n.block, View(db.base, db.sessions, |db.sessions|));
      db.WriteAll(e.writes);
      if !e.ok {
        var _ := db.RevokeTop();
        assert db.Stack() == st;
        return false;
      }
      applied := applied + [Ref(n.block.id, n.block.num)];
      assert db.Stack() == st + [Overlay(Top(st), e.writes)];
      ghost var longer := chain + [n];
      forall i | 0 <= i <= |longer|
        ensures Replay(process, db.base, longer[..i]) == Some(db.Stack()[i])
      {
        if i <= |chain| {
          assert longer[..i] == chain[..i];
        } else {
          assert longer[..i] == longer;
        }
      }
      return true;
    }

    /** Revokes the k topmost blocks. */
    method RevokeBlocks(k: nat, ghost chain: seq<KBlock>)
      requires Tracks(chain) && k <= |chain|
      modifies this, db
      ensures db.base == old(db.base) && Tracks(chain[..|chain| - k])
    {
      hide Replay, View, Overlay;
      var i := 0;
      assert chain[..|chain|] == chain;
      while i < k
        invariant 0 <= i <= k && db.base == old(db.base)
        invariant Tracks(chain[..|chain| - i])
      {
        ghost var now := chain[..|chain| - i];
        ghost var st := db.Stack();
        var _ := db.RevokeTop();
        applied := applied[..|applied| - 1];
        ghost var next := chain[..|chain| - (i + 1)];
        forall j | 0 <= j <= |next|
          ensures Replay(process, db.base, next[..j]) == Some(db.Stack()[j])
        {
          assert next[..j] == now[..j];
        }
        i := i + 1;
      }
    }

    /** Executes a branch given tip first, ancestor first, until a block fails. */
    method ApplyBranch(branch: seq<KBlock>, ghost chain: seq<KBlock>) returns (done: nat)
      requires Tracks(chain)
      modifies this, db
      ensures db.base == old(db.base) && done <= |branch|
      ensures Tracks(chain + Reverse(branch)[..done])
      ensures done < |branch| ==> Replay(process, db.base, chain + Reverse(branch)[..done + 1]).None?
    {
      hide Replay, Reverse, Tracks;
      ghost var path := Reverse(branch);
      done := 0;
      var i := |branch| - 1;
      assert chain + path[..0] == chain;
      while i >= 0
        invariant -1 <= i < |branch| && done == |branch| - 1 - i && db.base == old(db.base)
        invariant Tracks(chain + path[..done])
      {
        var ok := ApplyBlock(branch[i], chain + path[..done]);
        assert chain + path[..done] + [branch[i]] == chain + path[..done + 1];
        if !ok {
          return;
        }
        done := done + 1;
        i := i - 1;
      }
    }

    /** Recomputes the transaction root and compares it with the header's. */
    method ValidateBlock(b: Block) returns (ok: bool)
      ensures ok <==> RootMatches(nodeHash, b)
    {
      var root := Merkle.Root(nodeHash, b.txHashes);
      match root
      case None => return b.txTrieRoot == ZeroHash();
      case Some(r) => return b.txTrieRoot == r;
    }

    /**
     Puts the old branch back after the new one failed with `done` of its blocks applied. The failed switch
     is undone exactly when none was: blocks of the new branch already applied are not revoked.
     */
    method RestoreBranch(newHead: KBlock, oldHead: KBlock, newBr: seq<KBlock>, oldBr: seq<KBlock>, done: nat,
        ghost meet: KBlock)
      returns (restored: nat)
      requires khaos.Valid() && Stored(khaos.blocks, newHead) && Stored(khaos.blocks, oldHead)
      requires Meets(newHead, oldHead, newBr, oldBr, meet) && done < |newBr| && |newBr| == |oldBr| + 1
      requires Tracks(Body(meet) + Reverse(newBr)[..done])
      requires Replay(process, db.base, Body(oldHead)).Some?
      modifies this, db
      ensures db.base == old(db.base)
      ensures Tracks(Body(oldHead)) <==> done == 0
      ensures restored <= |oldBr| && Tracks(Body(meet) + Reverse(newBr)[..done] + Reverse(oldBr)[..restored])
      ensures restored < |oldBr| ==>
                Replay(process, db.base, Body(meet) + Reverse(newBr)[..done] + Reverse(oldBr)[..restored + 1]).None?
    {
      hide Replay, View, Overlay, Chain, Reverse, TreeOk, Body, Meets, CommonLen;
      MeetSplits(newHead, oldHead, newBr, oldBr, meet);
      ghost var common, path, back := Body(meet), Reverse(newBr), Reverse(oldBr);
      if done > 0 {
        PartingRefs(khaos.root, khaos.blocks, khaos.head.value, newHead, oldHead, common, path, back);
      } else {
        assert common + path[..0] == common;
      }
      restored := ApplyBranch(oldBr, common + path[..done]);
      if done == 0 {
        FailurePoint(process, db.base, common, back, restored);
        assert back[..|back|] == back;
      } else {
        hide Tracks;
        RefsOfTracked(common + path[..done] + back[..restored]);
        if Tracks(Body(oldHead)) {
          RefsOfTracked(Body(oldHead));
        }
        assert (common + path[..done] + back[..restored])[|common|] == path[0];
      }
    }

    lemma RefsOfTracked(chain: seq<KBlock>)
      requires Tracks(chain)
      ensures applied == Refs(chain)
    {
    }

    /** A longest chain ending in n overtakes oldHead: both are stored and nothing else reaches n's height. */
    ghost predicate Overtakes(n: KBlock, oldHead: KBlock)
      reads khaos
    {
      && khaos.Valid() && khaos.head == Some(n)
      && Stored(khaos.blocks, n) && Stored(khaos.blocks, oldHead) && Num(n) == Num(oldHead) + 1
      && forall id :: id in khaos.blocks && khaos.blocks[id] != n ==> Num(khaos.blocks[id]) <= Num(oldHead)
    }

    /** Takes a tip that failed out of the tree. */
    method Reject(n: KBlock, oldHead: KBlock)
      requires Overtakes(n, oldHead)
      modifies khaos
      ensures khaos.Valid() && State() == TreeState(old(khaos.blocks) - {n.block.id}, oldHead)
    {
      hide TreeOk, Chain;
      RejectOk(khaos.root, khaos.blocks, n, oldHead);
      var _ := khaos.RejectTip(n.block.id, Some(oldHead));
    }

    /**
     Moves from the old head's branch to the longer one of newHead; if that fails, tries to move back and drops newHead.
     `left` is the chain whose sessions a failed switch leaves behind.
     */
    method SwitchFork(newHead: KBlock, oldHead: KBlock) returns (ok: bool, ghost left: LeftOver)
      requires Overtakes(newHead, oldHead) && Tracks(Body(oldHead))
      modifies this, db, khaos
      ensures db.base == old(db.base) && khaos.Valid()
      ensures ok <==> Replay(process, db.base, Body(newHead)).Some?
      ensures ok ==> Tracks(Body(newHead)) && State() == old(State())
      ensures !ok ==> State() == TreeState(old(khaos.blocks) - {newHead.block.id}, oldHead)
      ensures !ok ==> (Tracks(Body(oldHead)) <==> !LateFailure(process, db.base, oldHead, newHead))
      ensures !ok ==>
                LeavesBehind(process, db.base, Body(newHead), Body(oldHead), left) &&
                Tracks(left.Chain(Body(newHead), Body(oldHead)))
    {
      hide Replay, View, Overlay, Chain, Reverse, TreeOk, LateFailure, LeavesBehind, CommonLen, Meets;
      left := LeftOver(0, 0, 0);
      var found, newBr, oldBr;
      ghost var meet: KBlock;
      found, newBr, oldBr, meet := khaos.GetBranch(newHead.block.id, oldHead.block.id);
      MeetSplits(newHead, oldHead, newBr, oldBr, meet);
      ghost var common, path := Body(meet), Reverse(newBr);
      TracksReplay(Body(oldHead));
      assert Body(oldHead)[..|common|] == common;
      RevokeBlocks(|oldBr|, Body(oldHead));
      var done := ApplyBranch(newBr, common);
      FailurePoint(process, db.base, common, path, done);
      if done == |newBr| {
        assert path[..done] == path;
        TracksReplay(Body(newHead));
        ok := true;
        return;
      }
      left := BackOut(newHead, oldHead, newBr, oldBr, done, meet);
      ok := false;
    }

    /** The failing half of a switch: restores what it can and rejects the new tip. */
    method BackOut(newHead: KBlock, oldHead: KBlock, newBr: seq<KBlock>, oldBr: seq<KBlock>, done: nat,
        ghost meet: KBlock)
      returns (ghost left: LeftOver)
      requires Overtakes(newHead, oldHead) && Meets(newHead, oldHead, newBr, oldBr, meet)
      requires done < |newBr| && |newBr| == |oldBr| + 1
      requires Tracks(Body(meet) + Reverse(newBr)[..done])
      requires Replay(process, db.base, Body(meet) + Reverse(newBr)[..done + 1]).None?
      requires Replay(process, db.base, Body(oldHead)).Some?
      modifies this, db, khaos
      ensures db.base == old(db.base) && khaos.Valid()
      ensures State() == TreeState(old(khaos.blocks) - {newHead.block.id}, oldHead)
      ensures Tracks(Body(oldHead)) <==> !LateFailure(process, db.base, oldHead, newHead)
      ensures LeavesBehind(process, db.base, Body(newHead), Body(oldHead), left)
      ensures Tracks(left.Chain(Body(newHead), Body(oldHead)))
    {
      hide Replay, View, Overlay, Chain, Reverse, TreeOk, Meets, Tracks, LateFailure, Body, CommonLen;
      ghost var common, path, back := Body(meet), Reverse(newBr), Reverse(oldBr);
      MeetSplits(newHead, oldHead, newBr, oldBr, meet);
      TracksReplay(common + path[..done]);
      FailurePoint(process, db.base, common, path, done);
      FirstNewBlock(process, db.base, oldHead, newHead, common, path, done);
      var restored := RestoreBranch(newHead, oldHead, newBr, oldBr, done, meet);
      TracksReplay(common + path[..done] + back[..restored]);
      left := LeftOver(|common|, done, restored);
      LeftBehind(process, db.base, common, path, back, left);
      Reject(newHead, oldHead);
    }

    /** Applies a block that extends the head; a block that fails leaves no trace in the state or in the tree. */
    method ApplyOnTop(n: KBlock, oldHead: KBlock) returns (ok: bool)
      requires Overtakes(n, oldHead) && Tracks(Body(oldHead)) && n.parent == Some(oldHead)
      modifies this, db, khaos
      ensures db.base == old(db.base) && khaos.Valid()
      ensures ok <==> Replay(process, db.base, Body(n)).Some?
      ensures Tracks(Body(if ok then n else oldHead))
      ensures State() == if ok then old(State()) else TreeState(old(khaos.blocks) - {n.block.id}, oldHead)
    {
      hide Replay, Chain, TreeOk;
      ExtensionNotLate(process, db.base, oldHead, n);
      ok := ApplyBlock(n, Body(oldHead));
      if !ok {
        Reject(n, oldHead);
      }
    }

    /** Adopts a longest chain or refuses it and puts the old head back. */
    method Adopt(n: KBlock, oldHead: KBlock) returns (ok: bool)
      requires Overtakes(n, oldHead) && Tracks(Body(oldHead))
      modifies this, db, khaos
      ensures db.base == old(db.base) && khaos.Valid()
      ensures ok <==> Replay(process, db.base, Body(n)).Some?
      ensures ok ==> Tracks(Body(n)) && State() == old(State())
      ensures !ok ==> State() == TreeState(old(khaos.blocks) - {n.block.id}, oldHead)
      ensures !ok ==> (Tracks(Body(oldHead)) <==> !LateFailure(process, db.base, oldHead, n))
    {
      hide Replay, Chain, TreeOk, LateFailure;
      ParentOrNot(khaos.root, khaos.blocks, n, n, oldHead);
      if n.block.parentId == oldHead.block.id {
        ExtensionNotLate(process, db.base, oldHead, n);
        ok := ApplyOnTop(n, oldHead);
      } else {
        ghost var left;
        ok, left := SwitchFork(n, oldHead);
      }
    }

    /**
     Validates a block, inserts it and moves the head when it makes a longer chain. The tree always ends as
     PushSpec says; the pipeline invariant survives exactly when no switch failed late.
     */
    method PushBlock(b: Block) returns (r: Pushed)
      requires Inv() && Numbered(State(), b)
      modifies this, db, khaos
      ensures khaos.Valid() && db.base == old(db.base)
      ensures State() == PushSpec(TheRules(), old(State()), b)
      ensures Inv() <==> !FailsLate(TheRules(), old(State()), b)
      ensures var known, headNum := old(khaos.blocks), Num(old(Head()));
              && (r.Duplicate? <==> b.id in known)
              && (r.BadRoot? <==> b.id !in known && !RootMatches(nodeHash, b))
              && (r.Unlinked? <==> b.id !in known && RootMatches(nodeHash, b) && b.parentId !in known)
              && (r.SideBranch? <==>
                    b.id !in known && RootMatches(nodeHash, b) && b.parentId in known && b.num <= headNum)
              && (r.Adopted? || r.Refused? <==>
                    b.id !in known && RootMatches(nodeHash, b) && b.parentId in known && b.num > headNum)
              && (r.Adopted? || r.Refused? ==>
                    (r.Adopted? <==> Replay(process, db.base, Body(NodeFor(known, b))).Some?))
      ensures if r.Adopted? then Head() == NodeFor(old(khaos.blocks), b) else Head() == old(Head())
    {
      hide Replay, Chain, TreeOk, CommonLen, Body, Tracks;
      if b.id in khaos.blocks {
        return Duplicate;
      }
      var valid := ValidateBlock(b);
      if !valid {
        return BadRoot;
      }
      var oldHead := khaos.head.value;
      if b.parentId !in khaos.blocks {
        return Unlinked;
      }
      ghost var before := khaos.blocks;
      BoundedByHead(khaos.root, before, oldHead);
      var node := khaos.Push(b);
      var n := node.value;
      if khaos.head.value.block.id != n.block.id {
        return SideBranch;
      }
      var ok := Adopt(n, oldHead);
      return if ok then Adopted else Refused;
    }

    /** Any clean run of pushes keeps the invariant and leaves the tree the longest-chain rule describes. */
    method PushAll(bs: seq<Block>)
      requires Inv() && CleanRun(TheRules(), State(), bs)
      modifies this, db, khaos
      ensures Inv() && TheRules() == old(TheRules())
      ensures State() == RunSpec(TheRules(), old(State()), bs)
    {
      hide Tracks, TreeOk, PushSpec, FailsLate, Numbered;
      var i := 0;
      while i < |bs|
        invariant 0 <= i <= |bs|
        invariant khaos.head.Some? && Inv() && TheRules() == old(TheRules())
        invariant CleanRun(TheRules(), State(), bs[i..])
        invariant RunSpec(TheRules(), State(), bs[i..]) == RunSpec(TheRules(), old(State()), bs)
      {
        assert bs[i..][1..] == bs[i + 1..];
        var _ := PushBlock(bs[i]);
        i := i + 1;
      }
    }
  }

  lemma BoundedByHead(root: KBlock, blocks: Blocks, head: KBlock)
    requires TreeOk(root, blocks, head)
    ensures Stored(blocks, head)
    ensures forall id :: id in blocks ==> Num(blocks[id]) <= Num(head) && blocks[id].block.id == id
  {
  }

  /** A stored block names the head as parent id exactly when the head is its parent. */
  lemma ParentOrNot(root: KBlock, blocks: Blocks, head: KBlock, n: KBlock, oldHead: KBlock)
    requires TreeOk(root, blocks, head) && Stored(blocks, n) && Stored(blocks, oldHead) && Num(n) == Num(oldHead) + 1
    ensures n.block.parentId == oldHead.block.id ==> n.parent == Some(oldHead)
  {
    hide Grounded;
    assert Rooted(root, blocks[n.block.id]) && Rooted(root, blocks[oldHead.block.id]);
    RootedNums(root, n);
    RootedNums(root, oldHead);
    if n.block.parentId == oldHead.block.id {
      var p := n.parent.value;
      assert Chain(n) == Chain(p) + [n];
      assert Chain(n)[|Chain(n)| - 2] == p;
      hide Chain;
      assert Chain(blocks[n.block.id])[|Chain(n)| - 2].block.id ==
        Chain(blocks[oldHead.block.id])[|Chain(oldHead)| - 1].block.id;
    }
  }

  /** A chain fails to replay as soon as one of its prefixes does. */
  lemma FailurePoint(process: Process, base: Store, common: seq<KBlock>, path: seq<KBlock>, done: nat)
    requires done <= |path|
    requires done < |path| ==> Replay(process, base, common + path[..done + 1]).None?
    ensures done < |path| ==> Replay(process, base, common + path).None?
  {
    if done < |path| && Replay(process, base, common + path).Some? {
      ReplayPrefix(process, base, common + path, |common| + done + 1);
      assert (common + path)[..|common| + done + 1] == common + path[..done + 1];
    }
  }

  /** A failed switch is late exactly when a block of the new branch had been applied. */
  lemma FirstNewBlock(
    process: Process, base: Store, oldHead: KBlock, newHead: KBlock, common: seq<KBlock>, path: seq<KBlock>, done: nat)
    requires done < |path| && Body(newHead) == common + path && CommonLen(Body(newHead), Body(oldHead)) == |common|
    requires Replay(process, base, common + path[..done]).Some?
    requires Replay(process, base, common + path[..done + 1]).None?
    requires Replay(process, base, common + path).None?
    ensures LateFailure(process, base, oldHead, newHead) <==> done > 0
  {
    var c := |common|;
    assert Body(newHead)[..c + 1] == common + path[..1];
    if done > 0 {
      ReplayPrefix(process, base, common + path[..done], c + 1);
      assert (common + path[..done])[..c + 1] == common + path[..1];
    }
  }

  lemma PartingRefs(root: KBlock, blocks: Blocks, head: KBlock, a: KBlock, b: KBlock,
                    common: seq<KBlock>, pathA: seq<KBlock>, pathB: seq<KBlock>)
    requires TreeOk(root, blocks, head) && Stored(blocks, a) && Stored(blocks, b)
    requires Body(a) == common + pathA && Body(b) == common + pathB && CommonLen(Body(a), Body(b)) == |common|
    requires pathA != [] && pathB != []
    ensures pathA[0].block.id != pathB[0].block.id
    ensures |common| < |Body(b)| && Body(b)[|common|] == pathB[0]
  {
    hide Chain, TreeOk;
    assert Body(a)[|common|] == pathA[0] && Body(b)[|common|] == pathB[0];
    DistinctRefs(root, blocks, head, a, b, |common|);
  }

  /** Stored blocks whose chains part have different references where they part. */
  lemma DistinctRefs(root: KBlock, blocks: Blocks, head: KBlock, a: KBlock, b: KBlock, c: nat)
    requires TreeOk(root, blocks, head) && Stored(blocks, a) && Stored(blocks, b)
    requires c < |Body(a)| && c < |Body(b)| && Body(a)[c] != Body(b)[c]
    ensures Body(a)[c].block.id != Body(b)[c].block.id
  {
    hide Chain, Wired, Grounded, HeadHighest;
    assert Chain(blocks[a.block.id])[c + 1] == Body(a)[c] && Chain(blocks[b.block.id])[c + 1] == Body(b)[c];
  }
}
