/**
 The transaction Merkle root: pairs are hashed level by level and a trailing
 odd node moves up unchanged. The loop is proved equal to the recursive tree
 hash of section 2.1 of RFC 6962 (without its leaf and node prefixes), which
 splits n leaves at the largest power of two below n.
 */
module Merkle {
  import opened Options

  predicate PowerOfTwo(k: nat) { k == 1 || (k > 1 && k % 2 == 0 && PowerOfTwo(k / 2)) }

  /** The largest power of two smaller than n. */
  function SplitPoint(n: nat): (k: nat)
    requires n >= 2
    ensures PowerOfTwo(k) && k < n <= 2 * k
  {
    if n == 2 then 1 else 2 * SplitPoint((n + 1) / 2)
  }

  lemma {:induction false} SplitPointUnique(n: nat, k: nat)
    requires n >= 2 && PowerOfTwo(k) && k < n <= 2 * k
    ensures k == SplitPoint(n)
    decreases n
  {
    if n > 2 {
      assert k % 2 == 0;
      SplitPointUnique((n + 1) / 2, k / 2);
    }
  }

  /** The recursive tree hash. */
  function TreeHash<D>(h: (D, D) -> D, s: seq<D>): D
    requires |s| > 0
    decreases |s|
  {
    if |s| == 1 then s[0]
    else
      var k := SplitPoint(|s|);
      h(TreeHash(h, s[..k]), TreeHash(h, s[k..]))
  }

  /** One level of the loop. */
  function LevelUp<D>(h: (D, D) -> D, s: seq<D>): (r: seq<D>)
    ensures |r| == (|s| + 1) / 2
  {
    if |s| <= 1 then s else [h(s[0], s[1])] + LevelUp(h, s[2..])
  }

  lemma LevelUpPair<D>(h: (D, D) -> D, s: seq<D>)
    requires |s| > 1
    ensures LevelUp(h, s) == [h(s[0], s[1])] + LevelUp(h, s[2..])
  {
  }

  lemma SlicesAfterPair<D>(s: seq<D>, k: nat)
    requires 2 <= k <= |s|
    ensures s[2..][..k - 2] == s[..k][2..] && s[2..][k - 2..] == s[k..]
  {
  }

  lemma {:induction false} LevelUpSplit<D>(h: (D, D) -> D, s: seq<D>, k: nat)
    requires k <= |s| && k % 2 == 0
    ensures LevelUp(h, s) == LevelUp(h, s[..k]) + LevelUp(h, s[k..])
    decreases k
  {
    if k == 0 {
      assert s[..0] == [] && s[0..] == s && LevelUp(h, s[..0]) == [];
    } else {
      hide LevelUp;
      LevelUpPair(h, s);
      LevelUpPair(h, s[..k]);
      LevelUpSplit(h, s[2..], k - 2);
      SlicesAfterPair(s, k);
      Associate([h(s[0], s[1])], LevelUp(h, s[..k][2..]), LevelUp(h, s[k..]));
    }
  }

  lemma Associate<D>(a: seq<D>, b: seq<D>, c: seq<D>)
    ensures a + (b + c) == a + b + c
  {
  }

  /** Moving one level up does not change the tree hash. */
  lemma {:induction false} LevelUpKeepsHash<D>(h: (D, D) -> D, s: seq<D>)
    requires |s| >= 1
    ensures TreeHash(h, LevelUp(h, s)) == TreeHash(h, s)
    decreases |s|
  {
    if |s| == 2 {
      assert SplitPoint(2) == 1;
      assert LevelUp(h, s) == [h(s[0], s[1])];
      assert s[..1] == [s[0]] && s[1..] == [s[1]];
    } else if |s| > 2 {
      var k := SplitPoint(|s|);
      var up := LevelUp(h, s);
      assert k == 2 * SplitPoint((|s| + 1) / 2);
      LevelUpSplit(h, s, k);
      assert up[..k / 2] == LevelUp(h, s[..k]) && up[k / 2..] == LevelUp(h, s[k..]);
      LevelUpKeepsHash(h, s[..k]);
      LevelUpKeepsHash(h, s[k..]);
    }
  }

  /** What is left to do from position i on. */
  ghost function Rest<D>(level: seq<D>, i: nat): seq<D> { if i < |level| then level[i..] else [] }

  lemma RestStep<D>(h: (D, D) -> D, level: seq<D>, i: nat)
    requires i < |level|
    ensures LevelUp(h, Rest(level, i)) ==
            [if i + 1 < |level| then h(level[i], level[i + 1]) else level[i]] + LevelUp(h, Rest(level, i + 2))
  {
    if i + 1 < |level| {
      LevelUpPair(h, level[i..]);
      assert level[i..][2..] == Rest(level, i + 2);
    } else {
      assert level[i..] == [level[i]];
    }
  }

  method NextLevel<D>(h: (D, D) -> D, level: seq<D>) returns (next: seq<D>)
    ensures next == LevelUp(h, level)
  {
    next := [];
    var i := 0;
    assert Rest(level, 0) == level && LevelUp(h, []) == [];
    hide LevelUp, Rest;
    while i < |level|
      invariant 0 <= i <= |level| + 1
      invariant next + LevelUp(h, Rest(level, i)) == LevelUp(h, level)
    {
      RestStep(h, level, i);
      ghost var done := next;
      if i + 1 < |level| {
        next := next + [h(level[i], level[i + 1])];
      } else {
        next := next + [level[i]];
      }
      Associate(done, [next[|done|]], LevelUp(h, Rest(level, i + 2)));
      i := i + 2;
    }
    RestDone(level, i);
  }

  lemma RestDone<D>(level: seq<D>, i: nat)
    requires i >= |level|
    ensures Rest(level, i) == []
  {
  }

  /** Root of the leaves, computed level by level; nothing for no leaves. */
  method Root<D>(h: (D, D) -> D, leaves: seq<D>) returns (root: Option<D>)
    ensures root == if leaves == [] then None else Some(TreeHash(h, leaves))
  {
    if |leaves| == 0 {
      return None;
    }
    var level := leaves;
    while |level| > 1
      invariant |level| > 0
      invariant TreeHash(h, level) == TreeHash(h, leaves)
      decreases |level|
    {
      LevelUpKeepsHash(h, level);
      level := NextLevel(h, level);
    }
    return Some(level[0]);
  }

  ghost predicate Injective<D(!new)>(h: (D, D) -> D) {
    forall a, b, c, d :: h(a, b) == h(c, d) ==> a == c && b == d
  }

  /** With a collision-free node hash the root determines the leaves, given how many there are. */
  lemma {:induction false} RootBindsLeaves<D(!new)>(h: (D, D) -> D, s: seq<D>, t: seq<D>)
    requires Injective(h) && |s| == |t| && |s| > 0
    requires TreeHash(h, s) == TreeHash(h, t)
    ensures s == t
    decreases |s|
  {
    if |s| > 1 {
      var k := SplitPoint(|s|);
      RootBindsLeaves(h, s[..k], t[..k]);
      RootBindsLeaves(h, s[k..], t[k..]);
      assert s == s[..k] + s[k..] && t == t[..k] + t[k..];
    }
  }

  function Flatten<T>(s: seq<seq<T>>): seq<T> { if s == [] then [] else s[0] + Flatten(s[1..]) }

  lemma {:induction false} FlattenAdds<T>(a: seq<seq<T>>, b: seq<seq<T>>)
    ensures Flatten(a + b) == Flatten(a) + Flatten(b)
    decreases |a|
  {
    if a == [] {
      assert a + b == b;
    } else {
      FlattenAdds(a[1..], b);
      assert (a + b)[1..] == a[1..] + b;
    }
  }

  /** The tree reads its leaves from left to right: with joining in place of hashing it gives them back in order. */
  lemma {:induction false} LeavesInOrder<T(!new)>(h: (seq<T>, seq<T>) -> seq<T>, s: seq<seq<T>>)
    requires |s| > 0 && forall a: seq<T>, b: seq<T> :: h(a, b) == a + b
    ensures TreeHash(h, s) == Flatten(s)
    decreases |s|
  {
    if |s| == 1 {
      assert s[1..] == [] && s[0] + [] == s[0];
    } else {
      var k := SplitPoint(|s|);
      LeavesInOrder(h, s[..k]);
      LeavesInOrder(h, s[k..]);
      FlattenAdds(s[..k], s[k..]);
      assert s == s[..k] + s[k..];
    }
  }

  /** Three leaves and five: full pairs first, the odd leaf last and unhashed. */
  lemma SmallTrees<D>(h: (D, D) -> D, a: D, b: D, c: D, d: D, e: D)
    ensures TreeHash(h, [a, b, c]) == h(h(a, b), c)
    ensures TreeHash(h, [a, b, c, d, e]) == h(h(h(a, b), h(c, d)), e)
  {
    LevelUpKeepsHash(h, [a, b, c]);
    LevelUpKeepsHash(h, [a, b, c, d, e]);
    var up := [h(a, b), h(c, d), e];
    LevelUpKeepsHash(h, up);
    hide TreeHash;
    assert LevelUp(h, [a, b, c]) == [h(a, b), c] by {
      assert [a, b, c][2..] == [c];
    }
    assert LevelUp(h, [a, b, c, d, e]) == up by {
      assert [a, b, c, d, e][2..] == [c, d, e] && [c, d, e][2..] == [e];
    }
    assert LevelUp(h, up) == [h(h(a, b), h(c, d)), e] by {
      assert up[2..] == [e];
    }
    TwoLeaves(h, h(a, b), c);
    TwoLeaves(h, h(h(a, b), h(c, d)), e);
  }

  lemma TwoLeaves<D>(h: (D, D) -> D, a: D, b: D)
    ensures TreeHash(h, [a, b]) == h(a, b)
  {
    assert SplitPoint(2) == 1 && [a, b][..1] == [a] && [a, b][1..] == [b];
  }
}
