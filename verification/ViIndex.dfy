/**
 The per-vote reward index: each closed cycle adds its pool divided by the
 votes of that cycle, at a scale of 10^18, and a payout is index growth times
 votes, rounded down.
 */
module ViIndex {
  import opened Arith
  import opened Rewards
  import opened Voting

  // ---- the index ----

  /** What one cycle adds to the index; a negative vote count divides as the big-integer library does. */
  function CycleStep(pool: nat, votes: int): int {
    if pool == 0 || votes == 0 then 0 else pool * VI_SCALE / votes
  }

  function Magnitude(x: int): nat { if x < 0 then -x else x }

  /**
   The entry a closed cycle is left with. Entries are stored without sign, and nothing is written over a zero
   index.
   */
  function Folded(entry: nat, pre: nat, pool: nat, votes: int): nat {
    if pool == 0 || votes == 0 then (if pre != 0 then pre else entry) else Magnitude(pre + CycleStep(pool, votes))
  }

  /** The step is the pool shared over the votes, at a scale of 10^18 and with less than one unit a vote lost. */
  lemma StepBracket(pool: nat, votes: nat)
    requires votes > 0
    ensures var step := CycleStep(pool, votes);
            step * votes <= pool * 1_000_000_000_000_000_000 < (step + 1) * votes
  {
    QuotientBracket(pool * VI_SCALE, votes);
  }

  lemma StepNonNegative(pool: nat, votes: nat)
    ensures CycleStep(pool, votes) >= 0
  {
    if pool != 0 && votes != 0 {
      DivMono(0, pool * VI_SCALE, votes);
    }
  }

  /** On a fresh entry and with an honest vote count, folding adds the step. */
  lemma FoldedFresh(pre: nat, pool: nat, votes: nat)
    ensures Folded(0, pre, pool, votes) == pre + CycleStep(pool, votes)
  {
    StepNonNegative(pool, votes);
  }

  /** One candidate in one cycle. */
  datatype Slot = Slot(cycle: int, candidate: Address)

  type Entries = map<Slot, nat>

  function EntryIn(m: Entries, cycle: int, w: Address): nat { if Slot(cycle, w) in m then m[Slot(cycle, w)] else 0 }

  ghost predicate StepAt(vi: Entries, pools: Entries, c: int, w: Address, votes: int) {
    EntryIn(vi, c, w) == Folded(0, EntryIn(vi, c - 1, w), EntryIn(pools, c, w), votes)
  }

  /** The cycles from first on were closed one after the other, with the given vote counts. */
  ghost predicate Steps(vi: Entries, pools: Entries, first: int, w: Address, counts: seq<int>) {
    forall i :: 0 <= i < |counts| ==> StepAt(vi, pools, first + i, w, counts[i])
  }

  ghost predicate Honest(counts: seq<int>) { forall i :: 0 <= i < |counts| ==> counts[i] >= 0 }

  /** Index growth over the first n of those cycles: the sum of their steps. */
  function IndexSum(pools: Entries, first: int, w: Address, counts: seq<int>, n: nat): int
    requires n <= |counts|
  {
    if n == 0 then 0
    else
      var step := CycleStep(EntryIn(pools, first + n - 1, w), counts[n - 1]);
      IndexSum(pools, first, w, counts, n - 1) + step
  }

  function PoolSum(pools: Entries, first: int, w: Address, n: nat): nat {
    if n == 0 then 0 else PoolSum(pools, first, w, n - 1) + EntryIn(pools, first + n - 1, w)
  }

  /** After consecutive accumulations the index is the sum of all steps so far. */
  lemma {:induction false} IndexIsSum(vi: Entries, pools: Entries, first: int, w: Address, counts: seq<int>, n: nat)
    requires Steps(vi, pools, first, w, counts) && Honest(counts) && n <= |counts|
    ensures EntryIn(vi, first + n - 1, w) == EntryIn(vi, first - 1, w) + IndexSum(pools, first, w, counts, n)
    decreases n
  {
    hide CycleStep, Folded;
    if n > 0 {
      IndexIsSum(vi, pools, first, w, counts, n - 1);
      assert StepAt(vi, pools, first + (n - 1), w, counts[n - 1]);
      FoldedFresh(EntryIn(vi, first + (n - 1) - 1, w), EntryIn(pools, first + (n - 1), w), counts[n - 1]);
    }
  }

  lemma {:induction false} IndexRises(vi: Entries, pools: Entries, first: int, w: Address, counts: seq<int>, c: int,
      d: int)
    requires Steps(vi, pools, first, w, counts) && Honest(counts) && first <= c <= d <= first + |counts|
    ensures EntryIn(vi, c - 1, w) <= EntryIn(vi, d - 1, w)
    decreases d - c
  {
    hide CycleStep, Folded;
    if c < d {
      IndexRises(vi, pools, first, w, counts, c, d - 1);
      var i := d - 1 - first;
      assert StepAt(vi, pools, first + i, w, counts[i]);
      FoldedFresh(EntryIn(vi, first + i - 1, w), EntryIn(pools, first + i, w), counts[i]);
      StepNonNegative(EntryIn(pools, first + i, w), counts[i]);
    }
  }

  class ViStore {
    var vi: Entries
    var pools: Entries

    constructor ()
      ensures vi == map[] && pools == map[]
    {
      vi, pools := map[], map[];
    }

    function Vi(cycle: int, w: Address): nat
      reads this`vi
    {
      EntryIn(vi, cycle, w)
    }

    function Pool(cycle: int, w: Address): nat
      reads this`pools
    {
      EntryIn(pools, cycle, w)
    }

    method AddReward(cycle: int, w: Address, amount: nat)
      modifies this`pools
      ensures Pool(cycle, w) == old(Pool(cycle, w)) + amount
      ensures forall c: int, x: Address :: Slot(c, x) != Slot(cycle, w) ==> Pool(c, x) == old(Pool(c, x))
    {
      pools := pools[Slot(cycle, w) := Pool(cycle, w) + amount];
    }

    /** Adds several candidates' rewards to the pools of one cycle. */
    method AddRewards(cycle: int, rewards: map<Address, nat>)
      modifies this`pools
      ensures forall c: int, x: Address :: c != cycle ==> Pool(c, x) == old(Pool(c, x))
      ensures forall x: Address :: Pool(cycle, x) == old(Pool(cycle, x)) + if x in rewards then rewards[x] else 0
    {
      var todo := rewards.Keys;
      while todo != {}
        modifies this`pools
        invariant todo <= rewards.Keys
        invariant forall c: int, x: Address :: c != cycle ==> Pool(c, x) == old(Pool(c, x))
        invariant forall x: Address ::
                    Pool(cycle, x) == old(Pool(cycle, x)) + if x in rewards && x !in todo then rewards[x] else 0
      {
        var x :| x in todo;
        AddReward(cycle, x, rewards[x]);
        todo := todo - {x};
      }
    }

    /** Closes a cycle for a candidate, whether or not it was closed before; only that entry of the index can change. */
    method AccumulateWitnessVi(cycle: int, w: Address, voteCount: int)
      modifies this`vi
      ensures Vi(cycle, w) == Folded(old(Vi(cycle, w)), old(Vi(cycle - 1, w)), Pool(cycle, w), voteCount)
      ensures Pool(cycle, w) > 0 && voteCount > 0 ==>
                var step := Vi(cycle, w) - old(Vi(cycle - 1, w));
                step * voteCount <= Pool(cycle, w) * 1_000_000_000_000_000_000 < (step + 1) * voteCount
      ensures forall c: int, x: Address :: Slot(c, x) != Slot(cycle, w) ==> Vi(c, x) == old(Vi(c, x))
    {
      var preVi := Vi(cycle - 1, w);
      var reward := Pool(cycle, w);
      if reward == 0 || voteCount == 0 {
        if preVi != 0 {
          vi := vi[Slot(cycle, w) := preVi];
        }
        return;
      }
      vi := vi[Slot(cycle, w) := Magnitude(preVi + reward * VI_SCALE / voteCount)];
      if voteCount > 0 {
        StepBracket(reward, voteCount);
        StepNonNegative(reward, voteCount);
      }
    }

    /** Consecutive accumulations over cycles not closed before. */
    method AccumulateAll(first: int, w: Address, counts: seq<int>)
      requires forall c: int :: first <= c < first + |counts| ==> Vi(c, w) == 0
      modifies this`vi
      ensures Steps(vi, pools, first, w, counts)
      ensures Honest(counts) ==>
                forall n :: 0 <= n <= |counts| ==>
                  Vi(first + n - 1, w) == old(Vi(first - 1, w)) + IndexSum(pools, first, w, counts, n)
      ensures forall c: int, x: Address :: x != w || c < first || c >= first + |counts| ==> Vi(c, x) == old(Vi(c, x))
    {
      hide CycleStep, Folded, IndexSum;
      for i := 0 to |counts|
        invariant forall c: int :: first + i <= c < first + |counts| ==> Vi(c, w) == 0
        invariant Steps(vi, pools, first, w, counts[..i])
        invariant forall c: int, x: Address :: x != w || c < first || c >= first + |counts| ==>
                    Vi(c, x) == old(Vi(c, x))
      {
        ghost var before := vi;
        AccumulateWitnessVi(first + i, w, counts[i]);
        ghost var closed := counts[..i + 1];
        forall j | 0 <= j < |closed|
          ensures StepAt(vi, pools, first + j, w, closed[j])
        {
          if j < i {
            assert StepAt(before, pools, first + j, w, counts[..i][j]);
          }
        }
      }
      assert counts[..|counts|] == counts;
      if Honest(counts) {
        forall n | 0 <= n <= |counts|
          ensures Vi(first + n - 1, w) == Vi(first - 1, w) + IndexSum(pools, first, w, counts, n)
        {
          IndexIsSum(vi, pools, first, w, counts, n);
        }
      }
    }
  }

  /** What the stored index pays. */
  function StoredTariff(vi: Entries, flat: (int, Votes) -> nat, indexFrom: int): Tariff {
    Tariff((cycle: int, w: Address) => EntryIn(vi, cycle, w), flat, indexFrom)
  }

  // ---- payouts against pools ----

  /** Votes for one candidate over a span of cycles, as one voter held and settled them. */
  datatype Stake = Stake(begin: int, end: int, count: nat)

  /** What settling these stakes pays. */
  function Paid(t: Tariff, w: Address, stakes: seq<Stake>): nat {
    if stakes == [] then 0
    else
      var s := stakes[|stakes| - 1];
      Paid(t, w, stakes[..|stakes| - 1]) + VoteReward(t, s.begin, s.end, Vote(w, s.count))
  }

  /** Votes held in a cycle. */
  function Held(stakes: seq<Stake>, c: int): nat {
    if stakes == [] then 0
    else
      var s := stakes[|stakes| - 1];
      Held(stakes[..|stakes| - 1], c) + if s.begin <= c < s.end then s.count else 0
  }

  ghost predicate Within(stakes: seq<Stake>, first: int, last: int) {
    forall i :: 0 <= i < |stakes| ==> first <= stakes[i].begin <= stakes[i].end <= last
  }

  function Earlier(a: int, b: int): int { if a < b then a else b }

  /** Index growth of a stake's span up to cycle `last`, times its votes. */
  function OwedTo(vi: Entries, w: Address, s: Stake, last: int): int {
    (EntryIn(vi, Earlier(s.end, last) - 1, w) - EntryIn(vi, Earlier(s.begin, last) - 1, w)) * s.count
  }

  function Owed(vi: Entries, w: Address, stakes: seq<Stake>, last: int): int {
    if stakes == [] then 0 else Owed(vi, w, stakes[..|stakes| - 1], last) + OwedTo(vi, w, stakes[|stakes| - 1], last)
  }

  /** One more cycle owes its step to every vote held in it. */
  lemma {:induction false} OwedGrows(vi: Entries, w: Address, stakes: seq<Stake>, first: int, last: int, c: int)
    requires Within(stakes, first, last)
    ensures Owed(vi, w, stakes, c + 1) ==
            Owed(vi, w, stakes, c) + (EntryIn(vi, c, w) - EntryIn(vi, c - 1, w)) * Held(stakes, c)
    decreases |stakes|
  {
    if stakes != [] {
      var init, s := stakes[..|stakes| - 1], stakes[|stakes| - 1];
      OwedGrows(vi, w, init, first, last, c);
      var step := EntryIn(vi, c, w) - EntryIn(vi, c - 1, w);
      OneOwedGrows(vi, w, s, c);
      Distribute(step, Held(init, c), if s.begin <= c < s.end then s.count else 0);
    }
  }

  lemma Distribute(x: int, a: int, b: int)
    ensures x * (a + b) == x * a + x * b
  {
  }

  lemma OneOwedGrows(vi: Entries, w: Address, s: Stake, c: int)
    requires s.begin <= s.end
    ensures OwedTo(vi, w, s, c + 1) ==
            OwedTo(vi, w, s, c) +
            (EntryIn(vi, c, w) - EntryIn(vi, c - 1, w)) * (if s.begin <= c < s.end then s.count else 0)
  {
    var step := EntryIn(vi, c, w) - EntryIn(vi, c - 1, w);
    assert step * 0 == 0;
    if s.begin <= c < s.end {
      Distribute(s.count, EntryIn(vi, c - 1, w) - EntryIn(vi, s.begin - 1, w), step);
    }
  }

  /** Nothing is owed before the first cycle. */
  lemma {:induction false} NothingOwed(vi: Entries, w: Address, stakes: seq<Stake>, first: int, last: int)
    requires Within(stakes, first, last)
    ensures Owed(vi, w, stakes, first) == 0
    decreases |stakes|
  {
    if stakes != [] {
      NothingOwed(vi, w, stakes[..|stakes| - 1], first, last);
      assert 0 * stakes[|stakes| - 1].count == 0;
    }
  }

  /** votes times the index step of a cycle stays within the cycle's pool, at scale. */
  lemma StepWithinPool(pool: nat, count: nat, votes: nat)
    requires votes <= count
    ensures CycleStep(pool, count) * votes <= pool * VI_SCALE
  {
    if pool != 0 && count != 0 {
      var step := pool * VI_SCALE / count;
      StepNonNegative(pool, count);
      QuotientBracket(pool * VI_SCALE, count);
      MulMono(votes, count, step);
      assert step * votes == votes * step && step * count == count * step;
    }
  }

  lemma {:induction false} OwedWithinPools(
    vi: Entries, pools: Entries, first: int, w: Address, counts: seq<int>, stakes: seq<Stake>, n: nat)
    requires Steps(vi, pools, first, w, counts) && Within(stakes, first, first + |counts|) && n <= |counts|
    requires forall i :: 0 <= i < |counts| ==> Held(stakes, first + i) <= counts[i]
    ensures Owed(vi, w, stakes, first + n) <= PoolSum(pools, first, w, n) * VI_SCALE
    decreases n
  {
    hide CycleStep, Folded, Owed, Held;
    if n == 0 {
      NothingOwed(vi, w, stakes, first, first + |counts|);
    } else {
      var c := first + (n - 1);
      OwedWithinPools(vi, pools, first, w, counts, stakes, n - 1);
      OwedGrows(vi, w, stakes, first, first + |counts|, c);
      assert StepAt(vi, pools, c, w, counts[n - 1]) && Held(stakes, first + (n - 1)) <= counts[n - 1];
      FoldedFresh(EntryIn(vi, c - 1, w), EntryIn(pools, c, w), counts[n - 1]);
      StepWithinPool(EntryIn(pools, c, w), counts[n - 1], Held(stakes, c));
      Distribute(VI_SCALE, PoolSum(pools, first, w, n - 1), EntryIn(pools, c, w));
    }
  }

  lemma {:induction false} PaidWithinOwed(
    vi: Entries, pools: Entries, first: int, w: Address, counts: seq<int>, stakes: seq<Stake>, t: Tariff)
    requires Steps(vi, pools, first, w, counts) && Honest(counts) && Within(stakes, first, first + |counts|)
    requires t.vi == StoredTariff(vi, t.flat, t.indexFrom).vi
    ensures Paid(t, w, stakes) * VI_SCALE <= Owed(vi, w, stakes, first + |counts|)
    decreases |stakes|
  {
    hide Steps;
    if stakes != [] {
      var init, s := stakes[..|stakes| - 1], stakes[|stakes| - 1];
      PaidWithinOwed(vi, pools, first, w, counts, init, t);
      IndexRises(vi, pools, first, w, counts, s.begin, s.end);
      var delta := EntryIn(vi, s.end - 1, w) - EntryIn(vi, s.begin - 1, w);
      QuotientBracket(delta * s.count, VI_SCALE);
      assert delta == 0 ==> delta * s.count == 0;
      Distribute(VI_SCALE, Paid(t, w, init), VoteReward(t, s.begin, s.end, Vote(w, s.count)));
    }
  }

  /**
   Payouts from the stored index, over any spans the voters settle, never exceed the pools of the cycles they cover,
   when in every cycle the votes held are at most the vote count the cycle was closed with.
   */
  lemma PoolsCoverPayouts(
    vi: Entries, pools: Entries, first: int, w: Address, counts: seq<int>, stakes: seq<Stake>,
    flat: (int, Votes) -> nat, indexFrom: int)
    requires Steps(vi, pools, first, w, counts) && Within(stakes, first, first + |counts|)
    requires forall i :: 0 <= i < |counts| ==> Held(stakes, first + i) <= counts[i]
    ensures Paid(StoredTariff(vi, flat, indexFrom), w, stakes) <= PoolSum(pools, first, w, |counts|)
  {
    var t := StoredTariff(vi, flat, indexFrom);
    OwedWithinPools(vi, pools, first, w, counts, stakes, |counts|);
    assert Honest(counts) by {
      forall i | 0 <= i < |counts|
        ensures counts[i] >= 0
      {
        assert Held(stakes, first + i) <= counts[i];
      }
    }
    PaidWithinOwed(vi, pools, first, w, counts, stakes, t);
    ScaledBelow(Paid(t, w, stakes), PoolSum(pools, first, w, |counts|));
  }

  // ---- and pools against payouts ----

  /** Pools of the cycles that were closed with votes: nobody can earn the others. */
  function VotedPools(pools: Entries, first: int, w: Address, counts: seq<int>, n: nat): nat
    requires n <= |counts|
  {
    if n == 0 then 0
    else
      VotedPools(pools, first, w, counts, n - 1) + if counts[n - 1] > 0 then EntryIn(pools, first + n - 1, w) else 0
  }

  function CountSum(counts: seq<int>, n: nat): int
    requires n <= |counts|
  {
    if n == 0 then 0 else CountSum(counts, n - 1) + counts[n - 1]
  }

  /** When every vote counted is held, what is owed falls short of the pools by the rounding of the steps only. */
  lemma {:induction false} OwedExhaustsPools(
    vi: Entries, pools: Entries, first: int, w: Address, counts: seq<int>, stakes: seq<Stake>, n: nat)
    requires Steps(vi, pools, first, w, counts) && Within(stakes, first, first + |counts|) && n <= |counts|
    requires forall i :: 0 <= i < |counts| ==> Held(stakes, first + i) == counts[i]
    ensures VotedPools(pools, first, w, counts, n) * VI_SCALE <= Owed(vi, w, stakes, first + n) + CountSum(counts, n)
    decreases n
  {
    hide CycleStep, Folded, Owed, Held;
    if n == 0 {
      NothingOwed(vi, w, stakes, first, first + |counts|);
    } else {
      var c, votes := first + (n - 1), counts[n - 1];
      var pool := EntryIn(pools, c, w);
      OwedExhaustsPools(vi, pools, first, w, counts, stakes, n - 1);
      OwedGrows(vi, w, stakes, first, first + |counts|, c);
      assert StepAt(vi, pools, c, w, votes) && Held(stakes, first + (n - 1)) == votes;
      FoldedFresh(EntryIn(vi, c - 1, w), pool, votes);
      var step := CycleStep(pool, votes);
      if votes > 0 {
        StepBracket(pool, votes);
        Distribute(votes, step, 1);
      }
      Distribute(VI_SCALE, VotedPools(pools, first, w, counts, n - 1), if votes > 0 then pool else 0);
    }
  }

  /** Settling loses less than one sun for each stake. */
  lemma {:induction false} PaidNearOwed(vi: Entries, w: Address, stakes: seq<Stake>, first: int, last: int, t: Tariff)
    requires Within(stakes, first, last) && t.vi == StoredTariff(vi, t.flat, t.indexFrom).vi
    ensures Owed(vi, w, stakes, last) <= (Paid(t, w, stakes) + |stakes|) * VI_SCALE
    decreases |stakes|
  {
    if stakes != [] {
      var init, s := stakes[..|stakes| - 1], stakes[|stakes| - 1];
      PaidNearOwed(vi, w, init, first, last, t);
      VoteRewardBracket(t, s.begin, s.end, Vote(w, s.count));
      var delta := EntryIn(vi, s.end - 1, w) - EntryIn(vi, s.begin - 1, w);
      if delta <= 0 {
        MulMono(delta, 0, s.count);
      }
      var r := VoteReward(t, s.begin, s.end, Vote(w, s.count));
      hide VoteReward;
      Distribute(VI_SCALE, Paid(t, w, init) + |init|, r + 1);
    }
  }

  /**
   The other side of PoolsCoverPayouts: when the votes held in every cycle are those it was closed with, the payouts
   leave behind at most one sun for each settled stake and the rounding of the steps, one unit at scale a vote.
   */
  lemma PayoutsExhaustPools(
    vi: Entries, pools: Entries, first: int, w: Address, counts: seq<int>, stakes: seq<Stake>,
    flat: (int, Votes) -> nat, indexFrom: int)
    requires Steps(vi, pools, first, w, counts) && Within(stakes, first, first + |counts|)
    requires forall i :: 0 <= i < |counts| ==> Held(stakes, first + i) == counts[i]
    ensures var paid, pool := Paid(StoredTariff(vi, flat, indexFrom), w, stakes),
              VotedPools(pools, first, w, counts, |counts|);
            && (pool - paid - |stakes|) * 1_000_000_000_000_000_000 <= CountSum(counts, |counts|)
            && (CountSum(counts, |counts|) < 1_000_000_000_000_000_000 ==> pool <= paid + |stakes|)
  {
    var t := StoredTariff(vi, flat, indexFrom);
    OwedExhaustsPools(vi, pools, first, w, counts, stakes, |counts|);
    PaidNearOwed(vi, w, stakes, first, first + |counts|, t);
    hide Paid, Owed, VotedPools, CountSum, Steps, Within, Held;
  }

  lemma ScaledBelow(a: int, b: int)
    requires a * VI_SCALE <= b * VI_SCALE
    ensures a <= b
  {
    if a > b {
      MulMono(b + 1, a, VI_SCALE);
    }
  }

  // ---- settling a span in two parts ----

  /** The index of every voted candidate does not fall from one settlement point to the next. */
  ghost predicate Rising(t: Tariff, begin: int, mid: int, end: int, votes: Votes) {
    forall v :: v in votes ==>
      t.vi(begin - 1, v.candidate) <= t.vi(mid - 1, v.candidate) <= t.vi(end - 1, v.candidate)
  }

  lemma VoteSplit(t: Tariff, begin: int, mid: int, end: int, v: Vote)
    requires t.vi(begin - 1, v.candidate) <= t.vi(mid - 1, v.candidate) <= t.vi(end - 1, v.candidate)
    ensures VoteReward(t, begin, mid, v) + VoteReward(t, mid, end, v) <= VoteReward(t, begin, end, v)
    ensures VoteReward(t, begin, end, v) <= VoteReward(t, begin, mid, v) + VoteReward(t, mid, end, v) + 1
  {
    var a, b := t.vi(mid - 1, v.candidate) - t.vi(begin - 1, v.candidate),
      t.vi(end - 1, v.candidate) - t.vi(mid - 1, v.candidate);
    assert (a + b) * v.count == a * v.count + b * v.count;
    DivSum(a * v.count, b * v.count, VI_SCALE);
    assert a == 0 ==> a * v.count == 0;
    assert b == 0 ==> b * v.count == 0;
  }

  lemma {:induction false} IndexSplit(t: Tariff, begin: int, mid: int, end: int, votes: Votes)
    requires Rising(t, begin, mid, end, votes)
    ensures IndexReward(t, begin, mid, votes) + IndexReward(t, mid, end, votes) <= IndexReward(t, begin, end, votes)
    ensures IndexReward(t, begin, end, votes) <= IndexReward(t, begin, mid, votes) +
              IndexReward(t, mid, end, votes) + |votes|
  {
    if votes != [] {
      assert votes[|votes| - 1] in votes;
      IndexSplit(t, begin, mid, end, votes[..|votes| - 1]);
      VoteSplit(t, begin, mid, end, votes[|votes| - 1]);
      hide VoteReward;
    }
  }

  lemma {:induction false} OldSplit(t: Tariff, begin: int, mid: int, end: int, votes: Votes)
    requires begin <= mid <= end
    ensures OldReward(t, begin, mid, votes) + OldReward(t, mid, end, votes) == OldReward(t, begin, end, votes)
    decreases mid - begin
  {
    if begin < mid {
      OldSplit(t, begin + 1, mid, end, votes);
    }
  }

  lemma IndexNothing(t: Tariff, c: int, votes: Votes)
    ensures IndexReward(t, c, c, votes) == 0
  {
    if votes != [] {
      IndexNothing(t, c, votes[..|votes| - 1]);
    }
  }

  function Later(a: int, b: int): int { if a < b then b else a }

  /** Settling a span in two parts pays at most the unsplit amount, and at most one sun less per vote entry. */
  lemma RewardSplit(t: Tariff, begin: int, mid: int, end: int, votes: Votes)
    requires begin <= mid <= end
    requires t.indexFrom < mid ==> Rising(t, Later(begin, t.indexFrom), mid, end, votes)
    ensures Reward(t, begin, mid, votes) + Reward(t, mid, end, votes) <= Reward(t, begin, end, votes)
    ensures Reward(t, begin, end, votes) <= Reward(t, begin, mid, votes) + Reward(t, mid, end, votes) + |votes|
  {
    hide IndexReward, OldReward, Rising;
    var i := t.indexFrom;
    OldEmpty(t, begin, mid, end, votes);
    IndexNothing(t, begin, votes);
    IndexNothing(t, end, votes);
    if end <= i {
      OldSplit(t, begin, mid, end, votes);
    } else if mid <= i {
      if begin < i {
        OldSplit(t, begin, mid, i, votes);
        OldEmpty(t, begin, mid, i, votes);
      }
    } else {
      IndexSplit(t, Later(begin, i), mid, end, votes);
    }
  }

  lemma OldEmpty(t: Tariff, a: int, b: int, c: int, votes: Votes)
    ensures OldReward(t, a, a, votes) == 0 && OldReward(t, b, b, votes) == 0 && OldReward(t, c, c, votes) == 0
  {
  }

  /** The stored index rises for every candidate whose cycles were closed one after the other with honest counts. */
  lemma StoredRising(
    vi: Entries, pools: Entries, first: int, n: nat, counts: map<Address, seq<int>>, t: Tariff,
    begin: int, mid: int, end: int, votes: Votes)
    requires t.vi == StoredTariff(vi, t.flat, t.indexFrom).vi && first <= begin <= mid <= end <= first + n
    requires forall v :: v in votes ==> v.candidate in counts
    requires forall w :: w in counts ==> |counts[w]| == n && Honest(counts[w]) && Steps(vi, pools, first, w, counts[w])
    ensures Rising(t, begin, mid, end, votes)
  {
    hide Steps;
    forall v | v in votes
      ensures t.vi(begin - 1, v.candidate) <= t.vi(mid - 1, v.candidate) <= t.vi(end - 1, v.candidate)
    {
      IndexRises(vi, pools, first, v.candidate, counts[v.candidate], begin, mid);
      IndexRises(vi, pools, first, v.candidate, counts[v.candidate], mid, end);
    }
  }

  /** So on the stores a settlement may be split anywhere in the closed cycles. */
  lemma StoredSplit(
    vi: Entries, pools: Entries, first: int, n: nat, counts: map<Address, seq<int>>,
    flat: (int, Votes) -> nat, indexFrom: int, begin: int, mid: int, end: int, votes: Votes)
    requires begin <= mid <= end <= first + n && first <= Later(begin, indexFrom)
    requires forall v :: v in votes ==> v.candidate in counts
    requires forall w :: w in counts ==> |counts[w]| == n && Honest(counts[w]) && Steps(vi, pools, first, w, counts[w])
    ensures var t := StoredTariff(vi, flat, indexFrom);
            && Reward(t, begin, mid, votes) + Reward(t, mid, end, votes) <= Reward(t, begin, end, votes)
            && Reward(t, begin, end, votes) <= Reward(t, begin, mid, votes) + Reward(t, mid, end, votes) + |votes|
  {
    hide Reward, Rising, Steps;
    var t := StoredTariff(vi, flat, indexFrom);
    if indexFrom < mid {
      StoredRising(vi, pools, first, n, counts, t, Later(begin, indexFrom), mid, end, votes);
    }
    RewardSplit(t, begin, mid, end, votes);
  }
}
