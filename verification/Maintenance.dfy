/**
 The maintenance window in its three ordered phases: fold the closing cycle's
 pools into the reward index, tally the ballots, advance the cycle and snapshot
 the new vote counts.
 */
module Maintenance {
  import opened MapSums
  import opened Rewards
  import opened Voting
  import opened ViIndex

  /** Votes a list gives to one candidate. */
  function VotesFor(votes: Votes, w: Address): int {
    if votes == [] then 0
    else VotesFor(votes[..|votes| - 1], w) + if votes[|votes| - 1].candidate == w then votes[|votes| - 1].count else 0
  }

  /** Lists add up, and a single vote counts for its candidate alone. */
  lemma {:induction false} VotesForAdds(a: Votes, b: Votes, w: Address)
    ensures VotesFor(a + b, w) == VotesFor(a, w) + VotesFor(b, w)
    ensures |b| == 1 ==> VotesFor(b, w) == if b[0].candidate == w then b[0].count else 0
    decreases |b|
  {
    if b == [] {
      assert a + b == a;
    } else {
      var init := b[..|b| - 1];
      VotesForAdds(a, init, w);
      assert (a + b)[..|a + b| - 1] == a + init;
    }
  }

  /** What each pending ballot moves for a candidate. */
  function Moves(ballots: map<Address, Ballot>, w: Address): map<Address, int> {
    map a | a in ballots :: VotesFor(ballots[a].after, w) - VotesFor(ballots[a].before, w)
  }

  /** Adds a list of votes, times sign, to the deltas per candidate. */
  method AddVotes(deltas: map<Address, int>, votes: Votes, sign: int) returns (d: map<Address, int>)
    requires sign == 1 || sign == -1
    ensures forall w :: Lookup(d, w) == Lookup(deltas, w) + sign * VotesFor(votes, w)
  {
    d := deltas;
    for i := 0 to |votes|
      invariant forall w :: Lookup(d, w) == Lookup(deltas, w) + sign * VotesFor(votes[..i], w)
    {
      var v := votes[i];
      assert votes[..i + 1][..i] == votes[..i];
      d := d[v.candidate := Lookup(d, v.candidate) + sign * v.count];
    }
    assert votes[..|votes|] == votes;
  }

  lemma MovesGrow(ballots: map<Address, Ballot>, todo: set<Address>, a: Address, w: Address)
    requires a in todo && todo <= ballots.Keys
    ensures Sum(Moves(ballots - (todo - {a}), w)) ==
            Sum(Moves(ballots - todo, w)) + VotesFor(ballots[a].after, w) - VotesFor(ballots[a].before, w)
  {
    var move := VotesFor(ballots[a].after, w) - VotesFor(ballots[a].before, w);
    assert Moves(ballots - (todo - {a}), w) == Moves(ballots - todo, w)[a := move];
    SumUpdate(Moves(ballots - todo, w), a, move);
  }

  /** Sums all ballots, in any order, into one delta per candidate. */
  method Tally(ballots: map<Address, Ballot>) returns (deltas: map<Address, int>)
    ensures forall w :: Lookup(deltas, w) == Sum(Moves(ballots, w))
  {
    deltas := map[];
    var todo := ballots.Keys;
    assert forall w :: Moves(ballots - todo, w) == map[];
    while todo != {}
      invariant todo <= ballots.Keys
      invariant forall w :: Lookup(deltas, w) == Sum(Moves(ballots - todo, w))
    {
      var a :| a in todo;
      deltas := AddVotes(deltas, ballots[a].before, -1);
      deltas := AddVotes(deltas, ballots[a].after, 1);
      forall w
        ensures Lookup(deltas, w) == Sum(Moves(ballots - (todo - {a}), w))
      {
        MovesGrow(ballots, todo, a, w);
      }
      todo := todo - {a};
    }
    assert ballots - {} == ballots;
  }

  const DEFAULT_BROKERAGE: int := 20

  /** The count a cycle started with; a candidate registered later started with none. */
  function OpenCount(cycleVotes: map<Slot, int>, cycle: int, w: Address): int {
    if Slot(cycle, w) in cycleVotes then cycleVotes[Slot(cycle, w)] else 0
  }

  /** The counts that n consecutive cycles started with. */
  function CountsFrom(cycleVotes: map<Slot, int>, first: int, n: nat, w: Address): (s: seq<int>)
    ensures |s| == n && forall i :: 0 <= i < n ==> s[i] == OpenCount(cycleVotes, first + i, w)
    decreases n
  {
    if n == 0 then [] else CountsFrom(cycleVotes, first, n - 1, w) + [OpenCount(cycleVotes, first + n - 1, w)]
  }

  /**
   What happens between two windows: candidates register, ballots are cast, rewards reach the current cycle's
   pools.
   */
  datatype Round = Round(newcomers: set<Address>, ballots: map<Address, Ballot>, rewards: map<Address, nat>)

  class Window {
    const index: ViStore
    var cycle: int
    var counts: map<Address, int>
    var ballots: map<Address, Ballot>
    var cycleVotes: map<Slot, int>
    var brokerage: map<Address, int>
    var cycleBrokerage: map<Slot, int>
    var useIndex: bool
    var advances: bool

    constructor (index: ViStore)
      ensures this.index == index && cycle == 0 && counts == map[] && ballots == map[] && cycleVotes == map[]
    {
      this.index := index;
      cycle, counts, ballots, cycleVotes, useIndex, advances := 0, map[], map[], map[], false, false;
      brokerage, cycleBrokerage := map[], map[];
    }

    function BrokerageOf(w: Address): int
      reads this`brokerage
    {
      if w in brokerage then brokerage[w] else DEFAULT_BROKERAGE
    }

    /** Vote counts are those the current cycle started with. */
    ghost predicate CountsAreSnapshotted()
      reads this`counts, this`cycle, this`cycleVotes
    {
      forall w: Address :: OpenCount(cycleVotes, cycle, w) == if w in counts then counts[w] else 0
    }

    /** No cycle after the current one has a snapshot. */
    ghost predicate NoneAhead()
      reads this`cycle, this`cycleVotes
    {
      forall c: int, w: Address :: c > cycle ==> Slot(c, w) !in cycleVotes
    }

    /** A new candidate enters with no votes. */
    method Register(w: Address)
      modifies this`counts
      ensures counts == if w in old(counts) then old(counts) else old(counts)[w := 0]
    {
      if w !in counts {
        counts := counts[w := 0];
      }
    }

    method RegisterAll(ws: set<Address>)
      modifies this`counts
      ensures counts.Keys == old(counts).Keys + ws
      ensures forall w :: w in counts ==> counts[w] == if w in old(counts) then old(counts)[w] else 0
    {
      var todo := ws;
      while todo != {}
        modifies this`counts
        invariant todo <= ws && counts.Keys == old(counts).Keys + (ws - todo)
        invariant forall w :: w in counts ==> counts[w] == if w in old(counts) then old(counts)[w] else 0
      {
        var w :| w in todo;
        Register(w);
        todo := todo - {w};
      }
    }

    /**
     Phase 1: the index folds the pools of the closing cycle over the counts before the tally, even if it did so
     before.
     */
    method FoldPools()
      modifies index`vi
      ensures forall w :: w in counts ==>
                index.Vi(cycle, w) ==
                  Folded(old(index.Vi(cycle, w)), old(index.Vi(cycle - 1, w)), index.Pool(cycle, w), counts[w])
      ensures forall c: int, w: Address :: c != cycle || w !in counts ==> index.Vi(c, w) == old(index.Vi(c, w))
    {
      hide Folded;
      var todo := counts.Keys;
      while todo != {}
        invariant todo <= counts.Keys
        invariant forall w :: w in counts && w !in todo ==>
                    index.Vi(cycle, w) ==
                    Folded(old(index.Vi(cycle, w)), old(index.Vi(cycle - 1, w)), index.Pool(cycle, w), counts[w])
        invariant forall c: int, w: Address :: c != cycle || w in todo || w !in counts ==>
                    index.Vi(c, w) == old(index.Vi(c, w))
      {
        var w :| w in todo;
        index.AccumulateWitnessVi(cycle, w, counts[w]);
        todo := todo - {w};
      }
    }

    /** Phase 2: every candidate's count moves by what the ballots moved for it, and the ballots are spent. */
    method TallyBallots()
      modifies this`counts, this`ballots
      ensures ballots == map[] && counts.Keys == old(counts).Keys
      ensures forall w :: w in counts ==> counts[w] == old(counts)[w] + old(Sum(Moves(ballots, w)))
    {
      var deltas := Tally(ballots);
      ghost var before, cast := counts, ballots;
      ballots := map[];
      var todo := deltas.Keys;
      while todo != {}
        modifies this`counts
        invariant counts.Keys == before.Keys && todo <= deltas.Keys
        invariant forall w :: w in counts ==> counts[w] == before[w] + if w in todo then 0 else Lookup(deltas, w)
      {
        var w :| w in todo;
        if w in counts {
          counts := counts[w := counts[w] + deltas[w]];
        }
        todo := todo - {w};
      }
      assert forall w :: Lookup(deltas, w) == Sum(Moves(cast, w));
    }

    /** Phase 3: the next cycle starts with the counts and brokerages as they are now. */
    method AdvanceCycle()
      modifies this`cycle, this`cycleVotes, this`cycleBrokerage
      ensures cycle == old(cycle) + 1
      ensures forall w :: w in counts ==> Slot(cycle, w) in cycleVotes && cycleVotes[Slot(cycle, w)] == counts[w]
      ensures old(NoneAhead()) ==> CountsAreSnapshotted() && NoneAhead()
      ensures forall w :: w in counts ==>
                Slot(cycle, w) in cycleBrokerage &&
                cycleBrokerage[Slot(cycle, w)] == if w in brokerage then brokerage[w] else 20
      ensures forall c: int, w: Address :: c != cycle ==>
                OpenCount(cycleVotes, c, w) == OpenCount(old(cycleVotes), c, w)
      ensures forall s :: s in old(cycleBrokerage) && s.cycle != cycle ==>
                s in cycleBrokerage && cycleBrokerage[s] == old(cycleBrokerage)[s]
    {
      cycle := cycle + 1;
      ghost var before, brokers := cycleVotes, cycleBrokerage;
      var todo := counts.Keys;
      while todo != {}
        modifies this`cycleVotes, this`cycleBrokerage
        invariant todo <= counts.Keys
        invariant forall w :: w in counts && w !in todo ==>
                    && Slot(cycle, w) in cycleVotes && cycleVotes[Slot(cycle, w)] == counts[w]
                    && Slot(cycle, w) in cycleBrokerage && cycleBrokerage[Slot(cycle, w)] == BrokerageOf(w)
        invariant forall c: int, w: Address :: c != cycle || w in todo || w !in counts ==>
                    (Slot(c, w) in cycleVotes <==> Slot(c, w) in before)
        invariant forall c: int, w: Address :: c != cycle ==> OpenCount(cycleVotes, c, w) == OpenCount(before, c, w)
        invariant forall s :: s in brokers && s.cycle != cycle ==>
                    s in cycleBrokerage && cycleBrokerage[s] == brokers[s]
      {
        var w :| w in todo;
        cycleBrokerage := cycleBrokerage[Slot(cycle, w) := BrokerageOf(w)];
        cycleVotes := cycleVotes[Slot(cycle, w) := counts[w]];
        todo := todo - {w};
      }
    }

    /**
     The whole window: a cycle's pools are folded over the counts it was reached with, ballots cast during it
     count from the next cycle on, and entries of other cycles do not change.
     */
    method Run()
      modifies this, index`vi
      ensures useIndex == old(useIndex) && advances == old(advances) && ballots == map[] &&
                counts.Keys == old(counts).Keys
      ensures cycle == old(cycle) + if advances then 1 else 0
      ensures advances ==> forall w :: w in counts ==>
                Slot(cycle, w) in cycleVotes && cycleVotes[Slot(cycle, w)] == counts[w]
      ensures old(NoneAhead()) ==> NoneAhead() && (advances ==> CountsAreSnapshotted())
      ensures forall c: int, w: Address :: c != cycle || !advances ==>
                OpenCount(cycleVotes, c, w) == OpenCount(old(cycleVotes), c, w)
      ensures forall w :: w in counts ==> counts[w] == old(counts)[w] + old(Sum(Moves(ballots, w)))
      ensures useIndex ==> forall w :: w in counts ==>
                index.Vi(old(cycle), w) ==
                Folded(old(index.Vi(cycle, w)), old(index.Vi(cycle - 1, w)), index.Pool(old(cycle), w), old(counts)[w])
      ensures forall c: int, w: Address :: c != old(cycle) || w !in counts || !useIndex ==>
                index.Vi(c, w) == old(index.Vi(c, w))
    {
      hide Folded, Moves;
      if useIndex {
        FoldPools();
      }
      TallyBallots();
      if advances {
        AdvanceCycle();
      }
    }

    /** Cycle c was closed for w over the count snapshotted at its start. */
    ghost predicate ClosedAt(c: int, w: Address)
      reads this`cycleVotes, index
    {
      StepAt(index.vi, index.pools, c, w, OpenCount(cycleVotes, c, w))
    }

    ghost predicate Closed(first: int, last: int, w: Address)
      reads this`cycleVotes, index
    {
      forall c: int :: first <= c < last ==> ClosedAt(c, w)
    }

    /** Nothing of the current or a later cycle, or of an unregistered candidate, is in the index yet. */
    ghost predicate Ahead()
      reads this`cycle, this`counts, index
    {
      forall c: int, w: Address :: c >= cycle || w !in counts ==> index.Vi(c, w) == 0
    }

    ghost predicate Running()
      reads this, index
    {
      useIndex && advances && CountsAreSnapshotted() && NoneAhead() && Ahead()
    }

    /** Newcomers, ballots and rewards of one cycle, and the window that closes it. */
    method RunRound(r: Round)
      requires Running()
      modifies this, index
      ensures Running()
      ensures cycle == old(cycle) + 1 && counts.Keys == old(counts).Keys + r.newcomers
      ensures forall w: Address :: ClosedAt(old(cycle), w)
      ensures forall c: int, w: Address :: c < old(cycle) && old(ClosedAt(c, w)) ==> ClosedAt(c, w)
    {
      hide Folded, Moves;
      RegisterAll(r.newcomers);
      ballots := ballots + r.ballots;
      index.AddRewards(cycle, r.rewards);
      assert forall c: int, w: Address :: c < cycle ==> index.Pool(c, w) == old(index.Pool(c, w));
      CloseRound();
      forall c: int, w: Address | c < old(cycle) && old(ClosedAt(c, w))
        ensures ClosedAt(c, w)
      {
        assert index.Vi(c, w) == old(index.Vi(c, w)) && index.Vi(c - 1, w) == old(index.Vi(c - 1, w));
        assert index.Pool(c, w) == old(index.Pool(c, w));
        assert OpenCount(cycleVotes, c, w) == OpenCount(old(cycleVotes), c, w);
      }
    }

    /** The window of a running chain. */
    method CloseRound()
      requires Running()
      modifies this, index`vi
      ensures Running() && cycle == old(cycle) + 1 && counts.Keys == old(counts).Keys
      ensures forall w: Address :: ClosedAt(old(cycle), w)
      ensures forall c: int, w: Address :: c < old(cycle) ==>
                index.Vi(c, w) == old(index.Vi(c, w)) && OpenCount(cycleVotes, c, w) == OpenCount(old(cycleVotes), c, w)
    {
      hide Folded, Moves;
      Run();
      forall w: Address
        ensures ClosedAt(old(cycle), w)
      {
        assert index.Vi(old(cycle) - 1, w) == old(index.Vi(cycle - 1, w));
        assert OpenCount(cycleVotes, old(cycle), w) == OpenCount(old(cycleVotes), old(cycle), w);
        assert old(index.Vi(cycle, w)) == 0;
        if w !in counts {
          assert old(index.Vi(cycle - 1, w)) == 0 && index.Vi(old(cycle), w) == 0;
          NothingFolded(index.Pool(old(cycle), w));
        }
      }
    }

    /**
     Any run of windows with the index and the cycle on: every cycle was closed once, for every candidate, over the
     count it started with, whatever newcomers, ballots and rewards came in between.
     */
    method RunAll(rounds: seq<Round>)
      requires Running()
      modifies this, index
      ensures Running() && cycle == old(cycle) + |rounds|
      ensures forall w: Address ::
                Steps(index.vi, index.pools, old(cycle), w, CountsFrom(cycleVotes, old(cycle), |rounds|, w))
    {
      hide ClosedAt, Running;
      ghost var first := cycle;
      for i := 0 to |rounds|
        invariant Running() && cycle == old(cycle) + i
        invariant forall w: Address :: Closed(old(cycle), cycle, w)
      {
        label Before:
        RunRound(rounds[i]);
        forall w: Address
          ensures Closed(first, cycle, w)
        {
          assert old@Before(Closed(first, cycle, w));
        }
      }
      forall w: Address
        ensures Steps(index.vi, index.pools, old(cycle), w, CountsFrom(cycleVotes, old(cycle), |rounds|, w))
      {
        ClosedSteps(old(cycle), |rounds|, w);
      }
    }

    lemma ClosedSteps(first: int, n: nat, w: Address)
      requires Closed(first, first + n, w)
      ensures Steps(index.vi, index.pools, first, w, CountsFrom(cycleVotes, first, n, w))
    {
      hide StepAt;
      var counts := CountsFrom(cycleVotes, first, n, w);
      forall i | 0 <= i < |counts|
        ensures StepAt(index.vi, index.pools, first + i, w, counts[i])
      {
        assert ClosedAt(first + i, w);
      }
    }
  }

  lemma NothingFolded(pool: nat)
    ensures Folded(0, 0, pool, 0) == 0
  {
  }
}
