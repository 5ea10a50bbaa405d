/**
 All voters together: ballots, clearings, settlements, registrations, block
 rewards and maintenance windows in any order. What the index pays to all
 accounts never exceeds the pools it was fed from.
 */
module RewardSolvency {
  import opened Options
  import opened MapSums
  import opened Rewards
  import opened Voting
  import opened ViIndex
  import opened Maintenance

  /** An account with its settlement history and its ballot for the next tally, if it has cast one. */
  datatype Person = Person(history: History, ballot: Option<Ballot>)

  /** The old payouts and the first cycle of the index, fixed for a run. */
  datatype Policy = Policy(flat: (int, Votes) -> nat, indexFrom: int)

  /** `closedWith` records the count each cycle was closed with. */
  datatype Chain = Chain(
    people: seq<Person>, counts: map<Address, int>, vi: Entries, pools: Entries, closedWith: map<Slot, int>, now: int)

  datatype Action =
    | Cast(who: nat, votes: Votes)
    | Drop(who: nat)
    | Claim(who: nat)
    | Cash(who: nat)
    | Earn(candidate: Address, amount: nat)
    | Register(candidate: Address)
    | Close

  function TariffOf(p: Policy, c: Chain): Tariff { StoredTariff(c.vi, p.flat, p.indexFrom) }

  /** Votes may only be cast for registered candidates. */
  ghost predicate Known(counts: map<Address, int>, votes: Votes) { forall v :: v in votes ==> v.candidate in counts }

  // ---- steps ----

  function Stepped(p: Policy, c: Chain, i: nat, e: Event): Person
    requires i < |c.people|
  {
    c.people[i].(history := Next(TariffOf(p, c), c.people[i].history, e))
  }

  /** The ballot keeps the votes of the last tally and takes the new ones. */
  function Recast(x: Person, votes: Votes): Option<Ballot> {
    Some(Ballot(if x.ballot.Some? then x.ballot.value.before else x.history.account.votes, votes))
  }

  function BallotsOf(people: seq<Person>): map<Address, Ballot> {
    map i | 0 <= i < |people| && people[i].ballot.Some? :: people[i].ballot.value
  }

  /** Every candidate's entry for the closing cycle. */
  function FoldedEntries(c: Chain): Entries {
    c.vi + map w | w in c.counts ::
      Slot(c.now, w) := Folded(EntryIn(c.vi, c.now, w), EntryIn(c.vi, c.now - 1, w), EntryIn(c.pools, c.now, w),
        c.counts[w])
  }

  ghost function Tallied(c: Chain): (counts: map<Address, int>)
    ensures counts.Keys == c.counts.Keys
  {
    map w | w in c.counts :: c.counts[w] + Sum(Moves(BallotsOf(c.people), w))
  }

  /** A window: fold, tally, and everyone enters the next cycle. */
  ghost function Closed(p: Policy, c: Chain): Chain {
    Chain(
      seq(|c.people|, i requires 0 <= i < |c.people| => Stepped(p, c, i, NextCycle).(ballot := None)),
      Tallied(c),
      FoldedEntries(c),
      c.pools,
      c.closedWith + map w | w in c.counts :: Slot(c.now, w) := c.counts[w],
      c.now + 1)
  }

  ghost function Act(p: Policy, c: Chain, e: Action): Chain {
    match e
    case Cast(i, votes) =>
      if i < |c.people| && Known(c.counts, votes)
      then c.(people := c.people[i := Stepped(p, c, i, CastVotes(votes)).(ballot := Recast(c.people[i], votes))]) else c
    case Drop(i) => if i < |c.people| then c.(people := c.people[i := Stepped(p, c, i, ClearVotes)]) else c
    case Claim(i) => if i < |c.people| then c.(people := c.people[i := Stepped(p, c, i, Withdraw)]) else c
    case Cash(i) => if i < |c.people| then c.(people := c.people[i := Stepped(p, c, i, CashOut)]) else c
    case Earn(w, amount) => c.(pools := c.pools[Slot(c.now, w) := EntryIn(c.pools, c.now, w) + amount])
    case Register(w) => if w in c.counts then c else c.(counts := c.counts[w := 0])
    case Close => Closed(p, c)
  }

  ghost function ActAll(p: Policy, c: Chain, es: seq<Action>): Chain
    decreases |es|
  {
    if es == [] then c else ActAll(p, Act(p, c, es[0]), es[1..])
  }

  /** Nobody has voted yet; candidates may start with any count that is not negative. */
  function Genesis(balances: seq<int>, counts: map<Address, int>, pools: Entries): Chain {
    Chain(seq(|balances|, i requires 0 <= i < |balances| => Person(Fresh([], balances[i]), None)), counts, map[],
      pools, map[], 0)
  }

  // ---- votes behind the counts ----

  function Live(x: Person, w: Address): int { VotesFor(x.history.account.votes, w) }

  /** Votes of a person that the counts already include. */
  function Tallied1(x: Person, w: Address): int {
    VotesFor(if x.ballot.Some? then x.ballot.value.before else x.history.account.votes, w)
  }

  /** What a person's ballot moves. */
  function Moved1(x: Person, w: Address): int {
    if x.ballot.Some? then VotesFor(x.ballot.value.after, w) - VotesFor(x.ballot.value.before, w) else 0
  }

  /** Votes of a person at the start of cycle k. */
  function AtStart(x: Person, k: int, w: Address): int {
    if 0 <= k < |x.history.starts| then VotesFor(x.history.starts[k], w) else 0
  }

  function SumOver(people: seq<Person>, f: Person -> int): int {
    if people == [] then 0 else SumOver(people[..|people| - 1], f) + f(people[|people| - 1])
  }

  function TalliedBy(w: Address): Person -> int { (x: Person) => Tallied1(x, w) }
  function StartedBy(k: int, w: Address): Person -> int { (x: Person) => AtStart(x, k, w) }
  function MovedBy(w: Address): Person -> int { (x: Person) => Moved1(x, w) }
  function LiveBy(w: Address): Person -> int { (x: Person) => Live(x, w) }

  lemma {:induction false} SumOverUpdate(people: seq<Person>, i: nat, x: Person, f: Person -> int)
    requires i < |people|
    ensures SumOver(people[i := x], f) == SumOver(people, f) + f(x) - f(people[i])
    decreases |people|
  {
    var n := |people| - 1;
    if i == n {
      assert people[i := x][..n] == people[..n];
    } else {
      assert people[i := x][..n] == people[..n][i := x];
      SumOverUpdate(people[..n], i, x, f);
    }
  }

  lemma {:induction false} SumOverMono(people: seq<Person>, more: seq<Person>, f: Person -> int, g: Person -> int)
    requires |people| == |more| && forall i :: 0 <= i < |people| ==> f(people[i]) <= g(more[i])
    ensures SumOver(people, f) <= SumOver(more, g)
    decreases |people|
  {
    if people != [] {
      SumOverMono(people[..|people| - 1], more[..|more| - 1], f, g);
    }
  }

  lemma {:induction false} VotesNonNegative(votes: Votes, w: Address)
    ensures VotesFor(votes, w) >= 0
    decreases |votes|
  {
    if votes != [] {
      VotesNonNegative(votes[..|votes| - 1], w);
    }
  }

  lemma {:induction false} NoVotesForUnknown(counts: map<Address, int>, votes: Votes, w: Address)
    requires Known(counts, votes) && w !in counts
    ensures VotesFor(votes, w) == 0
    decreases |votes|
  {
    if votes != [] {
      NoVotesForUnknown(counts, votes[..|votes| - 1], w);
      assert votes[|votes| - 1] in votes;
    }
  }

  /** The tally adds to each count what the ballots move for it. */
  lemma {:induction false} MovesOver(people: seq<Person>, w: Address)
    ensures Sum(Moves(BallotsOf(people), w)) == SumOver(people, MovedBy(w))
    decreases |people|
  {
    if people == [] {
      assert Moves(BallotsOf(people), w) == map[];
    } else {
      var n := |people| - 1;
      MovesOver(people[..n], w);
      LastBallot(people, w);
    }
  }

  lemma LastBallot(people: seq<Person>, w: Address)
    requires people != []
    ensures var n := |people| - 1;
            Sum(Moves(BallotsOf(people), w)) == Sum(Moves(BallotsOf(people[..n]), w)) + Moved1(people[n], w)
  {
    hide VotesFor, Sum, Moves;
    var n := |people| - 1;
    var init := BallotsOf(people[..n]);
    if people[n].ballot.Some? {
      var b := people[n].ballot.value;
      assert BallotsOf(people) == init[n := b];
      MovesPut(init, n, b, w);
    } else {
      assert BallotsOf(people) == init;
    }
  }

  lemma MovesPut(ballots: map<Address, Ballot>, a: Address, b: Ballot, w: Address)
    requires a !in ballots
    ensures Sum(Moves(ballots[a := b], w)) == Sum(Moves(ballots, w)) + VotesFor(b.after, w) - VotesFor(b.before, w)
  {
    hide VotesFor, Sum;
    var move := VotesFor(b.after, w) - VotesFor(b.before, w);
    assert Moves(ballots[a := b], w) == Moves(ballots, w)[a := move];
    SumUpdate(Moves(ballots, w), a, move);
  }

  // ---- the invariant ----

  /** A person's lists name registered candidates only, and a ballot never promises less than the live votes. */
  ghost predicate PersonOk(counts: map<Address, int>, x: Person) {
    && Known(counts, x.history.account.votes)
    && (forall k :: 0 <= k < |x.history.starts| ==> Known(counts, x.history.starts[k]))
    && (x.ballot.Some? ==>
          && Known(counts, x.ballot.value.before)
          && forall w :: Live(x, w) <= VotesFor(x.ballot.value.after, w))
  }

  ghost predicate PeopleOk(p: Policy, c: Chain, balances: seq<int>) {
    && |c.people| == |balances|
    && forall i :: 0 <= i < |c.people| ==>
         && PersonOk(c.counts, c.people[i]) && c.people[i].history.now == c.now
         && HistoryOk(TariffOf(p, c), c.people[i].history, balances[i])
  }

  /** The counts cover the votes tallied into them. */
  ghost predicate Backed(c: Chain) { forall w :: w in c.counts ==> c.counts[w] >= SumOver(c.people, TalliedBy(w)) }

  /** The count cycle k is or will be closed with; nothing for a candidate not registered then. */
  function ClosingCount(c: Chain, k: int, w: Address): int {
    if k < c.now then (if Slot(k, w) in c.closedWith then c.closedWith[Slot(k, w)] else 0)
    else if w in c.counts then c.counts[w] else 0
  }

  /** Every cycle so far is closed with at least the votes held at its start. */
  ghost predicate Covered(c: Chain) {
    forall k, w :: 0 <= k <= c.now ==> ClosingCount(c, k, w) >= SumOver(c.people, StartedBy(k, w))
  }

  ghost predicate IndexOk(c: Chain) {
    && (forall k, w :: 0 <= k < c.now ==> StepAt(c.vi, c.pools, k, w, ClosingCount(c, k, w)))
    && (forall k, w :: k >= c.now || w !in c.counts ==> EntryIn(c.vi, k, w) == 0)
    && (forall s :: s in c.closedWith ==> s.cycle < c.now)
  }

  ghost predicate ChainOk(p: Policy, c: Chain, balances: seq<int>) {
    c.now >= 0 && PeopleOk(p, c, balances) && Backed(c) && Covered(c) && IndexOk(c)
  }

  // ---- one person acts ----

  /** What a settlement-based event does to the parts the counts look at. */
  lemma NextVotes(t: Tariff, h: History, e: Event)
    requires !e.NextCycle?
    ensures Next(t, h, e).starts == h.starts && Next(t, h, e).now == h.now
    ensures Next(t, h, e).account.votes ==
            if e.CastVotes? then e.votes else if e.ClearVotes? then [] else h.account.votes
  {
    SettleKeepsTime(t, h);
    SettledKeepsVotes(t, h.account, h.now);
  }

  /** The rest of the chain does not see one person's action, if the votes tallied for it do not rise. */
  lemma OneActs(p: Policy, c: Chain, balances: seq<int>, i: nat, x: Person)
    requires ChainOk(p, c, balances) && i < |c.people|
    requires PersonOk(c.counts, x) && x.history.now == c.now && HistoryOk(TariffOf(p, c), x.history, balances[i])
    requires x.history.starts == c.people[i].history.starts
    requires forall w :: Tallied1(x, w) <= Tallied1(c.people[i], w)
    ensures ChainOk(p, c.(people := c.people[i := x]), balances)
  {
    hide HistoryOk, PersonOk, VotesFor, SumOver, StepAt, IndexOk;
    var n := c.(people := c.people[i := x]);
    forall w | w in n.counts
      ensures n.counts[w] >= SumOver(n.people, TalliedBy(w))
    {
      SumOverUpdate(c.people, i, x, TalliedBy(w));
    }
    forall k, w | 0 <= k <= n.now
      ensures ClosingCount(n, k, w) >= SumOver(n.people, StartedBy(k, w))
    {
      SumOverUpdate(c.people, i, x, StartedBy(k, w));
      assert ClosingCount(n, k, w) == ClosingCount(c, k, w);
    }
    assert IndexOk(n) by {
      IndexSame(c, n);
    }
  }

  lemma IndexSame(c: Chain, n: Chain)
    requires IndexOk(c) && n == c.(people := n.people)
    ensures IndexOk(n)
  {
    hide StepAt;
    assert forall k, w :: ClosingCount(n, k, w) == ClosingCount(c, k, w);
  }

  lemma EventOk(p: Policy, c: Chain, balances: seq<int>, i: nat, e: Event, ballot: Option<Ballot>)
    requires ChainOk(p, c, balances) && i < |c.people| && !e.NextCycle?
    requires var x := Stepped(p, c, i, e).(ballot := ballot);
             PersonOk(c.counts, x) && forall w :: Tallied1(x, w) <= Tallied1(c.people[i], w)
    ensures ChainOk(p, c.(people := c.people[i := Stepped(p, c, i, e).(ballot := ballot)]), balances)
  {
    hide HistoryOk, PersonOk, Backed, Covered, IndexOk, Next;
    NextOk(TariffOf(p, c), c.people[i].history, e, balances[i]);
    NextVotes(TariffOf(p, c), c.people[i].history, e);
    OneActs(p, c, balances, i, Stepped(p, c, i, e).(ballot := ballot));
  }

  /** Settling and cashing leave votes alone. */
  lemma ClaimOk(p: Policy, c: Chain, balances: seq<int>, i: nat, e: Event)
    requires ChainOk(p, c, balances) && i < |c.people| && (e.Withdraw? || e.CashOut?)
    ensures ChainOk(p, c.(people := c.people[i := Stepped(p, c, i, e)]), balances)
  {
    hide HistoryOk, Backed, Covered, IndexOk, Next, VotesFor;
    NextVotes(TariffOf(p, c), c.people[i].history, e);
    EventOk(p, c, balances, i, e, c.people[i].ballot);
  }

  lemma DropOk(p: Policy, c: Chain, balances: seq<int>, i: nat)
    requires ChainOk(p, c, balances) && i < |c.people|
    ensures ChainOk(p, c.(people := c.people[i := Stepped(p, c, i, ClearVotes)]), balances)
  {
    hide HistoryOk, Backed, Covered, IndexOk, Next;
    var was, x := c.people[i], Stepped(p, c, i, ClearVotes);
    NextVotes(TariffOf(p, c), was.history, ClearVotes);
    forall w
      ensures Tallied1(x, w) <= Tallied1(was, w)
      ensures Live(x, w) <= Live(was, w)
    {
      VotesNonNegative(was.history.account.votes, w);
    }
    EventOk(p, c, balances, i, ClearVotes, was.ballot);
  }

  lemma CastOk(p: Policy, c: Chain, balances: seq<int>, i: nat, votes: Votes)
    requires ChainOk(p, c, balances) && i < |c.people| && Known(c.counts, votes)
    ensures ChainOk(p, c.(people :=
              c.people[i := Stepped(p, c, i, CastVotes(votes)).(ballot := Recast(c.people[i], votes))]), balances)
  {
    hide HistoryOk, Backed, Covered, IndexOk, Next, VotesFor;
    NextVotes(TariffOf(p, c), c.people[i].history, CastVotes(votes));
    EventOk(p, c, balances, i, CastVotes(votes), Recast(c.people[i], votes));
  }

  // ---- candidates and rewards ----

  lemma {:induction false} NobodyStarted(counts: map<Address, int>, people: seq<Person>, k: int, w: Address)
    requires w !in counts && forall i :: 0 <= i < |people| ==> PersonOk(counts, people[i])
    ensures SumOver(people, StartedBy(k, w)) == 0 && SumOver(people, TalliedBy(w)) == 0
    decreases |people|
  {
    if people != [] {
      var x := people[|people| - 1];
      NobodyStarted(counts, people[..|people| - 1], k, w);
      assert PersonOk(counts, x);
      if 0 <= k < |x.history.starts| {
        NoVotesForUnknown(counts, x.history.starts[k], w);
      }
      NoVotesForUnknown(counts, if x.ballot.Some? then x.ballot.value.before else x.history.account.votes, w);
    }
  }

  lemma RegisterOk(p: Policy, c: Chain, balances: seq<int>, w: Address)
    requires ChainOk(p, c, balances) && w !in c.counts
    ensures ChainOk(p, c.(counts := c.counts[w := 0]), balances)
  {
    hide HistoryOk, SumOver, VotesFor, StepAt;
    var n := c.(counts := c.counts[w := 0]);
    NobodyStarted(c.counts, c.people, c.now, w);
    assert forall k, v :: ClosingCount(n, k, v) == ClosingCount(c, k, v);
    assert forall i :: 0 <= i < |n.people| ==> PersonOk(n.counts, n.people[i]) by {
      forall i | 0 <= i < |n.people|
        ensures PersonOk(n.counts, n.people[i])
      {
        assert PersonOk(c.counts, c.people[i]);
      }
    }
    assert TariffOf(p, n) == TariffOf(p, c);
  }

  lemma EarnOk(p: Policy, c: Chain, balances: seq<int>, w: Address, amount: nat)
    requires ChainOk(p, c, balances)
    ensures ChainOk(p, Act(p, c, Earn(w, amount)), balances)
  {
    hide HistoryOk, PersonOk, SumOver, VotesFor;
    var n := Act(p, c, Earn(w, amount));
    assert forall k, v :: ClosingCount(n, k, v) == ClosingCount(c, k, v);
    assert TariffOf(p, n) == TariffOf(p, c);
    forall k, v | 0 <= k < n.now
      ensures StepAt(n.vi, n.pools, k, v, ClosingCount(n, k, v))
    {
      assert StepAt(c.vi, c.pools, k, v, ClosingCount(c, k, v));
      assert EntryIn(n.pools, k, v) == EntryIn(c.pools, k, v);
    }
  }

  // ---- closing a cycle ----

  /** Two tariffs that pay the same for cycles before `now`. */
  ghost predicate AgreeBefore(t: Tariff, u: Tariff, now: int) {
    t.flat == u.flat && t.indexFrom == u.indexFrom && forall k, w :: k < now ==> t.vi(k, w) == u.vi(k, w)
  }

  lemma {:induction false} IndexRewardStable(t: Tariff, u: Tariff, now: int, begin: int, end: int, votes: Votes)
    requires AgreeBefore(t, u, now) && begin <= end <= now
    ensures IndexReward(t, begin, end, votes) == IndexReward(u, begin, end, votes)
    decreases |votes|
  {
    if votes != [] {
      IndexRewardStable(t, u, now, begin, end, votes[..|votes| - 1]);
      var w := votes[|votes| - 1].candidate;
      assert t.vi(end - 1, w) == u.vi(end - 1, w) && t.vi(begin - 1, w) == u.vi(begin - 1, w);
    }
  }

  lemma {:induction false} OldRewardStable(t: Tariff, u: Tariff, begin: int, end: int, votes: Votes)
    requires t.flat == u.flat
    ensures OldReward(t, begin, end, votes) == OldReward(u, begin, end, votes)
    decreases end - begin
  {
    if begin < end {
      OldRewardStable(t, u, begin + 1, end, votes);
    }
  }

  lemma RewardStable(t: Tariff, u: Tariff, now: int, s: Span)
    requires AgreeBefore(t, u, now) && (s.begin < s.end ==> s.end <= now)
    ensures Reward(t, s.begin, s.end, s.votes) == Reward(u, s.begin, s.end, s.votes)
  {
    hide IndexReward, OldReward;
    if s.begin < s.end {
      var mid := Handover(t, s.begin, s.end);
      OldRewardStable(t, u, s.begin, mid, s.votes);
      IndexRewardStable(t, u, now, mid, s.end, s.votes);
    }
  }

  lemma {:induction false} PayStable(t: Tariff, u: Tariff, now: int, spans: seq<Span>)
    requires AgreeBefore(t, u, now) && forall s :: s in spans && s.begin < s.end ==> s.end <= now
    ensures Pay(t, spans) == Pay(u, spans)
    decreases |spans|
  {
    hide Reward;
    if spans != [] {
      PayStable(t, u, now, spans[..|spans| - 1]);
      assert spans[|spans| - 1] in spans;
      RewardStable(t, u, now, spans[|spans| - 1]);
    }
  }

  lemma {:induction false} PaidSomewhere(spans: seq<Span>, s: Span, k: int)
    requires s in spans && Contains(s, k)
    ensures TimesPaid(spans, k) >= 1
    decreases |spans|
  {
    var n := |spans| - 1;
    if spans[n] != s {
      assert s in spans[..n];
      PaidSomewhere(spans[..n], s, k);
    }
  }

  /** Only closed cycles have been paid, and none before the first. */
  lemma PaidSpansClosed(h: History, s: Span)
    requires CursorOk(h) && PaidOnce(h) && PaidWithStartVotes(h) && s in h.paid && s.begin < s.end
    ensures 0 <= s.begin && s.end <= h.now
  {
    assert Contains(s, s.begin) && Contains(s, s.end - 1);
    if s.end > h.now {
      PaidSomewhere(h.paid, s, s.end - 1);
    }
  }

  lemma TariffMayMove(t: Tariff, u: Tariff, h: History, balance: int)
    requires HistoryOk(t, h, balance) && AgreeBefore(t, u, h.now)
    ensures HistoryOk(u, h, balance)
  {
    hide CursorOk, PaidOnce, PaidWithStartVotes, Pay;
    forall s | s in h.paid && s.begin < s.end
      ensures s.end <= h.now
    {
      PaidSpansClosed(h, s);
    }
    PayStable(t, u, h.now, h.paid);
  }

  lemma FoldedAt(c: Chain, k: int, w: Address)
    ensures EntryIn(FoldedEntries(c), k, w) ==
            if k == c.now && w in c.counts
            then Folded(EntryIn(c.vi, k, w), EntryIn(c.vi, k - 1, w), EntryIn(c.pools, k, w), c.counts[w])
            else EntryIn(c.vi, k, w)
  {
    hide Folded;
  }

  lemma CloseTariff(p: Policy, c: Chain)
    ensures AgreeBefore(TariffOf(p, c), TariffOf(p, Closed(p, c)), c.now)
  {
    hide FoldedEntries;
    forall k, w | k < c.now
      ensures TariffOf(p, c).vi(k, w) == TariffOf(p, Closed(p, c)).vi(k, w)
    {
      FoldedAt(c, k, w);
    }
  }

  lemma ClosePerson(t: Tariff, u: Tariff, counts: map<Address, int>, after: map<Address, int>, x: Person, balance: int)
    requires PersonOk(counts, x) && HistoryOk(t, x.history, balance) && AgreeBefore(t, u, x.history.now)
    requires after.Keys == counts.Keys
    ensures var y := x.(history := Next(t, x.history, NextCycle), ballot := None);
            PersonOk(after, y) && HistoryOk(u, y.history, balance) && y.history.now == x.history.now + 1
  {
    hide HistoryOk, VotesFor, AgreeBefore;
    TariffMayMove(t, u, x.history, balance);
    NextOk(u, x.history, NextCycle, balance);
  }

  lemma ClosePeople(p: Policy, c: Chain, balances: seq<int>)
    requires c.now >= 0 && PeopleOk(p, c, balances)
    ensures PeopleOk(p, Closed(p, c), balances)
  {
    var n := Closed(p, c);
    CloseTariff(p, c);
    hide HistoryOk, PersonOk, AgreeBefore, TariffOf, FoldedEntries, Tallied, Next;
    forall i | 0 <= i < |n.people|
      ensures PersonOk(n.counts, n.people[i]) && n.people[i].history.now == n.now
      ensures HistoryOk(TariffOf(p, n), n.people[i].history, balances[i])
    {
      ClosePerson(TariffOf(p, c), TariffOf(p, n), c.counts, n.counts, c.people[i], balances[i]);
    }
  }

  lemma {:induction false} SumOverAdds(people: seq<Person>, after: seq<Person>, f: Person -> int, g: Person -> int,
      h: Person -> int)
    requires |people| == |after| && forall i :: 0 <= i < |people| ==> f(people[i]) + g(people[i]) >= h(after[i])
    ensures SumOver(people, f) + SumOver(people, g) >= SumOver(after, h)
    decreases |people|
  {
    if people != [] {
      SumOverAdds(people[..|people| - 1], after[..|people| - 1], f, g, h);
    }
  }

  /** After the tally the counts cover the live votes. */
  lemma CloseBacked(p: Policy, c: Chain, balances: seq<int>)
    requires PeopleOk(p, c, balances) && Backed(c)
    ensures Backed(Closed(p, c))
  {
    hide HistoryOk, SumOver, VotesFor, FoldedEntries, Sum, Moves;
    var n := Closed(p, c);
    forall w | w in n.counts
      ensures n.counts[w] >= SumOver(n.people, TalliedBy(w))
    {
      MovesOver(c.people, w);
      forall i | 0 <= i < |c.people|
        ensures Tallied1(c.people[i], w) + Moved1(c.people[i], w) >= Tallied1(n.people[i], w)
      {
        assert PersonOk(c.counts, c.people[i]);
        assert Live(c.people[i], w) == Tallied1(n.people[i], w);
      }
      SumOverAdds(c.people, n.people, TalliedBy(w), MovedBy(w), TalliedBy(w));
    }
  }

  lemma {:induction false} SumOverSame(people: seq<Person>, after: seq<Person>, f: Person -> int, g: Person -> int)
    requires |people| == |after| && forall i :: 0 <= i < |people| ==> f(people[i]) == g(after[i])
    ensures SumOver(people, f) == SumOver(after, g)
    decreases |people|
  {
    if people != [] {
      SumOverSame(people[..|people| - 1], after[..|people| - 1], f, g);
    }
  }

  lemma CloseStarts(p: Policy, c: Chain, balances: seq<int>, k: int, w: Address)
    requires c.now >= 0 && PeopleOk(p, c, balances) && 0 <= k <= c.now + 1
    ensures var n := Closed(p, c);
            SumOver(n.people, StartedBy(k, w)) ==
            if k <= c.now then SumOver(c.people, StartedBy(k, w)) else SumOver(n.people, TalliedBy(w))
  {
    hide HistoryOk, SumOver, VotesFor, FoldedEntries, Tallied;
    var n := Closed(p, c);
    forall i | 0 <= i < |c.people|
      ensures AtStart(n.people[i], k, w) == if k <= c.now then AtStart(c.people[i], k, w) else Tallied1(n.people[i], w)
    {
      assert n.people[i].history.starts == c.people[i].history.starts + [c.people[i].history.account.votes];
      StartsLength(TariffOf(p, c), c.people[i].history, balances[i]);
    }
    if k <= c.now {
      SumOverSame(c.people, n.people, StartedBy(k, w), StartedBy(k, w));
    } else {
      SumOverSame(n.people, n.people, StartedBy(k, w), TalliedBy(w));
    }
  }

  lemma CloseCounts(p: Policy, c: Chain, k: int, w: Address)
    requires IndexOk(c)
    ensures k <= c.now ==> ClosingCount(Closed(p, c), k, w) == ClosingCount(c, k, w)
    ensures k == c.now + 1 ==> ClosingCount(Closed(p, c), k, w) == if w in c.counts then Tallied(c)[w] else 0
  {
    hide FoldedEntries, Tallied, StepAt;
  }

  lemma CloseCovered(p: Policy, c: Chain, balances: seq<int>)
    requires ChainOk(p, c, balances)
    ensures Covered(Closed(p, c))
  {
    var n := Closed(p, c);
    CloseBacked(p, c, balances);
    ClosePeople(p, c, balances);
    hide HistoryOk, PersonOk, SumOver, FoldedEntries, Tallied, IndexOk, ClosingCount;
    forall k, w | 0 <= k <= n.now
      ensures ClosingCount(n, k, w) >= SumOver(n.people, StartedBy(k, w))
    {
      CloseStarts(p, c, balances, k, w);
      CloseCounts(p, c, k, w);
      if k > c.now && w !in c.counts {
        NobodyStarted(n.counts, n.people, k, w);
      }
    }
  }

  lemma StartsLength(t: Tariff, h: History, balance: int)
    requires HistoryOk(t, h, balance)
    ensures |h.starts| == h.now + 1
  {
  }

  lemma CloseStep(p: Policy, c: Chain, k: int, w: Address)
    requires c.now >= 0 && IndexOk(c) && 0 <= k <= c.now
    ensures StepAt(Closed(p, c).vi, c.pools, k, w, ClosingCount(c, k, w))
  {
    hide FoldedEntries, Folded, EntryIn, Tallied;
    FoldedAt(c, k, w);
    FoldedAt(c, k - 1, w);
    if k < c.now {
      assert StepAt(c.vi, c.pools, k, w, ClosingCount(c, k, w));
    } else {
      assert EntryIn(c.vi, k, w) == 0;
      if w !in c.counts {
        assert EntryIn(c.vi, k - 1, w) == 0;
        NothingFolded(EntryIn(c.pools, k, w));
      }
    }
  }

  lemma CloseRecords(p: Policy, c: Chain)
    requires forall s :: s in c.closedWith ==> s.cycle < c.now
    ensures forall s :: s in Closed(p, c).closedWith ==> s.cycle < c.now + 1
  {
    hide FoldedEntries, Tallied, Next;
  }

  lemma CloseIndex(p: Policy, c: Chain)
    requires c.now >= 0 && IndexOk(c)
    ensures IndexOk(Closed(p, c))
  {
    CloseRecords(p, c);
    ClosedParts(p, c);
    hide FoldedEntries, Tallied, StepAt, ClosingCount, Closed, BallotsOf, EntryIn;
    var n := Closed(p, c);
    forall k, w | 0 <= k < n.now
      ensures StepAt(n.vi, n.pools, k, w, ClosingCount(n, k, w))
    {
      CloseStep(p, c, k, w);
      CloseCounts(p, c, k, w);
    }
    forall k, w | k >= n.now || w !in n.counts
      ensures EntryIn(n.vi, k, w) == 0
    {
      FoldedAt(c, k, w);
    }
  }

  // ---- every run ----

  lemma ActOk(p: Policy, c: Chain, balances: seq<int>, e: Action)
    requires ChainOk(p, c, balances)
    ensures ChainOk(p, Act(p, c, e), balances)
  {
    hide ChainOk, Stepped, Recast, Known;
    match e
    case Cast(i, votes) =>
      if i < |c.people| && Known(c.counts, votes) {
        CastOk(p, c, balances, i, votes);
      }
    case Drop(i) =>
      if i < |c.people| {
        DropOk(p, c, balances, i);
      }
    case Claim(i) =>
      if i < |c.people| {
        ClaimOk(p, c, balances, i, Withdraw);
      }
    case Cash(i) =>
      if i < |c.people| {
        ClaimOk(p, c, balances, i, CashOut);
      }
    case Earn(w, amount) => EarnOk(p, c, balances, w, amount);
    case Register(w) =>
      if w !in c.counts {
        RegisterOk(p, c, balances, w);
      }
    case Close => CloseOk(p, c, balances);
  }

  lemma CloseOk(p: Policy, c: Chain, balances: seq<int>)
    requires ChainOk(p, c, balances)
    ensures ChainOk(p, Closed(p, c), balances)
  {
    hide PeopleOk, Backed, Covered, IndexOk, FoldedEntries, Tallied;
    ClosePeople(p, c, balances);
    CloseBacked(p, c, balances);
    CloseCovered(p, c, balances);
    CloseIndex(p, c);
  }

  lemma {:induction false} ActAllOk(p: Policy, c: Chain, balances: seq<int>, es: seq<Action>)
    requires ChainOk(p, c, balances)
    ensures ChainOk(p, ActAll(p, c, es), balances)
    decreases |es|
  {
    hide ChainOk, Act;
    if es != [] {
      ActOk(p, c, balances, es[0]);
      ActAllOk(p, Act(p, c, es[0]), balances, es[1..]);
    }
  }

  lemma {:induction false} NobodyVoted(people: seq<Person>, k: int, w: Address)
    requires forall i :: 0 <= i < |people| ==>
               people[i].ballot.None? && people[i].history.account.votes == [] && people[i].history.starts == [[]]
    ensures SumOver(people, TalliedBy(w)) == 0 && SumOver(people, StartedBy(k, w)) == 0
    decreases |people|
  {
    if people != [] {
      NobodyVoted(people[..|people| - 1], k, w);
    }
  }

  lemma GenesisOk(p: Policy, balances: seq<int>, counts: map<Address, int>, pools: Entries)
    requires forall w :: w in counts ==> counts[w] >= 0
    ensures ChainOk(p, Genesis(balances, counts, pools), balances)
  {
    hide SumOver, HistoryOk, VotesFor;
    var c := Genesis(balances, counts, pools);
    forall i | 0 <= i < |balances|
      ensures HistoryOk(TariffOf(p, c), c.people[i].history, balances[i])
    {
      FreshOk(TariffOf(p, c), [], balances[i]);
    }
    forall w
      ensures SumOver(c.people, TalliedBy(w)) == 0
    {
      NobodyVoted(c.people, 0, w);
    }
    forall k, w
      ensures SumOver(c.people, StartedBy(k, w)) == 0
    {
      NobodyVoted(c.people, k, w);
    }
    assert PeopleOk(p, c, balances) && Backed(c) && Covered(c);
  }

  // ---- what has been paid, candidate by candidate ----

  function VoteStakes(votes: Votes, w: Address, begin: int, end: int): seq<Stake> {
    if votes == [] then []
    else
      var v := votes[|votes| - 1];
      VoteStakes(votes[..|votes| - 1], w, begin, end) + if v.candidate == w then [Stake(begin, end, v.count)] else []
  }

  /** The part of a paid span that the index pays. */
  function SpanStakes(s: Span, w: Address, from: int): seq<Stake> {
    if Later(s.begin, from) < s.end then VoteStakes(s.votes, w, Later(s.begin, from), s.end) else []
  }

  function StakesOf(spans: seq<Span>, w: Address, from: int): seq<Stake> {
    if spans == [] then [] else StakesOf(spans[..|spans| - 1], w, from) + SpanStakes(spans[|spans| - 1], w, from)
  }

  function AllStakes(people: seq<Person>, w: Address, from: int): seq<Stake> {
    if people == [] then []
    else AllStakes(people[..|people| - 1], w, from) + StakesOf(people[|people| - 1].history.paid, w, from)
  }

  lemma {:induction false} HeldConcat(a: seq<Stake>, b: seq<Stake>, c: int)
    ensures Held(a + b, c) == Held(a, c) + Held(b, c)
    decreases |b|
  {
    if b == [] {
      assert a + b == a;
    } else {
      assert (a + b)[..|a + b| - 1] == a + b[..|b| - 1];
      HeldConcat(a, b[..|b| - 1], c);
    }
  }

  lemma {:induction false} PaidConcat(t: Tariff, w: Address, a: seq<Stake>, b: seq<Stake>)
    ensures Paid(t, w, a + b) == Paid(t, w, a) + Paid(t, w, b)
    decreases |b|
  {
    hide VoteReward;
    if b == [] {
      assert a + b == a;
    } else {
      assert (a + b)[..|a + b| - 1] == a + b[..|b| - 1];
      PaidConcat(t, w, a, b[..|b| - 1]);
    }
  }

  lemma {:induction false} HeldVotes(votes: Votes, w: Address, begin: int, end: int, c: int)
    ensures Held(VoteStakes(votes, w, begin, end), c) == if begin <= c < end then VotesFor(votes, w) else 0
    ensures forall s :: s in VoteStakes(votes, w, begin, end) ==> s.begin == begin && s.end == end
    decreases |votes|
  {
    if votes != [] {
      var v := votes[|votes| - 1];
      var init := VoteStakes(votes[..|votes| - 1], w, begin, end);
      HeldVotes(votes[..|votes| - 1], w, begin, end, c);
      if v.candidate == w {
        var one := [Stake(begin, end, v.count)];
        HeldConcat(init, one, c);
        assert one[..0] == [];
      } else {
        assert init + [] == init;
      }
    }
  }

  /** A cycle paid with the same votes each time holds those votes at most as often as it was paid. */
  lemma {:induction false} HeldSpans(spans: seq<Span>, w: Address, from: int, c: int, votes: Votes)
    requires forall s :: s in spans && Contains(s, c) ==> s.votes == votes
    ensures Held(StakesOf(spans, w, from), c) <= Times(TimesPaid(spans, c), VotesFor(votes, w))
    decreases |spans|
  {
    hide Times, VotesFor;
    if spans == [] {
      NoneHeld(c, VotesFor(votes, w));
    } else {
      var init, s := spans[..|spans| - 1], spans[|spans| - 1];
      assert s in spans;
      HeldSpans(init, w, from, c, votes);
      HeldConcat(StakesOf(init, w, from), SpanStakes(s, w, from), c);
      HeldInSpan(s, w, from, c);
      OneMore(TimesPaid(init, c), VotesFor(votes, w));
      hide Held, StakesOf, SpanStakes;
    }
  }

  function Times(n: int, x: int): int { n * x }

  lemma NoneHeld(c: int, x: int)
    ensures Held([], c) == 0 && Times(0, x) == 0
  {
  }

  lemma OneMore(n: int, x: int)
    ensures Times(n + 1, x) == Times(n, x) + x && Times(0, x) == 0
  {
  }

  lemma HeldInSpan(s: Span, w: Address, from: int, c: int)
    ensures Held(SpanStakes(s, w, from), c) <= if Contains(s, c) then VotesFor(s.votes, w) else 0
  {
    VotesNonNegative(s.votes, w);
    HeldVotes(s.votes, w, Later(s.begin, from), s.end, c);
    NoneHeld(c, 0);
    hide Held, VotesFor, VoteStakes;
  }

  lemma HeldOf(t: Tariff, x: Person, balance: int, w: Address, from: int, c: int)
    requires HistoryOk(t, x.history, balance) && 0 <= c < x.history.now
    ensures Held(StakesOf(x.history.paid, w, from), c) <= AtStart(x, c, w)
  {
    var h := x.history;
    assert |h.starts| == h.now + 1;
    hide CursorOk, MoneyOk, TimesPaid, VotesFor, Held, StakesOf, Times;
    VotesNonNegative(h.starts[c], w);
    HeldSpans(h.paid, w, from, c, h.starts[c]);
    OneMore(0, VotesFor(h.starts[c], w));
  }

  lemma {:induction false} HeldByAll(t: Tariff, people: seq<Person>, balances: seq<int>, now: int, w: Address,
      from: int, c: int)
    requires |people| == |balances| && 0 <= c < now
    requires forall i :: 0 <= i < |people| ==>
               people[i].history.now == now && HistoryOk(t, people[i].history, balances[i])
    ensures Held(AllStakes(people, w, from), c) <= SumOver(people, StartedBy(c, w))
    decreases |people|
  {
    hide HistoryOk, StakesOf, AtStart;
    if people != [] {
      var n := |people| - 1;
      HeldByAll(t, people[..n], balances[..n], now, w, from, c);
      HeldConcat(AllStakes(people[..n], w, from), StakesOf(people[n].history.paid, w, from), c);
      HeldOf(t, people[n], balances[n], w, from, c);
    }
  }

  lemma {:induction false} WithinSpans(h: History, spans: seq<Span>, w: Address, from: int)
    requires CursorOk(h) && PaidOnce(h) && PaidWithStartVotes(h) && forall s :: s in spans ==> s in h.paid
    ensures Within(StakesOf(spans, w, from), 0, h.now)
    decreases |spans|
  {
    hide CursorOk, PaidOnce, PaidWithStartVotes;
    if spans != [] {
      var init, s := spans[..|spans| - 1], spans[|spans| - 1];
      assert s in spans;
      WithinSpans(h, init, w, from);
      if Later(s.begin, from) < s.end {
        PaidSpansClosed(h, s);
        HeldVotes(s.votes, w, Later(s.begin, from), s.end, 0);
      }
      var last := SpanStakes(s, w, from);
      assert forall i :: 0 <= i < |last| ==> last[i] in last;
    }
  }

  lemma {:induction false} WithinAll(t: Tariff, people: seq<Person>, balances: seq<int>, now: int, w: Address,
      from: int)
    requires |people| == |balances|
    requires forall i :: 0 <= i < |people| ==>
               people[i].history.now == now && HistoryOk(t, people[i].history, balances[i])
    ensures Within(AllStakes(people, w, from), 0, now)
    decreases |people|
  {
    hide CursorOk, PaidOnce, PaidWithStartVotes, MoneyOk, StakesOf;
    if people != [] {
      var n := |people| - 1;
      WithinAll(t, people[..n], balances[..n], now, w, from);
      WithinSpans(people[n].history, people[n].history.paid, w, from);
    }
  }

  /** For each candidate, what the index paid out for it stays within its pools. */
  lemma CandidateCovered(p: Policy, c: Chain, balances: seq<int>, w: Address)
    requires ChainOk(p, c, balances)
    ensures Paid(TariffOf(p, c), w, AllStakes(c.people, w, p.indexFrom)) <= PoolSum(c.pools, 0, w, c.now)
  {
    hide HistoryOk, PersonOk, SumOver, Paid, PoolSum, StepAt, Backed, AllStakes;
    var stakes := AllStakes(c.people, w, p.indexFrom);
    var counts := seq(c.now, k => ClosingCount(c, k, w));
    WithinAll(TariffOf(p, c), c.people, balances, c.now, w, p.indexFrom);
    forall k | 0 <= k < |counts|
      ensures Held(stakes, 0 + k) <= counts[k] && StepAt(c.vi, c.pools, 0 + k, w, counts[k])
    {
      HeldByAll(TariffOf(p, c), c.people, balances, c.now, w, p.indexFrom, k);
      assert ClosingCount(c, k, w) >= SumOver(c.people, StartedBy(k, w));
    }
    PoolsCoverPayouts(c.vi, c.pools, 0, w, counts, stakes, p.flat, p.indexFrom);
  }

  // ---- all candidates together ----

  function IndexPaid(t: Tariff, spans: seq<Span>): nat {
    if spans == [] then 0
    else
      var s := spans[|spans| - 1];
      IndexPaid(t, spans[..|spans| - 1]) +
      if Later(s.begin, t.indexFrom) < s.end then IndexReward(t, Later(s.begin, t.indexFrom), s.end, s.votes) else 0
  }

  function FlatPaid(t: Tariff, spans: seq<Span>): nat {
    if spans == [] then 0
    else
      var s := spans[|spans| - 1];
      FlatPaid(t, spans[..|spans| - 1]) +
      if s.begin < s.end then OldReward(t, s.begin, Handover(t, s.begin, s.end), s.votes) else 0
  }

  /** Every payment is an old part and an index part. */
  lemma {:induction false} PayParts(t: Tariff, spans: seq<Span>)
    ensures Pay(t, spans) == FlatPaid(t, spans) + IndexPaid(t, spans)
    decreases |spans|
  {
    hide IndexReward, OldReward;
    if spans != [] {
      PayParts(t, spans[..|spans| - 1]);
    }
  }

  function VotePays(t: Tariff, ws: set<Address>, votes: Votes, begin: int, end: int): map<Address, int> {
    map w | w in ws :: Paid(t, w, VoteStakes(votes, w, begin, end))
  }

  lemma {:induction false} VotePaysSum(t: Tariff, ws: set<Address>, votes: Votes, begin: int, end: int)
    requires forall v :: v in votes ==> v.candidate in ws
    ensures Sum(VotePays(t, ws, votes, begin, end)) == IndexReward(t, begin, end, votes)
    decreases |votes|
  {
    hide VoteReward, Sum, Paid, VoteStakes;
    if votes == [] {
      forall w | w in ws
        ensures VotePays(t, ws, votes, begin, end)[w] == 0
      {
        NoVotesNoStakes(t, w, begin, end);
      }
      SumZero(VotePays(t, ws, votes, begin, end));
    } else {
      var init, v := votes[..|votes| - 1], votes[|votes| - 1];
      assert v in votes;
      VotePaysSum(t, ws, init, begin, end);
      var before := VotePays(t, ws, init, begin, end);
      var x := before[v.candidate] + VoteReward(t, begin, end, v);
      var after: map<Address, int> := before[v.candidate := x];
      forall w | w in ws
        ensures VotePays(t, ws, votes, begin, end)[w] == after[w]
      {
        LastVotePays(t, w, votes, begin, end);
      }
      assert VotePays(t, ws, votes, begin, end) == after;
      SumUpdate<Address>(before, v.candidate, x);
    }
  }

  lemma NoVotesNoStakes(t: Tariff, w: Address, begin: int, end: int)
    ensures Paid(t, w, VoteStakes([], w, begin, end)) == 0
  {
  }

  lemma LastVotePays(t: Tariff, w: Address, votes: Votes, begin: int, end: int)
    requires votes != []
    ensures var v := votes[|votes| - 1];
            Paid(t, w, VoteStakes(votes, w, begin, end)) ==
            Paid(t, w, VoteStakes(votes[..|votes| - 1], w, begin, end)) +
            if w == v.candidate then VoteReward(t, begin, end, v) else 0
  {
    hide VoteReward;
    var v := votes[|votes| - 1];
    var init := VoteStakes(votes[..|votes| - 1], w, begin, end);
    if v.candidate == w {
      var one := [Stake(begin, end, v.count)];
      PaidConcat(t, w, init, one);
      assert one[..0] == [];
      assert Vote(w, v.count) == v;
    } else {
      assert init + [] == init;
    }
  }

  function SpanPays(t: Tariff, ws: set<Address>, spans: seq<Span>): map<Address, int> {
    map w | w in ws :: Paid(t, w, StakesOf(spans, w, t.indexFrom))
  }

  lemma {:induction false} SpanPaysSum(t: Tariff, ws: set<Address>, spans: seq<Span>)
    requires forall s, v :: s in spans && s.begin < s.end && v in s.votes ==> v.candidate in ws
    ensures Sum(SpanPays(t, ws, spans)) == IndexPaid(t, spans)
    decreases |spans|
  {
    hide Sum, VoteReward, IndexReward;
    if spans == [] {
      SumZero(SpanPays(t, ws, spans));
    } else {
      var init, s := spans[..|spans| - 1], spans[|spans| - 1];
      assert s in spans;
      SpanPaysSum(t, ws, init);
      var from := Later(s.begin, t.indexFrom);
      var votes := if from < s.end then s.votes else [];
      VotePaysSum(t, ws, votes, from, s.end);
      assert IndexReward(t, from, s.end, []) == 0 by { NoVotesNoReward(t, from, s.end); }
      forall w | w in ws
        ensures SpanPays(t, ws, spans)[w] == SpanPays(t, ws, init)[w] + VotePays(t, ws, votes, from, s.end)[w]
      {
        PaidConcat(t, w, StakesOf(init, w, t.indexFrom), SpanStakes(s, w, t.indexFrom));
      }
      SumAdd(SpanPays(t, ws, init), VotePays(t, ws, votes, from, s.end), SpanPays(t, ws, spans));
    }
  }

  lemma NoVotesNoReward(t: Tariff, begin: int, end: int)
    ensures IndexReward(t, begin, end, []) == 0
  {
  }

  function PeoplePays(t: Tariff, ws: set<Address>, people: seq<Person>): map<Address, int> {
    map w | w in ws :: Paid(t, w, AllStakes(people, w, t.indexFrom))
  }

  function IndexPaidTo(t: Tariff): Person -> int { (x: Person) => IndexPaid(t, x.history.paid) }
  function FlatPaidTo(t: Tariff): Person -> int { (x: Person) => FlatPaid(t, x.history.paid) }
  function HeldBy(): Person -> int { (x: Person) => x.history.account.balance + x.history.account.allowance }

  lemma {:induction false} PeoplePaysSum(t: Tariff, ws: set<Address>, people: seq<Person>)
    requires forall i, s, v ::
               0 <= i < |people| && s in people[i].history.paid && s.begin < s.end && v in s.votes ==> v.candidate in ws
    ensures Sum(PeoplePays(t, ws, people)) == SumOver(people, IndexPaidTo(t))
    decreases |people|
  {
    hide Sum, Paid, IndexPaid, StakesOf;
    if people == [] {
      forall w | w in ws
        ensures PeoplePays(t, ws, people)[w] == 0
      {
        NoStakesNoPay(t, w);
      }
      SumZero(PeoplePays(t, ws, people));
    } else {
      var n := |people| - 1;
      PeoplePaysSum(t, ws, people[..n]);
      SpanPaysSum(t, ws, people[n].history.paid);
      forall w | w in ws
        ensures PeoplePays(t, ws, people)[w] ==
                  PeoplePays(t, ws, people[..n])[w] + SpanPays(t, ws, people[n].history.paid)[w]
      {
        PaidConcat(t, w, AllStakes(people[..n], w, t.indexFrom), StakesOf(people[n].history.paid, w, t.indexFrom));
      }
      SumAdd(PeoplePays(t, ws, people[..n]), SpanPays(t, ws, people[n].history.paid), PeoplePays(t, ws, people));
    }
  }

  lemma NoStakesNoPay(t: Tariff, w: Address)
    ensures Paid(t, w, []) == 0
  {
  }

  /** What has ever been put into the pools of closed cycles, per candidate. */
  function PoolTotals(c: Chain): map<Address, int>
    requires c.now >= 0
  {
    map w | w in c.counts :: PoolSum(c.pools, 0, w, c.now)
  }

  /** Paid spans carry votes that name registered candidates, except spans that pay nothing. */
  lemma PaidVotesKnown(h: History, counts: map<Address, int>, s: Span)
    requires PaidWithStartVotes(h) && s in h.paid && s.begin < s.end
    requires forall k :: 0 <= k < |h.starts| ==> Known(counts, h.starts[k])
    ensures Known(counts, s.votes)
  {
    assert Contains(s, s.begin);
  }

  lemma {:induction false} HoldingsSum(t: Tariff, people: seq<Person>, balances: seq<int>)
    requires |people| == |balances|
    requires forall i :: 0 <= i < |people| ==> HistoryOk(t, people[i].history, balances[i])
    ensures SumOver(people, HeldBy()) ==
            Total(balances) + SumOver(people, FlatPaidTo(t)) + SumOver(people, IndexPaidTo(t))
    decreases |people|
  {
    hide CursorOk, PaidOnce, PaidWithStartVotes, Pay, FlatPaid, IndexPaid;
    if people != [] {
      var n := |people| - 1;
      HoldingsSum(t, people[..n], balances[..n]);
      assert HistoryOk(t, people[n].history, balances[n]);
      PayParts(t, people[n].history.paid);
    }
  }

  function Total(s: seq<int>): int { if s == [] then 0 else Total(s[..|s| - 1]) + s[|s| - 1] }

  /**
   Over every run: what all accounts have gained is old payouts and index payouts, and the index payouts are at most
   what was put into the pools of the cycles closed so far.
   */
  lemma IndexPayoutsCovered(p: Policy, balances: seq<int>, counts: map<Address, int>, pools: Entries, es: seq<Action>)
    requires forall w :: w in counts ==> counts[w] >= 0
    ensures var c := ActAll(p, Genesis(balances, counts, pools), es);
            var t := TariffOf(p, c);
            && c.now >= 0
            && SumOver(c.people, HeldBy()) ==
               Total(balances) + SumOver(c.people, FlatPaidTo(t)) + SumOver(c.people, IndexPaidTo(t))
            && SumOver(c.people, IndexPaidTo(t)) <= Sum(PoolTotals(c))
  {
    hide ActAll, Sum, Genesis;
    GenesisOk(p, balances, counts, pools);
    ActAllOk(p, Genesis(balances, counts, pools), balances, es);
    var c := ActAll(p, Genesis(balances, counts, pools), es);
    ChainSolvent(p, c, balances);
  }

  lemma ChainSolvent(p: Policy, c: Chain, balances: seq<int>)
    requires ChainOk(p, c, balances)
    ensures var t := TariffOf(p, c);
            && SumOver(c.people, HeldBy()) ==
               Total(balances) + SumOver(c.people, FlatPaidTo(t)) + SumOver(c.people, IndexPaidTo(t))
            && SumOver(c.people, IndexPaidTo(t)) <= Sum(PoolTotals(c))
  {
    hide Sum, SumOver, Paid, PoolSum, AllStakes, Backed, Covered, IndexOk, CursorOk, PaidOnce, MoneyOk, TimesPaid;
    var t := TariffOf(p, c);
    HoldingsSum(t, c.people, balances);
    forall i, s, v | 0 <= i < |c.people| && s in c.people[i].history.paid && s.begin < s.end && v in s.votes
      ensures v.candidate in c.counts
    {
      PaidVotesKnown(c.people[i].history, c.counts, s);
    }
    PeoplePaysSum(t, c.counts.Keys, c.people);
    forall w | w in c.counts
      ensures PeoplePays(t, c.counts.Keys, c.people)[w] <= PoolTotals(c)[w]
    {
      CandidateCovered(p, c, balances, w);
    }
    SumMono(PeoplePays(t, c.counts.Keys, c.people), PoolTotals(c));
  }

  /** With the index on from the first cycle, nobody's gain comes from anywhere else. */
  lemma GainsCovered(p: Policy, balances: seq<int>, counts: map<Address, int>, pools: Entries, es: seq<Action>)
    requires p.indexFrom <= 0 && forall w :: w in counts ==> counts[w] >= 0
    ensures var c := ActAll(p, Genesis(balances, counts, pools), es);
            c.now >= 0 && SumOver(c.people, HeldBy()) <= Total(balances) + Sum(PoolTotals(c))
  {
    hide ActAll, Sum, Genesis, SumOver, PoolTotals;
    var c := ActAll(p, Genesis(balances, counts, pools), es);
    IndexPayoutsCovered(p, balances, counts, pools, es);
    GenesisOk(p, balances, counts, pools);
    ActAllOk(p, Genesis(balances, counts, pools), balances, es);
    NothingFlat(p, c, balances);
  }

  lemma NothingFlat(p: Policy, c: Chain, balances: seq<int>)
    requires ChainOk(p, c, balances) && p.indexFrom <= 0
    ensures SumOver(c.people, FlatPaidTo(TariffOf(p, c))) == 0
  {
    hide SumOver, FlatPaid, Backed, Covered, IndexOk;
    var t := TariffOf(p, c);
    forall i | 0 <= i < |c.people|
      ensures FlatPaid(t, c.people[i].history.paid) == 0
    {
      FlatNothing(t, c.people[i].history, c.people[i].history.paid);
    }
    SumOverSame(c.people, c.people, FlatPaidTo(t), (x: Person) => 0);
    SumOverZero(c.people);
  }

  lemma {:induction false} SumOverZero(people: seq<Person>)
    ensures SumOver(people, (x: Person) => 0) == 0
    decreases |people|
  {
    if people != [] {
      SumOverZero(people[..|people| - 1]);
    }
  }

  lemma {:induction false} FlatNothing(t: Tariff, h: History, spans: seq<Span>)
    requires CursorOk(h) && PaidOnce(h) && PaidWithStartVotes(h) && t.indexFrom <= 0
    requires forall s :: s in spans ==> s in h.paid
    ensures FlatPaid(t, spans) == 0
    decreases |spans|
  {
    hide CursorOk, PaidOnce, PaidWithStartVotes;
    if spans != [] {
      var s := spans[|spans| - 1];
      assert s in spans;
      FlatNothing(t, h, spans[..|spans| - 1]);
      if s.begin < s.end {
        PaidSpansClosed(h, s);
      }
    }
  }

  // ---- the stores do this ----

  /** A window object that stands for the chain. */
  ghost predicate Mirrors(win: Window, c: Chain)
    reads win, win.index
  {
    && win.useIndex && win.advances && win.cycle == c.now
    && win.counts == c.counts && win.ballots == BallotsOf(c.people)
    && (forall k: int, w: Address :: win.index.Vi(k, w) == EntryIn(c.vi, k, w))
    && (forall k: int, w: Address :: win.index.Pool(k, w) == EntryIn(c.pools, k, w))
  }

  lemma ClosedParts(p: Policy, c: Chain)
    ensures var n := Closed(p, c);
            n.now == c.now + 1 && n.counts == Tallied(c) && n.vi == FoldedEntries(c) && n.pools == c.pools &&
            BallotsOf(n.people) == map[]
  {
    hide FoldedEntries, Tallied, Next;
  }

  /** The maintenance window closes the cycle of the chain. */
  method CloseOnStores(win: Window, p: Policy, ghost c: Chain)
    requires Mirrors(win, c)
    modifies win, win.index`vi
    ensures Mirrors(win, Closed(p, c))
  {
    ClosedParts(p, c);
    hide FoldedEntries, Folded, Moves, Sum, Closed, BallotsOf, EntryIn;
    ghost var n := Closed(p, c);
    win.Run();
    assert win.counts == Tallied(c);
    forall k: int, w: Address
      ensures win.index.Vi(k, w) == EntryIn(n.vi, k, w)
    {
      FoldedAt(c, k, w);
    }
  }

  /** The account stores hold what the chain records of person i. */
  ghost predicate Stands(store: RewardStore, a: Address, p: Policy, c: Chain, i: nat)
    reads store
  {
    && store.gate && a in store.accounts && i < |c.people| && c.people[i].history.now == c.now == store.now
    && store.tariff == TariffOf(p, c) && store.View(a) == c.people[i].history.account
    && (if a in store.ballots then c.people[i].ballot == Some(store.ballots[a]) else c.people[i].ballot == None)
  }

  /** Settling on the account stores does what the chain records. */
  method SettleOnStores(store: RewardStore, a: Address, ghost p: Policy, ghost c: Chain, ghost i: nat)
    requires Stands(store, a, p, c, i)
    modifies store
    ensures Stands(store, a, p, Act(p, c, Claim(i)), i)
  {
    hide Settled;
    SettleKeepsTime(TariffOf(p, c), c.people[i].history);
    store.WithdrawReward(a);
  }

  /** So does casting votes. */
  method CastOnStores(store: RewardStore, a: Address, votes: Votes, ghost p: Policy, ghost c: Chain, ghost i: nat)
    requires Stands(store, a, p, c, i) && Known(c.counts, votes)
    modifies store
    ensures Stands(store, a, p, Act(p, c, Cast(i, votes)), i)
  {
    hide Settled;
    SettleKeepsTime(TariffOf(p, c), c.people[i].history);
    var _ := store.VoteWitness(a, votes);
  }
}
