/**
 Vote-reward settlement. An account carries two cycle cursors and snapshots of
 its votes; a settlement pays the closed cycles since the last one, from the
 snapshot for a cycle in which votes changed and from the live votes after it.
 */
module Rewards {
  import opened Arith
  import opened Voting

  const VI_SCALE: nat := 1_000_000_000_000_000_000

  /**
   What cycles pay: the cumulative index per witness, the pre-index payout of a cycle, and the first cycle of
   the index. Entries of closed cycles never change, so one tariff serves a whole run.
   */
  datatype Tariff = Tariff(vi: (int, Address) -> nat, flat: (int, Votes) -> nat, indexFrom: int)

  // ---- reward of a span of cycles ----

  function OldReward(t: Tariff, begin: int, end: int, votes: Votes): nat
    decreases end - begin
  {
    if begin >= end then 0 else t.flat(begin, votes) + OldReward(t, begin + 1, end, votes)
  }

  /** One vote entry over [begin, end): index growth times votes, in whole sun. */
  function VoteReward(t: Tariff, begin: int, end: int, v: Vote): nat {
    var delta := t.vi(end - 1, v.candidate) - t.vi(begin - 1, v.candidate);
    if delta <= 0 then 0 else
      assert delta * v.count >= 0;
      delta * v.count / VI_SCALE
  }

  function IndexReward(t: Tariff, begin: int, end: int, votes: Votes): nat {
    if votes == [] then 0
    else IndexReward(t, begin, end, votes[..|votes| - 1]) + VoteReward(t, begin, end, votes[|votes| - 1])
  }

  /** The cycle where the index takes over inside [begin, end). */
  function Handover(t: Tariff, begin: int, end: int): int {
    if begin < t.indexFrom then (if t.indexFrom < end then t.indexFrom else end) else begin
  }

  /** Reward of [begin, end) for fixed votes: the old payout up to the handover, the index after it. */
  function Reward(t: Tariff, begin: int, end: int, votes: Votes): nat {
    if begin >= end then 0
    else
      var mid := Handover(t, begin, end);
      OldReward(t, begin, mid, votes) + if mid < end then IndexReward(t, mid, end, votes) else 0
  }

  /** A vote entry earns the whole sun in its index growth: not one more, and not one less. */
  lemma VoteRewardBracket(t: Tariff, begin: int, end: int, v: Vote)
    ensures var r, growth := VoteReward(t, begin, end, v), t.vi(end - 1, v.candidate) - t.vi(begin - 1, v.candidate);
            if growth <= 0 then r == 0
            else
              r * 1_000_000_000_000_000_000 <= growth * v.count < (r + 1) * 1_000_000_000_000_000_000
  {
    var growth := t.vi(end - 1, v.candidate) - t.vi(begin - 1, v.candidate);
    QuotientBracket(growth * v.count, VI_SCALE);
  }

  /** A single cycle pays by exactly one of the two rules, told apart by the first cycle of the index. */
  lemma RewardOfOneCycle(t: Tariff, c: int, votes: Votes)
    ensures c < t.indexFrom ==> Reward(t, c, c + 1, votes) == t.flat(c, votes)
    ensures c >= t.indexFrom ==> Reward(t, c, c + 1, votes) == IndexReward(t, c, c + 1, votes)
  {
    hide IndexReward;
    assert OldReward(t, c, c, votes) == OldReward(t, c + 1, c + 1, votes) == 0;
  }

  /** The index pays every vote entry on its own. */
  lemma {:induction false} IndexRewardAdds(t: Tariff, begin: int, end: int, a: Votes, b: Votes)
    ensures IndexReward(t, begin, end, a + b) == IndexReward(t, begin, end, a) + IndexReward(t, begin, end, b)
    ensures |b| == 1 ==> IndexReward(t, begin, end, b) == VoteReward(t, begin, end, b[0])
    decreases |b|
  {
    hide VoteReward;
    if b == [] {
      assert a + b == a;
    } else {
      var init := b[..|b| - 1];
      IndexRewardAdds(t, begin, end, a, init);
      assert (a + b)[..|a + b| - 1] == a + init;
    }
  }

  method ComputeReward(t: Tariff, begin: int, end: int, votes: Votes) returns (reward: nat)
    ensures reward == Reward(t, begin, end, votes)
  {
    if begin >= end {
      return 0;
    }
    reward := 0;
    var from := begin;
    if begin < t.indexFrom {
      var oldEnd := if t.indexFrom < end then t.indexFrom else end;
      while from < oldEnd
        invariant begin <= from <= oldEnd
        invariant reward + OldReward(t, from, oldEnd, votes) == OldReward(t, begin, oldEnd, votes)
      {
        reward := reward + t.flat(from, votes);
        from := from + 1;
      }
    }
    if from < end {
      var base := reward;
      for i := 0 to |votes|
        invariant reward == base + IndexReward(t, from, end, votes[..i])
      {
        assert votes[..i + 1][..i] == votes[..i];
        reward := reward + VoteReward(t, from, end, votes[i]);
      }
      assert votes[..|votes|] == votes;
    }
  }

  // ---- one account ----

  datatype Account = Account(begin: int, end: int, snaps: map<int, Votes>, votes: Votes, allowance: int, balance: int)

  /** A stretch of cycles paid with fixed votes. */
  datatype Span = Span(begin: int, end: int, votes: Votes)

  /** The cursor sits one closed cycle back, on a cycle whose votes were snapshotted. */
  predicate Pending(a: Account, now: int) { a.begin + 1 == a.end && a.begin < now }

  /** Nothing to do: already settled in this cycle. */
  predicate UpToDate(a: Account, now: int) { a.begin > now || (a.begin == now && a.begin in a.snaps) }

  /** The spans one settlement pays, in order. */
  function Due(a: Account, now: int): seq<Span> {
    if UpToDate(a, now) then []
    else
      var first := if Pending(a, now) && a.begin in a.snaps then [Span(a.begin, a.end, a.snaps[a.begin])] else [];
      var from := if Pending(a, now) then a.begin + 1 else a.begin;
      first + if a.votes != [] && from < now then [Span(from, now, a.votes)] else []
  }

  function Pay(t: Tariff, spans: seq<Span>): nat {
    if spans == [] then 0
    else Pay(t, spans[..|spans| - 1]) + (var s := spans[|spans| - 1]; Reward(t, s.begin, s.end, s.votes))
  }

  lemma {:induction false} PayAppends(t: Tariff, a: seq<Span>, b: seq<Span>)
    ensures Pay(t, a + b) == Pay(t, a) + Pay(t, b)
    decreases |b|
  {
    if b == [] {
      assert a + b == a;
    } else {
      var init := b[..|b| - 1];
      PayAppends(t, a, init);
      assert (a + b)[..|a + b| - 1] == a + init;
    }
  }

  /** The account after a settlement in cycle `now`: paid, cursors moved, live votes snapshotted. */
  function Settled(t: Tariff, a: Account, now: int): Account {
    if UpToDate(a, now) then a
    else
      var paid := a.(allowance := a.allowance + Pay(t, Due(a, now)));
      if a.votes == [] then paid.(begin := now + 1)
      else paid.(begin := now, end := now + 1, snaps := a.snaps[now := a.votes])
  }

  /** Allowance plus pending rewards, as the read-only query computes it. */
  function Query(t: Tariff, a: Account, now: int): int {
    if a.begin > now then a.allowance
    else
      var first :=
        if Pending(a, now) && a.begin in a.snaps then Reward(t, a.begin, a.end, a.snaps[a.begin]) else 0;
      var from := if Pending(a, now) then a.begin + 1 else a.begin;
      if a.votes == [] then first + a.allowance
      else first + (if from < now then Reward(t, from, now, a.votes) else 0) + a.allowance
  }

  /** The query announces exactly the allowance that a settlement leaves. */
  lemma QueryIsSettlement(t: Tariff, a: Account, now: int)
    ensures Query(t, a, now) == Settled(t, a, now).allowance
  {
    hide Reward;
    var first := if Pending(a, now) && a.begin in a.snaps then [Span(a.begin, a.end, a.snaps[a.begin])] else [];
    var from := if Pending(a, now) then a.begin + 1 else a.begin;
    var second := if a.votes != [] && from < now then [Span(from, now, a.votes)] else [];
    PayAppends(t, first, second);
    PayOne(t, first);
    PayOne(t, second);
  }

  lemma PayOne(t: Tariff, spans: seq<Span>)
    ensures spans == [] ==> Pay(t, spans) == 0
    ensures |spans| == 1 ==> Pay(t, spans) == Reward(t, spans[0].begin, spans[0].end, spans[0].votes)
  {
  }

  // ---- runs of one account ----

  datatype Event = Withdraw | CashOut | CastVotes(votes: Votes) | ClearVotes | NextCycle

  /** An account in time: current cycle, the votes held at the start of every cycle, and every span paid so far. */
  datatype History = History(account: Account, now: int, starts: seq<Votes>, paid: seq<Span>)

  /** A settlement, recorded. */
  function Settle(t: Tariff, h: History): History {
    h.(account := Settled(t, h.account, h.now), paid := h.paid + Due(h.account, h.now))
  }

  /** Votes are cast and cleared, and allowances cashed, only behind a settlement. */
  function Next(t: Tariff, h: History, e: Event): History {
    match e
    case Withdraw => Settle(t, h)
    case CashOut =>
      var s := Settle(t, h);
      s.(account := s.account.(balance := s.account.balance + s.account.allowance, allowance := 0))
    case CastVotes(v) => var s := Settle(t, h); s.(account := s.account.(votes := v))
    case ClearVotes => var s := Settle(t, h); s.(account := s.account.(votes := []))
    case NextCycle => h.(now := h.now + 1, starts := h.starts + [h.account.votes])
  }

  function RunEvents(t: Tariff, h: History, es: seq<Event>): History
    decreases |es|
  {
    if es == [] then h else RunEvents(t, Next(t, h, es[0]), es[1..])
  }

  /** A fresh account holding some votes when the first cycle starts. */
  function Fresh(votes: Votes, balance: int): History {
    History(Account(0, -1, map[], votes, 0, balance), 0, [votes], [])
  }

  /** From cycle k on, up to now, every cycle started with votes v. */
  ghost predicate HeldSince(h: History, k: int, v: Votes)
    requires |h.starts| == h.now + 1
  {
    forall i :: 0 <= i && k <= i <= h.now ==> h.starts[i] == v
  }

  /** How the cursors stand to the history. */
  ghost predicate CursorOk(h: History) {
    var a := h.account;
    && h.now >= 0 && |h.starts| == h.now + 1
    && 0 <= a.begin <= h.now + 1 && a.end <= a.begin + 1
    && (forall k :: k in a.snaps ==> k < a.begin || (k == a.begin && a.end == a.begin + 1))
    && (a.begin == h.now + 1 ==> a.end != a.begin + 1 && h.starts[h.now] == [])
    && (a.begin <= h.now && a.end == a.begin + 1 ==>
          && a.begin in a.snaps && a.snaps[a.begin] == h.starts[a.begin] && h.starts[a.begin] != []
          && HeldSince(h, a.begin + 1, a.votes))
    && (a.begin <= h.now && a.end != a.begin + 1 ==> HeldSince(h, a.begin, a.votes))
  }

  predicate Contains(s: Span, k: int) { s.begin <= k < s.end }

  /** How many paid spans contain cycle k. */
  function TimesPaid(paid: seq<Span>, k: int): nat {
    if paid == [] then 0
    else TimesPaid(paid[..|paid| - 1], k) + if Contains(paid[|paid| - 1], k) then 1 else 0
  }

  /** Cycle k is paid exactly once if it lies behind the cursor and started with votes, never otherwise. */
  ghost predicate PaidOnce(h: History) {
    forall k :: TimesPaid(h.paid, k) ==
                if 0 <= k < h.account.begin && k < |h.starts| && h.starts[k] != [] then 1 else 0
  }

  /** Every paid cycle was paid with the votes held at its start. */
  ghost predicate PaidWithStartVotes(h: History) {
    forall s, k :: s in h.paid && Contains(s, k) ==> 0 <= k < |h.starts| && h.starts[k] == s.votes
  }

  /** Nothing but paid rewards ever reaches allowance and balance. */
  predicate MoneyOk(t: Tariff, h: History, balance: int) {
    h.account.balance + h.account.allowance == balance + Pay(t, h.paid)
  }

  ghost predicate HistoryOk(t: Tariff, h: History, balance: int) {
    CursorOk(h) && PaidOnce(h) && PaidWithStartVotes(h) && MoneyOk(t, h, balance)
  }

  lemma TimesPaidAppends(a: seq<Span>, s: Span, k: int)
    ensures TimesPaid(a + [s], k) == TimesPaid(a, k) + if Contains(s, k) then 1 else 0
  {
    assert (a + [s])[..|a|] == a;
  }

  lemma SettleCursor(t: Tariff, h: History)
    requires CursorOk(h)
    ensures CursorOk(Settle(t, h))
    ensures h.now <= Settle(t, h).account.begin <= h.now + 1
    ensures Settle(t, h).account.begin == h.now ==> h.now in Settle(t, h).account.snaps
  {
    hide Reward, Pay, Due;
  }

  /** The spans due are fresh cycles, each with the votes held at its start, and none that had votes is left out. */
  lemma DueCovers(h: History, k: int)
    requires CursorOk(h)
    ensures var due, begin := Due(h.account, h.now), h.account.begin;
            TimesPaid(due, k) == if begin <= k < h.now && h.starts[k] != [] then 1 else 0
    ensures forall s :: s in Due(h.account, h.now) && Contains(s, k) ==> 0 <= k < h.now && h.starts[k] == s.votes
  {
    var a, now := h.account, h.now;
    var from := if Pending(a, now) then a.begin + 1 else a.begin;
    OpenCyclesHeld(h, k);
    hide CursorOk, HeldSince;
    var second := Span(from, now, a.votes);
    if UpToDate(a, now) {
      TimesPaidFew(second, second, k);
    } else if Pending(a, now) {
      TimesPaidFew(Span(a.begin, a.end, a.snaps[a.begin]), second, k);
    } else {
      TimesPaidFew(second, second, k);
    }
    hide TimesPaid;
  }

  /** The votes an open cycle started with: the snapshot's for the cursor's own cycle, the live ones after it. */
  lemma OpenCyclesHeld(h: History, k: int)
    requires CursorOk(h)
    ensures 0 <= h.account.begin && |h.starts| == h.now + 1
    ensures Pending(h.account, h.now) ==>
              h.account.begin in h.account.snaps && h.starts[h.account.begin] == h.account.snaps[h.account.begin] &&
              h.starts[h.account.begin] != []
    ensures (if Pending(h.account, h.now) then h.account.begin + 1 else h.account.begin) <= k < h.now ==>
              h.starts[k] == h.account.votes
  {
  }

  lemma TimesPaidFew(a: Span, b: Span, k: int)
    ensures TimesPaid([], k) == 0
    ensures TimesPaid([a], k) == if Contains(a, k) then 1 else 0
    ensures TimesPaid([b], k) == if Contains(b, k) then 1 else 0
    ensures TimesPaid([a, b], k) == (if Contains(a, k) then 1 else 0) + (if Contains(b, k) then 1 else 0)
  {
    assert [a][..0] == [] && [b][..0] == [] && [a, b][..1] == [a];
  }

  lemma {:induction false} TimesPaidConcat(a: seq<Span>, b: seq<Span>, k: int)
    ensures TimesPaid(a + b, k) == TimesPaid(a, k) + TimesPaid(b, k)
    decreases |b|
  {
    if b == [] {
      assert a + b == a;
    } else {
      var init := b[..|b| - 1];
      TimesPaidConcat(a, init, k);
      assert a + b == (a + init) + [b[|b| - 1]];
      TimesPaidAppends(a + init, b[|b| - 1], k);
    }
  }

  lemma SettlePaidOnce(t: Tariff, h: History)
    requires CursorOk(h) && PaidOnce(h)
    ensures PaidOnce(Settle(t, h))
  {
    SettleCursor(t, h);
    forall k
      ensures TimesPaid(Settle(t, h).paid, k) ==
              if 0 <= k < Settle(t, h).account.begin && k < |h.starts| && h.starts[k] != [] then 1 else 0
    {
      TimesPaidConcat(h.paid, Due(h.account, h.now), k);
      DueCovers(h, k);
    }
  }

  lemma SettlePaidVotes(t: Tariff, h: History)
    requires CursorOk(h) && PaidWithStartVotes(h)
    ensures PaidWithStartVotes(Settle(t, h))
  {
    hide Settled;
    var due := Due(h.account, h.now);
    forall sp, k | sp in h.paid + due && Contains(sp, k)
      ensures 0 <= k < |h.starts| && h.starts[k] == sp.votes
    {
      DueCovers(h, k);
      assert sp in h.paid || sp in due;
    }
  }

  /** A settlement pays each closed cycle once and with the right votes. */
  lemma SettleOk(t: Tariff, h: History, balance: int)
    requires HistoryOk(t, h, balance)
    ensures HistoryOk(t, Settle(t, h), balance)
  {
    SettleCursor(t, h);
    SettlePaidOnce(t, h);
    SettlePaidVotes(t, h);
    PayAppends(t, h.paid, Due(h.account, h.now));
    UpToDatePaysNothing(t, h);
    hide CursorOk, PaidOnce, PaidWithStartVotes, Settled, Due, Pay;
  }

  lemma UpToDatePaysNothing(t: Tariff, h: History)
    ensures Settled(t, h.account, h.now).allowance == h.account.allowance + Pay(t, Due(h.account, h.now))
    ensures Settled(t, h.account, h.now).balance == h.account.balance
  {
  }

  /** Right after a settlement the live votes may change freely. */
  lemma VotesMayChange(h: History, v: Votes)
    requires CursorOk(h) && h.now <= h.account.begin && (h.account.begin == h.now ==> h.now in h.account.snaps)
    ensures CursorOk(h.(account := h.account.(votes := v)))
  {
  }

  lemma CycleMayAdvance(t: Tariff, h: History, balance: int)
    requires HistoryOk(t, h, balance)
    ensures HistoryOk(t, Next(t, h, NextCycle), balance)
  {
    hide Pay, TimesPaid;
    var n := Next(t, h, NextCycle);
    assert forall k :: 0 <= k < |h.starts| ==> n.starts[k] == h.starts[k];
    assert PaidWithStartVotes(n) by {
      forall s, k | s in n.paid && Contains(s, k)
        ensures 0 <= k < |n.starts| && n.starts[k] == s.votes
      {
        assert 0 <= k < |h.starts| && h.starts[k] == s.votes;
      }
    }
  }

  /**
   The invariant looks at the cursor, the history and the sum of the money, not at the votes or where the money
   is.
   */
  lemma SameBooksOk(t: Tariff, h: History, n: History, balance: int)
    requires HistoryOk(t, h, balance) && CursorOk(n)
    requires n.paid == h.paid && n.starts == h.starts && n.now == h.now && n.account.begin == h.account.begin
    requires n.account.balance + n.account.allowance == h.account.balance + h.account.allowance
    ensures HistoryOk(t, n, balance)
  {
    hide CursorOk, Pay, TimesPaid, Contains;
  }

  lemma CashOk(h: History, balance: int, allowance: int)
    requires CursorOk(h)
    ensures CursorOk(h.(account := h.account.(balance := balance, allowance := allowance)))
  {
  }

  lemma NextOk(t: Tariff, h: History, e: Event, balance: int)
    requires HistoryOk(t, h, balance)
    ensures HistoryOk(t, Next(t, h, e), balance)
  {
    hide Settle, HistoryOk;
    SettleOk(t, h, balance);
    var s := Settle(t, h);
    match e
    case Withdraw =>
    case CashOut => CashOutOk(t, s, balance);
    case CastVotes(v) => RevoteOk(t, h, v, balance);
    case ClearVotes => RevoteOk(t, h, [], balance);
    case NextCycle => CycleMayAdvance(t, h, balance);
  }

  lemma CashOutOk(t: Tariff, s: History, balance: int)
    requires HistoryOk(t, s, balance)
    ensures HistoryOk(t,
              s.(account := s.account.(balance := s.account.balance + s.account.allowance, allowance := 0)), balance)
  {
    hide CursorOk, PaidOnce, PaidWithStartVotes, MoneyOk;
    var n := s.(account := s.account.(balance := s.account.balance + s.account.allowance, allowance := 0));
    CashOk(s, n.account.balance, 0);
    SameBooksOk(t, s, n, balance);
  }

  lemma RevoteOk(t: Tariff, h: History, votes: Votes, balance: int)
    requires HistoryOk(t, h, balance)
    ensures var s := Settle(t, h); HistoryOk(t, s.(account := s.account.(votes := votes)), balance)
  {
    hide CursorOk, PaidOnce, PaidWithStartVotes, MoneyOk, Settle;
    SettleOk(t, h, balance);
    SettleCursor(t, h);
    SettleKeepsTime(t, h);
    var s := Settle(t, h);
    VotesMayChange(s, votes);
    SameBooksOk(t, s, s.(account := s.account.(votes := votes)), balance);
  }

  /** Every reachable history of every account is in order. */
  lemma {:induction false} RunOk(t: Tariff, h: History, es: seq<Event>, balance: int)
    requires HistoryOk(t, h, balance)
    ensures HistoryOk(t, RunEvents(t, h, es), balance)
    decreases |es|
  {
    if es != [] {
      NextOk(t, h, es[0], balance);
      RunOk(t, Next(t, h, es[0]), es[1..], balance);
    }
  }

  lemma FreshOk(t: Tariff, votes: Votes, balance: int)
    ensures HistoryOk(t, Fresh(votes, balance), balance)
  {
  }

  /**
   After any run and one more settlement, every closed cycle that started with votes has been paid exactly once,
   with those votes, and the account holds exactly what those payments add up to.
   */
  lemma EveryCycleSettledOnce(t: Tariff, votes: Votes, balance: int, es: seq<Event>)
    ensures var h := Settle(t, RunEvents(t, Fresh(votes, balance), es));
            && (forall k :: 0 <= k < h.now ==>
                 k < |h.starts| && TimesPaid(h.paid, k) == if h.starts[k] != [] then 1 else 0)
            && PaidWithStartVotes(h)
            && h.account.balance + h.account.allowance == balance + Pay(t, h.paid)
  {
    hide Settle, Next, Pay, TimesPaid;
    var f := Fresh(votes, balance);
    FreshOk(t, votes, balance);
    RunOk(t, f, es, balance);
    var h := RunEvents(t, f, es);
    SettleOk(t, h, balance);
    SettleCursor(t, h);
    SettleKeepsTime(t, h);
  }

  lemma SettleKeepsTime(t: Tariff, h: History)
    ensures Settle(t, h).now == h.now && Settle(t, h).starts == h.starts
  {
  }

  /** A second settlement in the same cycle changes nothing. */
  lemma SecondSettlementIsNoop(t: Tariff, h: History)
    requires CursorOk(h)
    ensures var once := Settled(t, h.account, h.now);
            Settled(t, once, h.now) == once && Due(once, h.now) == []
  {
    SettleCursor(t, h);
  }

  // ---- the stores ----

  datatype Holder = Holder(votes: Votes, allowance: int, balance: int)

  /** A voter's pending ballot: the votes of the last tally and the votes cast since. */
  datatype Ballot = Ballot(before: Votes, after: Votes)

  /** Cursor, snapshot and account stores of the whole chain. */
  class RewardStore {
    const tariff: Tariff
    var gate: bool
    var now: int
    var begins: map<Address, int>
    var ends: map<Address, int>
    var snaps: map<Address, map<int, Votes>>
    var accounts: map<Address, Holder>
    var ballots: map<Address, Ballot>
    var withdrawTimes: map<Address, int>

    constructor (tariff: Tariff)
      ensures this.tariff == tariff && !gate && now == 0 && begins == map[] && ends == map[] && snaps == map[]
      ensures accounts == map[] && ballots == map[] && withdrawTimes == map[]
    {
      this.tariff := tariff;
      gate, now, begins, ends, snaps := false, 0, map[], map[], map[];
      accounts, ballots, withdrawTimes := map[], map[], map[];
    }

    function BeginCycle(a: Address): int reads this { if a in begins then begins[a] else 0 }
    function EndCycle(a: Address): int reads this { if a in ends then ends[a] else -1 }
    function SnapsOf(a: Address): map<int, Votes> reads this { if a in snaps then snaps[a] else map[] }

    /** All the stores hold about one account. */
    function View(a: Address): Account
      requires a in accounts
      reads this
    {
      Account(BeginCycle(a), EndCycle(a), SnapsOf(a), accounts[a].votes, accounts[a].allowance, accounts[a].balance)
    }

    /** Nobody else's account, cursors or snapshots changed, and no account appeared or vanished. */
    twostate predicate OnlyTouches(a: Address)
      reads this
    {
      && now == old(now) && gate == old(gate) && accounts.Keys == old(accounts).Keys
      && accounts - {a} == old(accounts) - {a} && begins - {a} == old(begins) - {a}
      && ends - {a} == old(ends) - {a} && snaps - {a} == old(snaps) - {a}
    }

    /** So everybody else looks the same. */
    twostate lemma OthersKept(a: Address, b: Address)
      requires OnlyTouches(a) && b != a && b in accounts
      ensures View(b) == old(View(b))
    {
      assert b in accounts - {a} && (accounts - {a})[b] == accounts[b];
      assert b in begins <==> b in begins - {a};
      assert b in ends <==> b in ends - {a};
      assert b in snaps <==> b in snaps - {a};
    }

    /** Credits a positive amount, to a default account if there is none. */
    method AdjustAllowance(a: Address, amount: int)
      modifies this`accounts
      ensures amount <= 0 ==> accounts == old(accounts)
      ensures amount > 0 ==>
                var h := if a in old(accounts) then old(accounts)[a] else Holder([], 0, 0);
                accounts == old(accounts)[a := h.(allowance := h.allowance + amount)]
    {
      if amount <= 0 {
        return;
      }
      var h := if a in accounts then accounts[a] else Holder([], 0, 0);
      accounts := accounts[a := h.(allowance := h.allowance + amount)];
    }

    /** Settles an account's pending rewards into its allowance and moves its cursors. */
    method WithdrawReward(a: Address)
      modifies this`begins, this`ends, this`snaps, this`accounts
      ensures OnlyTouches(a)
      ensures gate && a in accounts ==> View(a) == Settled(tariff, old(View(a)), now)
      ensures !gate && a in accounts ==> View(a) == old(View(a))
    {
      if !gate {
        return;
      }
      if a !in accounts {
        return;
      }
      var v := View(a);
      hide Reward, Settled, Due, Pay, View;
      if v.begin > now || (v.begin == now && v.begin in v.snaps) {
        SettledNoop(tariff, v, now);
        return;
      }
      SettleNow(a);
    }

    /** The part of a settlement that pays and moves cursors. */
    method SettleNow(a: Address)
      requires a in accounts && !UpToDate(View(a), now)
      modifies this`begins, this`ends, this`snaps, this`accounts
      ensures OnlyTouches(a) && View(a) == Settled(tariff, old(View(a)), now)
    {
      SettledInSteps(tariff, View(a), now);
      hide Settled, PendingPaid, LivePaid, View, UpToDate;
      var begin := PayPending(a);
      PayLive(a, begin);
    }

    /** Settles the just-closed cycle from its snapshot if the cursor sits exactly one cycle back. */
    method PayPending(a: Address) returns (begin: int)
      requires a in accounts
      modifies this`accounts
      ensures OnlyTouches(a)
      ensures View(a) == PendingPaid(tariff, old(View(a)), now) && begin == PaidFrom(old(View(a)), now)
    {
      hide Reward;
      var v := View(a);
      begin := v.begin;
      if Pending(v, now) {
        if begin in v.snaps {
          PaySpan(a, begin, v.end, v.snaps[begin]);
        }
        begin := begin + 1;
      }
    }

    /** Pays the cycles since then with the live votes and moves the cursors. */
    method PayLive(a: Address, begin: int)
      requires a in accounts
      modifies this`begins, this`ends, this`snaps, this`accounts
      ensures OnlyTouches(a) && View(a) == LivePaid(tariff, old(View(a)), begin, now)
    {
      hide Reward, View;
      var votes := VotesOf(a);
      if votes == [] {
        SkipTo(a, now + 1);
        return;
      }
      if begin < now {
        PaySpan(a, begin, now, votes);
      }
      Stamp(a, now);
    }

    method VotesOf(a: Address) returns (votes: Votes)
      requires a in accounts
      ensures votes == View(a).votes
    {
      return accounts[a].votes;
    }

    /** Credits the reward of a span of cycles. */
    method PaySpan(a: Address, begin: int, end: int, votes: Votes)
      requires a in accounts
      modifies this`accounts
      ensures OnlyTouches(a)
      ensures View(a) == old(View(a)).(allowance := old(View(a)).allowance + Reward(tariff, begin, end, votes))
    {
      hide Reward;
      var reward := ComputeReward(tariff, begin, end, votes);
      AdjustAllowance(a, reward);
    }

    /** Moves the begin cursor alone. */
    method SkipTo(a: Address, cycle: int)
      requires a in accounts
      modifies this`begins
      ensures OnlyTouches(a) && View(a) == old(View(a)).(begin := cycle)
    {
      begins := begins[a := cycle];
    }

    /** Moves the cursors to the current cycle and snapshots the live votes. */
    method Stamp(a: Address, cycle: int)
      requires a in accounts
      modifies this`begins, this`ends, this`snaps
      ensures OnlyTouches(a)
      ensures View(a) == old(View(a)).(begin := cycle, end := cycle + 1,
                snaps := old(View(a)).snaps[cycle := old(View(a)).votes])
    {
      begins := begins[a := cycle];
      ends := ends[a := cycle + 1];
      snaps := snaps[a := SnapsOf(a)[cycle := accounts[a].votes]];
    }

    /** Allowance plus pending rewards, without changing anything. */
    method QueryReward(a: Address) returns (total: int)
      ensures gate && a in accounts ==> total == Settled(tariff, View(a), now).allowance
      ensures !gate || a !in accounts ==> total == 0
    {
      if !gate || a !in accounts {
        return 0;
      }
      QueryIsSettlement(tariff, View(a), now);
      hide Reward, Settled, Due, Pay, UpToDate, View;
      var v := View(a);
      var begin, end := v.begin, v.end;
      if begin > now {
        return v.allowance;
      }
      var reward := 0;
      if begin + 1 == end && begin < now {
        if begin in v.snaps {
          reward := ComputeReward(tariff, begin, end, v.snaps[begin]);
        }
        begin := begin + 1;
      }
      end := now;
      if v.votes == [] {
        return reward + v.allowance;
      }
      if begin < end {
        var r := ComputeReward(tariff, begin, end, v.votes);
        reward := reward + r;
      }
      return reward + v.allowance;
    }

    /** Writes one account back. */
    method Rewrite(a: Address, h: Holder)
      requires a in accounts
      modifies this`accounts
      ensures OnlyTouches(a)
      ensures View(a) == old(View(a)).(votes := h.votes, allowance := h.allowance, balance := h.balance)
    {
      accounts := accounts[a := h];
    }

    /** Casting votes settles first, then replaces the votes and the pending half of the ballot. */
    method VoteWitness(a: Address, votes: Votes) returns (ok: bool)
      modifies this`begins, this`ends, this`snaps, this`accounts, this`ballots
      ensures ok <==> a in old(accounts)
      ensures OnlyTouches(a)
      ensures !ok ==> ballots == old(ballots)
      ensures ok ==>
                && View(a) == (if gate then Settled(tariff, old(View(a)), now) else old(View(a))).(votes := votes)
                && var before := if a in old(ballots) then old(ballots)[a].before else old(accounts)[a].votes;
                   ballots == old(ballots)[a := Ballot(before, votes)]
    {
      if a !in accounts {
        return false;
      }
      hide Settled, Reward, Due, Pay;
      SettledKeepsVotes(tariff, View(a), now);
      WithdrawReward(a);
      var before := if a in ballots then ballots[a].before else accounts[a].votes;
      Rewrite(a, accounts[a].(votes := votes));
      ballots := ballots[a := Ballot(before, votes)];
      return true;
    }

    /** Withdrawing settles first, then moves the whole allowance into the balance and stamps the time. */
    method WithdrawBalance(a: Address, time: int) returns (ok: bool)
      modifies this`begins, this`ends, this`snaps, this`accounts, this`withdrawTimes
      ensures ok <==> a in old(accounts)
      ensures OnlyTouches(a)
      ensures ok ==>
                && (var s := if gate then Settled(tariff, old(View(a)), now) else old(View(a));
                    View(a) == s.(balance := s.balance + s.allowance, allowance := 0))
                && withdrawTimes == old(withdrawTimes)[a := time]
      ensures !ok ==> withdrawTimes == old(withdrawTimes)
    {
      if a !in accounts {
        return false;
      }
      hide Settled, Reward, Due, Pay;
      WithdrawReward(a);
      var h := accounts[a];
      Rewrite(a, h.(balance := h.balance + h.allowance, allowance := 0));
      withdrawTimes := withdrawTimes[a := time];
      return true;
    }
  }

  lemma SettledKeepsVotes(t: Tariff, a: Account, now: int)
    ensures Settled(t, a, now).votes == a.votes && Settled(t, a, now).balance == a.balance
  {
  }

  lemma SettledNoop(t: Tariff, a: Account, now: int)
    requires UpToDate(a, now)
    ensures Settled(t, a, now) == a
  {
  }

  /** Where the live votes take over. */
  function PaidFrom(a: Account, now: int): int { if Pending(a, now) then a.begin + 1 else a.begin }

  /** After the snapshotted cycle was paid. */
  function PendingPaid(t: Tariff, a: Account, now: int): Account {
    if Pending(a, now) && a.begin in a.snaps
    then a.(allowance := a.allowance + Reward(t, a.begin, a.end, a.snaps[a.begin])) else a
  }

  /** After the live votes were paid and the cursors moved. */
  function LivePaid(t: Tariff, a: Account, from: int, now: int): Account {
    if a.votes == [] then a.(begin := now + 1)
    else
      a.(allowance := a.allowance + (if from < now then Reward(t, from, now, a.votes) else 0),
         begin := now, end := now + 1, snaps := a.snaps[now := a.votes])
  }

  /** A settlement that does something, taken apart. */
  lemma SettledInSteps(t: Tariff, a: Account, now: int)
    requires !UpToDate(a, now)
    ensures Settled(t, a, now) == LivePaid(t, PendingPaid(t, a, now), PaidFrom(a, now), now)
  {
    QueryIsSettlement(t, a, now);
    hide Reward, Pay;
  }
}
