/**
 Stake 2.0: freezing, unfreezing with a maturing queue, and delegation of frozen
 stake to other accounts, with the network weights and the delegation index.
 */
module StakeLedger {
  import opened Arith
  import opened MapSums
  import opened Delegations
  import opened Voting

  const UNFREEZE_MAX: nat := 32

  datatype Frozen = Frozen(kind: Resource, amount: int)
  datatype Unfreezing = Unfreezing(kind: Resource, amount: int, expire: int)

  datatype Account = Account(
    balance: int, frozen: seq<Frozen>, unfreezing: seq<Unfreezing>, given: Amounts, acquired: Amounts, isContract: bool,
    votes: Votes)

  // ---- sums over one account ----

  function FrozenOf(fs: seq<Frozen>, r: Resource): int {
    if fs == [] then 0
    else FrozenOf(fs[..|fs| - 1], r) + if fs[|fs| - 1].kind == r then fs[|fs| - 1].amount else 0
  }

  function FrozenTotal(fs: seq<Frozen>): int {
    if fs == [] then 0 else FrozenTotal(fs[..|fs| - 1]) + fs[|fs| - 1].amount
  }

  ghost predicate AllPositive(us: seq<Unfreezing>) { forall i :: 0 <= i < |us| ==> us[i].amount > 0 }

  function UnfreezingTotal(us: seq<Unfreezing>): int {
    if us == [] then 0 else UnfreezingTotal(us[..|us| - 1]) + us[|us| - 1].amount
  }

  /** Entries still maturing at time now. */
  function Maturing(us: seq<Unfreezing>, now: int): (r: seq<Unfreezing>)
    ensures |r| <= |us|
  {
    if us == [] then []
    else Maturing(us[..|us| - 1], now) + if us[|us| - 1].expire > now then [us[|us| - 1]] else []
  }

  lemma MaturingStep(init: seq<Unfreezing>, u: Unfreezing, now: int)
    ensures Maturing(init + [u], now) == if now < u.expire then Maturing(init, now) + [u] else Maturing(init, now)
    ensures MaturedSum(init + [u], now) == MaturedSum(init, now) + if now < u.expire then 0 else u.amount
    ensures UnfreezingTotal(init + [u]) == UnfreezingTotal(init) + u.amount
  {
    assert (init + [u])[..|init|] == init;
  }

  /** Which entries those are: the positions whose time has not come, in order, and no others. */
  lemma {:induction false} MaturingExact(us: seq<Unfreezing>, now: int) returns (at: seq<nat>)
    ensures |at| == |Maturing(us, now)|
    ensures forall j :: 0 <= j < |at| ==> at[j] < |us| && Maturing(us, now)[j] == us[at[j]]
    ensures forall j, k :: 0 <= j < k < |at| ==> at[j] < at[k]
    ensures forall i :: 0 <= i < |us| ==> (i in at <==> now < us[i].expire)
    decreases |us|
  {
    if us == [] {
      at := [];
    } else {
      hide Maturing;
      var init, u := us[..|us| - 1], us[|us| - 1];
      assert us == init + [u];
      MaturingStep(init, u, now);
      at := MaturingExact(init, now);
      if now < u.expire {
        at := at + [|init|];
      }
    }
  }

  /** Amount of the entries that have matured at time now. */
  function MaturedSum(us: seq<Unfreezing>, now: int): int {
    if us == [] then 0
    else MaturedSum(us[..|us| - 1], now) + if us[|us| - 1].expire <= now then us[|us| - 1].amount else 0
  }

  lemma {:induction false} SweptCount(us: seq<Unfreezing>, now: int, u: Unfreezing)
    ensures multiset(Maturing(us, now))[u] == if now < u.expire then multiset(us)[u] else 0
    decreases |us|
  {
    if us != [] {
      hide Maturing;
      var init, last := us[..|us| - 1], us[|us| - 1];
      assert us == init + [last];
      SweptCount(init, now, u);
      MaturingStep(init, last, now);
      CountLast(init, last, u);
      CountLast(Maturing(init, now), last, u);
    }
  }

  lemma CountLast(init: seq<Unfreezing>, last: Unfreezing, u: Unfreezing)
    ensures multiset(init + [last])[u] == multiset(init)[u] + if last == u then 1 else 0
  {
    assert multiset(init + [last]) == multiset(init) + multiset{last};
  }

  lemma {:induction false} SweptTotal(us: seq<Unfreezing>, now: int)
    ensures MaturedSum(us, now) + UnfreezingTotal(Maturing(us, now)) == UnfreezingTotal(us)
    decreases |us|
  {
    if us != [] {
      hide Maturing, MaturedSum, UnfreezingTotal;
      var init, last := us[..|us| - 1], us[|us| - 1];
      assert us == init + [last];
      SweptTotal(init, now);
      MaturingStep(init, last, now);
      MaturingStep(Maturing(init, now), last, now);
    }
  }

  /** Entry by entry: what has not matured stays as often as it was there, what has is gone, and its amount with it. */
  lemma SweptExactly(us: seq<Unfreezing>, now: int)
    ensures forall u: Unfreezing :: multiset(Maturing(us, now))[u] == if now < u.expire then multiset(us)[u] else 0
    ensures MaturedSum(us, now) + UnfreezingTotal(Maturing(us, now)) == UnfreezingTotal(us)
  {
    hide Maturing, MaturedSum, UnfreezingTotal;
    SweptTotal(us, now);
    forall u: Unfreezing
      ensures multiset(Maturing(us, now))[u] == if now < u.expire then multiset(us)[u] else 0
    {
      SweptCount(us, now, u);
    }
  }

  /** The swept queue with a new entry: nothing locked is lost, and the total follows. */
  lemma QueueGrows(us: seq<Unfreezing>, kept: seq<Unfreezing>, entry: Unfreezing, now: int)
    requires forall u: Unfreezing :: multiset(kept)[u] == if now < u.expire then multiset(us)[u] else 0
    requires AllPositive(kept) && entry.amount > 0
    ensures forall u: Unfreezing :: now < u.expire ==> multiset(us)[u] <= multiset(kept + [entry])[u]
    ensures AllPositive(kept + [entry]) && UnfreezingTotal(kept + [entry]) == UnfreezingTotal(kept) + entry.amount
  {
    MaturingStep(kept, entry, now);
    assert multiset(kept + [entry]) == multiset(kept) + multiset{entry};
  }

  /** A matured entry's amount is among what a sweep releases. */
  lemma {:induction false} MaturedCounts(us: seq<Unfreezing>, now: int, u: Unfreezing)
    requires AllPositive(us)
    ensures MaturedSum(us, now) >= 0
    ensures u in us && u.expire <= now ==> MaturedSum(us, now) >= u.amount
    decreases |us|
  {
    if us != [] {
      MaturedCounts(us[..|us| - 1], now, u);
      assert us == us[..|us| - 1] + [us[|us| - 1]];
    }
  }

  /** Everything the account owns, wherever it is locked. */
  function Wealth(a: Account): int {
    a.balance + FrozenTotal(a.frozen) + UnfreezingTotal(a.unfreezing) + a.given.net + a.given.energy
  }

  /** Whole-TRX weight the account contributes: own and delegated-out stake, rounded down. */
  function Weight(a: Account, r: Resource): int { TruncDiv(FrozenOf(a.frozen, r) + a.given.Of(r), TRX_PRECISION) }

  /** Weight in numbers: the whole millions of sun staked. */
  lemma WeightBracket(a: Account, r: Resource)
    ensures var staked := FrozenOf(a.frozen, r) + a.given.Of(r);
            staked >= 0 ==> Weight(a, r) * 1_000_000 <= staked < (Weight(a, r) + 1) * 1_000_000
  {
    hide FrozenOf;
    QuotientBracket(FrozenOf(a.frozen, r) + a.given.Of(r), 1_000_000);
  }

  lemma {:induction false} FrozenUpdate(fs: seq<Frozen>, i: nat, d: int)
    requires i < |fs|
    ensures var gs := fs[i := fs[i].(amount := fs[i].amount + d)];
            && FrozenTotal(gs) == FrozenTotal(fs) + d
            && forall r :: FrozenOf(gs, r) == FrozenOf(fs, r) + if r == fs[i].kind then d else 0
    decreases |fs|
  {
    var gs := fs[i := fs[i].(amount := fs[i].amount + d)];
    var n := |fs| - 1;
    if i == n {
      assert gs[..n] == fs[..n];
    } else {
      FrozenUpdate(fs[..n], i, d);
      assert gs[..n] == fs[..n][i := fs[i].(amount := fs[i].amount + d)];
    }
  }

  lemma FrozenAppend(fs: seq<Frozen>, f: Frozen)
    ensures FrozenTotal(fs + [f]) == FrozenTotal(fs) + f.amount
    ensures forall r :: FrozenOf(fs + [f], r) == FrozenOf(fs, r) + if r == f.kind then f.amount else 0
  {
    assert (fs + [f])[..|fs|] == fs;
  }

  /** Adds to the entry of a resource, creating it when absent. */
  method AddFrozen(fs: seq<Frozen>, r: Resource, d: int) returns (gs: seq<Frozen>)
    ensures FrozenTotal(gs) == FrozenTotal(fs) + d
    ensures forall k :: FrozenOf(gs, k) == FrozenOf(fs, k) + if k == r then d else 0
  {
    for i := 0 to |fs| {
      if fs[i].kind == r {
        FrozenUpdate(fs, i, d);
        return fs[i := fs[i].(amount := fs[i].amount + d)];
      }
    }
    FrozenAppend(fs, Frozen(r, d));
    return fs + [Frozen(r, d)];
  }

  method FrozenAmount(fs: seq<Frozen>, r: Resource) returns (total: int)
    ensures total == FrozenOf(fs, r)
  {
    total := 0;
    for i := 0 to |fs|
      invariant total == FrozenOf(fs[..i], r)
    {
      assert fs[..i + 1][..i] == fs[..i];
      if fs[i].kind == r {
        total := total + fs[i].amount;
      }
    }
    assert fs[..|fs|] == fs;
  }

  /** How many entries of the unfreezing queue have not matured. */
  method PendingCount(us: seq<Unfreezing>, now: int) returns (n: nat)
    ensures n == |Maturing(us, now)|
  {
    n := 0;
    for i := 0 to |us|
      invariant n == |Maturing(us[..i], now)|
    {
      assert us[..i + 1][..i] == us[..i];
      if us[i].expire > now {
        n := n + 1;
      }
    }
    assert us[..|us|] == us;
  }

  /** Splits the unfreezing queue into what has matured, as an amount, and what is kept. */
  method Sweep(us: seq<Unfreezing>, now: int) returns (kept: seq<Unfreezing>, withdrawn: int)
    ensures kept == Maturing(us, now)
    ensures withdrawn == MaturedSum(us, now)
    ensures forall u: Unfreezing :: multiset(kept)[u] == if now < u.expire then multiset(us)[u] else 0
    ensures withdrawn + UnfreezingTotal(kept) == UnfreezingTotal(us)
    ensures AllPositive(us) ==> withdrawn >= 0 && AllPositive(kept)
  {
    kept, withdrawn := [], 0;
    for i := 0 to |us|
      invariant kept == Maturing(us[..i], now)
      invariant withdrawn == MaturedSum(us[..i], now)
      invariant AllPositive(us) ==> withdrawn >= 0 && AllPositive(kept)
    {
      assert us[..i + 1][..i] == us[..i];
      if us[i].expire <= now {
        withdrawn := withdrawn + us[i].amount;
      } else {
        kept := kept + [us[i]];
      }
    }
    assert us[..|us|] == us;
    SweptExactly(us, now);
  }

  type Accounts = map<Address, Account>

  /** What an account gave is the sum of its outgoing entries, what it acquired the sum of its incoming ones. */
  ghost predicate Balanced(accounts: Accounts, es: Entries) {
    forall a, r :: a in accounts && Delegable(r) ==>
      accounts[a].given.Of(r) == Sum(Outgoing(es, a, r)) && accounts[a].acquired.Of(r) == Sum(Incoming(es, a, r))
  }

  ghost predicate AccountOk(a: Account) {
    && a.balance >= 0
    && FrozenOf(a.frozen, Bandwidth) >= 0 && FrozenOf(a.frozen, Energy) >= 0
    && AllPositive(a.unfreezing) && |a.unfreezing| <= UNFREEZE_MAX
  }

  ghost predicate AccountsOk(accounts: Accounts) { forall a :: a in accounts ==> AccountOk(accounts[a]) }

  /** Moving d of resource r onto an edge keeps the ledger balanced when both ends record it. */
  lemma MoveBalanced(accounts: Accounts, es: Entries, e: Edge, r: Resource, d: int, after: Accounts)
    requires Balanced(accounts, es) && Delegable(r) && e.src in accounts && e.dst in accounts && e.src != e.dst
    requires after.Keys == accounts.Keys
    requires forall a :: a in accounts ==>
               after[a].given == (if a == e.src then accounts[a].given.Plus(r, d) else accounts[a].given) &&
               after[a].acquired == (if a == e.dst then accounts[a].acquired.Plus(r, d) else accounts[a].acquired)
    ensures Balanced(after, PutEntry(es, e, EntryOf(es, e).Plus(r, d)))
  {
    var put := EntryOf(es, e).Plus(r, d);
    forall a, k | a in after && Delegable(k)
      ensures after[a].given.Of(k) == Sum(Outgoing(PutEntry(es, e, put), a, k))
      ensures after[a].acquired.Of(k) == Sum(Incoming(PutEntry(es, e, put), a, k))
    {
      OutgoingPut(es, e, put, a, k);
      IncomingPut(es, e, put, a, k);
    }
  }

  // ---- weights ----

  function Weights(accounts: Accounts, r: Resource): map<Address, int>
  {
    map a | a in accounts :: Weight(accounts[a], r)
  }

  lemma WeightsUpdate(accounts: Accounts, a: Address, v: Account, r: Resource)
    requires a in accounts
    ensures Sum(Weights(accounts[a := v], r)) == Sum(Weights(accounts, r)) + Weight(v, r) - Weight(accounts[a], r)
  {
    assert Weights(accounts[a := v], r) == Weights(accounts, r)[a := Weight(v, r)];
    SumUpdate(Weights(accounts, r), a, Weight(v, r));
  }

  lemma WeightsNonNegative(accounts: Accounts, es: Entries, r: Resource)
    requires EntriesOk(accounts.Keys, es) && Balanced(accounts, es) && AccountsOk(accounts) && Delegable(r)
    ensures Sum(Weights(accounts, r)) >= 0
  {
    forall a | a in accounts
      ensures Weights(accounts, r)[a] >= 0
    {
      SumsNonNegative(accounts.Keys, es, a, r);
      assert AccountOk(accounts[a]);
    }
    SumBounds(Weights(accounts, r));
  }

  /** Each network weight moved by the change in the sum of the account weights. */
  ghost predicate WeightsFollow(before: Accounts, after: Accounts, was: Amounts, now: Amounts, floored: bool) {
    forall r :: Delegable(r) ==>
      now.Of(r) == NewWeight(was.Of(r), Sum(Weights(after, r)) - Sum(Weights(before, r)), floored)
  }

  ghost predicate SameWealth(before: Accounts, after: Accounts) {
    after.Keys == before.Keys && forall a :: a in before ==> Wealth(after[a]) == Wealth(before[a])
  }

  /** Stored weight in excess of what the accounts justify. */
  ghost function Drift(accounts: Accounts, weight: Amounts, r: Resource): int
  {
    weight.Of(r) - Sum(Weights(accounts, r))
  }

  /** No entry of any unfreezing queue whose time comes after `now` is lost. */
  ghost predicate LocksKept(before: Accounts, after: Accounts, now: int) {
    before.Keys <= after.Keys &&
    forall a, u: Unfreezing :: a in before && now < u.expire ==>
      multiset(before[a].unfreezing)[u] <= multiset(after[a].unfreezing)[u]
  }

  lemma LocksKeptAt(accounts: Accounts, a: Address, v: Account, now: int)
    requires a in accounts
    requires forall u: Unfreezing :: now < u.expire ==>
               multiset(accounts[a].unfreezing)[u] <= multiset(v.unfreezing)[u]
    ensures LocksKept(accounts, accounts[a := v], now)
  {
  }

  lemma LocksKeptJoin(a: Accounts, b: Accounts, c: Accounts, early: int, late: int, t: int)
    requires LocksKept(a, b, early) && LocksKept(b, c, late) && early <= t && late <= t
    ensures LocksKept(a, c, t)
  {
    forall x, u: Unfreezing | x in a && t < u.expire
      ensures multiset(a[x].unfreezing)[u] <= multiset(c[x].unfreezing)[u]
    {
      assert multiset(a[x].unfreezing)[u] <= multiset(b[x].unfreezing)[u];
    }
  }

  lemma StillWaiting(before: Accounts, after: Accounts, a: Address, u: Unfreezing, t: int)
    requires LocksKept(before, after, t) && a in before && u in before[a].unfreezing && t < u.expire
    ensures a in after && u in after[a].unfreezing
  {
    assert multiset(before[a].unfreezing)[u] <= multiset(after[a].unfreezing)[u];
    assert u in multiset(before[a].unfreezing);
    assert u in multiset(after[a].unfreezing);
  }

  /** After a sweep everything in the queue is still to come. */
  lemma OnlyLaterLeft(us: seq<Unfreezing>, now: int)
    ensures forall u :: u in Maturing(us, now) ==> now < u.expire
  {
    SweptExactly(us, now);
    hide Maturing;
    forall u | u in Maturing(us, now)
      ensures now < u.expire
    {
      assert u in multiset(Maturing(us, now));
    }
  }

  ghost predicate Books(accounts: Accounts, es: Entries) {
    EntriesOk(accounts.Keys, es) && Balanced(accounts, es) && AccountsOk(accounts)
  }

  lemma OneOk(accounts: Accounts, a: Address)
    requires AccountsOk(accounts) && a in accounts
    ensures AccountOk(accounts[a])
  {
  }

  lemma BooksKept(accounts: Accounts, es: Entries, a: Address, v: Account)
    requires Books(accounts, es) && a in accounts && AccountOk(v)
    requires v.given == accounts[a].given && v.acquired == accounts[a].acquired
    ensures Books(accounts[a := v], es)
  {
    hide FrozenOf, Weight, Sum, Outgoing, Incoming;
  }

  lemma WealthKept(accounts: Accounts, a: Address, v: Account)
    requires a in accounts && Wealth(v) == Wealth(accounts[a])
    ensures SameWealth(accounts, accounts[a := v])
  {
    hide Wealth;
  }

  lemma WeightsTrack(accounts: Accounts, a: Address, v: Account, r: Resource, was: Amounts, now: Amounts, floored: bool)
    requires a in accounts && v.given == accounts[a].given && Delegable(r)
    requires forall k :: k != r ==> FrozenOf(v.frozen, k) == FrozenOf(accounts[a].frozen, k)
    requires now.Of(r) == NewWeight(was.Of(r), Weight(v, r) - Weight(accounts[a], r), floored)
    requires forall k :: Delegable(k) && k != r ==> now.Of(k) == was.Of(k)
    ensures WeightsFollow(accounts, accounts[a := v], was, now, floored)
  {
    hide Sum, Weights, FrozenOf, TruncDiv;
    forall k | Delegable(k)
      ensures now.Of(k) == NewWeight(was.Of(k), Sum(Weights(accounts[a := v], k)) - Sum(Weights(accounts, k)), floored)
    {
      WeightsUpdate(accounts, a, v, k);
      if k != r {
        assert Weight(v, k) == Weight(accounts[a], k);
      }
    }
  }

  lemma Unchanged(accounts: Accounts, w: Amounts, floored: bool)
    ensures SameWealth(accounts, accounts) && WeightsFollow(accounts, accounts, w, w, floored)
    ensures forall now :: LocksKept(accounts, accounts, now)
  {
    hide Sum, Weights, Wealth;
  }

  /** A floor at zero never bites while the stored weight is at least what the accounts justify. */
  lemma DriftKept(before: Accounts, after: Accounts, es: Entries, was: Amounts, now: Amounts, floored: bool,
      r: Resource)
    requires Books(after, es) && Delegable(r) && WeightsFollow(before, after, was, now, floored)
    requires Drift(before, was, r) >= 0 || !floored
    ensures Drift(after, now, r) == Drift(before, was, r)
  {
    hide Sum, Weights, EntriesOk, Balanced, AccountsOk;
    WeightsNonNegative(after, es, r);
  }

  /** In general an operation keeps the drift unless the floor turns the new weight into zero. */
  lemma DriftKeptIff(before: Accounts, after: Accounts, was: Amounts, now: Amounts, floored: bool, r: Resource)
    requires Delegable(r) && WeightsFollow(before, after, was, now, floored)
    ensures var d := Sum(Weights(after, r)) - Sum(Weights(before, r));
            Drift(after, now, r) == Drift(before, was, r) <==> !floored || d == 0 || was.Of(r) + d >= 0
  {
  }

  function Lone(amount: int): Accounts {
    map[0 := Account(0, [Frozen(Bandwidth, amount)], [], Amounts(0, 0), Amounts(0, 0), false, [])]
  }

  lemma LoneOk(amount: nat)
    ensures AccountOk(Lone(amount)[0]) && FrozenOf(Lone(amount)[0].frozen, Bandwidth) == amount
  {
    assert [Frozen(Bandwidth, amount)] == [] + [Frozen(Bandwidth, amount)];
    FrozenAppend([], Frozen(Bandwidth, amount));
  }

  /** A single account makes up the whole sum. */
  lemma LoneWeight(accounts: Accounts, r: Resource)
    requires accounts.Keys == {0}
    ensures Sum(Weights(accounts, r)) == Weight(accounts[0], r)
  {
    assert Weights(accounts, r) == map[][0 := Weight(accounts[0], r)];
    assert Lookup(map[], 0 as Address) == 0;
    SumUpdate(map[], 0 as Address, Weight(accounts[0], r));
  }

  lemma SameWealthJoins(a: Accounts, b: Accounts, c: Accounts)
    requires SameWealth(a, b) && SameWealth(b, c)
    ensures SameWealth(a, c)
  {
    hide Wealth;
  }

  // ---- transactions ----

  datatype Refusal =
    | NotOpen | LockUnsupported | NoOwner | AmountTooSmall | AboveBalance | BadResource | NothingFrozen | AboveFrozen
    | QueueFull | SelfDelegation | NoReceiver | ContractReceiver | NoEntry | AboveEntry

  datatype Outcome = Done | Refused(why: Refusal)

  /** The order of the checks of a freeze. */
  function FreezeRank(why: Refusal): nat {
    match why
    case NotOpen => 0
    case NoOwner => 1
    case AmountTooSmall => 2
    case AboveBalance => 3
    case BadResource => 4
    case _ => 5
  }

  /** The order of the checks of an unfreeze. */
  function UnfreezeRank(why: Refusal): nat {
    match why
    case NotOpen => 0
    case NoOwner => 1
    case BadResource => 2
    case NothingFrozen => 3
    case AboveFrozen => 4
    case QueueFull => 5
    case _ => 6
  }

  /** The order of the checks of a delegation. */
  function DelegateRank(why: Refusal): nat {
    match why
    case NotOpen => 0
    case LockUnsupported => 1
    case NoOwner => 2
    case AmountTooSmall => 3
    case BadResource => 4
    case AboveFrozen => 5
    case SelfDelegation => 6
    case NoReceiver => 7
    case ContractReceiver => 8
    case _ => 9
  }

  /** The order of the checks of an undelegation. */
  function UnDelegateRank(why: Refusal): nat {
    match why
    case NotOpen => 0
    case BadResource => 1
    case AmountTooSmall => 2
    case NoEntry => 3
    case AboveEntry => 4
    case _ => 5
  }

  datatype Op =
    | Freeze(owner: Address, r: Resource, amount: int)
    | Unfreeze(owner: Address, r: Resource, amount: int)
    | WithdrawExpired(owner: Address)
    | Delegate(owner: Address, receiver: Address, r: Resource, amount: int, lock: bool)
    | UnDelegate(owner: Address, receiver: Address, r: Resource, amount: int)

  datatype Block = Block(now: int, delayDays: int, newReward: bool, ops: seq<Op>)

  /** No block of the run is later than t. */
  ghost predicate AllBy(blocks: seq<Block>, t: int) { forall i :: 0 <= i < |blocks| ==> blocks[i].now <= t }

  ghost predicate NeverFloored(blocks: seq<Block>) { forall i :: 0 <= i < |blocks| ==> !blocks[i].newReward }

  /** An acquired total below the amount is zeroed. */
  function Debited(acquired: Amounts, r: Resource, amount: int): Amounts {
    if acquired.Of(r) < amount then acquired.Plus(r, -acquired.Of(r)) else acquired.Plus(r, -amount)
  }

  /** Both index directions hold exactly the live entries. */
  ghost predicate Indexed(es: Entries, outIndex: map<Edge, int>, inIndex: map<Edge, int>) {
    forall e: Edge :: (e in es <==> e in outIndex) && (e in es <==> Flip(e) in inIndex)
  }

  lemma IndexedPut(es: Entries, outIndex: map<Edge, int>, inIndex: map<Edge, int>, e: Edge, d: Amounts, t: int)
    requires Indexed(es, outIndex, inIndex)
    ensures Indexed(es[e := d], outIndex[e := t], inIndex[Flip(e) := t])
    ensures Indexed(es - {e}, outIndex - {e}, inIndex - {Flip(e)})
    ensures e in es ==> Indexed(es[e := d], outIndex, inIndex)
  {
  }

  /** The account after moving stake between its own frozen pile and the two delegation totals. */
  ghost predicate Moved(a: Account, b: Account, r: Resource, dFrozen: int, dGiven: int, dAcquired: int) {
    && b.isContract == a.isContract
    && FrozenTotal(b.frozen) == FrozenTotal(a.frozen) + dFrozen
    && (forall k :: FrozenOf(b.frozen, k) == FrozenOf(a.frozen, k) + if k == r then dFrozen else 0)
    && b.given == a.given.Plus(r, dGiven)
    && b.acquired == a.acquired.Plus(r, dAcquired)
  }

  /** Accounts after stake d of resource r moved from the source's own pile onto edge e. */
  ghost predicate MovedAlong(accounts: Accounts, after: Accounts, e: Edge, r: Resource, d: int) {
    && e.src in accounts && e.dst in accounts && e.src != e.dst
    && after.Keys == accounts.Keys
    && after == accounts[e.dst := after[e.dst]][e.src := after[e.src]]
    && Moved(accounts[e.src], after[e.src], r, -d, d, 0)
    && after[e.src].balance == accounts[e.src].balance
    && after[e.src].unfreezing == accounts[e.src].unfreezing
    && after[e.src].votes == accounts[e.src].votes
    && after[e.dst] == accounts[e.dst].(acquired := accounts[e.dst].acquired.Plus(r, d))
  }

  /** Such a move changes neither anyone's wealth nor any weight. */
  lemma MoveNeutral(accounts: Accounts, after: Accounts, e: Edge, r: Resource, d: int, w: Amounts, floored: bool)
    requires MovedAlong(accounts, after, e, r, d) && Delegable(r)
    ensures SameWealth(accounts, after)
    ensures forall now :: LocksKept(accounts, after, now)
    ensures WeightsFollow(accounts, after, w, w, floored)
  {
    hide FrozenOf, FrozenTotal, UnfreezingTotal, Sum, TruncDiv;
    forall a | a in accounts
      ensures Wealth(after[a]) == Wealth(accounts[a])
    {
    }
    forall k | Delegable(k)
      ensures Weights(after, k) == Weights(accounts, k)
    {
      forall a | a in accounts
        ensures Weight(after[a], k) == Weight(accounts[a], k)
      {
        if a != e.src && a != e.dst {
          assert after[a] == accounts[a];
        }
      }
    }
  }

  lemma EntryNonNegative(accounts: Accounts, es: Entries, e: Edge)
    requires Books(accounts, es)
    ensures EntryOf(es, e).net >= 0 && EntryOf(es, e).energy >= 0
    ensures e in es ==>
              e.src != e.dst && e.src in accounts && e.dst in accounts &&
              FrozenOf(accounts[e.src].frozen, Bandwidth) >= 0 && FrozenOf(accounts[e.src].frozen, Energy) >= 0
  {
  }

  lemma MoveBooks(accounts: Accounts, after: Accounts, es: Entries, e: Edge, r: Resource, d: int)
    requires Books(accounts, es) && MovedAlong(accounts, after, e, r, d) && Delegable(r)
    requires FrozenOf(accounts[e.src].frozen, r) >= d && EntryOf(es, e).Of(r) + d >= 0
    ensures Books(after, PutEntry(es, e, EntryOf(es, e).Plus(r, d)))
  {
    hide FrozenOf, Sum, FrozenTotal, Outgoing, Incoming;
    assert Balanced(after, PutEntry(es, e, EntryOf(es, e).Plus(r, d))) by {
      hide EntriesOk, AccountsOk, Balanced;
      MoveBalanced(accounts, es, e, r, d, after);
    }
    assert AccountsOk(after) by {
      forall a | a in after
        ensures AccountOk(after[a])
      {
        OneOk(accounts, a);
      }
    }
  }

  class Ledger {
    var accounts: Accounts
    var entries: Entries
    var outIndex: map<Edge, int>
    var inIndex: map<Edge, int>
    var weight: Amounts
    var now: int
    var delayDays: int
    var newReward: bool

    ghost predicate Valid()
      reads this`accounts, this`entries, this`outIndex, this`inIndex
    {
      Books(accounts, entries) && Indexed(entries, outIndex, inIndex)
    }

    constructor (start: Accounts, weight: Amounts, now: int, delayDays: int, newReward: bool)
      requires forall a :: a in start ==>
                 AccountOk(start[a]) && start[a].given == Amounts(0, 0) && start[a].acquired == Amounts(0, 0)
      ensures Valid() && accounts == start && entries == map[] && this.weight == weight
      ensures this.now == now && this.delayDays == delayDays && this.newReward == newReward
    {
      accounts, entries, outIndex, inIndex := start, map[], map[], map[];
      this.weight, this.now, this.delayDays, this.newReward := weight, now, delayDays, newReward;
      new;
      forall a, r | a in accounts && Delegable(r)
        ensures Sum(Outgoing(entries, a, r)) == 0 && Sum(Incoming(entries, a, r)) == 0
      {
        assert Outgoing(entries, a, r) == map[] && Incoming(entries, a, r) == map[];
      }
    }

    method AddWeight(r: Resource, d: int)
      modifies this`weight
      ensures weight.Of(r) == NewWeight(old(weight.Of(r)), d, newReward)
      ensures r.Bandwidth? ==> weight.energy == old(weight.energy)
      ensures !r.Bandwidth? ==> weight.net == old(weight.net)
    {
      if d == 0 {
        return;
      }
      var w := weight.Of(r) + d;
      if newReward && w < 0 {
        w := 0;
      }
      weight := weight.Plus(r, w - weight.Of(r));
    }

    method WeightOf(a: Account, r: Resource) returns (w: int)
      ensures w == Weight(a, r)
    {
      var own := FrozenAmount(a.frozen, r);
      w := TruncDiv(own + a.given.Of(r), TRX_PRECISION);
    }

    /** The condition each refusal stands for. */
    predicate FreezeFails(owner: Address, r: Resource, amount: int, why: Refusal)
      reads this
    {
      match why
      case NotOpen => delayDays <= 0
      case NoOwner => owner !in accounts
      case AmountTooSmall => amount < TRX_PRECISION
      case AboveBalance => owner in accounts && amount > accounts[owner].balance
      case BadResource => !Delegable(r)
      case _ => false
    }

    /** Done when no check fails, otherwise the first that does. */
    ghost predicate FreezeVerdict(owner: Address, r: Resource, amount: int, out: Outcome)
      reads this
    {
      match out
      case Done => forall why :: !FreezeFails(owner, r, amount, why)
      case Refused(w) =>
        && FreezeFails(owner, r, amount, w)
        && forall why :: FreezeRank(why) < FreezeRank(w) ==> !FreezeFails(owner, r, amount, why)
    }

    /** The condition each refusal stands for. */
    predicate UnfreezeFails(owner: Address, r: Resource, amount: int, why: Refusal)
      reads this
    {
      match why
      case NotOpen => delayDays <= 0
      case NoOwner => owner !in accounts
      case BadResource => !Delegable(r)
      case NothingFrozen => owner in accounts && FrozenOf(accounts[owner].frozen, r) <= 0
      case AboveFrozen => (owner in accounts && (amount <= 0 || amount > FrozenOf(accounts[owner].frozen, r)))
      case QueueFull => owner in accounts && |Maturing(accounts[owner].unfreezing, now)| >= UNFREEZE_MAX
      case _ => false
    }

    /** Done when no check fails, otherwise the first that does. */
    ghost predicate UnfreezeVerdict(owner: Address, r: Resource, amount: int, out: Outcome)
      reads this
    {
      match out
      case Done => forall why :: !UnfreezeFails(owner, r, amount, why)
      case Refused(w) =>
        && UnfreezeFails(owner, r, amount, w)
        && forall why :: UnfreezeRank(why) < UnfreezeRank(w) ==> !UnfreezeFails(owner, r, amount, why)
    }

    /** The condition each refusal stands for. */
    predicate DelegateFails(owner: Address, receiver: Address, r: Resource, amount: int, lock: bool, why: Refusal)
      reads this
    {
      match why
      case NotOpen => delayDays <= 0
      case LockUnsupported => lock
      case NoOwner => owner !in accounts
      case AmountTooSmall => amount < TRX_PRECISION
      case BadResource => !Delegable(r)
      case AboveFrozen => owner in accounts && FrozenOf(accounts[owner].frozen, r) < amount
      case SelfDelegation => receiver == owner
      case NoReceiver => receiver !in accounts
      case ContractReceiver => receiver in accounts && accounts[receiver].isContract
      case _ => false
    }

    /** Done when no check fails, otherwise the first that does. */
    ghost predicate DelegateVerdict(owner: Address, receiver: Address, r: Resource, amount: int, lock: bool,
        out: Outcome)
      reads this
    {
      match out
      case Done => forall why :: !DelegateFails(owner, receiver, r, amount, lock, why)
      case Refused(w) =>
        && DelegateFails(owner, receiver, r, amount, lock, w)
        && forall why :: DelegateRank(why) < DelegateRank(w) ==> !DelegateFails(owner, receiver, r, amount, lock, why)
    }

    /** The condition each refusal stands for. */
    predicate UnDelegateFails(owner: Address, receiver: Address, r: Resource, amount: int, why: Refusal)
      reads this
    {
      match why
      case NotOpen => delayDays <= 0
      case BadResource => !Delegable(r)
      case AmountTooSmall => amount <= 0
      case NoEntry => Edge(owner, receiver) !in entries
      case AboveEntry => Edge(owner, receiver) in entries && entries[Edge(owner, receiver)].Of(r) < amount
      case _ => false
    }

    /** Done when no check fails, otherwise the first that does. */
    ghost predicate UnDelegateVerdict(owner: Address, receiver: Address, r: Resource, amount: int, out: Outcome)
      reads this
    {
      match out
      case Done => forall why :: !UnDelegateFails(owner, receiver, r, amount, why)
      case Refused(w) =>
        && UnDelegateFails(owner, receiver, r, amount, w)
        && forall why :: UnDelegateRank(why) < UnDelegateRank(w) ==> !UnDelegateFails(owner, receiver, r, amount, why)
    }

    /** The checks of a freeze, in order. */
    method ValidateFreeze(owner: Address, r: Resource, amount: int) returns (out: Outcome)
      ensures FreezeVerdict(owner, r, amount, out)
      ensures out.Done? <==>
                delayDays > 0 && owner in accounts && 1_000_000 <= amount <= accounts[owner].balance && Delegable(r)
    {
      if delayDays <= 0 {
        return Refused(NotOpen);
      }
      if owner !in accounts {
        return Refused(NoOwner);
      }
      if amount < TRX_PRECISION {
        return Refused(AmountTooSmall);
      }
      if amount > accounts[owner].balance {
        return Refused(AboveBalance);
      }
      return if Delegable(r) then Done else Refused(BadResource);
    }

    method ValidateUnfreeze(owner: Address, r: Resource, amount: int) returns (out: Outcome)
      ensures UnfreezeVerdict(owner, r, amount, out)
      ensures out.Done? <==>
                delayDays > 0 && owner in accounts && Delegable(r) &&
                0 < amount <= FrozenOf(accounts[owner].frozen, r) &&
                |Maturing(accounts[owner].unfreezing, now)| < 32
    {
      if delayDays <= 0 {
        return Refused(NotOpen);
      }
      if owner !in accounts {
        return Refused(NoOwner);
      }
      if !Delegable(r) {
        return Refused(BadResource);
      }
      var frozen := FrozenAmount(accounts[owner].frozen, r);
      if frozen <= 0 {
        return Refused(NothingFrozen);
      }
      if amount <= 0 || amount > frozen {
        return Refused(AboveFrozen);
      }
      var pending := PendingCount(accounts[owner].unfreezing, now);
      return if pending >= UNFREEZE_MAX then Refused(QueueFull) else Done;
    }

    method ValidateDelegate(owner: Address, receiver: Address, r: Resource, amount: int, lock: bool)
      returns (out: Outcome)
      ensures DelegateVerdict(owner, receiver, r, amount, lock, out)
      ensures out.Done? <==>
                delayDays > 0 && !lock && owner in accounts && receiver in accounts && owner != receiver &&
                Delegable(r) &&
                1_000_000 <= amount <= FrozenOf(accounts[owner].frozen, r) && !accounts[receiver].isContract
    {
      if delayDays <= 0 {
        return Refused(NotOpen);
      }
      if lock {
        return Refused(LockUnsupported);
      }
      if owner !in accounts {
        return Refused(NoOwner);
      }
      if amount < TRX_PRECISION {
        return Refused(AmountTooSmall);
      }
      if !Delegable(r) {
        return Refused(BadResource);
      }
      var frozen := FrozenAmount(accounts[owner].frozen, r);
      if frozen < amount {
        return Refused(AboveFrozen);
      }
      if receiver == owner {
        return Refused(SelfDelegation);
      }
      if receiver !in accounts {
        return Refused(NoReceiver);
      }
      return if accounts[receiver].isContract then Refused(ContractReceiver) else Done;
    }

    method ValidateUnDelegate(owner: Address, receiver: Address, r: Resource, amount: int) returns (out: Outcome)
      ensures UnDelegateVerdict(owner, receiver, r, amount, out)
      ensures out.Done? <==>
                delayDays > 0 && Delegable(r) && Edge(owner, receiver) in entries &&
                0 < amount <= entries[Edge(owner, receiver)].Of(r)
    {
      if delayDays <= 0 {
        return Refused(NotOpen);
      }
      if !Delegable(r) {
        return Refused(BadResource);
      }
      if amount <= 0 {
        return Refused(AmountTooSmall);
      }
      if Edge(owner, receiver) !in entries {
        return Refused(NoEntry);
      }
      return if entries[Edge(owner, receiver)].Of(r) < amount then Refused(AboveEntry) else Done;
    }

    /** Stores one account's new own stake and balance, with the weight change that goes with it. */
    method Store(owner: Address, was: Account, v: Account, r: Resource)
      requires Valid() && owner in accounts && accounts[owner] == was && Delegable(r)
      requires v.given == was.given && v.acquired == was.acquired && AccountOk(v)
      requires forall k :: k != r ==> FrozenOf(v.frozen, k) == FrozenOf(was.frozen, k)
      modifies this`accounts, this`weight
      ensures Valid() && accounts == old(accounts)[owner := v]
      ensures WeightsFollow(old(accounts), accounts, old(weight), weight, newReward)
    {
      hide Books, Indexed, Weight, WeightsFollow, FrozenOf, NewWeight, AccountOk;
      var before := WeightOf(was, r);
      var after := WeightOf(v, r);
      AddWeight(r, after - before);
      BooksKept(accounts, entries, owner, v);
      accounts := accounts[owner := v];
      WeightsTrack(old(accounts), owner, v, r, old(weight), weight, newReward);
    }

    method FreezeV2(owner: Address, r: Resource, amount: int) returns (out: Outcome)
      requires Valid()
      modifies this`accounts, this`weight
      ensures old(FreezeVerdict(owner, r, amount, out))
      ensures out.Refused? ==> accounts == old(accounts) && weight == old(weight)
      ensures out.Done? ==>
                && owner in old(accounts) && accounts.Keys == old(accounts).Keys
                && accounts == old(accounts)[owner := accounts[owner]]
                && Moved(old(accounts)[owner], accounts[owner], r, amount, 0, 0)
                && accounts[owner].balance == old(accounts)[owner].balance - amount
                && accounts[owner].unfreezing == old(accounts)[owner].unfreezing
                && accounts[owner].votes == old(accounts)[owner].votes
      ensures Valid() && SameWealth(old(accounts), accounts) && LocksKept(old(accounts), accounts, now)
      ensures WeightsFollow(old(accounts), accounts, old(weight), weight, newReward)
    {
      hide EntriesOk, Balanced, AccountsOk, Indexed, Weight, WeightsFollow, SameWealth, LocksKept, FrozenOf,
        FrozenTotal, UnfreezingTotal;
      out := ValidateFreeze(owner, r, amount);
      if out.Refused? {
        Unchanged(accounts, weight, newReward);
        return;
      }
      var was := accounts[owner];
      var frozen := AddFrozen(was.frozen, r, amount);
      OneOk(accounts, owner);
      Store(owner, was, was.(frozen := frozen, balance := was.balance - amount), r);
      WealthKept(old(accounts), owner, accounts[owner]);
      LocksKeptAt(old(accounts), owner, accounts[owner], now);
    }

    method UnfreezeV2(owner: Address, r: Resource, amount: int) returns (out: Outcome)
      requires Valid()
      modifies this`accounts, this`weight
      ensures old(UnfreezeVerdict(owner, r, amount, out))
      ensures out.Refused? ==> accounts == old(accounts) && weight == old(weight)
      ensures out.Done? ==>
                && owner in old(accounts) && accounts.Keys == old(accounts).Keys
                && accounts == old(accounts)[owner := accounts[owner]]
                && Moved(old(accounts)[owner], accounts[owner], r, -amount, 0, 0)
                && accounts[owner].unfreezing ==
                   Maturing(old(accounts)[owner].unfreezing, now) +
                   [Unfreezing(r, amount, now + delayDays * 86_400_000)]
                && accounts[owner].balance ==
                   old(accounts)[owner].balance + MaturedSum(old(accounts)[owner].unfreezing, now)
                && accounts[owner].votes == []
      ensures Valid() && SameWealth(old(accounts), accounts) && LocksKept(old(accounts), accounts, now)
      ensures WeightsFollow(old(accounts), accounts, old(weight), weight, newReward)
    {
      hide EntriesOk, Balanced, AccountsOk, Indexed, Weight, WeightsFollow, SameWealth, LocksKept, FrozenOf,
        FrozenTotal, Maturing, MaturedSum, UnfreezingTotal, AllPositive;
      out := ValidateUnfreeze(owner, r, amount);
      if out.Refused? {
        Unchanged(accounts, weight, newReward);
        return;
      }
      var was := accounts[owner];
      OneOk(accounts, owner);
      var kept, withdrawn := Sweep(was.unfreezing, now);
      var entry := Unfreezing(r, amount, now + delayDays * DAY_MS);
      QueueGrows(was.unfreezing, kept, entry, now);
      var frozen := AddFrozen(was.frozen, r, -amount);
      Store(owner, was, was.(balance := was.balance + withdrawn, unfreezing := kept + [entry], frozen := frozen,
        votes := []), r);
      WealthKept(old(accounts), owner, accounts[owner]);
      LocksKeptAt(old(accounts), owner, accounts[owner], now);
    }

    method WithdrawExpire(owner: Address) returns (out: Outcome)
      requires Valid()
      modifies this`accounts
      ensures out ==
              if delayDays <= 0 then Refused(NotOpen) else if owner !in old(accounts) then Refused(NoOwner) else Done
      ensures out.Refused? ==> accounts == old(accounts)
      ensures out.Done? ==>
                && accounts.Keys == old(accounts).Keys
                && accounts == old(accounts)[owner := accounts[owner]]
                && accounts[owner].frozen == old(accounts)[owner].frozen
                && accounts[owner].votes == old(accounts)[owner].votes
                && Moved(old(accounts)[owner], accounts[owner], Bandwidth, 0, 0, 0)
                && accounts[owner].unfreezing == Maturing(old(accounts)[owner].unfreezing, now)
                && accounts[owner].balance ==
                   old(accounts)[owner].balance + MaturedSum(old(accounts)[owner].unfreezing, now)
      ensures Valid() && SameWealth(old(accounts), accounts) && LocksKept(old(accounts), accounts, now)
      ensures WeightsFollow(old(accounts), accounts, weight, weight, newReward)
    {
      hide EntriesOk, Balanced, AccountsOk, Indexed, WeightsFollow, SameWealth, LocksKept, FrozenOf, FrozenTotal,
        Maturing, MaturedSum;
      Unchanged(accounts, weight, newReward);
      if delayDays <= 0 {
        return Refused(NotOpen);
      }
      if owner !in accounts {
        return Refused(NoOwner);
      }
      var was := accounts[owner];
      OneOk(accounts, owner);
      var kept, withdrawn := Sweep(was.unfreezing, now);
      var v := was.(balance := was.balance + withdrawn, unfreezing := kept);
      BooksKept(accounts, entries, owner, v);
      WealthKept(accounts, owner, v);
      LocksKeptAt(accounts, owner, v, now);
      WeightsTrack(accounts, owner, v, Bandwidth, weight, weight, newReward);
      accounts := accounts[owner := v];
      return Done;
    }

    /** Both index directions get the edge, stamped with the block time. */
    method IndexEdge(e: Edge)
      modifies this`outIndex, this`inIndex
      ensures outIndex == old(outIndex)[e := now] && inIndex == old(inIndex)[Flip(e) := now]
    {
      outIndex := outIndex[e := now];
      inIndex := inIndex[Flip(e) := now];
    }

    method UnindexEdge(e: Edge)
      modifies this`outIndex, this`inIndex
      ensures outIndex == old(outIndex) - {e} && inIndex == old(inIndex) - {Flip(e)}
    {
      outIndex := outIndex - {e};
      inIndex := inIndex - {Flip(e)};
    }

    /** The owner's half of a delegation: d moves from its own pile to its delegated-out total. */
    method MoveOwn(ghost before: Accounts, e: Edge, r: Resource, d: int)
      requires e.src in before && e.dst in before && e.src != e.dst
      requires accounts == before[e.dst := before[e.dst].(acquired := before[e.dst].acquired.Plus(r, d))]
      modifies this`accounts
      ensures MovedAlong(before, accounts, e, r, d)
    {
      hide FrozenOf, FrozenTotal;
      var payer := accounts[e.src];
      var frozen := AddFrozen(payer.frozen, r, -d);
      accounts := accounts[e.src := payer.(given := payer.given.Plus(r, d), frozen := frozen)];
    }

    method DelegateResource(owner: Address, receiver: Address, r: Resource, amount: int, lock: bool)
      returns (out: Outcome)
      requires Valid()
      modifies this`accounts, this`entries, this`outIndex, this`inIndex
      ensures old(DelegateVerdict(owner, receiver, r, amount, lock, out))
      ensures out.Refused? ==>
                accounts == old(accounts) && entries == old(entries) && outIndex == old(outIndex) &&
                inIndex == old(inIndex)
      ensures out.Done? ==>
                var e := Edge(owner, receiver);
                && entries == old(entries)[e := EntryOf(old(entries), e).Plus(r, amount)]
                && outIndex == old(outIndex)[e := now] && inIndex == old(inIndex)[Flip(e) := now]
                && MovedAlong(old(accounts), accounts, e, r, amount)
      ensures Valid() && SameWealth(old(accounts), accounts) && LocksKept(old(accounts), accounts, now)
      ensures WeightsFollow(old(accounts), accounts, weight, weight, newReward)
    {
      hide Indexed, WeightsFollow, SameWealth, LocksKept, FrozenOf, Books, MovedAlong;
      out := ValidateDelegate(owner, receiver, r, amount, lock);
      if out.Refused? {
        Unchanged(accounts, weight, newReward);
        return;
      }
      var e := Edge(owner, receiver);
      var entry := EntryOf(entries, e).Plus(r, amount);
      EntryNonNegative(accounts, entries, e);
      IndexedPut(entries, outIndex, inIndex, e, entry, now);
      entries := entries[e := entry];
      IndexEdge(e);
      var rc := accounts[receiver];
      accounts := accounts[receiver := rc.(acquired := rc.acquired.Plus(r, amount))];
      MoveOwn(old(accounts), e, r, amount);
      MoveNeutral(old(accounts), accounts, e, r, amount, weight, newReward);
      MoveBooks(old(accounts), accounts, old(entries), e, r, amount);
    }

    /** Debits the receiver, whose acquired total always covers the amount. */
    method DebitReceiver(e: Edge, r: Resource, amount: int)
      requires Books(accounts, entries) && e in entries && Delegable(r) && amount <= entries[e].Of(r)
      modifies this`accounts
      ensures e.dst in old(accounts)
      ensures var rc := old(accounts)[e.dst];
              amount <= rc.acquired.Of(r) &&
              accounts == old(accounts)[e.dst := rc.(acquired := rc.acquired.Plus(r, -amount))]
    {
      if e.dst in accounts {
        var rc := accounts[e.dst];
        SumsNonNegative(accounts.Keys, entries, e.dst, r);
        accounts := accounts[e.dst := rc.(acquired := Debited(rc.acquired, r, amount))];
      }
    }

    method UnDelegateResource(owner: Address, receiver: Address, r: Resource, amount: int) returns (out: Outcome)
      requires Valid()
      modifies this`accounts, this`entries, this`outIndex, this`inIndex
      ensures old(UnDelegateVerdict(owner, receiver, r, amount, out))
      ensures out.Refused? ==>
                accounts == old(accounts) && entries == old(entries) && outIndex == old(outIndex) &&
                inIndex == old(inIndex)
      ensures out.Done? ==>
                var e := Edge(owner, receiver);
                && entries == PutEntry(old(entries), e, EntryOf(old(entries), e).Plus(r, -amount))
                && MovedAlong(old(accounts), accounts, e, r, -amount)
                && amount <= old(accounts)[receiver].acquired.Of(r)
      ensures Valid() && SameWealth(old(accounts), accounts) && LocksKept(old(accounts), accounts, now)
      ensures WeightsFollow(old(accounts), accounts, weight, weight, newReward)
    {
      hide Indexed, WeightsFollow, SameWealth, LocksKept, FrozenOf, Books, MovedAlong;
      out := ValidateUnDelegate(owner, receiver, r, amount);
      if out.Refused? {
        Unchanged(accounts, weight, newReward);
        return;
      }
      var e := Edge(owner, receiver);
      EntryNonNegative(accounts, entries, e);
      DebitReceiver(e, r, amount);
      var entry := entries[e].Plus(r, -amount);
      IndexedPut(entries, outIndex, inIndex, e, entry, now);
      if entry.net == 0 && entry.energy == 0 {
        entries := entries - {e};
        UnindexEdge(e);
      } else {
        entries := entries[e := entry];
      }
      MoveOwn(old(accounts), e, r, -amount);
      MoveNeutral(old(accounts), accounts, e, r, -amount, weight, newReward);
      MoveBooks(old(accounts), accounts, old(entries), e, r, -amount);
    }

    method Perform(op: Op) returns (out: Outcome)
      requires Valid()
      modifies this`accounts, this`entries, this`outIndex, this`inIndex, this`weight
      ensures Valid() && SameWealth(old(accounts), accounts) && LocksKept(old(accounts), accounts, now)
      ensures WeightsFollow(old(accounts), accounts, old(weight), weight, newReward)
      ensures out.Refused? ==> accounts == old(accounts) && entries == old(entries) && weight == old(weight)
    {
      hide Valid, WeightsFollow, SameWealth, LocksKept, MovedAlong, Moved, Maturing, MaturedSum;
      match op
      case Freeze(owner, r, amount) => out := FreezeV2(owner, r, amount);
      case Unfreeze(owner, r, amount) => out := UnfreezeV2(owner, r, amount);
      case WithdrawExpired(owner) => out := WithdrawExpire(owner);
      case Delegate(owner, receiver, r, amount, lock) => out := DelegateResource(owner, receiver, r, amount, lock);
      case UnDelegate(owner, receiver, r, amount) => out := UnDelegateResource(owner, receiver, r, amount);
    }

    method PerformBlock(b: Block)
      requires Valid()
      modifies this
      ensures Valid() && SameWealth(old(accounts), accounts) && LocksKept(old(accounts), accounts, b.now)
      ensures forall r :: Delegable(r) && (old(Drift(accounts, weight, r)) >= 0 || !b.newReward) ==>
                Drift(accounts, weight, r) == old(Drift(accounts, weight, r))
    {
      hide Drift, SameWealth, LocksKept, EntriesOk, Balanced, AccountsOk, Indexed, WeightsFollow;
      now, delayDays, newReward := b.now, b.delayDays, b.newReward;
      Unchanged(accounts, weight, false);
      for i := 0 to |b.ops|
        invariant Valid() && SameWealth(old(accounts), accounts) && LocksKept(old(accounts), accounts, b.now)
        invariant now == b.now && newReward == b.newReward
        invariant forall r :: Delegable(r) && (old(Drift(accounts, weight, r)) >= 0 || !b.newReward) ==>
                    Drift(accounts, weight, r) == old(Drift(accounts, weight, r))
      {
        ghost var before, was := accounts, weight;
        var _ := Perform(b.ops[i]);
        SameWealthJoins(old(accounts), before, accounts);
        LocksKeptJoin(old(accounts), before, accounts, b.now, b.now, b.now);
        forall r | Delegable(r) && (old(Drift(accounts, weight, r)) >= 0 || !b.newReward)
          ensures Drift(accounts, weight, r) == Drift(before, was, r)
        {
          DriftKept(before, accounts, entries, was, weight, newReward, r);
        }
      }
    }

    /**
     Any block sequence: in each block the clock and the chain parameters take new values, then its operations
     run.
     */
    method PerformAll(blocks: seq<Block>)
      requires Valid()
      modifies this
      ensures Valid() && SameWealth(old(accounts), accounts)
      ensures forall r :: Delegable(r) && (old(Drift(accounts, weight, r)) >= 0 || NeverFloored(blocks)) ==>
                Drift(accounts, weight, r) == old(Drift(accounts, weight, r))
      ensures forall a :: a in accounts ==> AccountOk(accounts[a])
      ensures forall t :: AllBy(blocks, t) ==> LocksKept(old(accounts), accounts, t)
    {
      hide Drift, SameWealth, LocksKept, EntriesOk, Balanced, AccountOk;
      Unchanged(accounts, weight, false);
      for i := 0 to |blocks|
        invariant Valid() && SameWealth(old(accounts), accounts)
        invariant forall r :: Delegable(r) && (old(Drift(accounts, weight, r)) >= 0 || NeverFloored(blocks)) ==>
                    Drift(accounts, weight, r) == old(Drift(accounts, weight, r))
        invariant forall t :: AllBy(blocks, t) ==> LocksKept(old(accounts), accounts, t)
      {
        ghost var before := accounts;
        PerformBlock(blocks[i]);
        SameWealthJoins(old(accounts), before, accounts);
        forall t | AllBy(blocks, t)
          ensures LocksKept(old(accounts), accounts, t)
        {
          LocksKeptJoin(old(accounts), before, accounts, t, blocks[i].now, t);
        }
      }
    }
  }

  /**
   The floor can bite: with the stored weight one short of the accounts' sum, the unfreeze of the last holder leaves it
   at zero instead of minus one.
   */
  method UnfreezeUnderFloor() returns (l: Ledger, out: Outcome)
    ensures fresh(l) && out.Done? && l.Valid() && l.newReward
    ensures Drift(Lone(TRX_PRECISION), Amounts(0, 0), Bandwidth) == -1
    ensures Drift(l.accounts, l.weight, Bandwidth) == 0
  {
    hide Sum, Weights, FrozenTotal, Books, Indexed, Wealth;
    LoneOk(TRX_PRECISION);
    LoneWeight(Lone(TRX_PRECISION), Bandwidth);
    l := new Ledger(Lone(TRX_PRECISION), Amounts(0, 0), 0, 1, true);
    out := l.UnfreezeV2(0, Bandwidth, TRX_PRECISION);
    LoneWeight(l.accounts, Bandwidth);
  }

  /**
   An amount unfrozen at time t under a delay of d days is still in the queue after any run of blocks before
   t + d * 86400000: none of it has reached the balance.
   */
  method UnfreezeStaysLocked(l: Ledger, owner: Address, r: Resource, amount: int, early: seq<Block>)
      returns (out: Outcome)
    requires l.Valid() && AllBy(early, l.now + l.delayDays * 86_400_000 - 1)
    modifies l
    ensures l.Valid()
    ensures out.Done? ==>
              && owner in l.accounts && owner in old(l.accounts)
              && Unfreezing(r, amount, old(l.now + l.delayDays * 86_400_000)) in l.accounts[owner].unfreezing
              && Wealth(l.accounts[owner]) == Wealth(old(l.accounts)[owner])
  {
    hide EntriesOk, Balanced, AccountsOk, Indexed, Maturing, MaturedSum, WeightsFollow, LocksKept, Moved, FrozenOf,
      Drift, Wealth;
    var entry := Unfreezing(r, amount, l.now + l.delayDays * 86_400_000);
    out := l.UnfreezeV2(owner, r, amount);
    if out.Done? {
      ghost var locked := l.accounts;
      l.PerformAll(early);
      StillWaiting(locked, l.accounts, owner, entry, entry.expire - 1);
    }
  }

  /** From its time on, a withdrawal pays a queued amount into the balance, and leaves nothing matured behind. */
  method MaturedIsPaid(l: Ledger, owner: Address, u: Unfreezing, late: Block) returns (out: Outcome)
    requires l.Valid() && owner in l.accounts && u in l.accounts[owner].unfreezing && u.expire <= late.now
    modifies l
    ensures l.Valid() && owner in l.accounts && (out.Done? <==> late.delayDays > 0)
    ensures out.Done? ==>
              && l.accounts[owner].balance >= old(l.accounts[owner].balance) + u.amount
              && forall v :: v in l.accounts[owner].unfreezing ==> late.now < v.expire
  {
    hide EntriesOk, Balanced, Indexed, Maturing, MaturedSum, WeightsFollow, SameWealth, LocksKept, Moved, FrozenOf;
    ghost var waiting := l.accounts[owner].unfreezing;
    OneOk(l.accounts, owner);
    MaturedCounts(waiting, late.now, u);
    l.now, l.delayDays, l.newReward := late.now, late.delayDays, late.newReward;
    out := l.WithdrawExpire(owner);
    OnlyLaterLeft(waiting, late.now);
  }
}
