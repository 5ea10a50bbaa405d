/**
 Stake 1.0 freezes and unfreezes made for another account: the delegation entries,
 both parties' running totals and the delegation index, over any run.
 */
module DelegatedFreeze {
  import opened Arith
  import opened MapSums
  import opened Delegations
  import opened Voting
  import opened DelegationIndex

  datatype Holder = Holder(
    balance: int, given: Amounts, acquired: Amounts, isContract: bool, frozenCount: nat, votes: Votes)

  /** What a giver froze for a receiver, and when each side may be taken back. */
  datatype Grant = Grant(amounts: Amounts, expire: Amounts)

  type Holders = map<Address, Holder>
  type Grants = map<Edge, Grant>

  function AmountsOf(grants: Grants): Entries { map e | e in grants :: grants[e].amounts }

  function GrantOf(grants: Grants, e: Edge): Grant
  {
    if e in grants then grants[e] else Grant(Amounts(0, 0), Amounts(0, 0))
  }

  function SetSide(a: Amounts, r: Resource, v: int): Amounts { a.Plus(r, v - a.Of(r)) }

  function Worth(h: Holder): int { h.balance + h.given.net + h.given.energy }

  ghost predicate SameWorth(before: Holders, after: Holders) {
    after.Keys == before.Keys && forall a :: a in before ==> Worth(after[a]) == Worth(before[a])
  }

  ghost predicate GivenOk(holders: Holders, es: Entries) {
    forall a, r :: a in holders && Delegable(r) ==> holders[a].given.Of(r) == Sum(Outgoing(es, a, r))
  }

  /** Ordinary accounts hold exactly what reaches them; a contract may keep what was taken back behind its back. */
  ghost predicate AcquiredOk(holders: Holders, es: Entries) {
    forall a, r :: a in holders && Delegable(r) ==>
      holders[a].acquired.Of(r) >= Sum(Incoming(es, a, r)) &&
      (!holders[a].isContract ==> holders[a].acquired.Of(r) == Sum(Incoming(es, a, r)))
  }

  ghost predicate Books(holders: Holders, grants: Grants) {
    EntriesOk(holders.Keys, AmountsOf(grants)) &&
    GivenOk(holders, AmountsOf(grants)) && AcquiredOk(holders, AmountsOf(grants)) &&
    forall a :: a in holders ==> holders[a].balance >= 0
  }

  /** Receiver's side of a move of d of resource r along edge e. */
  function Credited(holders: Holders, e: Edge, r: Resource, d: int, told: bool): Holders
    requires e.dst in holders
  {
    var receiver := holders[e.dst];
    holders[e.dst := if told then receiver.(acquired := receiver.acquired.Plus(r, d)) else receiver]
  }

  /** Giver after d of resource r went from its balance to its delegated-out total, with the votes it then has. */
  function Charged(giver: Holder, r: Resource, d: int, votes: Votes): Holder {
    giver.(balance := giver.balance - d, given := giver.given.Plus(r, d), votes := votes)
  }

  /** Holders after d of resource r moved from the giver's balance onto edge e, the receiver being told or not. */
  ghost predicate MovedAlong(
    holders: Holders, after: Holders, e: Edge, r: Resource, d: int, told: bool, votes: Votes) {
    && e.src in holders && e.dst in holders && e.src != e.dst
    && after == Credited(holders, e, r, d, told)[e.src := Charged(holders[e.src], r, d, votes)]
  }

  lemma MoveNeutral(holders: Holders, after: Holders, e: Edge, r: Resource, d: int, told: bool, votes: Votes)
    requires MovedAlong(holders, after, e, r, d, told, votes)
    ensures SameWorth(holders, after)
  {
  }

  lemma MoveGiven(holders: Holders, after: Holders, es: Entries, e: Edge, r: Resource, d: int, told: bool, votes: Votes)
    requires GivenOk(holders, es) && MovedAlong(holders, after, e, r, d, told, votes) && Delegable(r)
    ensures GivenOk(after, PutEntry(es, e, EntryOf(es, e).Plus(r, d)))
  {
    hide Sum, Outgoing, PutEntry;
    var put := EntryOf(es, e).Plus(r, d);
    forall a, k | a in after && Delegable(k)
      ensures after[a].given.Of(k) == Sum(Outgoing(PutEntry(es, e, put), a, k))
    {
      OutgoingPut(es, e, put, a, k);
    }
  }

  lemma MoveAcquired(holders: Holders, after: Holders, es: Entries, e: Edge, r: Resource, d: int, told: bool,
      votes: Votes)
    requires AcquiredOk(holders, es) && MovedAlong(holders, after, e, r, d, told, votes) && Delegable(r)
    requires !told ==> d <= 0 && holders[e.dst].isContract
    ensures AcquiredOk(after, PutEntry(es, e, EntryOf(es, e).Plus(r, d)))
  {
    hide Sum, Incoming, PutEntry;
    var put := EntryOf(es, e).Plus(r, d);
    forall a, k | a in after && Delegable(k)
      ensures after[a].acquired.Of(k) >= Sum(Incoming(PutEntry(es, e, put), a, k))
      ensures !after[a].isContract ==> after[a].acquired.Of(k) == Sum(Incoming(PutEntry(es, e, put), a, k))
    {
      IncomingPut(es, e, put, a, k);
    }
  }

  lemma MoveBooks(holders: Holders, after: Holders, grants: Grants, left: Grants, e: Edge, r: Resource, d: int,
      told: bool, votes: Votes)
    requires Books(holders, grants) && MovedAlong(holders, after, e, r, d, told, votes) && Delegable(r)
    requires !told ==> d <= 0 && holders[e.dst].isContract
    requires d <= holders[e.src].balance && EntryOf(AmountsOf(grants), e).Of(r) + d >= 0
    requires AmountsOf(left) == PutEntry(AmountsOf(grants), e, EntryOf(AmountsOf(grants), e).Plus(r, d))
    ensures Books(after, left)
  {
    hide Sum, Outgoing, Incoming, GivenOk, AcquiredOk;
    MoveGiven(holders, after, AmountsOf(grants), e, r, d, told, votes);
    MoveAcquired(holders, after, AmountsOf(grants), e, r, d, told, votes);
  }

  lemma SameWorthJoins(a: Holders, b: Holders, c: Holders)
    requires SameWorth(a, b) && SameWorth(b, c)
    ensures SameWorth(a, c)
  {
    hide Worth;
  }

  // ---- transactions ----

  datatype Refusal =
    | NoOwner | AmountTooSmall | BadFrozenCount | AboveBalance | BadDuration | BadResource | SelfDelegation | NoReceiver
    | ContractReceiver
    | Closed | NoEntry | NothingDelegated | TooEarly

  datatype Outcome = Done | Refused(why: Refusal)

  /** The order of the checks of a delegated freeze. */
  function FreezeRank(why: Refusal): nat {
    match why
    case NoOwner => 0
    case AmountTooSmall => 1
    case BadFrozenCount => 2
    case AboveBalance => 3
    case BadDuration => 4
    case BadResource => 5
    case SelfDelegation => 6
    case NoReceiver => 7
    case ContractReceiver => 8
    case Closed => 9
    case _ => 10
  }

  /** The order of the checks of a delegated unfreeze. */
  function UnfreezeRank(why: Refusal): nat {
    match why
    case NoOwner => 0
    case SelfDelegation => 1
    case NoReceiver => 2
    case NoEntry => 3
    case BadResource => 4
    case NothingDelegated => 5
    case TooEarly => 6
    case _ => 7
  }

  datatype Rules = Rules(
    constantinople: bool, solidity059: bool, multiSign: bool, stake2: bool, newReward: bool, minDays: int, maxDays: int)

  datatype Op =
    | Freeze(owner: Address, receiver: Address, r: Resource, amount: int, days: int)
    | Unfreeze(owner: Address, receiver: Address, r: Resource)

  /** A block sets the clock and the chain rules, may switch the new index layout on, and then runs its operations. */
  datatype Block = Block(now: int, rules: Rules, switchOn: bool, ops: seq<Op>)

  /** Until multi-signature support, the energy side is released by the bandwidth expiry. */
  function ExpiryFor(g: Grant, r: Resource, multiSign: bool): int {
    if r.Bandwidth? || !multiSign then g.expire.net else g.expire.energy
  }

  /** Receiver total after a release; under the 0.5.9 rules a shortfall empties it. */
  function Debited(acquired: Amounts, r: Resource, amount: int, solidity059: bool): Amounts {
    if solidity059 && acquired.Of(r) < amount then SetSide(acquired, r, 0) else acquired.Plus(r, -amount)
  }

  /** Whole TRX. */
  function Trx(sun: int): int { TruncDiv(sun, TRX_PRECISION) }

  /** Weight change of a move of d onto a receiver that held `acquired`: by its floors, or flat before the new rules. */
  function WeightMove(acquired: int, d: int, told: bool, newReward: bool): int {
    if newReward && told then Trx(acquired + d) - Trx(acquired) else Trx(d)
  }

  /** Whole TRX in numbers, the same on both sides of zero. */
  lemma TrxBracket(sun: nat)
    ensures Trx(sun) * 1_000_000 <= sun < (Trx(sun) + 1) * 1_000_000 && Trx(0 - sun) == -Trx(sun)
  {
    QuotientBracket(sun, 1_000_000);
  }

  /** Taking back from a receiver that is told undoes the weight the freeze added, under either rule. */
  lemma WeightMoveUndone(acquired: nat, d: nat, newReward: bool)
    ensures WeightMove(acquired, d, true, newReward) + WeightMove(acquired + d, 0 - d, true, newReward) == 0
    ensures WeightMove(acquired, d, true, newReward) >= 0
    ensures WeightMove(acquired, 0 - d, false, newReward) == -Trx(d)
    ensures WeightMove(acquired, d, true, true) - 1 <= WeightMove(acquired, d, true, false) <=
              WeightMove(acquired, d, true, true)
  {
    TrxBracket(d);
    TrxBracket(acquired);
    TrxBracket(acquired + d);
    hide Trx;
  }

  function Reweighted(weight: Amounts, r: Resource, d: int, newReward: bool): Amounts {
    SetSide(weight, r, NewWeight(weight.Of(r), d, newReward))
  }

  class Book {
    var holders: Holders
    var grants: Grants
    const index: IndexStore
    var weight: Amounts
    var now: int
    var optimized: bool
    var rules: Rules

    ghost predicate Valid()
      reads this`holders, this`grants, this`optimized, index
    {
      Books(holders, grants) && IndexOk(index.Contents(), grants.Keys, optimized)
    }

    constructor (start: Holders, weight: Amounts, rules: Rules)
      requires forall a :: a in start ==>
                 start[a].balance >= 0 && start[a].given == Amounts(0, 0) && start[a].acquired == Amounts(0, 0)
      ensures Valid() && holders == start && grants == map[] && !optimized && fresh(index)
      ensures this.rules == rules && this.weight == weight
    {
      holders, grants, now, optimized := start, map[], 0, false;
      this.weight, this.rules := weight, rules;
      index := new IndexStore();
      new;
      forall a, r | a in holders && Delegable(r)
        ensures Sum(Outgoing(AmountsOf(grants), a, r)) == 0 && Sum(Incoming(AmountsOf(grants), a, r)) == 0
      {
        assert Outgoing(AmountsOf(grants), a, r) == map[] && Incoming(AmountsOf(grants), a, r) == map[];
      }
    }

    /** The condition each refusal stands for. */
    predicate FreezeFails(owner: Address, receiver: Address, r: Resource, amount: int, days: int, why: Refusal)
      reads this
    {
      match why
      case NoOwner => owner !in holders
      case AmountTooSmall => amount < TRX_PRECISION
      case BadFrozenCount => owner in holders && holders[owner].frozenCount > 1
      case AboveBalance => owner in holders && amount > holders[owner].balance
      case BadDuration => days < rules.minDays || days > rules.maxDays
      case BadResource => !Delegable(r)
      case SelfDelegation => receiver == owner
      case NoReceiver => receiver !in holders
      case ContractReceiver => rules.constantinople && receiver in holders && holders[receiver].isContract
      case Closed => rules.stake2
      case _ => false
    }

    /** Done when no check fails, otherwise the first that does. */
    ghost predicate FreezeVerdict(owner: Address, receiver: Address, r: Resource, amount: int, days: int, out: Outcome)
      reads this
    {
      match out
      case Done => forall why :: !FreezeFails(owner, receiver, r, amount, days, why)
      case Refused(w) =>
        && FreezeFails(owner, receiver, r, amount, days, w)
        && forall why :: FreezeRank(why) < FreezeRank(w) ==> !FreezeFails(owner, receiver, r, amount, days, why)
    }

    /** The condition each refusal stands for. */
    predicate UnfreezeFails(owner: Address, receiver: Address, r: Resource, why: Refusal)
      reads this
    {
      match why
      case NoOwner => owner !in holders
      case SelfDelegation => receiver == owner
      case NoReceiver => receiver !in holders && !rules.constantinople
      case NoEntry => Edge(owner, receiver) !in grants
      case BadResource => !Delegable(r)
      case NothingDelegated => Edge(owner, receiver) in grants && grants[Edge(owner, receiver)].amounts.Of(r) <= 0
      case TooEarly =>
        Edge(owner, receiver) in grants && ExpiryFor(grants[Edge(owner, receiver)], r, rules.multiSign) > now
      case _ => false
    }

    /** Done when no check fails, otherwise the first that does. */
    ghost predicate UnfreezeVerdict(owner: Address, receiver: Address, r: Resource, out: Outcome)
      reads this
    {
      match out
      case Done => forall why :: !UnfreezeFails(owner, receiver, r, why)
      case Refused(w) =>
        && UnfreezeFails(owner, receiver, r, w)
        && forall why :: UnfreezeRank(why) < UnfreezeRank(w) ==> !UnfreezeFails(owner, receiver, r, why)
    }

    method ValidateReceiver(owner: Address, receiver: Address) returns (out: Outcome)
      ensures out ==
              if receiver == owner then Refused(SelfDelegation)
              else if receiver !in holders then Refused(NoReceiver)
              else if rules.constantinople && holders[receiver].isContract then Refused(ContractReceiver)
              else Done
    {
      if receiver == owner {
        return Refused(SelfDelegation);
      }
      if receiver !in holders {
        return Refused(NoReceiver);
      }
      return if rules.constantinople && holders[receiver].isContract then Refused(ContractReceiver) else Done;
    }

    /** The checks of a delegated freeze, in order. */
    method ValidateFreeze(owner: Address, receiver: Address, r: Resource, amount: int, days: int) returns (out: Outcome)
      ensures FreezeVerdict(owner, receiver, r, amount, days, out)
      ensures out.Done? <==>
                owner in holders && receiver in holders && owner != receiver && Delegable(r) && !rules.stake2 &&
                1_000_000 <= amount <= holders[owner].balance && holders[owner].frozenCount <= 1 &&
                rules.minDays <= days <= rules.maxDays && !(rules.constantinople && holders[receiver].isContract)
    {
      if owner !in holders {
        return Refused(NoOwner);
      }
      var acct := holders[owner];
      if amount < TRX_PRECISION {
        return Refused(AmountTooSmall);
      }
      if acct.frozenCount != 0 && acct.frozenCount != 1 {
        return Refused(BadFrozenCount);
      }
      if amount > acct.balance {
        return Refused(AboveBalance);
      }
      if days < rules.minDays || days > rules.maxDays {
        return Refused(BadDuration);
      }
      if !Delegable(r) {
        return Refused(BadResource);
      }
      out := ValidateReceiver(owner, receiver);
      if out.Refused? {
        return;
      }
      return if rules.stake2 then Refused(Closed) else Done;
    }

    method ValidateDelegated(owner: Address, receiver: Address, r: Resource) returns (out: Outcome)
      ensures UnfreezeVerdict(owner, receiver, r, out)
      ensures out.Done? <==>
                owner in holders && receiver != owner && (receiver in holders || rules.constantinople) &&
                Delegable(r) &&
                Edge(owner, receiver) in grants && grants[Edge(owner, receiver)].amounts.Of(r) > 0 &&
                var expire := grants[Edge(owner, receiver)].expire;
                (if r.Energy? && rules.multiSign then expire.energy else expire.net) <= now
    {
      if owner !in holders {
        return Refused(NoOwner);
      }
      if receiver == owner {
        return Refused(SelfDelegation);
      }
      if receiver !in holders && !rules.constantinople {
        return Refused(NoReceiver);
      }
      if Edge(owner, receiver) !in grants {
        return Refused(NoEntry);
      }
      var g := grants[Edge(owner, receiver)];
      match r
      case Bandwidth =>
        if g.amounts.net <= 0 {
          return Refused(NothingDelegated);
        }
        return if g.expire.net > now then Refused(TooEarly) else Done;
      case Energy =>
        if g.amounts.energy <= 0 {
          return Refused(NothingDelegated);
        }
        var expiry := if rules.multiSign then g.expire.energy else g.expire.net;
        return if expiry > now then Refused(TooEarly) else Done;
      case TronPower =>
        return Refused(BadResource);
    }

    method AddWeight(r: Resource, d: int)
      modifies this`weight
      ensures weight == Reweighted(old(weight), r, d, rules.newReward)
    {
      if d == 0 {
        return;
      }
      var w := weight.Of(r) + d;
      if rules.newReward && w < 0 {
        w := 0;
      }
      weight := SetSide(weight, r, w);
    }

    /** Entry, index and receiver's side of a delegated freeze. */
    method Delegate(e: Edge, r: Resource, amount: int, expire: int) returns (increment: int)
      requires Valid() && e.dst in holders
      modifies this`holders, this`grants, index
      ensures var g := GrantOf(old(grants), e);
              grants == old(grants)[e := Grant(g.amounts.Plus(r, amount), SetSide(g.expire, r, expire))]
      ensures IndexOk(index.Contents(), grants.Keys, optimized)
      ensures var rc := old(holders)[e.dst];
              && holders == Credited(old(holders), e, r, amount, true)
              && increment == Trx(rc.acquired.Of(r) + amount) - Trx(rc.acquired.Of(r))
    {
      hide Books, IndexOk;
      var g := GrantOf(grants, e);
      ghost var es := grants.Keys;
      grants := grants[e := Grant(g.amounts.Plus(r, amount), SetSide(g.expire, r, expire))];
      index.RecordDelegationIndex(e, optimized, now, es);
      assert grants.Keys == es + {e};
      var rc := holders[e.dst];
      var oldW := Trx(rc.acquired.Of(r));
      rc := rc.(acquired := rc.acquired.Plus(r, amount));
      holders := holders[e.dst := rc];
      return Trx(rc.acquired.Of(r)) - oldW;
    }

    method FreezeBalance(owner: Address, receiver: Address, r: Resource, amount: int, days: int) returns (out: Outcome)
      requires Valid()
      modifies this`holders, this`grants, this`weight, index
      ensures old(FreezeVerdict(owner, receiver, r, amount, days, out))
      ensures out.Refused? ==>
                holders == old(holders) && grants == old(grants) && weight == old(weight) &&
                index.Contents() == old(index.Contents())
      ensures out.Done? ==>
                var e := Edge(owner, receiver);
                var g := GrantOf(old(grants), e);
                && owner in old(holders) && receiver in old(holders)
                && MovedAlong(old(holders), holders, e, r, amount, true, old(holders)[owner].votes)
                && grants == old(grants)[e :=
                     Grant(g.amounts.Plus(r, amount), SetSide(g.expire, r, now + days * 86_400_000))]
                && (forall k :: Delegable(k) ==>
                      grants[e].expire.Of(k) == if k == r then now + days * 86_400_000 else g.expire.Of(k))
                && var d := WeightMove(old(holders)[receiver].acquired.Of(r), amount, true, rules.newReward);
                   weight == Reweighted(old(weight), r, d, rules.newReward)
      ensures Valid() && SameWorth(old(holders), holders)
    {
      hide IndexOk, Books, AmountsOf, Credited, Charged, Trx, Reweighted;
      out := ValidateFreeze(owner, receiver, r, amount, days);
      if out.Refused? {
        return;
      }
      var e := Edge(owner, receiver);
      var payer := holders[owner];
      var increment := Delegate(e, r, amount, now + days * DAY_MS);
      AddWeight(r, if rules.newReward then increment else Trx(amount));
      holders := holders[owner := Charged(payer, r, amount, payer.votes)];
      MoveNeutral(old(holders), holders, e, r, amount, true, payer.votes);
      FreezeBooks(old(holders), holders, old(grants), grants, e, r, amount, payer.votes);
    }

    /** Releases one side of an entry; an emptied entry goes away together with its index edge. */
    method Release(e: Edge, r: Resource) returns (amount: int)
      requires Valid() && e in grants
      modifies this`grants, index
      ensures amount == old(grants)[e].amounts.Of(r)
      ensures grants == Released(old(grants), e, r)
      ensures IndexOk(index.Contents(), grants.Keys, optimized)
    {
      hide Books, IndexOk;
      var g := grants[e];
      amount := g.amounts.Of(r);
      g := Grant(SetSide(g.amounts, r, 0), SetSide(g.expire, r, 0));
      ghost var es := grants.Keys;
      if g.amounts.net == 0 && g.amounts.energy == 0 {
        grants := grants - {e};
        index.DropDelegationIndex(e, optimized, es);
        assert grants.Keys == es - {e};
      } else {
        grants := grants[e := g];
        assert grants.Keys == es;
      }
    }

    /** The receiver's side of a release; contracts are passed over under the Constantinople rules. */
    method DebitReceiver(e: Edge, r: Resource, amount: int) returns (decrease: int, ghost told: bool)
      requires e.dst in holders && amount <= holders[e.dst].acquired.Of(r)
      modifies this`holders
      ensures told <==> !(rules.constantinople && old(holders)[e.dst].isContract)
      ensures var acquired := old(holders)[e.dst].acquired.Of(r);
              decrease == if told then Trx(acquired - amount) - Trx(acquired) else Trx(-amount)
      ensures holders == Credited(old(holders), e, r, -amount, told)
    {
      var rc := holders[e.dst];
      told := !rules.constantinople || !rc.isContract;
      if !rules.constantinople || !rc.isContract {
        var after := Debited(rc.acquired, r, amount, rules.solidity059);
        holders := holders[e.dst := rc.(acquired := after)];
        var short := rules.solidity059 && rc.acquired.Of(r) < amount;
        decrease := Trx(after.Of(r)) - Trx(if short then amount else rc.acquired.Of(r));
      } else {
        decrease := Trx(-amount);
      }
    }

    method UnfreezeBalance(owner: Address, receiver: Address, r: Resource) returns (out: Outcome)
      requires Valid()
      modifies this`holders, this`grants, this`weight, index
      ensures old(UnfreezeVerdict(owner, receiver, r, out))
      ensures out.Refused? ==>
                holders == old(holders) && grants == old(grants) && weight == old(weight) &&
                index.Contents() == old(index.Contents())
      ensures out.Done? ==>
                var e := Edge(owner, receiver);
                && e in old(grants) && grants == Released(old(grants), e, r)
                && receiver in old(holders)
                && (var told := !(rules.constantinople && old(holders)[receiver].isContract);
                    var amount := old(grants)[e].amounts.Of(r);
                    && MovedAlong(old(holders), holders, e, r, -amount, told, [])
                    && var d := WeightMove(old(holders)[receiver].acquired.Of(r), -amount, told, rules.newReward);
                       weight == Reweighted(old(weight), r, d, rules.newReward))
      ensures Valid() && SameWorth(old(holders), holders)
    {
      hide IndexOk, Books, AmountsOf, Released, Credited, Charged, Trx, Reweighted;
      out := ValidateDelegated(owner, receiver, r);
      if out.Refused? {
        return;
      }
      var e := Edge(owner, receiver);
      GrantCovered(holders, grants, e, r);
      var payer := holders[owner];
      var amount := Release(e, r);
      var decrease: int;
      ghost var told: bool;
      decrease, told := DebitReceiver(e, r, amount);
      AddWeight(r, if rules.newReward then decrease else Trx(-amount));
      holders := holders[owner := Charged(payer, r, -amount, [])];
      MoveNeutral(old(holders), holders, e, r, -amount, told, []);
      ReleaseBooks(old(holders), holders, old(grants), e, r, told, []);
    }

    method Perform(op: Op) returns (out: Outcome)
      requires Valid()
      modifies this`holders, this`grants, this`weight, index
      ensures Valid() && SameWorth(old(holders), holders)
      ensures out.Refused? ==> holders == old(holders) && grants == old(grants) && weight == old(weight)
    {
      match op
      case Freeze(owner, receiver, r, amount, days) => out := FreezeBalance(owner, receiver, r, amount, days);
      case Unfreeze(owner, receiver, r) => out := UnfreezeBalance(owner, receiver, r);
    }

    /**
     Any run in which the new layout may be switched on at any block, and never off again: seen from either end, the
     index holds exactly the edges that have an entry.
     */
    method PerformAll(blocks: seq<Block>)
      requires Valid()
      modifies this, index
      ensures Valid() && SameWorth(old(holders), holders)
      ensures forall e: Edge ::
                (e in grants <==> HasOut(index.Contents(), e)) && (e in grants <==> HasIn(index.Contents(), e))
    {
      for i := 0 to |blocks|
        invariant Valid() && SameWorth(old(holders), holders)
      {
        ghost var before := holders;
        var b := blocks[i];
        now, rules, optimized := b.now, b.rules, optimized || b.switchOn;
        for k := 0 to |b.ops|
          invariant Valid() && SameWorth(before, holders)
        {
          ghost var last := holders;
          var _ := Perform(b.ops[k]);
          SameWorthJoins(before, last, holders);
        }
        SameWorthJoins(old(holders), before, holders);
      }
    }
  }

  function Released(grants: Grants, e: Edge, r: Resource): Grants
    requires e in grants
  {
    var g := Grant(SetSide(grants[e].amounts, r, 0), SetSide(grants[e].expire, r, 0));
    if g.amounts == Amounts(0, 0) then grants - {e} else grants[e := g]
  }

  /** The released side is empty and without expiry; the other side and all other entries are as they were. */
  lemma ReleasedExactly(grants: Grants, e: Edge, r: Resource, other: Resource)
    requires e in grants && Delegable(r) && Delegable(other) && other != r
    ensures var left := Released(grants, e, r);
            && (e in left <==> grants[e].amounts.Of(other) != 0)
            && (e in left ==>
                  && left[e].amounts.Of(r) == 0 && left[e].expire.Of(r) == 0
                  && left[e].amounts.Of(other) == grants[e].amounts.Of(other)
                  && left[e].expire.Of(other) == grants[e].expire.Of(other))
            && left - {e} == grants - {e}
  {
  }

  lemma FreezeBooks(holders: Holders, after: Holders, grants: Grants, left: Grants, e: Edge, r: Resource,
      amount: int, votes: Votes)
    requires Books(holders, grants) && MovedAlong(holders, after, e, r, amount, true, votes) && Delegable(r)
    requires 0 < amount <= holders[e.src].balance
    requires e in left && left == grants[e := left[e]] && left[e].amounts == GrantOf(grants, e).amounts.Plus(r, amount)
    ensures Books(after, left)
  {
    hide Books, AmountsOf, MovedAlong;
    GrantNonNegative(holders, grants, e);
    PutAmounts(grants, e, left[e]);
    MoveBooks(holders, after, grants, left, e, r, amount, true, votes);
  }

  lemma ReleaseBooks(holders: Holders, after: Holders, grants: Grants, e: Edge, r: Resource, told: bool, votes: Votes)
    requires Books(holders, grants) && e in grants && Delegable(r)
    requires MovedAlong(holders, after, e, r, -grants[e].amounts.Of(r), told, votes)
    requires !told ==> holders[e.dst].isContract
    ensures Books(after, Released(grants, e, r))
  {
    hide Books, AmountsOf, Credited, Charged;
    GrantNonNegative(holders, grants, e);
    GrantCovered(holders, grants, e, r);
    PutAmounts(grants, e, Grant(SetSide(grants[e].amounts, r, 0), SetSide(grants[e].expire, r, 0)));
    MoveBooks(holders, after, grants, Released(grants, e, r), e, r, -grants[e].amounts.Of(r), told, votes);
  }

  /** A receiver always holds at least what any one entry gave it. */
  lemma GrantCovered(holders: Holders, grants: Grants, e: Edge, r: Resource)
    requires Books(holders, grants) && e in grants && Delegable(r)
    ensures e.src != e.dst && e.src in holders && e.dst in holders && holders[e.src].balance >= 0
    ensures 0 <= grants[e].amounts.Of(r) <= holders[e.dst].acquired.Of(r)
  {
    GrantNonNegative(holders, grants, e);
    SumsNonNegative(holders.Keys, AmountsOf(grants), e.dst, r);
  }

  lemma GrantNonNegative(holders: Holders, grants: Grants, e: Edge)
    requires Books(holders, grants)
    ensures GrantOf(grants, e).amounts == EntryOf(AmountsOf(grants), e)
    ensures GrantOf(grants, e).amounts.net >= 0 && GrantOf(grants, e).amounts.energy >= 0
    ensures e in grants ==> e.src != e.dst && e.src in holders && e.dst in holders
  {
    if e in grants {
      assert AmountsOf(grants)[e] == grants[e].amounts;
    }
  }

  lemma PutAmounts(grants: Grants, e: Edge, g: Grant)
    ensures AmountsOf(grants[e := g]) == AmountsOf(grants)[e := g.amounts]
    ensures AmountsOf(grants - {e}) == AmountsOf(grants) - {e}
  {
  }
}
