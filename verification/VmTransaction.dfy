/**
 A contract transaction around the TVM: the energy budget an account can pay
 for, the execution, the energy bill and the burn.
 */
module VmTransaction {
  import opened Options
  import opened Arith
  import opened MapSums
  import opened TvmTypes
  import opened TvmSpec
  import opened TvmRun
  import opened TvmProps
  import opened TvmPresence
  import opened TvmMachine

  const INT63: nat := 0x8000_0000_0000_0000
  const SUN_PER_ENERGY: int := 100

  function MinInt(a: int, b: int): int { if a < b then a else b }
  function MaxInt(a: int, b: int): int { if a < b then b else a }

  /** The dynamic energy fee with its floor: the larger of it and 100 sun. */
  function EnergyPrice(dynamicFee: int): (p: int)
    ensures p >= 100 && p >= dynamicFee && (p == 100 || p == dynamicFee)
  {
    MaxInt(SUN_PER_ENERGY, dynamicFee)
  }

  /** Energy an account can afford: stake plus what spendable balance buys, capped by the fee limit. */
  function AccountEnergyLimit(frozenEnergy: int, balance: int, callValue: int, feeLimit: int, dynamicFee: int): int {
    var price := EnergyPrice(dynamicFee);
    var spendable := MaxInt(balance - callValue, 0);
    MinInt(frozenEnergy + spendable / price, TruncDiv(feeLimit, price))
  }

  datatype Bill = Bill(
    energyUsed: int, callerEnergy: int, originEnergy: int, callerIsOrigin: bool,
    consumeUserPercent: int, originEnergyLimit: int, energyFee: int)

  datatype Receipt = Receipt(energyUsage: int, originEnergyUsage: int, energyFee: int, energyUsageTotal: int)

  function OriginUsage(b: Bill): int {
    if b.callerIsOrigin then 0
    else
      var percent := MaxInt(100 - b.consumeUserPercent, 0);
      MinInt(TruncDiv(b.energyUsed * percent, 100), MinInt(b.originEnergy, b.originEnergyLimit))
  }

  /** Splits the energy bill: the origin pays its share from stake only, the caller from stake and then by burning. */
  function Split(b: Bill): Receipt {
    if b.energyUsed <= 0 then Receipt(0, 0, 0, 0)
    else
      var origin := OriginUsage(b);
      var caller := b.energyUsed - origin;
      if b.callerEnergy >= caller then Receipt(caller, origin, 0, b.energyUsed)
      else Receipt(b.callerEnergy, origin, (caller - b.callerEnergy) * EnergyPrice(b.energyFee), b.energyUsed)
  }

  /** Total energy is what the caller staked, what the origin staked and what was burned, to the unit. */
  lemma ReceiptAddsUp(b: Bill)
    ensures var r := Split(b);
            && r.energyFee >= 0
            && r.energyFee % EnergyPrice(b.energyFee) == 0
            && r.energyUsageTotal == r.energyUsage + r.originEnergyUsage + r.energyFee / EnergyPrice(b.energyFee)
  {
    var r, p := Split(b), EnergyPrice(b.energyFee);
    if b.energyUsed > 0 && b.callerEnergy < b.energyUsed - OriginUsage(b) {
      var n := b.energyUsed - OriginUsage(b) - b.callerEnergy;
      assert r.energyFee == n * p;
      MultipleDivides(n, p);
    }
  }

  /** The origin's share: the largest whole number of units within its percentage, its stake and its own limit. */
  lemma OriginShareExact(b: Bill, n: nat)
    requires b.energyUsed >= 0 && b.originEnergy >= 0 && b.originEnergyLimit >= 0
    ensures b.callerIsOrigin ==> OriginUsage(b) == 0
    ensures !b.callerIsOrigin ==>
              (n <= OriginUsage(b) <==>
                 && n <= b.originEnergy && n <= b.originEnergyLimit
                 && n * 100 <= if b.consumeUserPercent <= 100 then b.energyUsed * (100 - b.consumeUserPercent) else 0)
  {
    var percent := MaxInt(100 - b.consumeUserPercent, 0);
    MulMono(0, b.energyUsed, percent);
    QuotientBracket(b.energyUsed * percent, 100);
  }

  /** The caller's share comes from its stake first; only what the stake does not cover is burned. */
  lemma StakePaysFirst(b: Bill)
    requires b.energyUsed > 0
    ensures var r := Split(b);
            && r.originEnergyUsage == OriginUsage(b)
            && r.energyUsage <= b.callerEnergy
            && (r.energyFee > 0 <==> b.callerEnergy < b.energyUsed - OriginUsage(b))
            && (r.energyFee > 0 ==> r.energyUsage == b.callerEnergy)
  {
    ReceiptAddsUp(b);
    hide OriginUsage, EnergyPrice;
    var short := b.energyUsed - OriginUsage(b) - b.callerEnergy;
    if short > 0 {
      MulMono(1, short, EnergyPrice(b.energyFee));
    }
  }

  /** A bill for energy within the budget never burns more than the spendable balance or the fee limit. */
  lemma BurnBounded(used: nat, frozen: nat, balance: int, callValue: int, feeLimit: int, fee: int, b: Bill)
    requires used <= MaxInt(0, AccountEnergyLimit(frozen, balance, callValue, feeLimit, fee))
    requires b.energyUsed == used && b.callerEnergy == frozen && b.energyFee == fee
    requires b.originEnergy >= 0 && b.originEnergyLimit >= 0
    ensures Split(b).energyFee <= MaxInt(balance - callValue, 0)
    ensures Split(b).energyFee <= MaxInt(feeLimit, 0)
  {
    var price := EnergyPrice(fee);
    var spendable := MaxInt(balance - callValue, 0);
    OriginUsageNonNegative(b);
    if b.energyUsed > 0 && frozen < b.energyUsed - OriginUsage(b) {
      hide OriginUsage, EnergyPrice;
      var burned := b.energyUsed - OriginUsage(b) - frozen;
      BoughtWithin(burned, spendable, price);
      BoughtWithin(burned, feeLimit, price);
    }
  }

  lemma OriginUsageNonNegative(b: Bill)
    requires b.originEnergy >= 0 && b.originEnergyLimit >= 0 && b.energyUsed >= 0
    ensures OriginUsage(b) >= 0
  {
    var percent := MaxInt(100 - b.consumeUserPercent, 0);
    MulMono(0, b.energyUsed, percent);
  }

  /** Energy units that fit into an amount cost at most that amount. */
  lemma BoughtWithin(units: int, amount: int, price: int)
    requires price > 0 && 0 < units <= TruncDiv(amount, price)
    ensures units * price <= amount
  {
    QuotientBracket(amount, price);
    MulMono(units, amount / price, price);
  }

  /** int64(u.Uint64()): the low 64 bits read as a signed number. */
  function AsInt64(w: Word): int {
    var low := w % UINT64;
    if low < INT63 then low else low - UINT64
  }

  /** uint64(v) of a signed 64-bit number. */
  function AsUint64(v: int): Word { v % UINT64 }

  /** The two readings undo each other: signed amounts come back, and balances below 2^63 read as they are. */
  lemma SignedReadings(v: int, w: Word)
    requires -0x8000_0000_0000_0000 <= v < 0x8000_0000_0000_0000
    ensures AsInt64(AsUint64(v)) == v && AsUint64(v) < 0x1_0000_0000_0000_0000
    ensures w < 0x8000_0000_0000_0000 ==> AsInt64(w) == w
    ensures -0x8000_0000_0000_0000 <= AsInt64(w) < 0x8000_0000_0000_0000
    ensures AsUint64(AsInt64(w)) == w % 0x1_0000_0000_0000_0000
  {
  }

  datatype Tx = Tx(
    create: bool, owner: Address, target: Address, code: Bytes, input: Bytes, callValue: int, feeLimit: int,
    consumeUserPercent: int, originEnergyLimit: int)

  datatype TxOutcome = TxOutcome(accounts: Accounts, logs: seq<Log>, reverted: bool, used: nat, bill: Receipt)

  function TxBudget(tx: Tx, frozen: nat, fee: int, m: Accounts): nat {
    MaxInt(0, AccountEnergyLimit(frozen, AsInt64(BalanceOf(m, tx.owner)), tx.callValue, tx.feeLimit, fee))
  }

  /** Accounts when the top frame starts: a deployed account exists and the call value has moved, unchecked. */
  function Endowed(tx: Tx, m: Accounts): Accounts {
    var born := if tx.create then WithAccount(m, tx.target) else m;
    if tx.callValue > 0 then Transfer(born, tx.owner, tx.target, AsUint64(tx.callValue)) else born
  }

  function TopOutcome(env: Env, tx: Tx, frozen: nat, fee: int, m: Accounts): Outcome {
    var c := Contract(tx.target, tx.owner, tx.owner, AsUint64(tx.callValue), tx.input, tx.code);
    Run(env, c, false, 0, StartFrame(TxBudget(tx, frozen, fee, m)), World(Endowed(tx, m), []))
  }

  /** Accounts after execution and before the burn: rolled back, deployed, or as the run left them. */
  function Executed(tx: Tx, m: Accounts, o: Outcome): Accounts {
    if !o.status.Ended? then m
    else if tx.create then WithCode(o.world.accounts, tx.target, o.ret)
    else o.world.accounts
  }

  /** A creator is its own origin; for a call the caller bears everything. */
  function TxBill(tx: Tx, frozen: nat, fee: int, used: nat): Receipt {
    Split(
      if tx.create then Bill(used, frozen, 0, true, tx.consumeUserPercent, tx.originEnergyLimit, fee)
      else Bill(used, frozen, 0, false, 100, 0, fee))
  }

  /** The whole transaction. */
  function Transact(env: Env, tx: Tx, frozen: nat, fee: int, m: Accounts): TxOutcome {
    var o := TopOutcome(env, tx, frozen, fee, m);
    var used := TxBudget(tx, frozen, fee, m) - o.remaining;
    var bill := TxBill(tx, frozen, fee, used);
    var done := Executed(tx, m, o);
    var burned := if bill.energyFee > 0 then Debit(done, tx.owner, AsUint64(bill.energyFee)) else done;
    TxOutcome(burned, if o.status.Ended? then o.world.logs else [], !o.status.Ended?, used, bill)
  }

  /** The transaction as it is carried out on the working state: snapshot, endow, run, settle, bill, burn. */
  method ExecuteTx(env: Env, state: MemStateDb, tx: Tx, frozen: nat, fee: int) returns (t: TxOutcome)
    modifies state
    ensures t == Transact(env, tx, frozen, fee, old(state.accounts))
    ensures state.accounts == t.accounts
  {
    hide Run, Split;
    ghost var m := state.accounts;
    var budget := TxBudget(tx, frozen, fee, state.accounts);
    var value := AsUint64(tx.callValue);
    var snap := state.Snapshot();
    if tx.create {
      state.CreateAccount(tx.target);
    }
    if tx.callValue > 0 {
      state.SubBalance(tx.owner, value);
      state.AddBalance(tx.target, value);
    }
    assert state.accounts == Endowed(tx, m);
    var evm := new Evm(env, state);
    var res := evm.RunChild(Contract(tx.target, tx.owner, tx.owner, value, tx.input, tx.code), budget, false);
    assert Reports(res, TopOutcome(env, tx, frozen, fee, m), budget);
    var reverted := res.err != None || res.reverted;
    if reverted {
      state.RevertToSnapshot(snap);
    } else if tx.create {
      state.SetCode(tx.target, res.ret);
    }
    var bill := TxBill(tx, frozen, fee, res.energyUsed);
    if bill.energyFee > 0 {
      state.SubBalance(tx.owner, AsUint64(bill.energyFee));
    }
    t := TxOutcome(state.accounts, if reverted then [] else evm.logs, reverted, res.energyUsed, bill);
  }

  /** What a caller must check: a call value the owner can pay. */
  predicate Covered(tx: Tx, m: Accounts) { 0 <= tx.callValue <= BalanceOf(m, tx.owner) }

  /** Energy beyond the stake is burned at the energy price, nothing else. */
  lemma TxBillExact(tx: Tx, frozen: nat, fee: int, used: nat)
    ensures TxBill(tx, frozen, fee, used).energyFee == MaxInt(0, used - frozen) * EnergyPrice(fee)
    ensures var r := TxBill(tx, frozen, fee, used);
            && r.energyFee == (if used <= frozen then 0 else (used - frozen) * (if fee < 100 then 100 else fee))
            && r.energyUsage == (if used <= frozen then used else frozen)
            && r.originEnergyUsage == 0 && r.energyUsageTotal == used
  {
    assert TruncDiv(used * 0, 100) == 0;
  }

  /** The budget is the most energy the owner can pay for: n units fit exactly when both limits hold. */
  lemma BudgetIsGreatest(tx: Tx, frozen: nat, fee: int, m: Accounts, n: nat)
    ensures var price := if fee < 100 then 100 else fee;
            var left := AsInt64(BalanceOf(m, tx.owner)) - tx.callValue;
            n <= TxBudget(tx, frozen, fee, m) <==>
              n == 0 || (n * price <= tx.feeLimit && (n <= frozen || (n - frozen) * price <= left))
  {
    if n > 0 {
      AffordableIff(frozen, AsInt64(BalanceOf(m, tx.owner)), tx.callValue, tx.feeLimit, fee, n);
    }
    hide AccountEnergyLimit;
  }

  lemma AffordableIff(frozen: nat, balance: int, callValue: int, feeLimit: int, fee: int, n: nat)
    requires n > 0
    ensures var price := if fee < 100 then 100 else fee;
            n <= AccountEnergyLimit(frozen, balance, callValue, feeLimit, fee) <==>
              n * price <= feeLimit && (n <= frozen || (n - frozen) * price <= balance - callValue)
  {
    var price, left := EnergyPrice(fee), balance - callValue;
    assert price == if fee < 100 then 100 else fee;
    hide EnergyPrice;
    var spendable := MaxInt(left, 0);
    FitsIff(n, feeLimit, price);
    assert spendable / price >= 0;
    if n > frozen {
      FitsIff(n - frozen, spendable, price);
      MulMono(1, n - frozen, price);
    }
  }

  /** A positive number of units fits into an amount exactly when the quotient reaches it. */
  lemma FitsIff(n: nat, amount: int, price: int)
    requires price > 0 && n > 0
    ensures n <= TruncDiv(amount, price) <==> n * price <= amount
  {
    MulMono(1, n, price);
    if amount >= 0 {
      QuotientBracket(amount, price);
      if n <= amount / price {
        MulMono(n, amount / price, price);
      } else {
        MulMono(amount / price + 1, n, price);
      }
    }
  }

  /** A transaction that does not end well costs its owner the fee and changes nothing else. */
  lemma RevertedTxOnlyPays(env: Env, tx: Tx, frozen: nat, fee: int, m: Accounts)
    requires Transact(env, tx, frozen, fee, m).reverted
    ensures var t := Transact(env, tx, frozen, fee, m);
            && t.logs == []
            && (t.bill.energyFee == 0 ==> t.accounts == m)
            && (forall a :: a != tx.owner ==>
                 (a in t.accounts <==> a in m) && GetOrEmpty(t.accounts, a) == GetOrEmpty(m, a))
            && GetOrEmpty(t.accounts, tx.owner).(balance := 0) == GetOrEmpty(m, tx.owner).(balance := 0)
            && (t.bill.energyFee <= BalanceOf(m, tx.owner) && t.bill.energyFee < UINT64 ==>
                  BalanceOf(t.accounts, tx.owner) == BalanceOf(m, tx.owner) - t.bill.energyFee)
  {
    BurnWithinMax(env, tx, frozen, fee, m);
    DebitOnly(m, tx.owner, AsUint64(Transact(env, tx, frozen, fee, m).bill.energyFee));
    hide Run, Split, TxBudget, Debit, Endowed, MaxBurn, TxBill;
  }

  /** A debit touches one balance. */
  lemma DebitOnly(m: Accounts, a: Address, v: Word)
    ensures var d := Debit(m, a, v);
            && (forall b :: b != a ==> (b in d <==> b in m) && GetOrEmpty(d, b) == GetOrEmpty(m, b))
            && GetOrEmpty(d, a).(balance := 0) == GetOrEmpty(m, a).(balance := 0)
            && (v <= BalanceOf(m, a) ==> BalanceOf(d, a) == BalanceOf(m, a) - v)
  {
  }

  /** What a transaction that ends well leaves: the run's accounts and logs, the deployed code, less the fee. */
  lemma EndedTxKeepsRun(env: Env, tx: Tx, frozen: nat, fee: int, m: Accounts, c: Contract)
    requires !Transact(env, tx, frozen, fee, m).reverted
    requires c.self == tx.target && c.caller == tx.owner && c.origin == tx.owner && c.value == AsUint64(tx.callValue)
    requires c.input == tx.input && c.code == tx.code
    ensures var t := Transact(env, tx, frozen, fee, m);
            var o := Run(env, c, false, 0, StartFrame(TxBudget(tx, frozen, fee, m)), World(Endowed(tx, m), []));
            && o.status.Ended? && t.logs == o.world.logs
            && t.used + o.remaining == TxBudget(tx, frozen, fee, m)
            && (tx.create ==> GetOrEmpty(t.accounts, tx.target).code == o.ret)
            && (forall a :: a != tx.owner && !(tx.create && a == tx.target) ==>
                  GetOrEmpty(t.accounts, a) == GetOrEmpty(o.world.accounts, a))
  {
    hide Run, Split, TxBudget, Endowed;
  }

  /** The burn of any contract transaction is within the spendable balance and the fee limit. */
  lemma TxBurnBounded(env: Env, tx: Tx, frozen: nat, fee: int, m: Accounts)
    ensures var t := Transact(env, tx, frozen, fee, m);
            && t.used <= TxBudget(tx, frozen, fee, m)
            && 0 <= t.bill.energyFee <= MaxInt(AsInt64(BalanceOf(m, tx.owner)) - tx.callValue, 0)
            && t.bill.energyFee <= MaxInt(tx.feeLimit, 0)
  {
    BurnWithinMax(env, tx, frozen, fee, m);
    BudgetAffordable(tx, frozen, fee, m);
    hide TxBudget, Split, MaxBurn, Debit, Endowed;
  }

  /** What a transaction can burn at most. */
  function MaxBurn(tx: Tx, frozen: nat, fee: int, m: Accounts): int {
    MaxInt(0, TxBudget(tx, frozen, fee, m) - frozen) * EnergyPrice(fee)
  }

  lemma BudgetAffordable(tx: Tx, frozen: nat, fee: int, m: Accounts)
    ensures MaxBurn(tx, frozen, fee, m) <= MaxInt(AsInt64(BalanceOf(m, tx.owner)) - tx.callValue, 0)
    ensures MaxBurn(tx, frozen, fee, m) <= MaxInt(tx.feeLimit, 0)
  {
    var price, bought := EnergyPrice(fee), TxBudget(tx, frozen, fee, m) - frozen;
    hide EnergyPrice;
    if bought > 0 {
      BoughtWithin(bought, MaxInt(AsInt64(BalanceOf(m, tx.owner)) - tx.callValue, 0), price);
      BoughtWithin(bought, tx.feeLimit, price);
    }
  }

  /** An invalid opcode consumes the whole budget. */
  lemma InvalidCodeRun(env: Env, c: Contract, budget: nat, w: World)
    requires c.code == [0xfe]
    ensures Run(env, c, false, 0, StartFrame(budget), w) == Outcome(Failed(InvalidOpcode), [], 0, w)
  {
    hide Step, Run, Continue, EffectOk;
    InvalidStep(env, c, StartFrame(budget), w);
    RunLast(env, c, StartFrame(budget), w);
    ContinueFault(env, c, false, 0, StartFrame(budget), w, InvalidOpcode);
  }

  lemma InvalidStep(env: Env, c: Contract, f: Frame, w: World)
    requires f.pc < |c.code| && c.code[f.pc] == 0xfe && |f.stack| <= MAX_STACK
    ensures Step(env, c, false, f, w) == Fault(InvalidOpcode)
  {
    assert Decode(env.cfg, 0xfe) == Some(Invalid);
    hide Decode, MemPrice, CallPrice, SStorePrice, ByteLen, WordsForBytes, Onward, JumpTo, CopyInto, ReturnDataInto;
  }

  /** Whatever a transaction can burn at most, some code does burn. */
  lemma MaxBurnReached(env: Env, tx: Tx, frozen: nat, fee: int, m: Accounts)
    ensures Transact(env, tx.(code := [0xfe]), frozen, fee, m).bill.energyFee == MaxBurn(tx, frozen, fee, m)
  {
    hide Run, Split, Debit;
    var bad := tx.(code := [0xfe]);
    var budget := TxBudget(tx, frozen, fee, m);
    assert Endowed(bad, m) == Endowed(tx, m) && TxBudget(bad, frozen, fee, m) == budget;
    InvalidCodeRun(env, Contract(tx.target, tx.owner, tx.owner, AsUint64(tx.callValue), tx.input, [0xfe]), budget,
      World(Endowed(tx, m), []));
    TxBillExact(bad, frozen, fee, budget);
  }

  lemma BurnWithinMax(env: Env, tx: Tx, frozen: nat, fee: int, m: Accounts)
    ensures var t := Transact(env, tx, frozen, fee, m);
            t.used <= TxBudget(tx, frozen, fee, m) && 0 <= t.bill.energyFee <= MaxBurn(tx, frozen, fee, m)
  {
    hide Run, Split, EnergyPrice, AccountEnergyLimit;
    var used := TxBudget(tx, frozen, fee, m) - TopOutcome(env, tx, frozen, fee, m).remaining;
    TxBillExact(tx, frozen, fee, used);
    MulMono(0, MaxInt(0, used - frozen), EnergyPrice(fee));
    MulMono(MaxInt(0, used - frozen), MaxInt(0, TxBudget(tx, frozen, fee, m) - frozen), EnergyPrice(fee));
  }

  /** The burn of a transaction running this code stays within a bound. */
  ghost predicate BurnFits(env: Env, tx: Tx, code: Bytes, frozen: nat, fee: int, m: Accounts, bound: int) {
    Transact(env, tx.(code := code), frozen, fee, m).bill.energyFee <= bound
  }

  /**
   The burn fits a bound, such as the owner's balance, for every code exactly when the energy that must be bought
   does.
   */
  lemma BurnFitsIff(env: Env, tx: Tx, frozen: nat, fee: int, m: Accounts, bound: int)
    ensures (forall code: Bytes :: BurnFits(env, tx, code, frozen, fee, m, bound)) <==>
              MaxBurn(tx, frozen, fee, m) <= bound
  {
    hide Transact, TxBudget;
    MaxBurnReached(env, tx, frozen, fee, m);
    if MaxBurn(tx, frozen, fee, m) <= bound {
      forall code: Bytes
        ensures BurnFits(env, tx, code, frozen, fee, m, bound)
      {
        BurnWithinMax(env, tx.(code := code), frozen, fee, m);
        SameMaxBurn(tx, code, frozen, fee, m);
      }
    } else {
      assert !BurnFits(env, tx, [0xfe], frozen, fee, m, bound);
    }
  }

  lemma SameMaxBurn(tx: Tx, code: Bytes, frozen: nat, fee: int, m: Accounts)
    ensures MaxBurn(tx.(code := code), frozen, fee, m) == MaxBurn(tx, frozen, fee, m)
  {
  }

  /** In particular the burn fits the balance for every code when the call value is not negative. */
  lemma NonNegativeCallValueFits(env: Env, tx: Tx, frozen: nat, fee: int, m: Accounts)
    requires 0 <= tx.callValue && BalanceOf(m, tx.owner) < INT63
    ensures forall code: Bytes :: BurnFits(env, tx, code, frozen, fee, m, BalanceOf(m, tx.owner))
  {
    hide BurnFits;
    BudgetAffordable(tx, frozen, fee, m);
    BurnFitsIff(env, tx, frozen, fee, m, BalanceOf(m, tx.owner));
    hide MaxBurn;
  }

  /** Accounts before the call value moves: the deployed account exists, and nobody's balance or code is touched. */
  function Born(tx: Tx, m: Accounts): Accounts { if tx.create then WithAccount(m, tx.target) else m }

  lemma BornSame(tx: Tx, m: Accounts)
    ensures Total(Born(tx, m)) == Total(m)
    ensures forall a :: BalanceOf(Born(tx, m), a) == BalanceOf(m, a)
    ensures forall a :: GetOrEmpty(Born(tx, m), a).code == GetOrEmpty(m, a).code
  {
    hide Total;
    if tx.target !in m {
      TotalSameBalance(m, tx.target, EMPTY_ACCOUNT);
    }
  }

  lemma EndowedConserves(tx: Tx, m: Accounts)
    requires Covered(tx, m) && Total(m) < INT63
    ensures Total(Endowed(tx, m)) == Total(m)
    ensures tx.owner != tx.target ==>
              && BalanceOf(Endowed(tx, m), tx.owner) == BalanceOf(m, tx.owner) - tx.callValue
              && BalanceOf(Endowed(tx, m), tx.target) == BalanceOf(m, tx.target) + tx.callValue
    ensures GetOrEmpty(Endowed(tx, m), tx.owner).code == GetOrEmpty(m, tx.owner).code
  {
    BornSame(tx, m);
    hide Total, WithAccount;
    BalanceBelowTotal(m, tx.owner);
    if tx.callValue > 0 {
      assert AsUint64(tx.callValue) == tx.callValue;
      TransferConserves(Born(tx, m), tx.owner, tx.target, tx.callValue);
    }
  }

  /** The unchecked top-level transfer conserves exactly when the owner covers it, or pays itself. */
  lemma EndowedConservesIff(tx: Tx, m: Accounts)
    requires Total(m) < INT63 && tx.callValue < INT63
    ensures Total(Endowed(tx, m)) == Total(m) <==> tx.callValue <= BalanceOf(m, tx.owner) || tx.owner == tx.target
  {
    BornSame(tx, m);
    hide Total, WithAccount, Transfer;
    BalanceBelowTotal(m, tx.owner);
    if tx.callValue > BalanceOf(m, tx.owner) {
      WrappedTransfer(Born(tx, m), tx.owner, tx.target, tx.callValue);
    } else if tx.callValue > 0 {
      TransferConserves(Born(tx, m), tx.owner, tx.target, tx.callValue);
    }
  }

  lemma DebitWraps(m: Accounts, a: Address, v: Word)
    requires BalanceOf(m, a) < v
    ensures Debit(m, a, v) == WithBalance(m, a, BalanceOf(m, a) - v + UINT256)
  {
  }

  lemma CreditIs(m: Accounts, a: Address, v: Word, b: Word)
    requires BalanceOf(m, a) + v == b || BalanceOf(m, a) + v == b + UINT256
    ensures Credit(m, a, v) == WithBalance(m, a, b)
  {
  }

  lemma WrappedTransfer(m: Accounts, from: Address, to: Address, v: Word)
    requires Total(m) < INT63 && BalanceOf(m, from) < v < INT63
    ensures Total(Transfer(m, from, to, v)) == if from == to then Total(m) else Total(m) + UINT256
  {
    hide Total;
    var owed := BalanceOf(m, from) - v + UINT256;
    BalanceBelowTotal(m, from);
    BalanceBelowTotal(m, to);
    DebitWraps(m, from, v);
    TotalWithBalance(m, from, owed);
    var paid := WithBalance(m, from, owed);
    var b := if from == to then BalanceOf(m, from) else BalanceOf(m, to) + v;
    CreditIs(paid, to, v, b);
    TotalWithBalance(paid, to, b);
  }

  lemma ExecutedConserves(env: Env, tx: Tx, frozen: nat, fee: int, m: Accounts)
    requires Covered(tx, m) && Total(m) < INT63
    ensures Total(Executed(tx, m, TopOutcome(env, tx, frozen, fee, m))) == Total(m)
  {
    hide Total, Run;
    EndowedConserves(tx, m);
    var c := Contract(tx.target, tx.owner, tx.owner, AsUint64(tx.callValue), tx.input, tx.code);
    RunConserves(env, c, false, 0, StartFrame(TxBudget(tx, frozen, fee, m)), World(Endowed(tx, m), []));
    var o := TopOutcome(env, tx, frozen, fee, m);
    TotalSameBalance(o.world.accounts, tx.target, GetOrEmpty(o.world.accounts, tx.target).(code := o.ret));
  }

  /** Exactly the fee leaves circulation if and only if the owner can still pay it after the execution. */
  lemma TxConserves(env: Env, tx: Tx, frozen: nat, fee: int, m: Accounts)
    requires Covered(tx, m) && Total(m) < INT63
    ensures var t := Transact(env, tx, frozen, fee, m);
            var left := BalanceOf(Executed(tx, m, TopOutcome(env, tx, frozen, fee, m)), tx.owner);
            && (Total(t.accounts) == Total(m) - t.bill.energyFee <==> t.bill.energyFee <= left)
            && (t.bill.energyFee <= left ==> BalanceOf(t.accounts, tx.owner) == left - t.bill.energyFee)
  {
    hide Total, Run, Split, Executed, TopOutcome, TxBudget;
    ExecutedConserves(env, tx, frozen, fee, m);
    TxBurnBounded(env, tx, frozen, fee, m);
    var done := Executed(tx, m, TopOutcome(env, tx, frozen, fee, m));
    var e := Transact(env, tx, frozen, fee, m).bill.energyFee;
    BalanceBelowTotal(done, tx.owner);
    BalanceBelowTotal(m, tx.owner);
    if e > 0 {
      var left := if e <= BalanceOf(done, tx.owner) then BalanceOf(done, tx.owner) - e
        else BalanceOf(done, tx.owner) - e + UINT256;
      assert AsUint64(e) == e;
      assert Debit(done, tx.owner, e) == WithBalance(done, tx.owner, left);
      TotalWithBalance(done, tx.owner, left);
    }
  }

  /** An owner that is an ordinary account can always pay: the burn never wraps, whatever the contract does. */
  lemma OrdinaryOwnerPays(env: Env, tx: Tx, frozen: nat, fee: int, m: Accounts)
    requires Covered(tx, m) && Total(m) < INT63
    requires tx.owner != tx.target && GetOrEmpty(m, tx.owner).code == [] && NeverCreated(env, tx.owner)
    ensures var t := Transact(env, tx, frozen, fee, m);
            && Total(t.accounts) == Total(m) - t.bill.energyFee
            && BalanceOf(t.accounts, tx.owner) >=
               BalanceOf(m, tx.owner) - t.bill.energyFee - (if t.reverted then 0 else tx.callValue)
  {
    hide Total, Run, Split, Executed, Endowed, Debit, TxBudget, Credit;
    BalanceBelowTotal(m, tx.owner);
    assert AsInt64(BalanceOf(m, tx.owner)) == BalanceOf(m, tx.owner);
    TxBurnBounded(env, tx, frozen, fee, m);
    EndowedConserves(tx, m);
    var c := Contract(tx.target, tx.owner, tx.owner, AsUint64(tx.callValue), tx.input, tx.code);
    BystanderNotDebited(env, c, false, 0, StartFrame(TxBudget(tx, frozen, fee, m)), World(Endowed(tx, m), []),
      tx.owner);
    OwnerKeeps(tx, m, TopOutcome(env, tx, frozen, fee, m));
    TxConserves(env, tx, frozen, fee, m);
  }

  lemma OwnerKeeps(tx: Tx, m: Accounts, o: Outcome)
    requires tx.owner != tx.target && BalanceOf(Endowed(tx, m), tx.owner) == BalanceOf(m, tx.owner) - tx.callValue
    requires Kept(Endowed(tx, m), o.world.accounts, tx.owner)
    ensures BalanceOf(Executed(tx, m, o), tx.owner) >=
            BalanceOf(m, tx.owner) - if o.status.Ended? then tx.callValue else 0
  {
    hide Endowed;
  }

  /** Run on the target's own code, a transaction sets the nonce of accounts on record only. */
  lemma TxCreatorsPresent(env: Env, tx: Tx, frozen: nat, fee: int, m: Accounts)
    requires tx.create || tx.code == GetOrEmpty(m, tx.target).code
    ensures var c := Contract(tx.target, tx.owner, tx.owner, AsUint64(tx.callValue), tx.input, tx.code);
            CreatorsPresent(env, c, false, 0, StartFrame(TxBudget(tx, frozen, fee, m)), World(Endowed(tx, m), []))
  {
    hide Run, CreatorsPresent, TxBudget;
    var c := Contract(tx.target, tx.owner, tx.owner, AsUint64(tx.callValue), tx.input, tx.code);
    RunStands(env, c, false, 0, StartFrame(TxBudget(tx, frozen, fee, m)), World(Endowed(tx, m), []));
  }

  // ---- an owner that spends its fee while it runs ----

  /** PUSH1 0, PUSH1 0, PUSH1 200, CREATE: endows an empty new contract with 200. */
  const SPENDING: Bytes := [0x60, 0, 0x60, 0, 0x60, 200, 0xf0]

  function Spender(): Contract { Contract(1, 1, 1, 0, [], SPENDING) }

  lemma PushOne(env: Env, c: Contract, f: Frame, w: World)
    requires f.pc + 1 < |c.code| && c.code[f.pc] == 0x60 && |f.stack| < MAX_STACK && f.remaining >= 3
    ensures Step(env, c, false, f, w) ==
            Next(f.(pc := f.pc + 2, stack := f.stack + [c.code[f.pc + 1] as Word], remaining := f.remaining - 3), w)
  {
    assert CopySlice(c.code, f.pc + 1, 1) == [c.code[f.pc + 1]];
    assert [c.code[f.pc + 1]][..0] == [];
    assert BigEndian([c.code[f.pc + 1]]) == c.code[f.pc + 1];
    assert Decode(env.cfg, 0x60) == Some(Push(1));
  }

  lemma RunNext(env: Env, c: Contract, f: Frame, w: World, g: Frame)
    requires FrameOk(c.code, f) && f.pc < |c.code| && Step(env, c, false, f, w) == Next(g, w)
    ensures FrameOk(c.code, g) && Run(env, c, false, 0, f, w) == Run(env, c, false, 0, g, w)
  {
    StepOk(env, c, false, f, w);
    hide Step;
  }

  lemma CreateStep(env: Env, c: Contract, f: Frame, w: World)
    requires f.pc < |c.code| && c.code[f.pc] == 0xf0 && f.stack == [0, 0, 200] && f.remaining >= CREATE_BASE &&
               f.mem == []
    ensures Step(env, c, false, f, w) ==
            CreateOut(CreateRequest(200, [], None),
              f.(pc := f.pc + 1, stack := [], remaining := f.remaining - CREATE_BASE))
  {
    assert Decode(env.cfg, 0xf0) == Some(Create);
    assert ReadMem([], 0, 0) == [] && Touch([], 0, 0) == [];
    assert Drop(f.stack, 3) == [];
  }

  /** Running off the end of the code. */
  lemma RunEnds(env: Env, c: Contract, depth: nat, f: Frame, w: World)
    requires depth <= MAX_DEPTH && FrameOk(c.code, f) && f.pc >= |c.code|
    ensures Run(env, c, false, depth, f, w) == Outcome(Ended, [], f.remaining, w)
  {
  }

  /** The creation itself: the child has nothing to run, and the endowment is gone. */
  lemma CreateDone(env: Env, f: Frame, g: Frame, w: World)
    requires f.pc == 6 && FrameOk(SPENDING, f) && g.pc == 7 && g.stack == [] && g.remaining == 1 && FrameOk(SPENDING, g)
    requires f.remaining >= 1 + CREATE_BASE
    requires BalanceOf(w.accounts, 1) == 200 && GetOrEmpty(w.accounts, 1).nonce == 0
    requires env.createAddress(0) != 1 && BalanceOf(w.accounts, env.createAddress(0)) == 0
    ensures var e := CreateOut(CreateRequest(200, [], None), g);
            EffectOk(SPENDING, f, e) &&
            var o := Continue(env, Spender(), false, 0, f, w, e);
            o.status == Ended && o.remaining == 1 && BalanceOf(o.world.accounts, 1) == 0
  {
    var c, q, a := Spender(), CreateRequest(200, [], None), env.createAddress(0);
    ContinueCreate(env, c, false, 0, f, w, q, g);
    var entry := EnterCreate(env, c, false, 0, q, g, w);
    assert CreateBudget(env, g) == 1;
    assert entry.Enter? && entry.contract.code == [] && entry.budget == 1 && BalanceOf(entry.world.accounts, 1) == 0;
    RunEnds(env, entry.contract, 1, StartFrame(1), entry.world);
    hide Run;
    var child := Child(env, 0, entry);
    assert child == Outcome(Ended, [], 1, entry.world);
    var v := SettleCreate(Bumped(c, w), a, child);
    assert BalanceOf(v.accounts, 1) == 0;
    RunEnds(env, c, 0, LeaveCreate(env, g, a, child), v);
  }

  /** After the three pushes. */
  function Loaded(): Frame { Frame(6, [0, 0, 200], [], [], 32001) }

  lemma PushesRun(env: Env, w: World)
    ensures FrameOk(SPENDING, Loaded())
    ensures Run(env, Spender(), false, 0, StartFrame(32010), w) == Run(env, Spender(), false, 0, Loaded(), w)
  {
    hide Step, Run;
    var c := Spender();
    var f0 := StartFrame(32010);
    var f1 := Frame(2, [0], [], [], 32007);
    var f2 := Frame(4, [0, 0], [], [], 32004);
    PushOne(env, c, f0, w);
    PushOne(env, c, f1, w);
    PushOne(env, c, f2, w);
    RunNext(env, c, f0, w, f1);
    RunNext(env, c, f1, w, f2);
    RunNext(env, c, f2, w, Loaded());
  }

  lemma SpendingRun(env: Env, w: World)
    requires env.createAddress(0) != 1 && w == World(map[1 := Account(200, 0, SPENDING, map[])], [])
    ensures var o := Run(env, Spender(), false, 0, StartFrame(32010), w);
            o.status == Ended && o.remaining == 1 && BalanceOf(o.world.accounts, 1) == 0
  {
    PushesRun(env, w);
    CreateStep(env, Spender(), Loaded(), w);
    RunLast(env, Spender(), Loaded(), w);
    hide Step, Run, Continue;
    CreateDone(env, Loaded(), Frame(7, [], [], [], 1), w);
  }

  lemma RunLast(env: Env, c: Contract, f: Frame, w: World)
    requires FrameOk(c.code, f) && f.pc < |c.code|
    ensures EffectOk(c.code, f, Step(env, c, false, f, w))
    ensures Run(env, c, false, 0, f, w) == Continue(env, c, false, 0, f, w, Step(env, c, false, f, w))
  {
    StepOk(env, c, false, f, w);
    hide Step;
  }

  /**
   The failing side of TxConserves is real: a covered transaction of a contract owner that gives its fee away
   first.
   */
  lemma OwnerSpendsItsFee(env: Env, tx: Tx, m: Accounts)
    requires env.createAddress(0) != 1
    requires tx == Tx(false, 1, 1, SPENDING, [], 0, 10_000_000, 100, 0) &&
               m == map[1 := Account(200, 0, SPENDING, map[])]
    ensures Covered(tx, m) && Total(m) < INT63
    ensures var t := Transact(env, tx, 32008, 0, m);
            !t.reverted && t.bill.energyFee == 100 && BalanceOf(t.accounts, 1) == UINT256 - 100
  {
    hide Run;
    assert TxBudget(tx, 32008, 0, m) == 32010;
    SpendingRun(env, World(m, []));
    TxBillExact(tx, 32008, 0, 32009);
    hide Split;
    assert Total(m) == 200 by {
      assert Balances(m) == map[][1 := 200];
      SumUpdate(map[], 1 as Address, 200);
    }
  }

  /** An instance of the failing side: a negative call value widens the budget past the balance, and the burn wraps. */
  lemma NegativeCallValueOverspends(env: Env, tx: Tx, m: Accounts)
    requires tx == Tx(false, 1, 2, [0xfe], [], -1000, 1000, 100, 0)
    requires m == map[1 := EMPTY_ACCOUNT, 2 := EMPTY_ACCOUNT]
    ensures MaxBurn(tx, 0, 0, m) == 1000 > BalanceOf(m, 1) as int
    ensures var t := Transact(env, tx, 0, 0, m);
            t.bill.energyFee == 1000 && BalanceOf(m, 1) == 0 && BalanceOf(t.accounts, 1) == UINT256 - 1000
  {
    hide Run, Split;
    assert TxBudget(tx, 0, 0, m) == 10;
    MaxBurnReached(env, tx, 0, 0, m);
    assert tx.(code := [0xfe]) == tx;
    InvalidCodeRun(env, Contract(2, 1, 1, AsUint64(-1000), [], [0xfe]), 10, World(m, []));
  }

  /** Without the balance check the top-level transfer wraps: a transaction of an empty account mints its call value. */
  lemma UncoveredCallValueMints(env: Env, tx: Tx, m: Accounts)
    requires tx == Tx(false, 1, 2, [], [], 5, 1000, 100, 0)
    requires m == map[1 := EMPTY_ACCOUNT, 2 := EMPTY_ACCOUNT]
    ensures !Covered(tx, m)
    ensures var t := Transact(env, tx, 0, 0, m);
            !t.reverted && BalanceOf(t.accounts, 2) == 5 && BalanceOf(t.accounts, 1) == UINT256 - 5
  {
    var o := TopOutcome(env, tx, 0, 0, m);
    assert TxBudget(tx, 0, 0, m) == 0;
    assert o == Outcome(Ended, [], 0, World(Endowed(tx, m), []));
    hide Run;
    var t := Transact(env, tx, 0, 0, m);
    assert t.accounts == Endowed(tx, m);
  }
}
