/** What every TVM execution keeps: read-only frames, conserved balances, atomic child frames, exact energy. */
module TvmProps {
  import opened Options
  import opened MapSums
  import opened TvmTypes
  import opened TvmSpec
  import opened TvmRun

  // ---- read-only frames ----

  lemma ExecReadOnly(env: Env, c: Contract, f: Frame, w: World, i: Instr)
    requires f.pc < |c.code| && |f.stack| >= Pops(i)
    ensures Exec(env, c, true, f, w, i).Next? ==> Exec(env, c, true, f, w, i).world == w
  {
    hide ExecLocal, ReadMem, Touch, Drop, WithSlot;
  }

  lemma StepReadOnly(env: Env, c: Contract, f: Frame, w: World, decoded: Option<Instr>)
    requires f.pc < |c.code|
    ensures var e := StepDecoded(env, c, true, f, w, decoded);
            e.Next? ==> e.world == w
  {
    hide Exec, PriceOf;
    match decoded
    case None =>
    case Some(i) =>
      if |f.stack| >= Pops(i) {
        match PriceOf(env, c, f, w, i)
        case Refused(_) =>
        case Cost(e) =>
          if e <= f.remaining {
            ExecReadOnly(env, c, f.(remaining := f.remaining - e), w, i);
          }
      }
  }

  /** A read-only frame changes no account and no log, however deep its calls go and however it ends. */
  lemma {:induction false} ReadOnlyRun(env: Env, c: Contract, depth: nat, f: Frame, w: World)
    requires depth <= MAX_DEPTH && FrameOk(c.code, f)
    ensures Run(env, c, true, depth, f, w).world == w
    decreases MAX_DEPTH - depth, f.remaining, CodeLeft(c.code, f.pc), 1
  {
    if f.pc < |c.code| {
      StepOk(env, c, true, f, w);
      StepReadOnly(env, c, f, w, Decode(env.cfg, c.code[f.pc]));
      ReadOnlyContinue(env, c, depth, f, w, Step(env, c, true, f, w));
    }
  }

  lemma {:induction false} ReadOnlyContinue(env: Env, c: Contract, depth: nat, f: Frame, w: World, e: Effect)
    requires depth <= MAX_DEPTH && f.pc < |c.code| && EffectOk(c.code, f, e)
    requires e.Next? ==> e.world == w
    ensures Continue(env, c, true, depth, f, w, e).world == w
    decreases MAX_DEPTH - depth, f.remaining, CodeLeft(c.code, f.pc), 0
  {
    match e
    case Fault(_) =>
    case Halt(_, _, _) =>
    case Next(g, _) => ReadOnlyRun(env, c, depth, g, w);
    case CallOut(q, g) =>
      var entry := EnterCall(env, c, true, depth, q, g, w);
      if entry.NotRun? {
        ReadOnlyRun(env, c, depth, Skip(g), w);
      } else if !entry.Rejected? {
        var child := Child(env, depth, entry);
        if entry.Enter? {
          ReadOnlyRun(env, entry.contract, depth + 1, StartFrame(entry.budget), w);
        }
        ReadOnlyRun(env, c, depth, LeaveCall(env, q, g, child), w);
      }
    case CreateOut(_, _) =>
  }

  /** STATICCALL, from any frame: balances, storage, code, nonces and logs are as before, success or not. */
  lemma StaticCallKeepsWorld(env: Env, c: Contract, readOnly: bool, depth: nat, f: Frame, w: World)
    requires f.pc < |c.code| && depth <= MAX_DEPTH
    ensures var e := Step(env, c, readOnly, f, w);
            e.CallOut? && e.call.kind.StaticCall? ==>
              var entry := EnterCall(env, c, readOnly, depth, e.call, e.frame, w);
              && !entry.Rejected?
              && (entry.Builtin? || entry.Enter? ==>
                    Child(env, depth, entry).world == w && Settle(w, Child(env, depth, entry)) == w)
  {
    var e := Step(env, c, readOnly, f, w);
    StaticCallHasNoValue(env, c, readOnly, f, w, Decode(env.cfg, c.code[f.pc]));
    hide Step, Run;
    if e.CallOut? && e.call.kind.StaticCall? {
      StaticEntryKeepsWorld(env, c, readOnly, depth, e.call, e.frame, w);
    }
  }

  lemma StaticCallHasNoValue(env: Env, c: Contract, readOnly: bool, f: Frame, w: World, decoded: Option<Instr>)
    requires f.pc < |c.code|
    ensures var e := StepDecoded(env, c, readOnly, f, w, decoded);
            e.CallOut? && e.call.kind.StaticCall? ==> e.call.value == 0
  {
    hide Exec, PriceOf;
    match decoded
    case None =>
    case Some(i) =>
      if |f.stack| >= Pops(i) {
        match PriceOf(env, c, f, w, i)
        case Refused(_) =>
        case Cost(e) =>
          if e <= f.remaining {
            ExecShape(env, c, readOnly, f.(remaining := f.remaining - e), w, i);
          }
      }
  }

  lemma StaticEntryKeepsWorld(env: Env, c: Contract, readOnly: bool, depth: nat, q: CallRequest, g: Frame, w: World)
    requires q.kind.StaticCall? && q.value == 0 && depth <= MAX_DEPTH
    ensures var entry := EnterCall(env, c, readOnly, depth, q, g, w);
            && !entry.Rejected?
            && (entry.Builtin? || entry.Enter? ==> Child(env, depth, entry).world == w)
  {
    hide Run;
    var entry := EnterCall(env, c, readOnly, depth, q, g, w);
    if entry.Enter? {
      ReadOnlyRun(env, entry.contract, depth + 1, StartFrame(entry.budget), w);
    }
  }

  // ---- conservation of balances ----

  ghost function Balances(m: Accounts): map<Address, int> { map a | a in m :: m[a].balance as int }

  /** Sum of all account balances. */
  ghost function Total(m: Accounts): int { Sum(Balances(m)) }

  lemma TotalWithBalance(m: Accounts, a: Address, v: Word)
    ensures Total(WithBalance(m, a, v)) == Total(m) - BalanceOf(m, a) + v
  {
    assert Balances(WithBalance(m, a, v)) == Balances(m)[a := v];
    SumUpdate(Balances(m), a, v);
  }

  /** Replacing an account by one of the same balance does not move the total. */
  lemma TotalSameBalance(m: Accounts, a: Address, acct: Account)
    requires acct.balance == BalanceOf(m, a)
    ensures Total(m[a := acct]) == Total(m)
  {
    assert Balances(m[a := acct]) == Balances(m)[a := acct.balance as int];
    SumUpdate(Balances(m), a, acct.balance);
  }

  lemma BalanceBelowTotal(m: Accounts, a: Address)
    ensures 0 <= BalanceOf(m, a) <= Total(m)
  {
    SumBounds(Balances(m));
    if a in m {
      assert Balances(m)[a] == BalanceOf(m, a);
    }
  }

  lemma DebitExact(m: Accounts, a: Address, v: Word)
    requires BalanceOf(m, a) >= v
    ensures Debit(m, a, v) == WithBalance(m, a, BalanceOf(m, a) - v)
  {
  }

  lemma CreditExact(m: Accounts, a: Address, v: Word)
    requires BalanceOf(m, a) + v < UINT256
    ensures Credit(m, a, v) == WithBalance(m, a, BalanceOf(m, a) + v)
  {
  }

  /** A covered transfer neither wraps nor mints: the payer falls by v, the payee rises by v. */
  lemma TransferConserves(m: Accounts, from: Address, to: Address, v: Word)
    requires BalanceOf(m, from) >= v && Total(m) < UINT256
    ensures Total(Transfer(m, from, to, v)) == Total(m)
    ensures from != to ==>
              && BalanceOf(Transfer(m, from, to, v), from) == BalanceOf(m, from) - v
              && BalanceOf(Transfer(m, from, to, v), to) == BalanceOf(m, to) + v
    ensures from == to ==> BalanceOf(Transfer(m, from, to, v), from) == BalanceOf(m, from)
  {
    hide Total, Debit, Credit;
    DebitExact(m, from, v);
    var paid := Debit(m, from, v);
    TotalWithBalance(m, from, BalanceOf(m, from) - v);
    BalanceBelowTotal(paid, to);
    CreditExact(paid, to, v);
    TotalWithBalance(paid, to, BalanceOf(paid, to) + v);
  }

  /** Only SSTORE outside read-only mode touches accounts, and only a slot of the running one. */
  lemma ExecAccounts(env: Env, c: Contract, readOnly: bool, f: Frame, w: World, i: Instr)
    requires f.pc < |c.code| && |f.stack| >= Pops(i)
    ensures var e := Exec(env, c, readOnly, f, w, i);
            e.Next? ==>
              if i.SStore? && !readOnly
              then e.world.accounts == WithSlot(w.accounts, c.self, Peek(f.stack, 0), Peek(f.stack, 1))
              else e.world.accounts == w.accounts
  {
    hide ExecLocal, ReadMem, Touch, Drop, WithSlot;
  }

  lemma ExecConserves(env: Env, c: Contract, readOnly: bool, f: Frame, w: World, i: Instr)
    requires f.pc < |c.code| && |f.stack| >= Pops(i)
    ensures var e := Exec(env, c, readOnly, f, w, i);
            e.Next? ==> Total(e.world.accounts) == Total(w.accounts)
  {
    hide Exec, Total;
    ExecAccounts(env, c, readOnly, f, w, i);
    if i.SStore? && !readOnly {
      var acct := GetOrEmpty(w.accounts, c.self);
      TotalSameBalance(w.accounts, c.self, acct.(storage := acct.storage[Peek(f.stack, 0) := Peek(f.stack, 1)]));
    }
  }

  lemma StepConserves(env: Env, c: Contract, readOnly: bool, f: Frame, w: World, decoded: Option<Instr>)
    requires f.pc < |c.code|
    ensures var e := StepDecoded(env, c, readOnly, f, w, decoded);
            e.Next? ==> Total(e.world.accounts) == Total(w.accounts)
  {
    hide Exec, PriceOf, Total;
    match decoded
    case None =>
    case Some(i) =>
      if |f.stack| >= Pops(i) {
        match PriceOf(env, c, f, w, i)
        case Refused(_) =>
        case Cost(e) =>
          if e <= f.remaining {
            ExecConserves(env, c, readOnly, f.(remaining := f.remaining - e), w, i);
          }
      }
  }

  lemma EnterCallConserves(env: Env, c: Contract, readOnly: bool, depth: nat, q: CallRequest, g: Frame, w: World)
    requires Total(w.accounts) < UINT256
    ensures var entry := EnterCall(env, c, readOnly, depth, q, g, w);
            entry.Builtin? || entry.Enter? ==> Total(entry.world.accounts) == Total(w.accounts)
  {
    if q.kind.PlainCall? && q.value != 0 && BalanceOf(w.accounts, c.self) >= q.value {
      TransferConserves(w.accounts, c.self, q.to, q.value);
    }
  }

  lemma BumpedConserves(c: Contract, w: World)
    ensures Total(Bumped(c, w).accounts) == Total(w.accounts)
    ensures forall a :: BalanceOf(Bumped(c, w).accounts, a) == BalanceOf(w.accounts, a)
  {
    var acct := GetOrEmpty(w.accounts, c.self);
    TotalSameBalance(w.accounts, c.self, acct.(nonce := acct.nonce + 1));
  }

  lemma EnterCreateConserves(env: Env, c: Contract, readOnly: bool, depth: nat, q: CreateRequest, g: Frame, w: World)
    requires Total(w.accounts) < UINT256
    ensures var entry := EnterCreate(env, c, readOnly, depth, q, g, w);
            entry.Enter? ==> Total(entry.world.accounts) == Total(w.accounts)
  {
    BumpedConserves(c, w);
    var bumped := Bumped(c, w).accounts;
    var a := NewAddress(env, c, q, GetOrEmpty(w.accounts, c.self).nonce);
    if a !in bumped {
      TotalSameBalance(bumped, a, EMPTY_ACCOUNT);
    }
    var born := WithAccount(bumped, a);
    assert BalanceOf(born, c.self) == BalanceOf(w.accounts, c.self);
    if q.value != 0 && BalanceOf(w.accounts, c.self) >= q.value {
      TransferConserves(born, c.self, a, q.value);
    }
  }

  /** Nested value calls, creations and rollbacks neither mint nor burn: the total of balances is invariant. */
  lemma {:induction false} RunConserves(env: Env, c: Contract, readOnly: bool, depth: nat, f: Frame, w: World)
    requires depth <= MAX_DEPTH && FrameOk(c.code, f) && Total(w.accounts) < UINT256
    ensures Total(Run(env, c, readOnly, depth, f, w).world.accounts) == Total(w.accounts)
    decreases MAX_DEPTH - depth, f.remaining, CodeLeft(c.code, f.pc), 1
  {
    if f.pc < |c.code| {
      StepOk(env, c, readOnly, f, w);
      StepConserves(env, c, readOnly, f, w, Decode(env.cfg, c.code[f.pc]));
      ContinueConserves(env, c, readOnly, depth, f, w, Step(env, c, readOnly, f, w));
    }
  }

  lemma {:induction false} ContinueConserves(
    env: Env, c: Contract, readOnly: bool, depth: nat, f: Frame, w: World, e: Effect)
    requires depth <= MAX_DEPTH && f.pc < |c.code| && EffectOk(c.code, f, e) && Total(w.accounts) < UINT256
    requires e.Next? ==> Total(e.world.accounts) == Total(w.accounts)
    ensures Total(Continue(env, c, readOnly, depth, f, w, e).world.accounts) == Total(w.accounts)
    decreases MAX_DEPTH - depth, f.remaining, CodeLeft(c.code, f.pc), 0
  {
    hide Run, Child, Transfer, SettleCreate, Total;
    match e
    case Fault(_) =>
    case Halt(_, _, _) =>
    case Next(g, v) => RunConserves(env, c, readOnly, depth, g, v);
    case CallOut(q, g) =>
      var entry := EnterCall(env, c, readOnly, depth, q, g, w);
      if entry.NotRun? {
        RunConserves(env, c, readOnly, depth, Skip(g), w);
      } else if !entry.Rejected? {
        EnterCallConserves(env, c, readOnly, depth, q, g, w);
        ChildConserves(env, depth, entry);
        var child := Child(env, depth, entry);
        RunConserves(env, c, readOnly, depth, LeaveCall(env, q, g, child), Settle(w, child));
      }
    case CreateOut(q, g) =>
      var entry := EnterCreate(env, c, readOnly, depth, q, g, w);
      if entry.NotRun? {
        RunConserves(env, c, readOnly, depth, Skip(g), w);
      } else if !entry.Rejected? {
        EnterCreateConserves(env, c, readOnly, depth, q, g, w);
        ChildConserves(env, depth, entry);
        var child := Child(env, depth, entry);
        var a := NewAddress(env, c, q, GetOrEmpty(w.accounts, c.self).nonce);
        SettleCreateConserves(c, w, a, child);
        RunConserves(env, c, readOnly, depth, LeaveCreate(env, g, a, child), SettleCreate(Bumped(c, w), a, child));
      }
  }

  lemma SettleCreateConserves(c: Contract, w: World, a: Address, child: Outcome)
    requires Total(child.world.accounts) == Total(w.accounts)
    ensures Total(SettleCreate(Bumped(c, w), a, child).accounts) == Total(w.accounts)
  {
    BumpedConserves(c, w);
    TotalSameBalance(child.world.accounts, a, GetOrEmpty(child.world.accounts, a).(code := child.ret));
  }

  lemma {:induction false} ChildConserves(env: Env, depth: nat, entry: Entry)
    requires entry.Builtin? || (entry.Enter? && depth < MAX_DEPTH)
    requires Total(entry.world.accounts) < UINT256
    ensures Total(Child(env, depth, entry).world.accounts) == Total(entry.world.accounts)
    decreases MAX_DEPTH - depth, 0, 0, 0
  {
    hide Run, Total;
    if entry.Enter? {
      RunConserves(env, entry.contract, entry.readOnly, depth + 1, StartFrame(entry.budget), entry.world);
    }
  }

  // ---- accounts that no frame runs as ----

  /** No creation can land on address a. */
  ghost predicate NeverCreated(env: Env, a: Address) {
    && (forall n: nat :: env.createAddress(n) != a)
    && (forall s: Address, k: Word, i: Bytes :: env.create2Address(s, k, i) != a)
  }

  /** Account a has no code and at least the balance it had. */
  predicate Kept(m: Accounts, n: Accounts, a: Address) {
    GetOrEmpty(n, a).code == [] && BalanceOf(n, a) >= BalanceOf(m, a)
  }

  ghost predicate Bystander(env: Env, c: Contract, w: World, a: Address) {
    c.self != a && GetOrEmpty(w.accounts, a).code == [] && NeverCreated(env, a) && Total(w.accounts) < UINT256
  }

  lemma ExecKeeps(env: Env, c: Contract, readOnly: bool, f: Frame, w: World, i: Instr, a: Address)
    requires f.pc < |c.code| && |f.stack| >= Pops(i) && c.self != a
    ensures var e := Exec(env, c, readOnly, f, w, i);
            e.Next? ==> GetOrEmpty(e.world.accounts, a) == GetOrEmpty(w.accounts, a)
  {
    hide Exec;
    ExecAccounts(env, c, readOnly, f, w, i);
  }

  lemma StepKeeps(env: Env, c: Contract, readOnly: bool, f: Frame, w: World, decoded: Option<Instr>, a: Address)
    requires f.pc < |c.code| && c.self != a
    ensures var e := StepDecoded(env, c, readOnly, f, w, decoded);
            e.Next? ==>
              GetOrEmpty(e.world.accounts, a) == GetOrEmpty(w.accounts, a) &&
              Total(e.world.accounts) == Total(w.accounts)
  {
    hide Exec, PriceOf, Total;
    StepConserves(env, c, readOnly, f, w, decoded);
    match decoded
    case None =>
    case Some(i) =>
      if |f.stack| >= Pops(i) {
        match PriceOf(env, c, f, w, i)
        case Refused(_) =>
        case Cost(e) =>
          if e <= f.remaining {
            ExecKeeps(env, c, readOnly, f.(remaining := f.remaining - e), w, i, a);
          }
      }
  }

  /** An account without code, that no frame runs as and no creation hits, is never debited. */
  lemma {:induction false} BystanderNotDebited(
    env: Env, c: Contract, readOnly: bool, depth: nat, f: Frame, w: World, a: Address)
    requires depth <= MAX_DEPTH && FrameOk(c.code, f) && Bystander(env, c, w, a)
    ensures Kept(w.accounts, Run(env, c, readOnly, depth, f, w).world.accounts, a)
    decreases MAX_DEPTH - depth, f.remaining, CodeLeft(c.code, f.pc), 1
  {
    hide Total;
    if f.pc < |c.code| {
      StepOk(env, c, readOnly, f, w);
      StepKeeps(env, c, readOnly, f, w, Decode(env.cfg, c.code[f.pc]), a);
      BystanderContinue(env, c, readOnly, depth, f, w, Step(env, c, readOnly, f, w), a);
    }
  }

  lemma {:induction false} BystanderContinue(
    env: Env, c: Contract, readOnly: bool, depth: nat, f: Frame, w: World, e: Effect, a: Address)
    requires depth <= MAX_DEPTH && f.pc < |c.code| && EffectOk(c.code, f, e) && Bystander(env, c, w, a)
    requires e.Next? ==>
               GetOrEmpty(e.world.accounts, a) == GetOrEmpty(w.accounts, a) &&
               Total(e.world.accounts) == Total(w.accounts)
    ensures Kept(w.accounts, Continue(env, c, readOnly, depth, f, w, e).world.accounts, a)
    decreases MAX_DEPTH - depth, f.remaining, CodeLeft(c.code, f.pc), 0
  {
    hide Run, Child, Total, Transfer, EnterCreate, SettleCreate;
    match e
    case Fault(_) =>
    case Halt(_, _, _) =>
    case Next(g, v) => BystanderNotDebited(env, c, readOnly, depth, g, v, a);
    case CallOut(q, g) =>
      var entry := EnterCall(env, c, readOnly, depth, q, g, w);
      if entry.NotRun? {
        BystanderNotDebited(env, c, readOnly, depth, Skip(g), w, a);
      } else if !entry.Rejected? {
        BystanderCall(env, c, readOnly, depth, q, g, w, a);
        var child := Child(env, depth, entry);
        BystanderNotDebited(env, c, readOnly, depth, LeaveCall(env, q, g, child), Settle(w, child), a);
      }
    case CreateOut(q, g) =>
      ContinueCreate(env, c, readOnly, depth, f, w, q, g);
      var entry := EnterCreate(env, c, readOnly, depth, q, g, w);
      if entry.NotRun? {
        BystanderNotDebited(env, c, readOnly, depth, Skip(g), w, a);
      } else if !entry.Rejected? {
        BystanderCreate(env, c, readOnly, depth, q, g, w, a);
        var child := Child(env, depth, entry);
        var n := NewAddress(env, c, q, GetOrEmpty(w.accounts, c.self).nonce);
        BystanderNotDebited(env, c, readOnly, depth, LeaveCreate(env, g, n, child),
          SettleCreate(Bumped(c, w), n, child), a);
      }
  }

  /** A call leaves the bystander at least as rich: it can only be paid. */
  lemma {:induction false} BystanderCall(
    env: Env, c: Contract, readOnly: bool, depth: nat, q: CallRequest, g: Frame, w: World, a: Address)
    requires depth <= MAX_DEPTH && Bystander(env, c, w, a)
    requires !EnterCall(env, c, readOnly, depth, q, g, w).Rejected? &&
               !EnterCall(env, c, readOnly, depth, q, g, w).NotRun?
    ensures var v := Settle(w, Child(env, depth, EnterCall(env, c, readOnly, depth, q, g, w)));
            Kept(w.accounts, v.accounts, a) && Total(v.accounts) == Total(w.accounts)
    decreases MAX_DEPTH - depth, 0, 1, 0
  {
    hide Total, Run, EnterCall;
    var entry := EnterCall(env, c, readOnly, depth, q, g, w);
    EnterCallConserves(env, c, readOnly, depth, q, g, w);
    EnteredKept(env, c, readOnly, depth, q, g, w, a);
    ChildConserves(env, depth, entry);
    if entry.Enter? && entry.contract.self == a {
      NothingToRun(env, entry, depth);
    } else if entry.Enter? {
      BystanderNotDebited(env, entry.contract, entry.readOnly, depth + 1, StartFrame(entry.budget), entry.world, a);
    }
  }

  lemma NothingToRun(env: Env, entry: Entry, depth: nat)
    requires entry.Enter? && depth < MAX_DEPTH && entry.contract.code == []
    ensures Child(env, depth, entry).world == entry.world
  {
  }

  /** Entering a call can only pay the bystander, and does not run it with code. */
  lemma EnteredKept(env: Env, c: Contract, readOnly: bool, depth: nat, q: CallRequest, g: Frame, w: World, a: Address)
    requires Bystander(env, c, w, a)
    ensures var entry := EnterCall(env, c, readOnly, depth, q, g, w);
            && (entry.Enter? ==> depth < MAX_DEPTH && (entry.contract.self == a ==> entry.contract.code == []))
            && (entry.Builtin? || entry.Enter? ==> Kept(w.accounts, entry.world.accounts, a))
  {
    hide Total, Transfer;
    if q.kind.PlainCall? && q.value != 0 && BalanceOf(w.accounts, c.self) >= q.value {
      PaidNotDebited(w.accounts, c.self, q.to, q.value, a);
    }
  }

  lemma PaidNotDebited(m: Accounts, from: Address, to: Address, v: Word, a: Address)
    requires from != a && BalanceOf(m, from) >= v && Total(m) < UINT256
    ensures BalanceOf(Transfer(m, from, to, v), a) >= BalanceOf(m, a)
    ensures GetOrEmpty(Transfer(m, from, to, v), a).code == GetOrEmpty(m, a).code
  {
    TransferConserves(m, from, to, v);
  }

  lemma {:induction false} BystanderCreate(
    env: Env, c: Contract, readOnly: bool, depth: nat, q: CreateRequest, g: Frame, w: World, a: Address)
    requires depth <= MAX_DEPTH && Bystander(env, c, w, a)
    requires EnterCreate(env, c, readOnly, depth, q, g, w).Enter?
    ensures var n := NewAddress(env, c, q, GetOrEmpty(w.accounts, c.self).nonce);
            var v := SettleCreate(Bumped(c, w), n, Child(env, depth, EnterCreate(env, c, readOnly, depth, q, g, w)));
            Kept(w.accounts, v.accounts, a) && Total(v.accounts) == Total(w.accounts)
    decreases MAX_DEPTH - depth, 0, 1, 0
  {
    hide Total, Run;
    var entry := EnterCreate(env, c, readOnly, depth, q, g, w);
    var n := NewAddress(env, c, q, GetOrEmpty(w.accounts, c.self).nonce);
    BystanderUntouched(env, c, readOnly, depth, q, g, w, a);
    EnterCreateConserves(env, c, readOnly, depth, q, g, w);
    ChildConserves(env, depth, entry);
    SettleCreateConserves(c, w, n, Child(env, depth, entry));
    hide EnterCreate, NewAddress;
    BystanderNotDebited(env, entry.contract, false, depth + 1, StartFrame(entry.budget), entry.world, a);
  }

  lemma BystanderUntouched(
    env: Env, c: Contract, readOnly: bool, depth: nat, q: CreateRequest, g: Frame, w: World, a: Address)
    requires Bystander(env, c, w, a) && EnterCreate(env, c, readOnly, depth, q, g, w).Enter?
    ensures var entry := EnterCreate(env, c, readOnly, depth, q, g, w);
            var n := NewAddress(env, c, q, GetOrEmpty(w.accounts, c.self).nonce);
            && n != a && entry.contract.self == n && !entry.readOnly
            && GetOrEmpty(entry.world.accounts, a) == GetOrEmpty(w.accounts, a)
            && GetOrEmpty(Bumped(c, w).accounts, a) == GetOrEmpty(w.accounts, a)
  {
  }

  // ---- atomic child frames ----

  /** The pushed word tells the fate of a call, and a 0 means the world is the one before it. */
  lemma CallIsAtomic(env: Env, q: CallRequest, g: Frame, w: World, child: Outcome)
    ensures var after := LeaveCall(env, q, g, child);
            && |after.stack| == |g.stack| + 1
            && (Peek(after.stack, 0) == 1 <==> child.status.Ended?)
            && (Peek(after.stack, 0) == 0 ==> Settle(w, child) == w)
            && (Peek(after.stack, 0) != 0 ==> Settle(w, child) == child.world)
  {
  }

  /** Accounts agree except possibly for the nonce of one. */
  predicate SameButNonce(m: Accounts, n: Accounts, self: Address) {
    && (forall a: Address :: a != self ==> GetOrEmpty(m, a) == GetOrEmpty(n, a))
    && GetOrEmpty(n, self) == GetOrEmpty(m, self).(nonce := GetOrEmpty(n, self).nonce)
  }

  lemma NonceAside(m: Accounts, self: Address)
    ensures SameButNonce(m, m, self)
  {
  }

  /** A creation that pushes 0 changes at most the creator's nonce; otherwise it pushes the new address. */
  lemma CreateIsAtomic(env: Env, c: Contract, g: Frame, w: World, a: Address, child: Outcome)
    requires CreateBudget(env, g) >= child.remaining
    ensures var after := LeaveCreate(env, g, a, child);
            var v := SettleCreate(Bumped(c, w), a, child);
            && |after.stack| == |g.stack| + 1
            && (Peek(after.stack, 0) == 0 ==> v.logs == w.logs && SameButNonce(w.accounts, v.accounts, c.self))
            && (Peek(after.stack, 0) != 0 ==>
                  AddressOf(Peek(after.stack, 0)) == a && GetOrEmpty(v.accounts, a).code == child.ret)
  {
  }

  // ---- energy ----

  /** A call adds its base cost plus what the child used minus the stipend, and a value call never profits from it. */
  lemma CallEnergyExact(env: Env, c: Contract, readOnly: bool, f: Frame, w: World, depth: nat)
    requires FrameOk(c.code, f) && f.pc < |c.code| && depth < MAX_DEPTH
    ensures var e := Step(env, c, readOnly, f, w);
            e.CallOut? ==>
              var q, g := e.call, e.frame;
              var entry := EnterCall(env, c, readOnly, depth, q, g, w);
              entry.Builtin? || entry.Enter? ==>
                var child := Child(env, depth, entry);
                var base, used := f.remaining - g.remaining, entry.budget - child.remaining;
                var stipend := if q.value != 0 then STIPEND else 0;
                && f.remaining - LeaveCall(env, q, g, child).remaining == base + used - stipend
                && base > stipend && used >= 0
  {
    StepOk(env, c, readOnly, f, w);
    hide Step, Run;
    var e := Step(env, c, readOnly, f, w);
    if e.CallOut? {
      CallStepFacts(c.code, f, e);
    }
  }

  lemma CallStepFacts(code: Bytes, f: Frame, e: Effect)
    requires EffectOk(code, f, e) && e.CallOut?
    ensures e.frame.remaining + 40 + (if e.call.value != 0 then VALUE_TRANSFER else 0) <= f.remaining
  {
  }

  /**
   A creation costs its base plus what the child used plus 200 per deployed byte; without the energy for the deposit
   everything handed to the child is gone.
   */
  lemma CreateEnergyExact(env: Env, c: Contract, readOnly: bool, f: Frame, w: World, depth: nat)
    requires FrameOk(c.code, f) && f.pc < |c.code| && depth <= MAX_DEPTH
    ensures var e := Step(env, c, readOnly, f, w);
            e.CreateOut? ==>
              var q, g := e.create, e.frame;
              var entry := EnterCreate(env, c, readOnly, depth, q, g, w);
              entry.Enter? ==>
                var child := Child(env, depth, entry);
                var a := NewAddress(env, c, q, GetOrEmpty(w.accounts, c.self).nonce);
                var base, used := f.remaining - g.remaining, entry.budget - child.remaining;
                var cost := f.remaining - LeaveCreate(env, g, a, child).remaining;
                && base >= CREATE_BASE && used >= 0 && entry.budget == CreateBudget(env, g)
                && (!child.status.Ended? ==> cost == base + used)
                && (child.status.Ended? && |child.ret| * CREATE_DATA <= child.remaining ==>
                      cost == base + used + |child.ret| * CREATE_DATA)
                && (child.status.Ended? && |child.ret| * CREATE_DATA > child.remaining ==> cost == base + entry.budget)
  {
    StepOk(env, c, readOnly, f, w);
    hide Step, Run;
    var e := Step(env, c, readOnly, f, w);
    if e.CreateOut? {
      CreateStepFacts(c.code, f, e);
    }
  }

  lemma CreateStepFacts(code: Bytes, f: Frame, e: Effect)
    requires EffectOk(code, f, e) && e.CreateOut?
    ensures e.frame.remaining + CREATE_BASE <= f.remaining
  {
  }

  // ---- control flow ----

  /** A taken jump lands on a JUMPDEST instruction, and no position inside push data is ever reached. */
  lemma JumpsLandOnInstructions(env: Env, c: Contract, readOnly: bool, f: Frame, w: World)
    requires FrameOk(c.code, f) && f.pc < |c.code|
    ensures var e := Step(env, c, readOnly, f, w);
            e.Next? ==>
              var g := e.frame;
              && FrameOk(c.code, g)
              && (g.pc == NextPc(c.code, f.pc) || ValidDest(c.code, g.pc))
              && (g.pc < |c.code| ==>
                    forall p: nat :: p < |c.code| && Aligned(c.code, 0, p) && p < g.pc ==> NextPc(c.code, p) <= g.pc)
  {
    StepOk(env, c, readOnly, f, w);
    DecodeImmediates(env.cfg, c.code[f.pc]);
    NextOrJumpDest(env, c, readOnly, f, w, Decode(env.cfg, c.code[f.pc]));
    var e := Step(env, c, readOnly, f, w);
    if e.Next? {
      NextFrameOk(c.code, f, e);
      NotInPushData(c.code, e.frame);
    }
  }

  lemma NotInPushData(code: Bytes, g: Frame)
    requires FrameOk(code, g)
    ensures g.pc < |code| ==> forall p: nat :: p < |code| && Aligned(code, 0, p) && p < g.pc ==> NextPc(code, p) <= g.pc
  {
    if g.pc < |code| {
      forall p: nat | p < |code| && Aligned(code, 0, p) && p < g.pc
        ensures NextPc(code, p) <= g.pc
      {
        AlignedNotInside(code, 0, p, g.pc);
      }
    }
  }

  /** Control moves to the following instruction or to a JUMPDEST. */
  lemma NextOrJumpDest(env: Env, c: Contract, readOnly: bool, f: Frame, w: World, decoded: Option<Instr>)
    requires f.pc < |c.code| && ImmediatesMatch(c.code[f.pc], decoded)
    ensures var e := StepDecoded(env, c, readOnly, f, w, decoded);
            e.Next? ==> e.frame.pc == NextPc(c.code, f.pc) || ValidDest(c.code, e.frame.pc)
  {
    hide Exec, PriceOf, ValidDest;
    match decoded
    case None =>
    case Some(i) =>
      if |f.stack| >= Pops(i) {
        match PriceOf(env, c, f, w, i)
        case Refused(_) =>
        case Cost(e) =>
          if e <= f.remaining {
            ExecShape(env, c, readOnly, f.(remaining := f.remaining - e), w, i);
          }
      }
  }

  lemma NextFrameOk(code: Bytes, f: Frame, e: Effect)
    requires EffectOk(code, f, e) && e.Next?
    ensures FrameOk(code, e.frame)
  {
  }
}
