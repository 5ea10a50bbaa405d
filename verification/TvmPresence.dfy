/** Accounts never disappear during a run, and every account that creates another one is there. */
module TvmPresence {
  import opened Options
  import opened TvmTypes
  import opened TvmSpec
  import opened TvmRun
  import opened TvmProps

  // ---- accounts are only added ----

  lemma StepKeepsAccounts(env: Env, c: Contract, readOnly: bool, f: Frame, w: World, decoded: Option<Instr>)
    requires f.pc < |c.code|
    ensures var e := StepDecoded(env, c, readOnly, f, w, decoded);
            e.Next? ==> w.accounts.Keys <= e.world.accounts.Keys
  {
    hide Exec, PriceOf;
    match decoded
    case None =>
    case Some(i) =>
      if |f.stack| >= Pops(i) {
        match PriceOf(env, c, f, w, i)
        case Refused(_) =>
        case Cost(e) =>
          if e <= f.remaining {
            ExecAccounts(env, c, readOnly, f.(remaining := f.remaining - e), w, i);
          }
      }
  }

  lemma EnterCallKeepsAccounts(env: Env, c: Contract, readOnly: bool, depth: nat, q: CallRequest, g: Frame, w: World)
    ensures var entry := EnterCall(env, c, readOnly, depth, q, g, w);
            entry.Builtin? || entry.Enter? ==> w.accounts.Keys <= entry.world.accounts.Keys
  {
  }

  lemma EnterCreateKeepsAccounts(env: Env, c: Contract, readOnly: bool, depth: nat, q: CreateRequest, g: Frame,
      w: World)
    ensures w.accounts.Keys <= Bumped(c, w).accounts.Keys
    ensures var entry := EnterCreate(env, c, readOnly, depth, q, g, w);
            entry.Enter? ==>
              w.accounts.Keys <= entry.world.accounts.Keys && entry.contract.self in entry.world.accounts
  {
  }

  lemma SettleCreateKeepsAccounts(bumped: World, a: Address, o: Outcome, w: World)
    requires w.accounts.Keys <= bumped.accounts.Keys && w.accounts.Keys <= o.world.accounts.Keys
    ensures w.accounts.Keys <= SettleCreate(bumped, a, o).accounts.Keys
  {
  }

  /** Everything on record before a run is on record after it. */
  lemma {:induction false} RunKeepsAccounts(env: Env, c: Contract, readOnly: bool, depth: nat, f: Frame, w: World)
    requires depth <= MAX_DEPTH && FrameOk(c.code, f)
    ensures w.accounts.Keys <= Run(env, c, readOnly, depth, f, w).world.accounts.Keys
    decreases MAX_DEPTH - depth, f.remaining, CodeLeft(c.code, f.pc), 1
  {
    if f.pc < |c.code| {
      StepOk(env, c, readOnly, f, w);
      StepKeepsAccounts(env, c, readOnly, f, w, Decode(env.cfg, c.code[f.pc]));
      ContinueKeepsAccounts(env, c, readOnly, depth, f, w, Step(env, c, readOnly, f, w));
    }
  }

  lemma {:induction false} ContinueKeepsAccounts(
    env: Env, c: Contract, readOnly: bool, depth: nat, f: Frame, w: World, e: Effect)
    requires depth <= MAX_DEPTH && f.pc < |c.code| && EffectOk(c.code, f, e)
    requires e.Next? ==> w.accounts.Keys <= e.world.accounts.Keys
    ensures w.accounts.Keys <= Continue(env, c, readOnly, depth, f, w, e).world.accounts.Keys
    decreases MAX_DEPTH - depth, f.remaining, CodeLeft(c.code, f.pc), 0
  {
    hide Run, Child, EnterCall, EnterCreate, SettleCreate, Bumped, LeaveCall, LeaveCreate;
    match e
    case Fault(_) =>
    case Halt(_, _, _) =>
    case Next(g, v) => RunKeepsAccounts(env, c, readOnly, depth, g, v);
    case CallOut(q, g) =>
      ContinueCall(env, c, readOnly, depth, f, w, q, g);
      var entry := EnterCall(env, c, readOnly, depth, q, g, w);
      if entry.NotRun? {
        RunKeepsAccounts(env, c, readOnly, depth, Skip(g), w);
      } else if !entry.Rejected? {
        EnterCallKeepsAccounts(env, c, readOnly, depth, q, g, w);
        CallDepth(env, c, readOnly, depth, q, g, w);
        ChildKeepsAccounts(env, depth, entry);
        var child := Child(env, depth, entry);
        RunKeepsAccounts(env, c, readOnly, depth, LeaveCall(env, q, g, child), Settle(w, child));
      }
    case CreateOut(q, g) =>
      ContinueCreate(env, c, readOnly, depth, f, w, q, g);
      var entry := EnterCreate(env, c, readOnly, depth, q, g, w);
      if entry.NotRun? {
        RunKeepsAccounts(env, c, readOnly, depth, Skip(g), w);
      } else if !entry.Rejected? {
        EnterCreateKeepsAccounts(env, c, readOnly, depth, q, g, w);
        ChildKeepsAccounts(env, depth, entry);
        var child := Child(env, depth, entry);
        var a := NewAddress(env, c, q, GetOrEmpty(w.accounts, c.self).nonce);
        SettleCreateKeepsAccounts(Bumped(c, w), a, child, w);
        RunKeepsAccounts(env, c, readOnly, depth, LeaveCreate(env, g, a, child), SettleCreate(Bumped(c, w), a, child));
      }
  }

  lemma CallDepth(env: Env, c: Contract, readOnly: bool, depth: nat, q: CallRequest, g: Frame, w: World)
    ensures EnterCall(env, c, readOnly, depth, q, g, w).Enter? ==> depth < MAX_DEPTH
  {
  }

  lemma {:induction false} ChildKeepsAccounts(env: Env, depth: nat, entry: Entry)
    requires entry.Builtin? || (entry.Enter? && depth < MAX_DEPTH)
    ensures entry.world.accounts.Keys <= Child(env, depth, entry).world.accounts.Keys
    decreases MAX_DEPTH - depth, 0, 0, 0
  {
    hide Run;
    if entry.Enter? {
      RunKeepsAccounts(env, entry.contract, entry.readOnly, depth + 1, StartFrame(entry.budget), entry.world);
    }
  }

  // ---- creators are present ----

  /** In this run, at every depth, a frame that carries out a creation runs as an account on record. */
  ghost predicate CreatorsPresent(env: Env, c: Contract, readOnly: bool, depth: nat, f: Frame, w: World)
    requires depth <= MAX_DEPTH && FrameOk(c.code, f)
    decreases MAX_DEPTH - depth, f.remaining, CodeLeft(c.code, f.pc), 1
  {
    if f.pc >= |c.code| then true
    else
      StepOk(env, c, readOnly, f, w);
      CreatorsPresentAfter(env, c, readOnly, depth, f, w, Step(env, c, readOnly, f, w))
  }

  ghost predicate CreatorsPresentAfter(env: Env, c: Contract, readOnly: bool, depth: nat, f: Frame, w: World, e: Effect)
    requires depth <= MAX_DEPTH && f.pc < |c.code| && EffectOk(c.code, f, e)
    decreases MAX_DEPTH - depth, f.remaining, CodeLeft(c.code, f.pc), 0
  {
    match e
    case Fault(_) => true
    case Halt(_, _, _) => true
    case Next(g, v) => CreatorsPresent(env, c, readOnly, depth, g, v)
    case CallOut(q, g) =>
      ContinueCall(env, c, readOnly, depth, f, w, q, g);
      var entry := EnterCall(env, c, readOnly, depth, q, g, w);
      if entry.Rejected? then true
      else if entry.NotRun? then CreatorsPresent(env, c, readOnly, depth, Skip(g), w)
      else
        CallDepth(env, c, readOnly, depth, q, g, w);
        var child := Child(env, depth, entry);
        && (entry.Enter? ==>
              CreatorsPresent(env, entry.contract, entry.readOnly, depth + 1, StartFrame(entry.budget), entry.world))
        && CreatorsPresent(env, c, readOnly, depth, LeaveCall(env, q, g, child), Settle(w, child))
    case CreateOut(q, g) =>
      ContinueCreate(env, c, readOnly, depth, f, w, q, g);
      var entry := EnterCreate(env, c, readOnly, depth, q, g, w);
      if entry.Rejected? then true
      else if entry.NotRun? then CreatorsPresent(env, c, readOnly, depth, Skip(g), w)
      else
        var a := NewAddress(env, c, q, GetOrEmpty(w.accounts, c.self).nonce);
        var child := Child(env, depth, entry);
        && c.self in w.accounts
        && CreatorsPresent(env, entry.contract, entry.readOnly, depth + 1, StartFrame(entry.budget), entry.world)
        && CreatorsPresent(env, c, readOnly, depth, LeaveCreate(env, g, a, child), SettleCreate(Bumped(c, w), a, child))
  }

  /** A frame with code to run, as contract code comes about, runs as an account on record. */
  predicate Standing(c: Contract, w: World) { c.code == [] || c.self in w.accounts }

  lemma CalleeStands(env: Env, c: Contract, readOnly: bool, depth: nat, q: CallRequest, g: Frame, w: World)
    requires c.self in w.accounts
    ensures var entry := EnterCall(env, c, readOnly, depth, q, g, w);
            entry.Enter? ==> Standing(entry.contract, entry.world)
  {
  }

  /** Whoever starts on record with its code creates only as an account on record, and so does everyone it calls. */
  lemma {:induction false} RunStands(env: Env, c: Contract, readOnly: bool, depth: nat, f: Frame, w: World)
    requires depth <= MAX_DEPTH && FrameOk(c.code, f) && Standing(c, w)
    ensures CreatorsPresent(env, c, readOnly, depth, f, w)
    decreases MAX_DEPTH - depth, f.remaining, CodeLeft(c.code, f.pc), 1
  {
    hide CreatorsPresentAfter;
    if f.pc < |c.code| {
      StepOk(env, c, readOnly, f, w);
      StepKeepsAccounts(env, c, readOnly, f, w, Decode(env.cfg, c.code[f.pc]));
      ContinueStands(env, c, readOnly, depth, f, w, Step(env, c, readOnly, f, w));
    }
  }

  lemma {:induction false} ContinueStands(env: Env, c: Contract, readOnly: bool, depth: nat, f: Frame, w: World,
      e: Effect)
    requires depth <= MAX_DEPTH && f.pc < |c.code| && EffectOk(c.code, f, e) && c.self in w.accounts
    requires e.Next? ==> w.accounts.Keys <= e.world.accounts.Keys
    ensures CreatorsPresentAfter(env, c, readOnly, depth, f, w, e)
    decreases MAX_DEPTH - depth, f.remaining, CodeLeft(c.code, f.pc), 0
  {
    hide Run, Child, EnterCall, EnterCreate, SettleCreate, Bumped, LeaveCall, LeaveCreate, CreatorsPresent;
    match e
    case Fault(_) =>
    case Halt(_, _, _) =>
    case Next(g, v) => RunStands(env, c, readOnly, depth, g, v);
    case CallOut(q, g) =>
      ContinueCall(env, c, readOnly, depth, f, w, q, g);
      var entry := EnterCall(env, c, readOnly, depth, q, g, w);
      if entry.NotRun? {
        RunStands(env, c, readOnly, depth, Skip(g), w);
      } else if !entry.Rejected? {
        EnterCallKeepsAccounts(env, c, readOnly, depth, q, g, w);
        CallDepth(env, c, readOnly, depth, q, g, w);
        ChildKeepsAccounts(env, depth, entry);
        if entry.Enter? {
          CalleeStands(env, c, readOnly, depth, q, g, w);
          RunStands(env, entry.contract, entry.readOnly, depth + 1, StartFrame(entry.budget), entry.world);
        }
        var child := Child(env, depth, entry);
        RunStands(env, c, readOnly, depth, LeaveCall(env, q, g, child), Settle(w, child));
      }
    case CreateOut(q, g) =>
      ContinueCreate(env, c, readOnly, depth, f, w, q, g);
      var entry := EnterCreate(env, c, readOnly, depth, q, g, w);
      if entry.NotRun? {
        RunStands(env, c, readOnly, depth, Skip(g), w);
      } else if !entry.Rejected? {
        EnterCreateKeepsAccounts(env, c, readOnly, depth, q, g, w);
        ChildKeepsAccounts(env, depth, entry);
        RunStands(env, entry.contract, entry.readOnly, depth + 1, StartFrame(entry.budget), entry.world);
        var child := Child(env, depth, entry);
        var a := NewAddress(env, c, q, GetOrEmpty(w.accounts, c.self).nonce);
        SettleCreateKeepsAccounts(Bumped(c, w), a, child, w);
        RunStands(env, c, readOnly, depth, LeaveCreate(env, g, a, child), SettleCreate(Bumped(c, w), a, child));
      }
  }
}
