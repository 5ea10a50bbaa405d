/**
 Frames: what a message call, a creation and a whole frame compute. `Run` is
 total for every code, world and budget; its measure is the depth left, then
 the energy left, then the code left.
 */
module TvmRun {
  import opened Options
  import opened TvmTypes
  import opened TvmSpec

  datatype Status = Ended | Reverted | Failed(err: VmError)

  /** `remaining` is budget minus energy used; a failed frame has used all of it. */
  datatype Outcome = Outcome(status: Status, ret: Bytes, remaining: nat, world: World)

  function StartFrame(budget: nat): Frame { Frame(0, [], [], [], budget) }

  /** Frame invariant: on an instruction boundary (or past the end) with a legal stack. */
  predicate FrameOk(code: Bytes, f: Frame) { OnBoundary(code, f.pc) && |f.stack| <= MAX_STACK }

  // ---- message calls ----

  function ForwardedEnergy(cfg: VmConfig, requested: nat, available: nat): (e: nat)
    ensures var cap := if cfg.forward6364 then available - available / 64 else available;
            e <= requested && e <= cap <= available && (e == requested || e == cap)
  {
    Min(requested, if cfg.forward6364 then available - available / 64 else available)
  }

  datatype Entry =
    | Rejected(err: VmError)
    | NotRun
    | Builtin(answer: Precompiled, budget: nat, world: World)
    | Enter(contract: Contract, readOnly: bool, budget: nat, world: World)

  function ChildContract(c: Contract, q: CallRequest, code: Bytes): Contract {
    match q.kind
    case DelegateCall => Contract(c.self, c.caller, c.origin, c.value, q.args, code)
    case CallCode => Contract(c.self, c.self, c.origin, q.value, q.args, code)
    case _ => Contract(q.to, c.self, c.origin, q.value, q.args, code)
  }

  /** The energy handed to the child of a call: forwarded energy plus the stipend of a value call. */
  function CallBudget(env: Env, q: CallRequest, f: Frame): nat {
    ForwardedEnergy(env.cfg, q.requested, f.remaining) + if q.value != 0 then STIPEND else 0
  }

  function EnterCall(env: Env, c: Contract, readOnly: bool, depth: nat, q: CallRequest, f: Frame, w: World): Entry {
    if (q.kind.StaticCall? || readOnly) && q.value != 0 then Rejected(StaticStateChange)
    else if depth >= MAX_DEPTH || (q.value != 0 && BalanceOf(w.accounts, c.self) < q.value) then NotRun
    else
      var moved :=
        if q.kind.PlainCall? && q.value != 0 then w.(accounts := Transfer(w.accounts, c.self, q.to, q.value)) else w;
      match env.precompile(q.to, q.args)
      case Some(answer) => Builtin(answer, CallBudget(env, q, f), moved)
      case None =>
        var code := GetOrEmpty(w.accounts, q.to).code;
        Enter(ChildContract(c, q, code), readOnly || q.kind.StaticCall?, CallBudget(env, q, f), moved)
  }

  /** A precompiled contract either answers within its budget or consumes all of it. */
  function BuiltinOutcome(answer: Precompiled, budget: nat, w: World): (o: Outcome)
    ensures o.remaining <= budget
  {
    if answer.cost > budget then Outcome(Failed(OutOfEnergy), [], 0, w)
    else match answer.output
      case None => Outcome(Failed(PrecompileFailure), [], 0, w)
      case Some(out) => Outcome(Ended, out, budget - answer.cost, w)
  }

  function WriteReturn(mem: Bytes, outOff: nat, data: Bytes, outSize: nat): Bytes {
    WriteMem(mem, outOff, data[..Min(|data|, outSize)])
  }

  function PushWordTo(f: Frame, word: Word): Frame { f.(stack := f.stack + [word]) }

  /** A call that does not run: push 0, keep the energy, clear the return data. */
  function Skip(f: Frame): Frame { PushWordTo(f, 0).(returnData := []) }

  /** Caller frame after its child: unspent energy returns, and the child's fate is pushed. */
  function LeaveCall(env: Env, q: CallRequest, f: Frame, o: Outcome): Frame {
    var paid := f.(remaining := f.remaining - ForwardedEnergy(env.cfg, q.requested, f.remaining) + o.remaining);
    match o.status
    case Failed(_) => PushWordTo(paid, 0).(returnData := [])
    case Reverted => PushWordTo(paid, 0).(returnData := o.ret, mem := WriteReturn(f.mem, q.outOff, o.ret, q.outSize))
    case Ended => PushWordTo(paid, 1).(returnData := o.ret, mem := WriteReturn(f.mem, q.outOff, o.ret, q.outSize))
  }

  /** World after a child: a failed or reverted child never happened. */
  function Settle(before: World, o: Outcome): World { if o.status.Ended? then o.world else before }

  // ---- creation ----

  function NewAddress(env: Env, c: Contract, q: CreateRequest, nonce: nat): Address {
    match q.salt
    case None => env.createAddress(nonce)
    case Some(salt) => env.create2Address(c.self, salt, q.init)
  }

  /** The creator's nonce is bumped before the snapshot, so it survives a failed creation. */
  function Bumped(c: Contract, w: World): World {
    w.(accounts := WithNonce(w.accounts, c.self, GetOrEmpty(w.accounts, c.self).nonce + 1))
  }

  function CreateBudget(env: Env, f: Frame): nat { ForwardedEnergy(env.cfg, f.remaining, f.remaining) }

  function EnterCreate(env: Env, c: Contract, readOnly: bool, depth: nat, q: CreateRequest, f: Frame,
      w: World): (entry: Entry)
    ensures !entry.Builtin? && (entry.Enter? ==> depth < MAX_DEPTH)
  {
    if readOnly then Rejected(StaticStateChange)
    else if depth >= MAX_DEPTH || (q.value != 0 && BalanceOf(w.accounts, c.self) < q.value) then NotRun
    else
      var a := NewAddress(env, c, q, GetOrEmpty(w.accounts, c.self).nonce);
      var born := WithAccount(Bumped(c, w).accounts, a);
      var moved := if q.value != 0 then Transfer(born, c.self, a, q.value) else born;
      Enter(Contract(a, c.self, c.origin, q.value, [], q.init), false, CreateBudget(env, f), w.(accounts := moved))
  }

  /** Storing the returned code costs 200 per byte; without it the creation fails and refunds nothing. */
  predicate Deployed(o: Outcome) { o.status.Ended? && |o.ret| * CREATE_DATA <= o.remaining }

  function LeaveCreate(env: Env, f: Frame, a: Address, o: Outcome): Frame {
    var kept := f.remaining - CreateBudget(env, f);
    if Deployed(o) then
      PushWordTo(f, AddressWord(a)).(returnData := [], remaining := kept + (o.remaining - |o.ret| * CREATE_DATA))
    else if o.status.Reverted? then PushWordTo(f, 0).(returnData := o.ret, remaining := kept + o.remaining)
    else if o.status.Failed? then PushWordTo(f, 0).(returnData := [], remaining := kept + o.remaining)
    else PushWordTo(f, 0).(returnData := [], remaining := kept)
  }

  function SettleCreate(bumped: World, a: Address, o: Outcome): World {
    if Deployed(o) then o.world.(accounts := WithCode(o.world.accounts, a, o.ret)) else bumped
  }

  // ---- what one instruction may do to its frame ----

  function CodeLeft(code: Bytes, pc: nat): nat { if pc < |code| then |code| - pc else 0 }

  /** Progress of a plain instruction: energy falls, or stays while the pc moves forward. */
  predicate Progress(code: Bytes, f: Frame, g: Frame) {
    g.remaining < f.remaining || (g.remaining == f.remaining && CodeLeft(code, g.pc) < CodeLeft(code, f.pc))
  }

  predicate EffectOk(code: Bytes, f: Frame, e: Effect) {
    match e
    case Fault(_) => true
    case Halt(_, _, r) => r <= f.remaining
    case Next(g, _) => FrameOk(code, g) && Progress(code, f, g)
    case CallOut(q, g) =>
      FrameOk(code, g) && |g.stack| < MAX_STACK &&
      g.remaining + 40 + (if q.value != 0 then VALUE_TRANSFER else 0) <= f.remaining
    case CreateOut(_, g) =>
      FrameOk(code, g) && |g.stack| < MAX_STACK && g.remaining + CREATE_BASE <= f.remaining
  }

  lemma BoundaryNext(code: Bytes, pc: nat)
    requires pc < |code| && OnBoundary(code, pc)
    ensures OnBoundary(code, NextPc(code, pc))
  {
    AlignedStep(code, 0, pc);
  }

  /** Immediate bytes follow exactly the PUSH instructions. */
  predicate ImmediatesMatch(op: Byte, decoded: Option<Instr>) {
    match decoded
    case None => true
    case Some(i) => PushBytes(op) == if i.Push? then i.size else 0
  }

  lemma DecodeImmediates(cfg: VmConfig, op: Byte)
    ensures ImmediatesMatch(op, Decode(cfg, op))
  {
  }

  lemma LocalShape(env: Env, c: Contract, f: Frame, w: World, i: Instr)
    requires f.pc < |c.code| && |f.stack| >= Pops(i) && !ReachesOut(i)
    ensures match ExecLocal(env, c, f, w, i)
            case Broken(_) => true
            case Stopped(_, _) => true
            case Stay(pc, stack, _) =>
              && |stack| == |f.stack| - Pops(i) + Pushes(i)
              && (pc == f.pc + 1 + (if i.Push? then i.size else 0) || ((i.Jump? || i.JumpI?) && ValidDest(c.code, pc)))
  {
    hide Onward, JumpTo, CopyInto, ReturnDataInto, HaltWith, ReadMem, WriteMem, Touch, ToBytes, WordOf, PushWord,
      AddressOf,
      GetOrEmpty, ValidDest;
  }

  /** Where control goes and how the stack moves, instruction by instruction. */
  lemma ExecShape(env: Env, c: Contract, readOnly: bool, f: Frame, w: World, i: Instr)
    requires f.pc < |c.code| && |f.stack| >= Pops(i)
    ensures match Exec(env, c, readOnly, f, w, i)
            case Fault(_) => true
            case Halt(_, _, r) => r == f.remaining
            case Next(g, _) =>
              && g.remaining == f.remaining
              && |g.stack| == |f.stack| - Pops(i) + Pushes(i)
              && (g.pc == f.pc + 1 + (if i.Push? then i.size else 0) ||
                   ((i.Jump? || i.JumpI?) && ValidDest(c.code, g.pc)))
            case CallOut(q, g) =>
              && i.Call? && g.remaining == f.remaining && g.pc == f.pc + 1
              && |g.stack| == |f.stack| - Pops(i)
              && q.kind == i.kind
              && q.value == (if i.kind.PlainCall? || i.kind.CallCode? then Peek(f.stack, 2) else 0)
            case CreateOut(_, g) =>
              && (i.Create? || i.Create2?) && g.remaining == f.remaining && g.pc == f.pc + 1
              && |g.stack| == |f.stack| - Pops(i)
  {
    hide ExecLocal, ReadMem, Touch, AddressOf, ClampU64, WithSlot, ValidDest;
    if !ReachesOut(i) {
      LocalShape(env, c, f, w, i);
    }
  }

  /** Prices that progress and the call accounting rest on. */
  lemma PriceFloor(env: Env, c: Contract, f: Frame, w: World, i: Instr)
    requires |f.stack| >= Pops(i)
    ensures match PriceOf(env, c, f, w, i)
            case Refused(_) => true
            case Cost(e) =>
              && (i.Jump? || i.JumpI? ==> e >= 1)
              && (i.Create? || i.Create2? ==> e >= CREATE_BASE)
              && (i.Call? ==> e >= 40)
              && (i.Call? && (i.kind.PlainCall? || i.kind.CallCode?) && Peek(f.stack, 2) != 0 ==>
                   e >= 40 + VALUE_TRANSFER)
  {
  }

  /** Every instruction keeps the frame legal and makes progress, or ends it. */
  lemma StepOk(env: Env, c: Contract, readOnly: bool, f: Frame, w: World)
    requires FrameOk(c.code, f) && f.pc < |c.code|
    ensures EffectOk(c.code, f, Step(env, c, readOnly, f, w))
  {
    DecodeImmediates(env.cfg, c.code[f.pc]);
    StepDecodedOk(env, c, readOnly, f, w, Decode(env.cfg, c.code[f.pc]));
  }

  lemma StepDecodedOk(env: Env, c: Contract, readOnly: bool, f: Frame, w: World, decoded: Option<Instr>)
    requires FrameOk(c.code, f) && f.pc < |c.code|
    requires ImmediatesMatch(c.code[f.pc], decoded)
    ensures EffectOk(c.code, f, StepDecoded(env, c, readOnly, f, w, decoded))
  {
    BoundaryNext(c.code, f.pc);
    match decoded
    case None =>
    case Some(i) =>
      if |f.stack| >= Pops(i) && |f.stack| - Pops(i) + Pushes(i) <= MAX_STACK {
        ChargedOk(env, c, readOnly, f, w, i);
      }
  }

  lemma ChargedOk(env: Env, c: Contract, readOnly: bool, f: Frame, w: World, i: Instr)
    requires FrameOk(c.code, f) && f.pc < |c.code|
    requires PushBytes(c.code[f.pc]) == if i.Push? then i.size else 0
    requires OnBoundary(c.code, NextPc(c.code, f.pc))
    requires |f.stack| >= Pops(i) && |f.stack| - Pops(i) + Pushes(i) <= MAX_STACK
    ensures match PriceOf(env, c, f, w, i)
            case Refused(_) => true
            case Cost(e) => e <= f.remaining ==>
              EffectOk(c.code, f, Exec(env, c, readOnly, f.(remaining := f.remaining - e), w, i))
  {
    hide Exec, PriceOf;
    PriceFloor(env, c, f, w, i);
    match PriceOf(env, c, f, w, i)
    case Refused(_) =>
    case Cost(e) =>
      if e <= f.remaining {
        ExecShape(env, c, readOnly, f.(remaining := f.remaining - e), w, i);
      }
  }

  // ---- whole frames ----

  /** Runs a frame from `f` to its end. The precondition holds at every frame the recursion reaches. */
  function Run(env: Env, c: Contract, readOnly: bool, depth: nat, f: Frame, w: World): (o: Outcome)
    requires depth <= MAX_DEPTH && FrameOk(c.code, f)
    ensures o.remaining <= f.remaining
    decreases MAX_DEPTH - depth, f.remaining, CodeLeft(c.code, f.pc), 2
  {
    if f.pc >= |c.code| then Outcome(Ended, [], f.remaining, w)
    else
      StepOk(env, c, readOnly, f, w);
      Continue(env, c, readOnly, depth, f, w, Step(env, c, readOnly, f, w))
  }

  /** The rest of the run after an instruction of frame `f` had effect `e`. */
  function Continue(env: Env, c: Contract, readOnly: bool, depth: nat, f: Frame, w: World, e: Effect): (o: Outcome)
    requires depth <= MAX_DEPTH && f.pc < |c.code| && EffectOk(c.code, f, e)
    ensures o.remaining <= f.remaining
    decreases MAX_DEPTH - depth, f.remaining, CodeLeft(c.code, f.pc), 1
  {
    match e
    case Fault(err) => Outcome(Failed(err), [], 0, w)
    case Halt(ret, reverted, r) => Outcome(if reverted then Reverted else Ended, ret, r, w)
    case Next(g, v) => Run(env, c, readOnly, depth, g, v)
    case CallOut(q, g) => AfterCall(env, c, readOnly, depth, f, w, q, g)
    case CreateOut(q, g) => AfterCreate(env, c, readOnly, depth, f, w, q, g)
  }

  function AfterCall(
    env: Env, c: Contract, readOnly: bool, depth: nat, f: Frame, w: World, q: CallRequest, g: Frame): (o: Outcome)
    requires depth <= MAX_DEPTH && f.pc < |c.code| && EffectOk(c.code, f, CallOut(q, g))
    ensures o.remaining <= f.remaining
    decreases MAX_DEPTH - depth, f.remaining, CodeLeft(c.code, f.pc), 0
  {
    var entry := EnterCall(env, c, readOnly, depth, q, g, w);
    if entry.Rejected? then Outcome(Failed(entry.err), [], 0, w)
    else if entry.NotRun? then Run(env, c, readOnly, depth, Skip(g), w)
    else
      var child := Child(env, depth, entry);
      Run(env, c, readOnly, depth, LeaveCall(env, q, g, child), Settle(w, child))
  }

  function AfterCreate(
    env: Env, c: Contract, readOnly: bool, depth: nat, f: Frame, w: World, q: CreateRequest, g: Frame): (o: Outcome)
    requires depth <= MAX_DEPTH && f.pc < |c.code| && EffectOk(c.code, f, CreateOut(q, g))
    ensures o.remaining <= f.remaining
    decreases MAX_DEPTH - depth, f.remaining, CodeLeft(c.code, f.pc), 0
  {
    var entry := EnterCreate(env, c, readOnly, depth, q, g, w);
    if entry.Rejected? then Outcome(Failed(entry.err), [], 0, w)
    else if entry.NotRun? then Run(env, c, readOnly, depth, Skip(g), w)
    else
      var a := NewAddress(env, c, q, GetOrEmpty(w.accounts, c.self).nonce);
      var child := Child(env, depth, entry);
      Run(env, c, readOnly, depth, LeaveCreate(env, g, a, child), SettleCreate(Bumped(c, w), a, child))
  }

  /** What a child of a frame at `depth` comes to. */
  function Child(env: Env, depth: nat, entry: Entry): (o: Outcome)
    requires entry.Builtin? || (entry.Enter? && depth < MAX_DEPTH)
    ensures o.remaining <= entry.budget
    decreases MAX_DEPTH - depth, 0, 0, 0
  {
    if entry.Builtin? then BuiltinOutcome(entry.answer, entry.budget, entry.world)
    else Run(env, entry.contract, entry.readOnly, depth + 1, StartFrame(entry.budget), entry.world)
  }

  // ---- unfolding the rest of a run by the effect of its next instruction ----

  lemma ContinueFault(env: Env, c: Contract, readOnly: bool, depth: nat, f: Frame, w: World, err: VmError)
    requires depth <= MAX_DEPTH && f.pc < |c.code|
    ensures Continue(env, c, readOnly, depth, f, w, Fault(err)) == Outcome(Failed(err), [], 0, w)
  {
  }

  /** A frame the run goes on with: legal, and smaller in the measure. */
  predicate GoesOn(code: Bytes, f: Frame, g: Frame) { FrameOk(code, g) && Progress(code, f, g) }

  lemma ContinueCall(env: Env, c: Contract, readOnly: bool, depth: nat, f: Frame, w: World, q: CallRequest, g: Frame)
    requires depth <= MAX_DEPTH && f.pc < |c.code| && EffectOk(c.code, f, CallOut(q, g))
    ensures var entry := EnterCall(env, c, readOnly, depth, q, g, w);
            var o := Continue(env, c, readOnly, depth, f, w, CallOut(q, g));
            && (entry.Rejected? ==> o == Outcome(Failed(entry.err), [], 0, w))
            && (entry.NotRun? ==> GoesOn(c.code, f, Skip(g)) && o == Run(env, c, readOnly, depth, Skip(g), w))
            && (entry.Builtin? || entry.Enter? ==>
                  var child := Child(env, depth, entry);
                  var after := LeaveCall(env, q, g, child);
                  GoesOn(c.code, f, after) && o == Run(env, c, readOnly, depth, after, Settle(w, child)))
  {
  }

  lemma ContinueCreate(env: Env, c: Contract, readOnly: bool, depth: nat, f: Frame, w: World, q: CreateRequest,
      g: Frame)
    requires depth <= MAX_DEPTH && f.pc < |c.code| && EffectOk(c.code, f, CreateOut(q, g))
    ensures var entry := EnterCreate(env, c, readOnly, depth, q, g, w);
            var o := Continue(env, c, readOnly, depth, f, w, CreateOut(q, g));
            && (entry.Rejected? ==> o == Outcome(Failed(entry.err), [], 0, w))
            && (entry.NotRun? ==> GoesOn(c.code, f, Skip(g)) && o == Run(env, c, readOnly, depth, Skip(g), w))
            && (entry.Enter? ==>
                  var a := NewAddress(env, c, q, GetOrEmpty(w.accounts, c.self).nonce);
                  var child := Child(env, depth, entry);
                  var after := LeaveCreate(env, g, a, child);
                  GoesOn(c.code, f, after) &&
                  o == Run(env, c, readOnly, depth, after, SettleCreate(Bumped(c, w), a, child)))
  {
  }
}
