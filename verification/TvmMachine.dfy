/**
 The machine as it runs: an account map with a stack of snapshots, an energy
 meter, a depth counter and a log list, all changed in place around nested
 frames. Every method is proved against the pure semantics of TvmRun.
 */
module TvmMachine {
  import opened Options
  import opened TvmTypes
  import opened TvmSpec
  import opened TvmRun
  import TvmProps

  class EnergyMeter {
    const limit: nat
    var used: nat

    ghost predicate Valid() reads this { used <= limit }

    constructor (limit: nat)
      ensures Valid() && this.limit == limit && used == 0
    {
      this.limit := limit;
      used := 0;
    }

    function Remaining(): nat
      requires Valid()
      reads this
    {
      limit - used
    }

    /** Charges cost, or exhausts the meter when the budget is exceeded. */
    method Spend(cost: nat) returns (ok: bool)
      requires Valid()
      modifies this
      ensures Valid()
      ensures ok <==> cost <= old(Remaining())
      ensures ok ==> Remaining() == old(Remaining()) - cost
      ensures !ok ==> Remaining() == 0
    {
      if cost > limit - used {
        used := limit;
        return false;
      }
      used := used + cost;
      return true;
    }

    /** Returns unspent energy; the clamp fires exactly when more comes back than was used. */
    method Restore(n: nat)
      requires Valid()
      modifies this
      ensures Valid()
      ensures n <= old(used) ==> Remaining() == old(Remaining()) + n
      ensures n > old(used) ==> Remaining() == limit
    {
      if n > used {
        used := 0;
        return;
      }
      used := used - n;
    }
  }

  /** Accounts plus the stack of full copies taken by Snapshot. */
  class MemStateDb {
    var accounts: Accounts
    var snaps: seq<Accounts>

    constructor ()
      ensures accounts == map[] && snaps == []
    {
      accounts := map[];
      snaps := [];
    }

    method CreateAccount(a: Address)
      modifies this`accounts
      ensures accounts == WithAccount(old(accounts), a)
    {
      if a !in accounts {
        accounts := accounts[a := EMPTY_ACCOUNT];
      }
    }

    method AddBalance(a: Address, amount: Word)
      modifies this`accounts
      ensures accounts == Credit(old(accounts), a, amount)
    {
      var acct := GetOrEmpty(accounts, a);
      accounts := accounts[a := acct.(balance := (acct.balance + amount) % UINT256)];
    }

    method SubBalance(a: Address, amount: Word)
      modifies this`accounts
      ensures accounts == Debit(old(accounts), a, amount)
    {
      var acct := GetOrEmpty(accounts, a);
      accounts := accounts[a := acct.(balance := (acct.balance - amount) % UINT256)];
    }

    method SetNonce(a: Address, nonce: nat)
      modifies this`accounts
      ensures accounts == WithNonce(old(accounts), a, nonce)
    {
      accounts := accounts[a := GetOrEmpty(accounts, a).(nonce := nonce)];
    }

    method SetCode(a: Address, code: Bytes)
      modifies this`accounts
      ensures accounts == WithCode(old(accounts), a, code)
    {
      accounts := accounts[a := GetOrEmpty(accounts, a).(code := code)];
    }

    method SetStorage(a: Address, k: Word, v: Word)
      modifies this`accounts
      ensures accounts == WithSlot(old(accounts), a, k, v)
    {
      var acct := GetOrEmpty(accounts, a);
      accounts := accounts[a := acct.(storage := acct.storage[k := v])];
    }

    method Snapshot() returns (id: nat)
      modifies this`snaps
      ensures id == |old(snaps)| && snaps == old(snaps) + [accounts]
    {
      snaps := snaps + [accounts];
      return |snaps| - 1;
    }

    /** Restores snapshot id and discards it and every later one; out of range is ignored. */
    method RevertToSnapshot(id: int)
      modifies this
      ensures 0 <= id < |old(snaps)| ==> accounts == old(snaps)[id] && snaps == old(snaps)[..id]
      ensures !(0 <= id < |old(snaps)|) ==> accounts == old(accounts) && snaps == old(snaps)
    {
      if id < 0 || id >= |snaps| {
        return;
      }
      accounts := snaps[id];
      snaps := snaps[..id];
    }
  }

  /** The mutable state of one frame. */
  class Scope {
    const contract: Contract
    var pc: nat
    var stack: seq<Word>
    var mem: Bytes
    var stop: bool
    var ret: Bytes
    var reverted: bool
    var returnData: Bytes

    constructor (contract: Contract)
      ensures this.contract == contract
      ensures pc == 0 && stack == [] && mem == [] && !stop && ret == [] && !reverted && returnData == []
    {
      this.contract := contract;
      pc, stack, mem, stop, ret, reverted, returnData := 0, [], [], false, [], false, [];
    }

    ghost function AsFrame(remaining: nat): Frame
      reads this
    {
      Frame(pc, stack, mem, returnData, remaining)
    }

    /** The frame as it stands once the loop has moved past a one-byte instruction. */
    ghost function NextFrame(remaining: nat): Frame
      reads this
    {
      AsFrame(remaining).(pc := pc + 1)
    }

    ghost predicate Running()
      reads this
    {
      !stop && !reverted && ret == []
    }

    method PopWord() returns (w: Word)
      requires |stack| > 0
      modifies this`stack
      ensures w == old(stack)[|old(stack)| - 1] && stack == old(stack)[..|old(stack)| - 1]
    {
      w := stack[|stack| - 1];
      stack := stack[..|stack| - 1];
    }
  }

  datatype Result = Result(ret: Bytes, reverted: bool, energyUsed: nat, err: Option<VmError>, faultPc: int,
    faultOp: Byte)

  /** A frame result says what the pure outcome says, with energy counted as used instead of left. */
  predicate Reports(r: Result, o: Outcome, limit: nat) {
    && r.ret == o.ret
    && (r.reverted <==> o.status.Reverted?)
    && r.energyUsed + o.remaining == limit
    && (match o.status
        case Failed(e) => r.err == Some(e)
        case _ => r.err == None && r.faultPc == -1)
  }

  /** Bitmap of the JUMPDEST bytes that are not push data. */
  method AnalyzeJumpDests(code: Bytes) returns (dests: seq<bool>)
    ensures |dests| == |code|
    ensures forall d :: 0 <= d < |code| ==> (dests[d] <==> ValidDest(code, d))
  {
    dests := seq(|code|, _ => false);
    var pc := 0;
    assert Aligned(code, 0, 0);
    while pc < |code|
      invariant 0 <= pc && |dests| == |code|
      invariant Aligned(code, 0, pc)
      invariant forall d :: 0 <= d < |code| && d < pc ==> (dests[d] <==> ValidDest(code, d))
      invariant forall d :: pc <= d < |code| ==> !dests[d]
      decreases |code| - pc
    {
      var op := code[pc];
      AlignedStep(code, 0, pc);
      forall d | pc < d < NextPc(code, pc) && d < |code|
        ensures !ValidDest(code, d)
      {
        if Aligned(code, 0, d) {
          AlignedNotInside(code, 0, pc, d);
        }
      }
      if PushBytes(op) > 0 {
        pc := pc + PushBytes(op) + 1;
      } else {
        if op == 0x5b {
          dests := dests[pc := true];
        }
        pc := pc + 1;
      }
    }
  }

  class Evm {
    const env: Env
    const state: MemStateDb
    var logs: seq<Log>
    var depth: nat

    constructor (env: Env, state: MemStateDb)
      ensures this.env == env && this.state == state && logs == [] && depth == 0
    {
      this.env := env;
      this.state := state;
      logs, depth := [], 0;
    }

    ghost function TheWorld(): World
      reads this, state
    {
      World(state.accounts, logs)
    }

    // ---- instructions that stay inside the frame ----

    /** An instruction did what its effect says: fault, halt, or the next frame and world. */
    ghost predicate Did(sc: Scope, remaining: nat, e: Effect, err: Option<VmError>)
      reads this, state, sc
    {
      match e
      case Fault(x) => err == Some(x)
      case Halt(ret, rev, r) => err == None && sc.stop && sc.ret == ret && sc.reverted == rev && r == remaining
      case Next(g, v) => err == None && sc.Running() && sc.AsFrame(remaining) == g && TheWorld() == v
      case _ => false
    }

    /** PUSHn: assembles the immediate byte by byte into a 32-byte buffer. */
    method OpPush(sc: Scope, size: nat)
      requires size <= 32 && sc.pc < |sc.contract.code|
      modifies sc`pc, sc`stack
      ensures sc.pc == old(sc.pc) + 1 + size
      ensures sc.stack == old(sc.stack) + [PushWord(sc.contract.code, old(sc.pc), size)]
    {
      var code := sc.contract.code;
      var start := sc.pc + 1;
      var buf := Zeros(32);
      var i := 0;
      while i < size
        invariant 0 <= i <= size && |buf| == 32
        invariant buf == Zeros(32 - size) + CopySlice(code, start, size)[..i] + Zeros(size - i)
      {
        if start + i < |code| {
          buf := buf[32 - size + i := code[start + i]];
        }
        i := i + 1;
      }
      assert buf == Zeros(32 - size) + CopySlice(code, start, size);
      LeadingZeros(32 - size, CopySlice(code, start, size));
      sc.pc := sc.pc + size;
      sc.stack := sc.stack + [WordOf(buf)];
      sc.pc := sc.pc + 1;
    }

    /** JUMP and taken JUMPI consult the precomputed bitmap. */
    method JumpTo(sc: Scope, dests: seq<bool>, dest: Word) returns (err: Option<VmError>)
      requires |dests| == |sc.contract.code|
      requires forall d :: 0 <= d < |dests| ==> (dests[d] <==> ValidDest(sc.contract.code, d))
      modifies sc`pc
      ensures err == None <==> dest < UINT64 && ValidDest(sc.contract.code, dest)
      ensures err == None ==> sc.pc == dest
      ensures err != None ==> err == Some(BadJumpDest) && sc.pc == old(sc.pc)
    {
      if dest >= UINT64 {
        return Some(BadJumpDest);
      }
      if dest >= |sc.contract.code| || !dests[dest] {
        return Some(BadJumpDest);
      }
      sc.pc := dest;
      return None;
    }

    method OpJump(sc: Scope, dests: seq<bool>, conditional: bool) returns (err: Option<VmError>)
      requires |sc.stack| >= (if conditional then 2 else 1)
      requires |dests| == |sc.contract.code|
      requires forall d :: 0 <= d < |dests| ==> (dests[d] <==> ValidDest(sc.contract.code, d))
      modifies sc`pc, sc`stack
      ensures var s := old(sc.stack);
              var taken := !conditional || Peek(s, 1) != 0;
              && (!taken ==> err == None && sc.pc == old(sc.pc) + 1)
              && (taken && Peek(s, 0) < UINT64 && ValidDest(sc.contract.code, Peek(s, 0)) ==>
                   err == None && sc.pc == Peek(s, 0))
              && (taken && !(Peek(s, 0) < UINT64 && ValidDest(sc.contract.code, Peek(s, 0))) ==>
                    err == Some(BadJumpDest) && sc.pc == old(sc.pc))
              && sc.stack == Drop(s, if conditional then 2 else 1)
    {
      var dest := sc.PopWord();
      if conditional {
        var cond := sc.PopWord();
        if cond == 0 {
          sc.pc := sc.pc + 1;
          return None;
        }
      }
      err := JumpTo(sc, dests, dest);
    }

    /** LOGn: pops offset, size and the topics, appends the event; not allowed in read-only mode. */
    method OpLog(sc: Scope, readOnly: bool, n: nat) returns (err: Option<VmError>)
      requires |sc.stack| >= 2 + n
      modifies this`logs, sc`stack, sc`mem, sc`pc
      ensures err == if readOnly then Some(StaticStateChange) else None
      ensures readOnly ==>
                logs == old(logs) && sc.stack == old(sc.stack) && sc.mem == old(sc.mem) && sc.pc == old(sc.pc)
      ensures !readOnly ==>
                var s := old(sc.stack);
                && logs == old(logs) +
                     [Log(sc.contract.self, Topics(s, n), ReadMem(old(sc.mem), Peek(s, 0), Peek(s, 1)))]
                && sc.stack == Drop(s, 2 + n)
                && sc.mem == Touch(old(sc.mem), Peek(s, 0), Peek(s, 1))
                && sc.pc == old(sc.pc) + 1
    {
      if readOnly {
        return Some(StaticStateChange);
      }
      ghost var s := sc.stack;
      var offset := sc.PopWord();
      var size := sc.PopWord();
      var topics: seq<Word> := [];
      while |topics| < n
        modifies sc`stack
        invariant |topics| <= n
        invariant sc.stack == Drop(s, 2 + |topics|)
        invariant forall i :: 0 <= i < |topics| ==> topics[i] == Peek(s, 2 + i)
      {
        var t := sc.PopWord();
        topics := topics + [t];
      }
      assert topics == Topics(s, n);
      logs := logs + [Log(sc.contract.self, topics, ReadMem(sc.mem, offset, size))];
      sc.mem := Touch(sc.mem, offset, size);
      sc.pc := sc.pc + 1;
      return None;
    }

    /** SSTORE: writes one slot of the running account; not allowed in read-only mode. */
    method OpSstore(sc: Scope, readOnly: bool) returns (err: Option<VmError>)
      requires |sc.stack| >= 2
      modifies state`accounts, sc`stack, sc`pc
      ensures err == if readOnly then Some(StaticStateChange) else None
      ensures readOnly ==> state.accounts == old(state.accounts) && sc.stack == old(sc.stack) && sc.pc == old(sc.pc)
      ensures !readOnly ==>
                && state.accounts ==
                   WithSlot(old(state.accounts), sc.contract.self, Peek(old(sc.stack), 0), Peek(old(sc.stack), 1))
                && sc.stack == Drop(old(sc.stack), 2) && sc.pc == old(sc.pc) + 1
    {
      if readOnly {
        return Some(StaticStateChange);
      }
      var slot := sc.PopWord();
      var val := sc.PopWord();
      state.SetStorage(sc.contract.self, slot, val);
      sc.pc := sc.pc + 1;
      return None;
    }

    /** Executes an instruction that opens no child frame. */
    method ExecInFrame(sc: Scope, remaining: nat, readOnly: bool, dests: seq<bool>, i: Instr)
      returns (err: Option<VmError>)
      requires sc.Running() && sc.pc < |sc.contract.code| && |sc.stack| >= Pops(i)
      requires !i.Call? && !i.Create? && !i.Create2? && (i.Push? ==> i.size <= 32)
      requires |dests| == |sc.contract.code|
      requires forall d :: 0 <= d < |dests| ==> (dests[d] <==> ValidDest(sc.contract.code, d))
      modifies this`logs, state`accounts, sc
      ensures Did(sc, remaining, Exec(env, sc.contract, readOnly, old(sc.AsFrame(remaining)), old(TheWorld()), i), err)
      ensures err != None ==> sc.pc == old(sc.pc)
      ensures err != None || sc.stop ==> TheWorld() == old(TheWorld())
      ensures old(logs) <= logs
    {
      err := None;
      if i.Push? {
        OpPush(sc, i.size);
      } else if i.Jump? || i.JumpI? {
        err := OpJump(sc, dests, i.JumpI?);
      } else if i.EmitLog? {
        err := OpLog(sc, readOnly, i.topics);
      } else if i.SStore? {
        err := OpSstore(sc, readOnly);
      } else {
        err := ExecLocal(sc, remaining, readOnly, i);
      }
    }

    /** Instructions that only rearrange the frame's own stack and memory, or end it. */
    method ExecLocal(sc: Scope, remaining: nat, readOnly: bool, i: Instr) returns (err: Option<VmError>)
      requires sc.Running() && sc.pc < |sc.contract.code| && |sc.stack| >= Pops(i)
      requires !i.Call? && !i.Create? && !i.Create2? && !i.SStore? && !i.EmitLog?
      modifies sc
      ensures Did(sc, remaining, Exec(env, sc.contract, readOnly, old(sc.AsFrame(remaining)), old(TheWorld()), i), err)
      ensures err != None ==> sc.pc == old(sc.pc)
    {
      hide TvmSpec.ExecLocal;
      var f := Frame(sc.pc, sc.stack, sc.mem, sc.returnData, remaining);
      match TvmSpec.ExecLocal(env, sc.contract, f, World(state.accounts, logs), i)
      case Broken(e) => return Some(e);
      case Stopped(ret, rev) =>
        sc.ret, sc.reverted, sc.stop := ret, rev, true;
        return None;
      case Stay(pc, stack, mem) =>
        sc.pc, sc.stack, sc.mem := pc, stack, mem;
        return None;
    }

    // ---- child frames ----

    /** Pops the operands of a CALL-family instruction, reading the arguments from memory. */
    method TakeCall(sc: Scope, kind: CallKind, ghost r: nat) returns (q: CallRequest)
      requires |sc.stack| >= Pops(Call(kind))
      modifies sc`stack, sc`mem
      ensures CallOut(q, sc.NextFrame(r)) == CallOperands(kind, old(sc.AsFrame(r)))
    {
      hide ReadMem, Touch, AddressOf, ClampU64;
      var s := sc.stack;
      var v := if kind.PlainCall? || kind.CallCode? then 1 else 0;
      var value := if v == 1 then Peek(s, 2) else 0;
      var inOff, inSize, outOff, outSize := Peek(s, 2 + v), Peek(s, 3 + v), Peek(s, 4 + v), Peek(s, 5 + v);
      sc.stack := Drop(s, 6 + v);
      q := CallRequest(kind, AddressOf(Peek(s, 1)), value, ClampU64(Peek(s, 0)), ReadMem(sc.mem, inOff, inSize),
        outOff, outSize);
      sc.mem := Touch(sc.mem, inOff, inSize);
    }

    method TakeCreate(sc: Scope, salted: bool, ghost r: nat) returns (q: CreateRequest)
      requires |sc.stack| >= (if salted then 4 else 3)
      modifies sc`stack, sc`mem
      ensures CreateOut(q, sc.NextFrame(r)) == CreateOperands(salted, old(sc.AsFrame(r)))
    {
      hide ReadMem, Touch;
      var s := sc.stack;
      var inOff, inSize := Peek(s, 1), Peek(s, 2);
      sc.stack := Drop(s, if salted then 4 else 3);
      q := CreateRequest(Peek(s, 0), ReadMem(sc.mem, inOff, inSize), if salted then Some(Peek(s, 3)) else None);
      sc.mem := Touch(sc.mem, inOff, inSize);
    }

    /** Undoes everything since a snapshot: accounts by id, logs by length. */
    method Rollback(snap: nat, logMark: nat)
      requires snap < |state.snaps| && logMark <= |logs|
      modifies state, this`logs
      ensures state.accounts == old(state.snaps)[snap] && state.snaps == old(state.snaps)[..snap]
      ensures logs == old(logs)[..logMark]
    {
      state.RevertToSnapshot(snap);
      logs := logs[..logMark];
    }

    /** Writes a child's outcome back into the caller's scope. */
    method Report(sc: Scope, q: CallRequest, o: Status, ret: Bytes)
      modifies sc`stack, sc`mem, sc`returnData
      ensures sc.returnData == if o.Failed? then [] else ret
      ensures sc.mem == if o.Failed? then old(sc.mem) else WriteReturn(old(sc.mem), q.outOff, ret, q.outSize)
      ensures sc.stack == old(sc.stack) + [if o.Ended? then 1 else 0]
    {
      if o.Failed? {
        sc.returnData := [];
      } else {
        sc.returnData := ret;
        sc.mem := WriteReturn(sc.mem, q.outOff, ret, q.outSize);
      }
      sc.stack := sc.stack + [if o.Ended? then 1 else 0];
    }

    /**
     Runs one CALL-family operation whose base cost is paid. The snapshot taken here is still at its
     index when it is needed, whatever snapshots the child left behind, and the refund never meets the clamp.
     */
    method DoCall(sc: Scope, meter: EnergyMeter, readOnly: bool, q: CallRequest) returns (err: Option<VmError>)
      requires depth <= MAX_DEPTH && meter.Valid() && |sc.stack| < MAX_STACK && sc.Running()
      requires q.value != 0 ==> meter.used >= STIPEND
      modifies this, state, sc, meter
      ensures meter.Valid() && depth == old(depth) && sc.Running() && old(state.snaps) <= state.snaps &&
                old(logs) <= logs
      ensures var f := old(sc.NextFrame(meter.Remaining()));
              var w := old(TheWorld());
              var entry := EnterCall(env, sc.contract, readOnly, depth, q, f, w);
              && (entry.Rejected? ==> err == Some(entry.err) && sc.pc == old(sc.pc) && TheWorld() == w)
              && (entry.NotRun? ==> err == None && sc.NextFrame(meter.Remaining()) == Skip(f) && TheWorld() == w)
              && (entry.Builtin? || entry.Enter? ==>
                    var child := Child(env, depth, entry);
                    && err == None
                    && sc.NextFrame(meter.Remaining()) == LeaveCall(env, q, f, child)
                    && TheWorld() == Settle(w, child))
      ensures err == None ==> |sc.stack| > 0 && (sc.stack[|sc.stack| - 1] == 0 ==> TheWorld() == old(TheWorld()))
      decreases MAX_DEPTH - depth, 4
    {
      hide Run, Continue, Child, LeaveCall, Settle;
      var transfersValue := q.value != 0;
      if (q.kind.StaticCall? || readOnly) && transfersValue {
        return Some(StaticStateChange);
      }
      if depth >= MAX_DEPTH || (transfersValue && BalanceOf(state.accounts, sc.contract.self) < q.value) {
        sc.returnData := [];
        sc.stack := sc.stack + [0];
        return None;
      }
      ghost var f, w := sc.NextFrame(meter.Remaining()), TheWorld();
      ghost var entry := EnterCall(env, sc.contract, readOnly, depth, q, f, w);
      CallThrough(sc, meter, readOnly, q);
      TvmProps.CallIsAtomic(env, q, f, w, Child(env, depth, entry));
      return None;
    }

    /** The part of a call that reserves energy, snapshots, runs the child and refunds. */
    method CallThrough(sc: Scope, meter: EnergyMeter, readOnly: bool, q: CallRequest)
      requires depth < MAX_DEPTH && meter.Valid() && |sc.stack| < MAX_STACK && sc.Running()
      requires q.value != 0 ==>
                 meter.used >= STIPEND && !readOnly && !q.kind.StaticCall? &&
                 BalanceOf(state.accounts, sc.contract.self) >= q.value
      modifies this, state, sc, meter
      ensures meter.Valid() && depth == old(depth) && sc.Running() && old(state.snaps) <= state.snaps &&
                old(logs) <= logs
      ensures var f := old(sc.NextFrame(meter.Remaining()));
              var w := old(TheWorld());
              var entry := EnterCall(env, sc.contract, readOnly, depth, q, f, w);
              && (entry.Builtin? || entry.Enter?)
              && var child := Child(env, depth, entry);
                 sc.NextFrame(meter.Remaining()) == LeaveCall(env, q, f, child) && TheWorld() == Settle(w, child)
      decreases MAX_DEPTH - depth, 3
    {
      hide Run, Continue, Child, Transfer, LeaveCall, EnterCall, ChildContract, ForwardedEnergy;
      ghost var w := TheWorld();
      ghost var f := sc.NextFrame(meter.Remaining());
      ghost var entry := EnterCall(env, sc.contract, readOnly, depth, q, f, w);
      EntryIs(env, sc.contract, readOnly, depth, q, f, w);
      var child := ChildContract(sc.contract, q, GetOrEmpty(state.accounts, q.to).code);
      var snap, logMark, budget := OpenCall(sc, meter, q);
      assert entry.world == TheWorld() && entry.budget == budget;
      var status, ret, left := RunEntry(q.to, q.args, child, budget, readOnly || q.kind.StaticCall?);
      assert Child(env, depth, entry) == Outcome(status, ret, left, TheWorld());
      CloseCall(sc, meter, q, snap, logMark, status, ret, left, w, f);
    }

    /** Reserves the child's energy, takes the snapshot and moves the call value. */
    method OpenCall(sc: Scope, meter: EnergyMeter, q: CallRequest) returns (snap: nat, logMark: nat, budget: nat)
      requires meter.Valid()
      requires q.value != 0 ==> meter.used >= STIPEND
      modifies state, meter
      ensures meter.Valid() && snap == |old(state.snaps)| && logMark == |logs|
      ensures state.snaps == old(state.snaps) + [old(state.accounts)]
      ensures state.accounts ==
              if q.kind.PlainCall? && q.value != 0 then Transfer(old(state.accounts), sc.contract.self, q.to, q.value)
              else old(state.accounts)
      ensures budget == CallBudget(env, q, old(sc.AsFrame(meter.Remaining())))
      ensures meter.Remaining() ==
                old(meter.Remaining()) - ForwardedEnergy(env.cfg, q.requested, old(meter.Remaining()))
      ensures budget <= meter.used
    {
      var childGas := ForwardedEnergy(env.cfg, q.requested, meter.Remaining());
      var _ := meter.Spend(childGas);
      budget := childGas;
      if q.value != 0 {
        budget := budget + STIPEND;
      }
      snap := state.Snapshot();
      logMark := |logs|;
      if q.kind.PlainCall? && q.value != 0 {
        state.SubBalance(sc.contract.self, q.value);
        state.AddBalance(q.to, q.value);
      }
    }

    /** Refunds, rolls back unless the child ended well, and reports to the caller. */
    method CloseCall(sc: Scope, meter: EnergyMeter, q: CallRequest, snap: nat, logMark: nat,
                     status: Status, ret: Bytes, left: nat, ghost w: World, ghost f: Frame)
      requires meter.Valid() && left <= meter.used && sc.Running()
      requires snap < |state.snaps| && state.snaps[snap] == w.accounts
      requires logMark == |w.logs| && w.logs <= logs
      requires f == sc.NextFrame(meter.Remaining() + ForwardedEnergy(env.cfg, q.requested, f.remaining))
      modifies this`logs, state, sc, meter
      ensures meter.Valid() && sc.Running() &&
                state.snaps == if status.Ended? then old(state.snaps) else old(state.snaps)[..snap]
      ensures TheWorld() == Settle(w, Outcome(status, ret, left, old(TheWorld())))
      ensures sc.NextFrame(meter.Remaining()) == LeaveCall(env, q, f, Outcome(status, ret, left, old(TheWorld())))
    {
      hide WriteReturn, ForwardedEnergy;
      meter.Restore(left);
      if !status.Ended? {
        Rollback(snap, logMark);
      }
      Report(sc, q, status, ret);
    }

    /** Runs the callee of a call one level deeper: natively when it is precompiled, as bytecode otherwise. */
    method RunEntry(to: Address, args: Bytes, child: Contract, budget: nat, readOnly: bool)
      returns (status: Status, ret: Bytes, left: nat)
      requires depth < MAX_DEPTH
      modifies this, state
      ensures depth == old(depth) && old(state.snaps) <= state.snaps && old(logs) <= logs
      ensures var entry :=
                match env.precompile(to, args)
                case Some(answer) => Builtin(answer, budget, old(TheWorld()))
                case None => Enter(child, readOnly, budget, old(TheWorld()));
              Child(env, depth, entry) == Outcome(status, ret, left, TheWorld())
      decreases MAX_DEPTH - depth, 2
    {
      hide Run, Continue;
      match env.precompile(to, args) {
        case Some(answer) =>
          status, ret, left := RunBuiltin(answer, budget);
        case None =>
          depth := depth + 1;
          var res := RunChild(child, budget, readOnly);
          depth := depth - 1;
          status, ret, left := StatusOf(res), res.ret, budget - res.energyUsed;
      }
    }

    /** Runs a precompiled contract natively: over budget or failing consumes the whole budget. */
    method RunBuiltin(answer: Precompiled, budget: nat) returns (status: Status, ret: Bytes, left: nat)
      ensures forall w :: BuiltinOutcome(answer, budget, w) == Outcome(status, ret, left, w)
    {
      if answer.cost > budget {
        return Failed(OutOfEnergy), [], 0;
      }
      match answer.output
      case None => return Failed(PrecompileFailure), [], 0;
      case Some(out) => return Ended, out, budget - answer.cost;
    }

    /** Builds scope and meter of a frame and runs it. */
    method RunChild(contract: Contract, limit: nat, readOnly: bool) returns (res: Result)
      requires depth <= MAX_DEPTH
      modifies this, state
      ensures depth == old(depth) && old(state.snaps) <= state.snaps && old(logs) <= logs
      ensures var o := Run(env, contract, readOnly, depth, StartFrame(limit), old(TheWorld()));
              Reports(res, o, limit) && TheWorld() == o.world
      decreases MAX_DEPTH - depth, 10
    {
      var meter := new EnergyMeter(limit);
      var sc := new Scope(contract);
      res := RunFrame(sc, meter, readOnly);
    }

    // ---- creation ----

    /** Bumps the creator's nonce, then reserves energy, snapshots, creates the account and endows it. */
    method OpenCreate(sc: Scope, meter: EnergyMeter, q: CreateRequest)
      returns (a: Address, snap: nat, logMark: nat, budget: nat)
      requires meter.Valid()
      modifies state, meter
      ensures meter.Valid() && snap == |old(state.snaps)| && logMark == |logs|
      ensures a == NewAddress(env, sc.contract, q, GetOrEmpty(old(state.accounts), sc.contract.self).nonce)
      ensures state.snaps == old(state.snaps) + [Bumped(sc.contract, old(TheWorld())).accounts]
      ensures var born := WithAccount(Bumped(sc.contract, old(TheWorld())).accounts, a);
              state.accounts == if q.value != 0 then Transfer(born, sc.contract.self, a, q.value) else born
      ensures budget == CreateBudget(env, old(sc.AsFrame(meter.Remaining())))
      ensures meter.Remaining() == old(meter.Remaining()) - budget && budget <= meter.used
    {
      var nonce := GetOrEmpty(state.accounts, sc.contract.self).nonce;
      state.SetNonce(sc.contract.self, nonce + 1);
      a := NewAddress(env, sc.contract, q, nonce);
      budget := ForwardedEnergy(env.cfg, meter.Remaining(), meter.Remaining());
      var _ := meter.Spend(budget);
      snap := state.Snapshot();
      logMark := |logs|;
      state.CreateAccount(a);
      if q.value != 0 {
        state.SubBalance(sc.contract.self, q.value);
        state.AddBalance(a, q.value);
      }
    }

    /** Refunds, then deploys the returned code or rolls the creation back, and pushes the address or 0. */
    method CloseCreate(sc: Scope, meter: EnergyMeter, a: Address, snap: nat, logMark: nat,
                       status: Status, ret: Bytes, left: nat, ghost bumped: World)
      requires meter.Valid() && left <= meter.used && sc.Running()
      requires snap < |state.snaps| && state.snaps[snap] == bumped.accounts
      requires logMark == |bumped.logs| && bumped.logs <= logs
      modifies this`logs, state, sc, meter
      ensures meter.Valid() && sc.Running() && sc.pc == old(sc.pc) && sc.mem == old(sc.mem)
      ensures state.snaps == old(state.snaps) || state.snaps == old(state.snaps)[..snap]
      ensures var o := Outcome(status, ret, left, old(TheWorld()));
              && TheWorld() == SettleCreate(bumped, a, o)
              && bumped.logs <= logs
              && sc.stack == old(sc.stack) + [if Deployed(o) then AddressWord(a) else 0]
              && sc.returnData == (if status.Reverted? then ret else [])
              && meter.Remaining() - old(meter.Remaining()) ==
                 if Deployed(o) then left - |ret| * CREATE_DATA else if status.Ended? then 0 else left
    {
      if !status.Ended? {
        Rollback(snap, logMark);
        meter.Restore(left);
        sc.returnData := if status.Failed? then [] else ret;
        sc.stack := sc.stack + [0];
        return;
      }
      sc.returnData := [];
      var deployCost := |ret| * CREATE_DATA;
      if deployCost > left {
        Rollback(snap, logMark);
        sc.stack := sc.stack + [0];
        return;
      }
      meter.Restore(left - deployCost);
      state.SetCode(a, ret);
      sc.stack := sc.stack + [AddressWord(a)];
    }

    /** Runs CREATE or CREATE2 once its base cost is paid. */
    method DoCreate(sc: Scope, meter: EnergyMeter, readOnly: bool, q: CreateRequest) returns (err: Option<VmError>)
      requires depth <= MAX_DEPTH && meter.Valid() && |sc.stack| < MAX_STACK && sc.Running()
      modifies this, state, sc, meter
      ensures meter.Valid() && depth == old(depth) && sc.Running() && old(state.snaps) <= state.snaps &&
                old(logs) <= logs
      ensures var f := old(sc.NextFrame(meter.Remaining()));
              var w := old(TheWorld());
              var entry := EnterCreate(env, sc.contract, readOnly, depth, q, f, w);
              && (entry.Rejected? ==> err == Some(entry.err) && sc.pc == old(sc.pc) && TheWorld() == w)
              && (entry.NotRun? ==> err == None && sc.NextFrame(meter.Remaining()) == Skip(f) && TheWorld() == w)
              && (entry.Enter? ==>
                    var a := NewAddress(env, sc.contract, q, GetOrEmpty(w.accounts, sc.contract.self).nonce);
                    var child := Child(env, depth, entry);
                    && err == None
                    && sc.NextFrame(meter.Remaining()) == LeaveCreate(env, f, a, child)
                    && TheWorld() == SettleCreate(Bumped(sc.contract, w), a, child))
      ensures err == None ==>
                |sc.stack| > 0 &&
                (sc.stack[|sc.stack| - 1] == 0 ==>
                   logs == old(logs) && TvmProps.SameButNonce(old(state.accounts), state.accounts, sc.contract.self))
      decreases MAX_DEPTH - depth, 4
    {
      hide Run, Continue, Child, Transfer, WithAccount, NewAddress, LeaveCreate, SettleCreate, Bumped,
        TvmProps.SameButNonce;
      ghost var w := TheWorld();
      TvmProps.NonceAside(w.accounts, sc.contract.self);
      if readOnly {
        return Some(StaticStateChange);
      }
      if depth >= MAX_DEPTH || (q.value != 0 && BalanceOf(state.accounts, sc.contract.self) < q.value) {
        sc.returnData := [];
        sc.stack := sc.stack + [0];
        return None;
      }
      ghost var f := sc.NextFrame(meter.Remaining());
      ghost var entry := EnterCreate(env, sc.contract, readOnly, depth, q, f, w);
      ghost var a := NewAddress(env, sc.contract, q, GetOrEmpty(w.accounts, sc.contract.self).nonce);
      CreateThrough(sc, meter, q);
      TvmProps.CreateIsAtomic(env, sc.contract, f, w, a, Child(env, depth, entry));
      return None;
    }

    /** The part of a creation that reserves energy, snapshots, runs the init code and refunds. */
    method CreateThrough(sc: Scope, meter: EnergyMeter, q: CreateRequest)
      requires depth < MAX_DEPTH && meter.Valid() && |sc.stack| < MAX_STACK && sc.Running()
      requires q.value != 0 ==> BalanceOf(state.accounts, sc.contract.self) >= q.value
      modifies this, state, sc, meter
      ensures meter.Valid() && depth == old(depth) && sc.Running() && old(state.snaps) <= state.snaps &&
                old(logs) <= logs
      ensures var f := old(sc.NextFrame(meter.Remaining()));
              var w := old(TheWorld());
              var entry := EnterCreate(env, sc.contract, false, depth, q, f, w);
              && entry.Enter?
              && var a := NewAddress(env, sc.contract, q, GetOrEmpty(w.accounts, sc.contract.self).nonce);
                 var child := Child(env, depth, entry);
                 && sc.NextFrame(meter.Remaining()) == LeaveCreate(env, f, a, child)
                 && TheWorld() == SettleCreate(Bumped(sc.contract, w), a, child)
      decreases MAX_DEPTH - depth, 3
    {
      hide Run, Continue, Child, Transfer, WithAccount, NewAddress;
      ghost var w := TheWorld();
      ghost var entry := EnterCreate(env, sc.contract, false, depth, q, sc.NextFrame(meter.Remaining()), w);
      var a, snap, logMark, budget := OpenCreate(sc, meter, q);
      var child := Contract(a, sc.contract.self, sc.contract.origin, q.value, [], q.init);
      assert entry == Enter(child, false, budget, TheWorld());
      var status, ret, left := RunInit(child, budget);
      assert Child(env, depth, entry) == Outcome(status, ret, left, TheWorld());
      CloseCreate(sc, meter, a, snap, logMark, status, ret, left, Bumped(sc.contract, w));
    }

    method RunInit(child: Contract, budget: nat) returns (status: Status, ret: Bytes, left: nat)
      requires depth < MAX_DEPTH
      modifies this, state
      ensures depth == old(depth) && old(state.snaps) <= state.snaps && old(logs) <= logs
      ensures Child(env, depth, Enter(child, false, budget, old(TheWorld()))) == Outcome(status, ret, left, TheWorld())
      decreases MAX_DEPTH - depth, 2
    {
      hide Run, Continue;
      depth := depth + 1;
      var res := RunChild(child, budget, false);
      depth := depth - 1;
      status, ret, left := StatusOf(res), res.ret, budget - res.energyUsed;
    }

    // ---- the interpreter loop ----

    /** Where the machine stands agrees with the outcome `o` of the pure run. */
    ghost predicate Agrees(sc: Scope, meter: EnergyMeter, readOnly: bool, err: Option<VmError>, o: Outcome)
      requires meter.Valid() && depth <= MAX_DEPTH
      reads this, state, sc, meter
    {
      match err
      case Some(x) => o == Outcome(Failed(x), [], 0, TheWorld())
      case None =>
        if sc.stop then o == Outcome(if sc.reverted then Reverted else Ended, sc.ret, meter.Remaining(), TheWorld())
        else
          && sc.Running() && FrameOk(sc.contract.code, sc.AsFrame(meter.Remaining()))
          && o == Run(env, sc.contract, readOnly, depth, sc.AsFrame(meter.Remaining()), TheWorld())
    }

    /** Executes a paid instruction, opening a child frame when it asks for one. */
    method Dispatch(sc: Scope, meter: EnergyMeter, readOnly: bool, dests: seq<bool>, i: Instr, ghost f: Frame)
      returns (err: Option<VmError>)
      requires depth <= MAX_DEPTH && meter.Valid() && sc.Running()
      requires f.pc == sc.pc < |sc.contract.code| && |sc.stack| >= Pops(i) && (i.Push? ==> i.size <= 32)
      requires f.remaining <= meter.limit
      requires EffectOk(sc.contract.code, f,
                 Exec(env, sc.contract, readOnly, sc.AsFrame(meter.Remaining()), TheWorld(), i))
      requires |dests| == |sc.contract.code|
      requires forall d :: 0 <= d < |dests| ==> (dests[d] <==> ValidDest(sc.contract.code, d))
      modifies this, state, sc, meter
      ensures meter.Valid() && depth == old(depth) && old(state.snaps) <= state.snaps && old(logs) <= logs
      ensures var e := Exec(env, sc.contract, readOnly, old(sc.AsFrame(meter.Remaining())), old(TheWorld()), i);
              Agrees(sc, meter, readOnly, err, Continue(env, sc.contract, readOnly, depth, f, old(TheWorld()), e))
      ensures err == None && !sc.stop ==> Progress(sc.contract.code, f, sc.AsFrame(meter.Remaining()))
      ensures err != None ==> sc.pc == old(sc.pc)
      decreases MAX_DEPTH - depth, 6
    {
      hide Run, CallOperands, CreateOperands, LogInto, ReturnDataInto, CopyInto;
      if i.Call? {
        err := DispatchCall(sc, meter, readOnly, i.kind, f);
      } else if i.Create? || i.Create2? {
        err := DispatchCreate(sc, meter, readOnly, i.Create2?, f);
      } else {
        err := ExecInFrame(sc, meter.Remaining(), readOnly, dests, i);
      }
    }

    method DispatchCall(sc: Scope, meter: EnergyMeter, readOnly: bool, kind: CallKind, ghost f: Frame)
      returns (err: Option<VmError>)
      requires depth <= MAX_DEPTH && meter.Valid() && sc.Running()
      requires f.pc == sc.pc < |sc.contract.code| && |sc.stack| >= Pops(Call(kind)) && f.remaining <= meter.limit
      requires EffectOk(sc.contract.code, f, CallOperands(kind, sc.AsFrame(meter.Remaining())))
      modifies this, state, sc, meter
      ensures meter.Valid() && depth == old(depth) && old(state.snaps) <= state.snaps && old(logs) <= logs
      ensures var e := CallOperands(kind, old(sc.AsFrame(meter.Remaining())));
              Agrees(sc, meter, readOnly, err, Continue(env, sc.contract, readOnly, depth, f, old(TheWorld()), e))
      ensures err == None && !sc.stop ==> Progress(sc.contract.code, f, sc.AsFrame(meter.Remaining()))
      ensures err != None ==> sc.pc == old(sc.pc)
      decreases MAX_DEPTH - depth, 5
    {
      hide Run, Continue, Child, CallOperands, EnterCall, LeaveCall, Settle, OnBoundary;
      var q := TakeCall(sc, kind, meter.Remaining());
      ContinueCall(env, sc.contract, readOnly, depth, f, TheWorld(), q, sc.NextFrame(meter.Remaining()));
      err := DoCall(sc, meter, readOnly, q);
      if err == None {
        sc.pc := sc.pc + 1;
      }
    }

    method DispatchCreate(sc: Scope, meter: EnergyMeter, readOnly: bool, salted: bool, ghost f: Frame)
      returns (err: Option<VmError>)
      requires depth <= MAX_DEPTH && meter.Valid() && sc.Running()
      requires f.pc == sc.pc < |sc.contract.code| && |sc.stack| >= (if salted then 4 else 3)
      requires EffectOk(sc.contract.code, f, CreateOperands(salted, sc.AsFrame(meter.Remaining())))
      modifies this, state, sc, meter
      ensures meter.Valid() && depth == old(depth) && old(state.snaps) <= state.snaps && old(logs) <= logs
      ensures var e := CreateOperands(salted, old(sc.AsFrame(meter.Remaining())));
              Agrees(sc, meter, readOnly, err, Continue(env, sc.contract, readOnly, depth, f, old(TheWorld()), e))
      ensures err == None && !sc.stop ==> Progress(sc.contract.code, f, sc.AsFrame(meter.Remaining()))
      ensures err != None ==> sc.pc == old(sc.pc)
      decreases MAX_DEPTH - depth, 5
    {
      hide Run, Continue, Child, CreateOperands, EnterCreate, LeaveCreate, SettleCreate, OnBoundary;
      var q := TakeCreate(sc, salted, meter.Remaining());
      ContinueCreate(env, sc.contract, readOnly, depth, f, TheWorld(), q, sc.NextFrame(meter.Remaining()));
      err := DoCreate(sc, meter, readOnly, q);
      if err == None {
        sc.pc := sc.pc + 1;
      }
    }

    /** One turn of the loop: decode, check the stack, price, pay, execute. */
    method Turn(sc: Scope, meter: EnergyMeter, readOnly: bool, dests: seq<bool>) returns (err: Option<VmError>)
      requires depth <= MAX_DEPTH && meter.Valid() && sc.Running() && sc.pc < |sc.contract.code|
      requires FrameOk(sc.contract.code, sc.AsFrame(meter.Remaining()))
      requires |dests| == |sc.contract.code|
      requires forall d :: 0 <= d < |dests| ==> (dests[d] <==> ValidDest(sc.contract.code, d))
      modifies this, state, sc, meter
      ensures meter.Valid() && depth == old(depth) && old(state.snaps) <= state.snaps && old(logs) <= logs
      ensures var f := old(sc.AsFrame(meter.Remaining()));
              && Agrees(sc, meter, readOnly, err, Run(env, sc.contract, readOnly, depth, f, old(TheWorld())))
              && (err == None && !sc.stop ==> Progress(sc.contract.code, f, sc.AsFrame(meter.Remaining())))
      ensures err != None ==> sc.pc == old(sc.pc)
      decreases MAX_DEPTH - depth, 8
    {
      var op := sc.contract.code[sc.pc];
      var decoded := Decode(env.cfg, op);
      ghost var f := sc.AsFrame(meter.Remaining());
      StepOk(env, sc.contract, readOnly, f, TheWorld());
      DecodeImmediates(env.cfg, op);
      err := TurnDecoded(sc, meter, readOnly, dests, decoded);
    }

    method TurnDecoded(sc: Scope, meter: EnergyMeter, readOnly: bool, dests: seq<bool>, decoded: Option<Instr>)
      returns (err: Option<VmError>)
      requires depth <= MAX_DEPTH && meter.Valid() && sc.Running() && sc.pc < |sc.contract.code|
      requires ImmediatesMatch(sc.contract.code[sc.pc], decoded)
      requires EffectOk(sc.contract.code, sc.AsFrame(meter.Remaining()),
                        StepDecoded(env, sc.contract, readOnly, sc.AsFrame(meter.Remaining()), TheWorld(), decoded))
      requires |dests| == |sc.contract.code|
      requires forall d :: 0 <= d < |dests| ==> (dests[d] <==> ValidDest(sc.contract.code, d))
      modifies this, state, sc, meter
      ensures meter.Valid() && depth == old(depth) && old(state.snaps) <= state.snaps && old(logs) <= logs
      ensures var f, w := old(sc.AsFrame(meter.Remaining())), old(TheWorld());
              && Agrees(sc, meter, readOnly, err,
                        Continue(env, sc.contract, readOnly, depth, f, w,
                          StepDecoded(env, sc.contract, readOnly, f, w, decoded)))
              && (err == None && !sc.stop ==> Progress(sc.contract.code, f, sc.AsFrame(meter.Remaining())))
      ensures err != None ==> sc.pc == old(sc.pc)
      decreases MAX_DEPTH - depth, 7
    {
      hide Run, Continue, Exec, PriceOf;
      ghost var f := sc.AsFrame(meter.Remaining());
      if decoded.None? {
        ContinueFault(env, sc.contract, readOnly, depth, f, TheWorld(), InvalidOpcode);
        return Some(InvalidOpcode);
      }
      var i := decoded.value;
      if |sc.stack| < Pops(i) {
        ContinueFault(env, sc.contract, readOnly, depth, f, TheWorld(), StackUnderflow);
        return Some(StackUnderflow);
      }
      if |sc.stack| - Pops(i) + Pushes(i) > MAX_STACK {
        ContinueFault(env, sc.contract, readOnly, depth, f, TheWorld(), StackOverflow);
        return Some(StackOverflow);
      }
      var price := PriceOf(env, sc.contract, Frame(sc.pc, sc.stack, sc.mem, sc.returnData, meter.Remaining()),
        World(state.accounts, logs), i);
      if price.Refused? {
        ContinueFault(env, sc.contract, readOnly, depth, f, TheWorld(), price.err);
        return Some(price.err);
      }
      var ok := meter.Spend(price.energy);
      if !ok {
        ContinueFault(env, sc.contract, readOnly, depth, f, TheWorld(), OutOfEnergy);
        return Some(OutOfEnergy);
      }
      err := Dispatch(sc, meter, readOnly, dests, i, f);
    }

    /** Runs a frame to its end; a VM exception consumes the whole budget and names the faulting opcode. */
    method RunFrame(sc: Scope, meter: EnergyMeter, readOnly: bool) returns (res: Result)
      requires depth <= MAX_DEPTH && meter.Valid() && meter.used == 0 && sc.Running()
      requires sc.AsFrame(meter.Remaining()) == StartFrame(meter.limit)
      modifies this, state, sc, meter
      ensures depth == old(depth) && old(state.snaps) <= state.snaps && old(logs) <= logs
      ensures var o := Run(env, sc.contract, readOnly, depth, StartFrame(meter.limit), old(TheWorld()));
              Reports(res, o, meter.limit) && TheWorld() == o.world
      ensures res.err != None ==> 0 <= res.faultPc < |sc.contract.code| && res.faultOp == sc.contract.code[res.faultPc]
      decreases MAX_DEPTH - depth, 9
    {
      var dests := AnalyzeJumpDests(sc.contract.code);
      ghost var o := Run(env, sc.contract, readOnly, depth, StartFrame(meter.limit), TheWorld());
      while !sc.stop && sc.pc < |sc.contract.code|
        invariant meter.Valid() && depth == old(depth) && old(state.snaps) <= state.snaps && old(logs) <= logs
        invariant Agrees(sc, meter, readOnly, None, o)
        decreases if sc.stop then 0 else 1, meter.Remaining(), CodeLeft(sc.contract.code, sc.pc)
      {
        var err := Turn(sc, meter, readOnly, dests);
        if err != None {
          return Result([], false, meter.limit, err, sc.pc, sc.contract.code[sc.pc]);
        }
      }
      return Result(sc.ret, sc.reverted, meter.used, None, -1, 0);
    }
  }

  /** A call that is let through, taken apart. */
  lemma EntryIs(env: Env, c: Contract, readOnly: bool, depth: nat, q: CallRequest, f: Frame, w: World)
    requires depth < MAX_DEPTH
    requires q.value != 0 ==> !readOnly && !q.kind.StaticCall? && BalanceOf(w.accounts, c.self) >= q.value
    ensures var moved :=
              if q.kind.PlainCall? &&
                q.value != 0 then w.(accounts := Transfer(w.accounts, c.self, q.to, q.value)) else w;
            EnterCall(env, c, readOnly, depth, q, f, w) ==
            match env.precompile(q.to, q.args)
            case Some(answer) => Builtin(answer, CallBudget(env, q, f), moved)
            case None =>
              Enter(ChildContract(c, q, GetOrEmpty(w.accounts, q.to).code), readOnly || q.kind.StaticCall?,
                    CallBudget(env, q, f), moved)
  {
    hide Transfer;
  }

  function StatusOf(r: Result): Status {
    match r.err
    case Some(e) => Failed(e)
    case None => if r.reverted then Reverted else Ended
  }

  lemma {:induction false} LeadingZeros(n: nat, s: Bytes)
    ensures BigEndian(Zeros(n) + s) == BigEndian(s)
  {
    var t := Zeros(n) + s;
    if s == [] {
      if n > 0 {
        assert t[..|t| - 1] == Zeros(n - 1) + [];
        LeadingZeros(n - 1, []);
      }
    } else {
      assert t[..|t| - 1] == Zeros(n) + s[..|s| - 1];
      LeadingZeros(n, s[..|s| - 1]);
    }
  }
}
