/**
 Meaning of TVM code as pure functions: one instruction (`Step`), one message
 call or creation around a child frame, and a whole frame (`Run`). There is no
 journal, no meter and no depth counter here: a failed child is undone by
 keeping the world it started from. The mutable machine of TvmMachine is proved
 to compute exactly this.
 */
module TvmSpec {
  import opened Options
  import opened TvmTypes

  // ---- energy ----

  datatype Price = Cost(energy: nat) | Refused(err: VmError)

  function MemWordCost(words: nat): nat { 3 * words + words * words / 512 }

  lemma MemWordCostGrows(a: nat, b: nat)
    requires a <= b
    ensures MemWordCost(a) <= MemWordCost(b)
  {
    assert a * a <= b * b by {
      assert b * b - a * a == (b - a) * (b + a);
    }
  }

  function MemExpandCost(memLen: nat, newSize: nat): Price {
    if newSize == 0 then Cost(0)
    else if newSize > MEM_LIMIT then Refused(MemoryOverflow)
    else
      var words := WordsForBytes(newSize);
      if words * 32 <= memLen then Cost(0)
      else
        MemWordCostGrows(memLen / 32, words);
        Cost(MemWordCost(words) - MemWordCost(memLen / 32))
  }

  datatype Extent = End(bytes: nat) | TooFar

  /** offset + size as uint64; a zero size needs nothing. */
  function MemAccessSize(offset: Word, size: Word): Extent {
    if size == 0 then End(0)
    else if offset >= UINT64 || size >= UINT64 || offset + size >= UINT64 then TooFar
    else End(offset + size)
  }

  /** Expansion cost of touching [offset, offset + size) plus a flat part and a part per word or byte. */
  function MemPrice(memLen: nat, offset: Word, size: Word, flat: nat): Price {
    match MemAccessSize(offset, size)
    case TooFar => Refused(GasUintOverflow)
    case End(e) =>
      match MemExpandCost(memLen, e)
      case Refused(err) => Refused(err)
      case Cost(x) => Cost(flat + x)
  }

  /** Expansion cost covering both the arguments and the output buffer of a call. */
  function CallMemPrice(memLen: nat, inOff: Word, inSize: Word, outOff: Word, outSize: Word, flat: nat): Price {
    match (MemAccessSize(inOff, inSize), MemAccessSize(outOff, outSize))
    case (End(a), End(b)) =>
      (match MemExpandCost(memLen, Max(a, b))
       case Refused(err) => Refused(err)
       case Cost(x) => Cost(flat + x))
    case _ => Refused(GasUintOverflow)
  }

  function ByteLen(w: nat): nat { if w == 0 then 0 else 1 + ByteLen(w / 256) }

  function ValueCallFlat(f: Frame, w: World, newAccountCharged: bool): nat
    requires |f.stack| >= 3
  {
    if Peek(f.stack, 2) == 0 then 40
    else if newAccountCharged && AddressOf(Peek(f.stack, 1)) !in w.accounts then 40 + VALUE_TRANSFER + NEW_ACCOUNT
    else 40 + VALUE_TRANSFER
  }

  function CallPrice(kind: CallKind, f: Frame, w: World): Price
    requires |f.stack| >= Pops(Call(kind))
  {
    var s := f.stack;
    match kind
    case PlainCall =>
      CallMemPrice(|f.mem|, Peek(s, 3), Peek(s, 4), Peek(s, 5), Peek(s, 6), ValueCallFlat(f, w, true))
    case CallCode =>
      CallMemPrice(|f.mem|, Peek(s, 3), Peek(s, 4), Peek(s, 5), Peek(s, 6), ValueCallFlat(f, w, false))
    case _ =>
      CallMemPrice(|f.mem|, Peek(s, 2), Peek(s, 3), Peek(s, 4), Peek(s, 5), 40)
  }

  function SStorePrice(c: Contract, f: Frame, w: World): nat
    requires |f.stack| >= 2
  {
    if Peek(f.stack, 0) !in GetOrEmpty(w.accounts, c.self).storage && Peek(f.stack, 1) != 0 then 20000 else 5000
  }

  /** The full energy price of an instruction, read from the stack before it runs. */
  function PriceOf(env: Env, c: Contract, f: Frame, w: World, i: Instr): Price
    requires |f.stack| >= Pops(i)
  {
    var s := f.stack;
    var tier := if env.cfg.legacyMemCost then 0 else 1;
    match i
    case Stop => Cost(0)
    case Compute(_, t) => Cost(t)
    case Exp => Cost(10 + 10 * ByteLen(Peek(s, 1)))
    case Keccak => MemPrice(|f.mem|, Peek(s, 0), Peek(s, 1), 30 + 6 * WordsForBytes(Peek(s, 1)))
    case Pop => Cost(2)
    case MLoad => MemPrice(|f.mem|, Peek(s, 0), 32, tier)
    case MStore => MemPrice(|f.mem|, Peek(s, 0), 32, tier)
    case MStore8 => MemPrice(|f.mem|, Peek(s, 0), 1, tier)
    case SLoad => Cost(50)
    case SStore => Cost(SStorePrice(c, f, w))
    case Jump => Cost(8)
    case JumpI => Cost(10)
    case JumpDest => Cost(1)
    case Push(_) => Cost(3)
    case Dup(_) => Cost(3)
    case Swap(_) => Cost(3)
    case EmitLog(n) => MemPrice(|f.mem|, Peek(s, 0), Peek(s, 1), 375 + 375 * n + 8 * Peek(s, 1))
    case CallDataCopy => MemPrice(|f.mem|, Peek(s, 0), Peek(s, 2), 3 * WordsForBytes(Peek(s, 2)))
    case CodeCopy => MemPrice(|f.mem|, Peek(s, 0), Peek(s, 2), 3 * WordsForBytes(Peek(s, 2)))
    case ExtCodeCopy => MemPrice(|f.mem|, Peek(s, 1), Peek(s, 3), 20 + 3 * WordsForBytes(Peek(s, 3)))
    case ReturnDataCopy => MemPrice(|f.mem|, Peek(s, 0), Peek(s, 2), 3 * WordsForBytes(Peek(s, 2)))
    case Create => MemPrice(|f.mem|, Peek(s, 1), Peek(s, 2), CREATE_BASE)
    case Create2 => MemPrice(|f.mem|, Peek(s, 1), Peek(s, 2), CREATE_BASE + 6 * WordsForBytes(Peek(s, 2)))
    case Call(k) => CallPrice(k, f, w)
    case Return => MemPrice(|f.mem|, Peek(s, 0), Peek(s, 1), 0)
    case Revert => MemPrice(|f.mem|, Peek(s, 0), Peek(s, 1), 0)
    case Invalid => Cost(0)
    case Deferred(_) => Cost(0)
  }

  // ---- linear decode of the code ----

  function PushBytes(op: Byte): nat { if 0x60 <= op <= 0x7f then op - 0x5f else 0 }

  function NextPc(code: Bytes, pc: nat): nat
    requires pc < |code|
  {
    pc + 1 + PushBytes(code[pc])
  }

  /** Decoding instruction after instruction from `at` reaches `pc`. */
  predicate Aligned(code: Bytes, at: nat, pc: nat)
    decreases |code| - at
  {
    at == pc || (at < |code| && Aligned(code, NextPc(code, at), pc))
  }

  /** pc is an instruction boundary of the linear decode from 0, or past the end. */
  predicate OnBoundary(code: Bytes, pc: nat) { pc >= |code| || Aligned(code, 0, pc) }

  /** A JUMPDEST byte that is an instruction and not push data. */
  predicate ValidDest(code: Bytes, d: nat) { d < |code| && code[d] == 0x5b && Aligned(code, 0, d) }

  lemma {:induction false} AlignedStep(code: Bytes, at: nat, pc: nat)
    requires Aligned(code, at, pc) && pc < |code|
    ensures Aligned(code, at, NextPc(code, pc))
    decreases |code| - at
  {
    if at != pc {
      AlignedStep(code, NextPc(code, at), pc);
    }
  }

  /** An aligned position is never strictly inside another instruction. */
  lemma {:induction false} AlignedNotInside(code: Bytes, at: nat, a: nat, b: nat)
    requires Aligned(code, at, a) && Aligned(code, at, b) && a < |code| && a < b
    ensures NextPc(code, a) <= b
    decreases |code| - at
  {
    if at == a {
      AlignedAhead(code, NextPc(code, at), b);
    } else if at == b {
      AlignedAhead(code, NextPc(code, at), a);
    } else {
      AlignedNotInside(code, NextPc(code, at), a, b);
    }
  }

  lemma {:induction false} AlignedAhead(code: Bytes, at: nat, pc: nat)
    requires Aligned(code, at, pc)
    ensures at <= pc
    decreases |code| - at
  {
    if at != pc {
      AlignedAhead(code, NextPc(code, at), pc);
    }
  }

  // ---- one instruction ----

  datatype CallRequest = CallRequest(
    kind: CallKind, to: Address, value: Word, requested: nat, args: Bytes, outOff: nat, outSize: nat)

  datatype CreateRequest = CreateRequest(value: Word, init: Bytes, salt: Option<Word>)

  datatype Effect =
    | Fault(err: VmError)
    | Halt(ret: Bytes, reverted: bool, remaining: nat)
    | Next(frame: Frame, world: World)
    | CallOut(call: CallRequest, frame: Frame)
    | CreateOut(create: CreateRequest, frame: Frame)

  /** What an instruction does to its own frame alone: continue with new pc, stack and memory, end it, or break it. */
  datatype Local = Stay(pc: nat, stack: seq<Word>, mem: Bytes) | Stopped(ret: Bytes,
    reverted: bool) | Broken(err: VmError)

  /** The usual step: operands popped, results pushed, memory possibly grown or written. */
  function Onward(f: Frame, popped: nat, pushed: seq<Word>, mem: Bytes): (l: Local)
    requires popped <= |f.stack|
    ensures l.Stay? && l.pc == f.pc + 1 && |l.stack| == |f.stack| - popped + |pushed|
  {
    Stay(f.pc + 1, Drop(f.stack, popped) + pushed, mem)
  }

  function Advance(f: Frame, popped: nat): Frame
    requires popped <= |f.stack|
  {
    f.(pc := f.pc + 1, stack := Drop(f.stack, popped))
  }

  function JumpTo(c: Contract, f: Frame, popped: nat, dest: Word): (l: Local)
    requires popped <= |f.stack|
    ensures l.Broken? || (l.Stay? && ValidDest(c.code, l.pc) && |l.stack| == |f.stack| - popped)
  {
    if dest >= UINT64 || !ValidDest(c.code, dest) then Broken(BadJumpDest)
    else Stay(dest, Drop(f.stack, popped), f.mem)
  }

  /** The immediate of a PUSH: bytes after pc, zero-filled past the end of the code. */
  function PushWord(code: Bytes, pc: nat, size: nat): Word { WordOf(CopySlice(code, pc + 1, size)) }

  function CopyInto(f: Frame, popped: nat, memOff: Word, src: Bytes, srcOff: Word, length: Word): (l: Local)
    requires popped <= |f.stack|
    ensures l.Stay? && l.pc == f.pc + 1 && |l.stack| == |f.stack| - popped
  {
    Onward(f, popped, [], WriteMem(f.mem, memOff, CopySlice(src, ClampU64(srcOff), length)))
  }

  function ReturnDataInto(f: Frame): (l: Local)
    requires |f.stack| >= 3
    ensures l.Broken? || (l.Stay? && l.pc == f.pc + 1 && |l.stack| == |f.stack| - 3)
  {
    var s := f.stack;
    match MemAccessSize(Peek(s, 1), Peek(s, 2))
    case TooFar => Broken(GasUintOverflow)
    case End(e) =>
      if e > |f.returnData| then Broken(ReturnDataOutOfBounds)
      else CopyInto(f, 3, Peek(s, 0), f.returnData, Peek(s, 1), Peek(s, 2))
  }

  /** The n topics below offset and size, top-down. */
  function Topics(s: seq<Word>, n: nat): (t: seq<Word>)
    requires |s| >= 2 + n
    ensures |t| == n && forall i :: 0 <= i < n ==> t[i] == Peek(s, 2 + i)
  {
    seq(n, i requires 0 <= i < n => Peek(s, 2 + i))
  }

  function LogInto(c: Contract, readOnly: bool, f: Frame, n: nat, w: World): Effect
    requires |f.stack| >= 2 + n
  {
    if readOnly then Fault(StaticStateChange)
    else
      var off, size := Peek(f.stack, 0), Peek(f.stack, 1);
      var entry := Log(c.self, Topics(f.stack, n), ReadMem(f.mem, off, size));
      Next(Advance(f, 2 + n).(mem := Touch(f.mem, off, size)), w.(logs := w.logs + [entry]))
  }

  function CallOperands(kind: CallKind, f: Frame): Effect
    requires |f.stack| >= Pops(Call(kind))
  {
    var s := f.stack;
    var v := if kind.PlainCall? || kind.CallCode? then 1 else 0;
    var value := if v == 1 then Peek(s, 2) else 0;
    var inOff, inSize, outOff, outSize := Peek(s, 2 + v), Peek(s, 3 + v), Peek(s, 4 + v), Peek(s, 5 + v);
    CallOut(
      CallRequest(kind, AddressOf(Peek(s, 1)), value, ClampU64(Peek(s, 0)), ReadMem(f.mem, inOff, inSize), outOff,
        outSize),
      Advance(f, 6 + v).(mem := Touch(f.mem, inOff, inSize)))
  }

  function CreateOperands(salted: bool, f: Frame): Effect
    requires |f.stack| >= (if salted then 4 else 3)
  {
    var s := f.stack;
    var off, size := Peek(s, 1), Peek(s, 2);
    CreateOut(
      CreateRequest(Peek(s, 0), ReadMem(f.mem, off, size), if salted then Some(Peek(s, 3)) else None),
      Advance(f, if salted then 4 else 3).(mem := Touch(f.mem, off, size)))
  }

  function HaltWith(f: Frame, reverted: bool): (l: Local)
    requires |f.stack| >= 2
    ensures l.Stopped? && l.reverted == reverted
  {
    Stopped(ReadMem(f.mem, Peek(f.stack, 0), Peek(f.stack, 1)), reverted)
  }

  /** Instructions that write the world or open a child frame. */
  predicate ReachesOut(i: Instr) { i.SStore? || i.EmitLog? || i.Create? || i.Create2? || i.Call? }

  function ExecLocal(env: Env, c: Contract, f: Frame, w: World, i: Instr): Local
    requires f.pc < |c.code| && |f.stack| >= Pops(i) && !ReachesOut(i)
  {
    var s := f.stack;
    match i
    case Stop => Stopped([], false)
    case Compute(n, _) => Onward(f, n, [env.compute(c.code[f.pc], s[|s| - n..], Sight(c, f, w))], f.mem)
    case Exp => Onward(f, 2, [env.compute(c.code[f.pc], s[|s| - 2..], Sight(c, f, w))], f.mem)
    case Keccak =>
      var off, size := Peek(s, 0), Peek(s, 1);
      Onward(f, 2, [env.keccak(ReadMem(f.mem, off, size))], Touch(f.mem, off, size))
    case Pop => Onward(f, 1, [], f.mem)
    case MLoad => Onward(f, 1, [WordOf(ReadMem(f.mem, Peek(s, 0), 32))], Touch(f.mem, Peek(s, 0), 32))
    case MStore => Onward(f, 2, [], WriteMem(f.mem, Peek(s, 0), ToBytes(Peek(s, 1), 32)))
    case MStore8 => Onward(f, 2, [], WriteMem(f.mem, Peek(s, 0), [Peek(s, 1) % 256]))
    case SLoad =>
      var slots := GetOrEmpty(w.accounts, c.self).storage;
      Onward(f, 1, [if Peek(s, 0) in slots then slots[Peek(s, 0)] else 0], f.mem)
    case Jump => JumpTo(c, f, 1, Peek(s, 0))
    case JumpI => if Peek(s, 1) == 0 then Onward(f, 2, [], f.mem) else JumpTo(c, f, 2, Peek(s, 0))
    case JumpDest => Onward(f, 0, [], f.mem)
    case Push(n) => Stay(f.pc + 1 + n, s + [PushWord(c.code, f.pc, n)], f.mem)
    case Dup(n) => if n == 0 then Broken(StackUnderflow) else Onward(f, 0, [Peek(s, n - 1)], f.mem)
    case Swap(n) => Stay(f.pc + 1, s[|s| - 1 := Peek(s, n)][|s| - 1 - n := Peek(s, 0)], f.mem)
    case CallDataCopy => CopyInto(f, 3, Peek(s, 0), c.input, Peek(s, 1), Peek(s, 2))
    case CodeCopy => CopyInto(f, 3, Peek(s, 0), c.code, Peek(s, 1), Peek(s, 2))
    case ExtCodeCopy =>
      CopyInto(f, 4, Peek(s, 1), GetOrEmpty(w.accounts, AddressOf(Peek(s, 0))).code, Peek(s, 2), Peek(s, 3))
    case ReturnDataCopy => ReturnDataInto(f)
    case Return => HaltWith(f, false)
    case Revert => HaltWith(f, true)
    case Invalid => Broken(InvalidOpcode)
    case Deferred(_) => Broken(StakingOpDeferred)
  }

  function StoreInto(c: Contract, readOnly: bool, f: Frame, w: World): Effect
    requires |f.stack| >= 2
  {
    if readOnly then Fault(StaticStateChange)
    else Next(Advance(f, 2), w.(accounts := WithSlot(w.accounts, c.self, Peek(f.stack, 0), Peek(f.stack, 1))))
  }

  /** Executes one instruction whose price has been paid. */
  function Exec(env: Env, c: Contract, readOnly: bool, f: Frame, w: World, i: Instr): Effect
    requires f.pc < |c.code| && |f.stack| >= Pops(i)
  {
    if i.SStore? then StoreInto(c, readOnly, f, w)
    else if i.EmitLog? then LogInto(c, readOnly, f, i.topics, w)
    else if i.Create? || i.Create2? then CreateOperands(i.Create2?, f)
    else if i.Call? then CallOperands(i.kind, f)
    else
      match ExecLocal(env, c, f, w, i)
      case Stay(pc, stack, mem) => Next(f.(pc := pc, stack := stack, mem := mem), w)
      case Stopped(ret, reverted) => Halt(ret, reverted, f.remaining)
      case Broken(err) => Fault(err)
  }

  /** Checks the stack, pays and executes a decoded instruction. */
  function StepDecoded(env: Env, c: Contract, readOnly: bool, f: Frame, w: World, decoded: Option<Instr>): Effect
    requires f.pc < |c.code|
  {
    match decoded
    case None => Fault(InvalidOpcode)
    case Some(i) =>
      if |f.stack| < Pops(i) then Fault(StackUnderflow)
      else if |f.stack| - Pops(i) + Pushes(i) > MAX_STACK then Fault(StackOverflow)
      else
        match PriceOf(env, c, f, w, i)
        case Refused(err) => Fault(err)
        case Cost(e) =>
          if e > f.remaining then Fault(OutOfEnergy)
          else Exec(env, c, readOnly, f.(remaining := f.remaining - e), w, i)
  }

  /** One turn of the interpreter loop. */
  function Step(env: Env, c: Contract, readOnly: bool, f: Frame, w: World): Effect
    requires f.pc < |c.code|
  {
    StepDecoded(env, c, readOnly, f, w, Decode(env.cfg, c.code[f.pc]))
  }
}
