/**
 Memory is paid for: at every turn of every frame the energy spent covers the
 price of the memory the frame holds, and no frame holds more than 3 MiB.
 */
module TvmMemory {
  import opened Options
  import opened TvmTypes
  import opened TvmSpec
  import opened TvmRun

  /** Whole words, at most 3 MiB of them. */
  predicate MemOk(mem: Bytes) { |mem| % 32 == 0 && |mem| <= 3145728 }

  /** What memory of this length costs from nothing. */
  function HeldCost(mem: Bytes): nat { MemWordCost(|mem| / 32) }

  /** Energy left and energy put into memory. */
  function Assets(f: Frame): nat { f.remaining + HeldCost(f.mem) }

  // ---- what an instruction touches ----

  datatype Window = Window(off: Word, size: Word)

  /** The stretch of memory an instruction other than a call reads or writes. */
  function WindowOf(f: Frame, i: Instr): Window
    requires |f.stack| >= Pops(i)
  {
    var s := f.stack;
    match i
    case Keccak => Window(Peek(s, 0), Peek(s, 1))
    case MLoad => Window(Peek(s, 0), 32)
    case MStore => Window(Peek(s, 0), 32)
    case MStore8 => Window(Peek(s, 0), 1)
    case EmitLog(_) => Window(Peek(s, 0), Peek(s, 1))
    case CallDataCopy => Window(Peek(s, 0), Peek(s, 2))
    case CodeCopy => Window(Peek(s, 0), Peek(s, 2))
    case ExtCodeCopy => Window(Peek(s, 1), Peek(s, 3))
    case ReturnDataCopy => Window(Peek(s, 0), Peek(s, 2))
    case Create => Window(Peek(s, 1), Peek(s, 2))
    case Create2 => Window(Peek(s, 1), Peek(s, 2))
    case _ => Window(0, 0)
  }

  /** Touching a window costs exactly the difference in what the memory costs. */
  lemma TouchCosts(mem: Bytes, off: Word, size: Word)
    requires MemOk(mem) && MemPrice(|mem|, off, size, 0).Cost?
    ensures var m := Touch(mem, off, size);
            MemOk(m) && HeldCost(m) == HeldCost(mem) + MemPrice(|mem|, off, size, 0).energy
  {
    if size > 0 {
      ResizeCosts(mem, off + size);
    }
  }

  lemma ResizeCosts(mem: Bytes, end: nat)
    requires MemOk(mem) && MemExpandCost(|mem|, end).Cost?
    ensures var m := Resize(mem, end);
            MemOk(m) && HeldCost(m) == HeldCost(mem) + MemExpandCost(|mem|, end).energy
    ensures |Resize(mem, end)| == Max(|mem|, WordsForBytes(end) * 32)
  {
    hide MemWordCost;
    var words := WordsForBytes(end);
    assert words * 32 / 32 == words;
  }

  lemma WriteTouches(mem: Bytes, off: nat, data: Bytes)
    ensures |WriteMem(mem, off, data)| == |Touch(mem, off, |data|)|
  {
  }

  /** The price of an instruction covers its window. */
  lemma PriceCovers(env: Env, c: Contract, f: Frame, w: World, i: Instr)
    requires |f.stack| >= Pops(i) && !i.Call? && PriceOf(env, c, f, w, i).Cost?
    ensures var x := WindowOf(f, i);
            var p := MemPrice(|f.mem|, x.off, x.size, 0);
            p.Cost? && p.energy + (if i.Create? || i.Create2? then 32000 else 0) <= PriceOf(env, c, f, w, i).energy
  {
    hide MemExpandCost, ByteLen, WordsForBytes, SStorePrice;
    assert MemExpandCost(|f.mem|, 0) == Cost(0) by {
      ZeroIsFree(|f.mem|);
    }
  }

  lemma ZeroIsFree(memLen: nat)
    ensures MemExpandCost(memLen, 0) == Cost(0)
  {
  }

  /** Memory after a frame-local instruction is as long as its window makes it. */
  lemma LocalTouches(env: Env, c: Contract, f: Frame, w: World, i: Instr)
    requires f.pc < |c.code| && |f.stack| >= Pops(i) && !ReachesOut(i)
    ensures match ExecLocal(env, c, f, w, i)
            case Stay(_, _, m) => var x := WindowOf(f, i); |m| == |Touch(f.mem, x.off, x.size)|
            case _ => true
  {
    hide Resize, ToBytes, WordOf, ReadMem, PushWord, ValidDest, GetOrEmpty, AddressOf, CopySlice, WriteMem;
    if i.MStore? {
      WriteTouches(f.mem, Peek(f.stack, 0), ToBytes(Peek(f.stack, 1), 32));
    } else if i.MStore8? {
      WriteTouches(f.mem, Peek(f.stack, 0), [Peek(f.stack, 1) % 256]);
    } else if i.CallDataCopy? || i.CodeCopy? || i.ExtCodeCopy? || i.ReturnDataCopy? {
      CopyTouches(env, c, f, w, i);
    }
  }

  lemma CopyTouches(env: Env, c: Contract, f: Frame, w: World, i: Instr)
    requires f.pc < |c.code| && |f.stack| >= Pops(i)
    requires i.CallDataCopy? || i.CodeCopy? || i.ExtCodeCopy? || i.ReturnDataCopy?
    ensures match ExecLocal(env, c, f, w, i)
            case Stay(_, _, m) => var x := WindowOf(f, i); |m| == |Touch(f.mem, x.off, x.size)|
            case _ => true
  {
    hide Touch, GetOrEmpty, AddressOf, CopySlice, WriteMem;
    var x := WindowOf(f, i);
    forall data: Bytes | |data| == x.size
      ensures |WriteMem(f.mem, x.off, data)| == |Touch(f.mem, x.off, x.size)|
    {
      WriteTouches(f.mem, x.off, data);
    }
  }

  // ---- one instruction ----

  /** Memory that may hold the output of a call has been paid for when the call is made. */
  ghost predicate RoomPaid(f: Frame, q: CallRequest, g: Frame) {
    var m := Touch(g.mem, q.outOff, q.outSize);
    MemOk(g.mem) && MemOk(m) &&
    g.remaining + HeldCost(m) + 40 + (if q.value != 0 then 9000 else 0) <= Assets(f)
  }

  /** Energy put into memory never exceeds what the instruction charged. */
  ghost predicate Pays(f: Frame, e: Effect) {
    match e
    case Fault(_) => true
    case Halt(_, _, _) => true
    case Next(g, _) => MemOk(g.mem) && Assets(g) <= Assets(f)
    case CallOut(q, g) => RoomPaid(f, q, g)
    case CreateOut(_, g) => MemOk(g.mem) && Assets(g) + 32000 <= Assets(f)
  }

  lemma StepPays(env: Env, c: Contract, readOnly: bool, f: Frame, w: World)
    requires f.pc < |c.code| && MemOk(f.mem)
    ensures Pays(f, Step(env, c, readOnly, f, w))
  {
    hide Decode;
    StepDecodedPays(env, c, readOnly, f, w, Decode(env.cfg, c.code[f.pc]));
  }

  lemma StepDecodedPays(env: Env, c: Contract, readOnly: bool, f: Frame, w: World, decoded: Option<Instr>)
    requires f.pc < |c.code| && MemOk(f.mem)
    ensures Pays(f, StepDecoded(env, c, readOnly, f, w, decoded))
  {
    hide Exec, PriceOf, RoomPaid, Assets;
    match decoded
    case None =>
    case Some(i) =>
      if |f.stack| >= Pops(i) {
        match PriceOf(env, c, f, w, i)
        case Refused(_) =>
        case Cost(e) =>
          if e <= f.remaining {
            ExecPays(env, c, readOnly, f, w, i, e);
          }
      }
  }

  /** Outside calls, execution leaves memory as long as the window makes it and charges nothing more. */
  lemma ExecTouches(env: Env, c: Contract, readOnly: bool, f: Frame, w: World, i: Instr)
    requires f.pc < |c.code| && |f.stack| >= Pops(i) && !i.Call?
    ensures var x := WindowOf(f, i);
            var length := |Touch(f.mem, x.off, x.size)|;
            match Exec(env, c, readOnly, f, w, i)
            case Fault(_) => true
            case Halt(_, _, _) => true
            case Next(g, _) => |g.mem| == length && g.remaining == f.remaining
            case CreateOut(_, g) => |g.mem| == length && g.remaining == f.remaining && (i.Create? || i.Create2?)
            case CallOut(_, _) => false
  {
    if !ReachesOut(i) {
      LocalTouches(env, c, f, w, i);
    }
    hide ReadMem, Resize, ExecLocal, WithSlot, Topics;
  }

  lemma ExecPays(env: Env, c: Contract, readOnly: bool, f: Frame, w: World, i: Instr, e: nat)
    requires f.pc < |c.code| && |f.stack| >= Pops(i) && MemOk(f.mem)
    requires PriceOf(env, c, f, w, i) == Cost(e) && e <= f.remaining
    ensures Pays(f, Exec(env, c, readOnly, f.(remaining := f.remaining - e), w, i))
  {
    hide Exec, PriceOf, RoomPaid;
    var paid := f.(remaining := f.remaining - e);
    if i.Call? {
      ExecCall(env, c, readOnly, paid, w, i.kind);
      CallPays(env, c, f, w, i.kind, e);
    } else {
      var x := WindowOf(f, i);
      PriceCovers(env, c, f, w, i);
      hide MemPrice;
      TouchCosts(f.mem, x.off, x.size);
      ExecTouches(env, c, readOnly, paid, w, i);
      assert WindowOf(paid, i) == x;
      hide WindowOf, Touch, MemWordCost;
    }
  }

  lemma ExecCall(env: Env, c: Contract, readOnly: bool, f: Frame, w: World, kind: CallKind)
    requires f.pc < |c.code| && |f.stack| >= Pops(Call(kind))
    ensures Exec(env, c, readOnly, f, w, Call(kind)) == CallOperands(kind, f)
  {
    hide CallOperands;
  }

  lemma CallPays(env: Env, c: Contract, f: Frame, w: World, kind: CallKind, e: nat)
    requires |f.stack| >= Pops(Call(kind)) && MemOk(f.mem)
    requires PriceOf(env, c, f, w, Call(kind)) == Cost(e) && e <= f.remaining
    ensures Pays(f, CallOperands(kind, f.(remaining := f.remaining - e)))
  {
    var s := f.stack;
    var v := if kind.PlainCall? || kind.CallCode? then 1 else 0;
    var inOff, inSize, outOff, outSize := Peek(s, 2 + v), Peek(s, 3 + v), Peek(s, 4 + v), Peek(s, 5 + v);
    CallPriceCovers(env, c, f, w, kind);
    hide PriceOf;
    TwoWindows(f.mem, inOff, inSize, outOff, outSize);
    hide Touch, HeldCost, ReadMem, AddressOf, ClampU64;
  }

  lemma CallPriceCovers(env: Env, c: Contract, f: Frame, w: World, kind: CallKind)
    requires |f.stack| >= Pops(Call(kind)) && PriceOf(env, c, f, w, Call(kind)).Cost?
    ensures var s, v := f.stack, if kind.PlainCall? || kind.CallCode? then 1 else 0;
            var p := CallMemPrice(|f.mem|, Peek(s, 2 + v), Peek(s, 3 + v), Peek(s, 4 + v), Peek(s, 5 + v), 0);
            p.Cost? &&
            p.energy + 40 + (if v == 1 && Peek(s, 2) != 0 then 9000 else 0) <=
            PriceOf(env, c, f, w, Call(kind)).energy
  {
    hide MemExpandCost, MemAccessSize;
  }

  /** The arguments are read first and the output written later; one price covers both. */
  lemma TwoWindows(mem: Bytes, inOff: Word, inSize: Word, outOff: Word, outSize: Word)
    requires MemOk(mem) && CallMemPrice(|mem|, inOff, inSize, outOff, outSize, 0).Cost?
    ensures var m := Touch(mem, inOff, inSize);
            var n := Touch(m, outOff, outSize);
            && MemOk(m) && MemOk(n)
            && HeldCost(n) <= HeldCost(mem) + CallMemPrice(|mem|, inOff, inSize, outOff, outSize, 0).energy
  {
    var a, b := if inSize == 0 then 0 else inOff + inSize, if outSize == 0 then 0 else outOff + outSize;
    ResizeCosts(mem, Max(a, b));
    TouchLength(mem, inOff, inSize);
    var m := Touch(mem, inOff, inSize);
    TouchLength(m, outOff, outSize);
    WordsGrow(a, b);
    hide Touch, Resize, WordsForBytes, MemWordCost;
  }

  /** Memory after a touch: as long as it was, or as the words up to the end of the window. */
  lemma TouchLength(mem: Bytes, off: nat, size: nat)
    requires |mem| % 32 == 0
    ensures |Touch(mem, off, size)| == Max(|mem|, WordsForBytes(if size == 0 then 0 else off + size) * 32)
    ensures |Touch(mem, off, size)| % 32 == 0
  {
  }

  lemma WordsGrow(a: nat, b: nat)
    ensures WordsForBytes(Max(a, b)) == Max(WordsForBytes(a), WordsForBytes(b))
  {
  }

  // ---- every turn of a frame ----

  datatype Turn = On(frame: Frame, world: World) | Over

  /** Frame and world at the next turn of the loop, a call or creation counting as one turn of its caller. */
  function NextTurn(env: Env, c: Contract, readOnly: bool, depth: nat, f: Frame, w: World): Turn
    requires depth <= MAX_DEPTH
  {
    if f.pc >= |c.code| then Over
    else
      match Step(env, c, readOnly, f, w)
      case Fault(_) => Over
      case Halt(_, _, _) => Over
      case Next(g, v) => On(g, v)
      case CallOut(q, g) =>
        var entry := EnterCall(env, c, readOnly, depth, q, g, w);
        if entry.Rejected? then Over
        else if entry.NotRun? then On(Skip(g), w)
        else
          var child := Child(env, depth, entry);
          On(LeaveCall(env, q, g, child), Settle(w, child))
      case CreateOut(q, g) =>
        var entry := EnterCreate(env, c, readOnly, depth, q, g, w);
        if entry.Rejected? then Over
        else if entry.NotRun? then On(Skip(g), w)
        else
          var a := NewAddress(env, c, q, GetOrEmpty(w.accounts, c.self).nonce);
          var child := Child(env, depth, entry);
          On(LeaveCreate(env, g, a, child), SettleCreate(Bumped(c, w), a, child))
  }

  /** The run of a frame is the run from its next turn. */
  lemma RunTurns(env: Env, c: Contract, readOnly: bool, depth: nat, f: Frame, w: World)
    requires depth <= MAX_DEPTH && FrameOk(c.code, f)
    ensures var t := NextTurn(env, c, readOnly, depth, f, w);
            t.On? ==> FrameOk(c.code, t.frame) &&
                      Run(env, c, readOnly, depth, f, w) == Run(env, c, readOnly, depth, t.frame, t.world)
  {
    if f.pc < |c.code| {
      StepOk(env, c, readOnly, f, w);
      assert Run(env, c, readOnly, depth, f, w) ==
        Continue(env, c, readOnly, depth, f, w, Step(env, c, readOnly, f, w));
      hide Step, EnterCall, EnterCreate, LeaveCall, LeaveCreate, Run;
      match Step(env, c, readOnly, f, w)
      case Fault(_) =>
      case Halt(_, _, _) =>
      case Next(_, _) =>
      case CallOut(q, g) => ContinueCall(env, c, readOnly, depth, f, w, q, g);
      case CreateOut(q, g) => ContinueCreate(env, c, readOnly, depth, f, w, q, g);
    }
  }

  lemma LeaveCallPays(env: Env, q: CallRequest, f: Frame, g: Frame, o: Outcome)
    requires RoomPaid(f, q, g) && o.remaining <= CallBudget(env, q, g)
    ensures var after := LeaveCall(env, q, g, o); MemOk(after.mem) && Assets(after) <= Assets(f)
  {
    var data := o.ret[..Min(|o.ret|, q.outSize)];
    WriteTouches(g.mem, q.outOff, data);
    TouchMore(g.mem, q.outOff, |data|, q.outSize);
    hide WriteMem, Touch, MemWordCost, ForwardedEnergy;
  }

  /** A smaller window never makes memory longer or dearer, and none at all leaves it alone. */
  lemma TouchMore(mem: Bytes, off: nat, small: nat, large: nat)
    requires small <= large && MemOk(mem) && MemOk(Touch(mem, off, large))
    ensures var m, n := Touch(mem, off, small), Touch(mem, off, large);
            |m| % 32 == 0 && |mem| <= |m| <= |n| && HeldCost(mem) <= HeldCost(m) <= HeldCost(n)
  {
    var m, n := Touch(mem, off, small), Touch(mem, off, large);
    TouchLength(mem, off, small);
    TouchLength(mem, off, large);
    WordsGrow(if small == 0 then 0 else off + small, if large == 0 then 0 else off + large);
    hide Touch, WordsForBytes, MemWordCost;
    MemWordCostGrows(|mem| / 32, |m| / 32);
    MemWordCostGrows(|m| / 32, |n| / 32);
  }

  /** One turn, children included, never leaves a frame with more than it had. */
  lemma TurnPays(env: Env, c: Contract, readOnly: bool, depth: nat, f: Frame, w: World)
    requires depth <= MAX_DEPTH && MemOk(f.mem)
    ensures var t := NextTurn(env, c, readOnly, depth, f, w);
            t.On? ==> MemOk(t.frame.mem) && Assets(t.frame) <= Assets(f)
  {
    if f.pc < |c.code| {
      StepPays(env, c, readOnly, f, w);
      hide Step, Run;
      match Step(env, c, readOnly, f, w)
      case Fault(_) =>
      case Halt(_, _, _) =>
      case Next(_, _) =>
      case CallOut(q, g) => CallTurnPays(env, c, readOnly, depth, f, w, q, g);
      case CreateOut(q, g) => CreateTurnPays(env, c, readOnly, depth, f, w, q, g);
    }
  }

  lemma CallTurnPays(env: Env, c: Contract, readOnly: bool, depth: nat, f: Frame, w: World, q: CallRequest, g: Frame)
    requires depth <= MAX_DEPTH && RoomPaid(f, q, g)
    ensures MemOk(Skip(g).mem) && Assets(Skip(g)) <= Assets(f)
    ensures var entry := EnterCall(env, c, readOnly, depth, q, g, w);
            entry.Builtin? || entry.Enter? ==>
              (entry.Enter? ==> depth < MAX_DEPTH) &&
              var after := LeaveCall(env, q, g, Child(env, depth, entry));
              MemOk(after.mem) && Assets(after) <= Assets(f)
  {
    var entry := EnterCall(env, c, readOnly, depth, q, g, w);
    TouchMore(g.mem, q.outOff, 0, q.outSize);
    if entry.Builtin? || entry.Enter? {
      var child := Child(env, depth, entry);
      assert child.remaining <= CallBudget(env, q, g);
      hide EnterCall, Child, LeaveCall, CallBudget;
      LeaveCallPays(env, q, f, g, child);
    }
    hide MemWordCost, Touch;
  }

  lemma CreateTurnPays(
    env: Env, c: Contract, readOnly: bool, depth: nat, f: Frame, w: World, q: CreateRequest, g: Frame)
    requires depth <= MAX_DEPTH && MemOk(g.mem) && Assets(g) + 32000 <= Assets(f)
    ensures Assets(Skip(g)) <= Assets(f)
    ensures var entry := EnterCreate(env, c, readOnly, depth, q, g, w);
            entry.Enter? ==>
              forall a :: var after := LeaveCreate(env, g, a, Child(env, depth, entry));
                          after.mem == g.mem && Assets(after) <= Assets(f)
  {
    hide MemWordCost, Run;
  }

  /** Where a frame stands after n turns. */
  function AfterTurns(env: Env, c: Contract, readOnly: bool, depth: nat, f: Frame, w: World, n: nat): Turn
    requires depth <= MAX_DEPTH
  {
    if n == 0 then On(f, w)
    else
      match AfterTurns(env, c, readOnly, depth, f, w, n - 1)
      case Over => Over
      case On(g, v) => NextTurn(env, c, readOnly, depth, g, v)
  }

  /**
   At every turn of every frame: memory is whole words within 3 MiB, and what the frame has spent covers 3 a word
   and one for each 512 of the square of the words it holds.
   */
  lemma {:induction false} MemoryIsPaidFor(
    env: Env, c: Contract, readOnly: bool, depth: nat, budget: nat, w: World, n: nat)
    requires depth <= MAX_DEPTH
    ensures var t := AfterTurns(env, c, readOnly, depth, StartFrame(budget), w, n);
            t.On? ==>
              && |t.frame.mem| % 32 == 0 && |t.frame.mem| <= 3145728
              && var words := |t.frame.mem| / 32;
                 t.frame.remaining + 3 * words + words * words / 512 <= budget
    decreases n
  {
    hide NextTurn;
    if n > 0 {
      MemoryIsPaidFor(env, c, readOnly, depth, budget, w, n - 1);
      match AfterTurns(env, c, readOnly, depth, StartFrame(budget), w, n - 1)
      case Over =>
      case On(g, v) => TurnPays(env, c, readOnly, depth, g, v);
    }
  }

  /** Those turns are the frame's: its outcome is that of running on from any of them. */
  lemma {:induction false} RunAfterTurns(
    env: Env, c: Contract, readOnly: bool, depth: nat, f: Frame, w: World, n: nat)
    requires depth <= MAX_DEPTH && FrameOk(c.code, f)
    ensures var t := AfterTurns(env, c, readOnly, depth, f, w, n);
            t.On? ==> FrameOk(c.code, t.frame) &&
                      Run(env, c, readOnly, depth, t.frame, t.world) == Run(env, c, readOnly, depth, f, w)
    decreases n
  {
    hide NextTurn, Run, FrameOk;
    if n > 0 {
      RunAfterTurns(env, c, readOnly, depth, f, w, n - 1);
      match AfterTurns(env, c, readOnly, depth, f, w, n - 1)
      case Over =>
      case On(g, v) => RunTurns(env, c, readOnly, depth, g, v);
    }
  }
}
