/**
 What instructions and frames mean to the code that uses them: whom and what a
 called frame sees, where operands come from, and what reads give back.
 */
module TvmLaws {
  import opened Options
  import opened Arith
  import opened TvmTypes
  import opened TvmSpec
  import opened TvmRun

  // ---- the frame a call opens ----

  /** When a call is refused, does not run, or runs, and what the callee then sees, kind by kind. */
  lemma CallOpens(env: Env, c: Contract, readOnly: bool, depth: nat, q: CallRequest, g: Frame, w: World)
    ensures var e := EnterCall(env, c, readOnly, depth, q, g, w);
            var guarded := readOnly || q.kind.StaticCall?;
            && (e.Rejected? <==> guarded && q.value != 0)
            && (e.Rejected? ==> e.err == StaticStateChange)
            && (e.NotRun? <==>
                  !(guarded && q.value != 0) &&
                  (depth >= 64 || (q.value != 0 && GetOrEmpty(w.accounts, c.self).balance < q.value)))
            && (e.Builtin? ==> env.precompile(q.to, q.args) == Some(e.answer))
            && (e.Enter? ==>
                  && env.precompile(q.to, q.args) == None
                  && e.contract.code == GetOrEmpty(w.accounts, q.to).code
                  && e.contract.input == q.args && e.contract.origin == c.origin && e.readOnly == guarded
                  && match q.kind
                     case DelegateCall =>
                       e.contract.self == c.self && e.contract.caller == c.caller && e.contract.value == c.value
                     case CallCode =>
                       e.contract.self == c.self && e.contract.caller == c.self && e.contract.value == q.value
                     case _ =>
                       e.contract.self == q.to && e.contract.caller == c.self && e.contract.value == q.value)
            && (e.Builtin? || e.Enter? ==>
                  && e.budget == ForwardedEnergy(env.cfg, q.requested, g.remaining) + (if q.value == 0 then 0 else 2300)
                  && e.world.logs == w.logs
                  && e.world.accounts ==
                     if q.kind.PlainCall? && q.value != 0 then Transfer(w.accounts, c.self, q.to, q.value)
                     else w.accounts)
  {
    hide Transfer, ForwardedEnergy;
  }

  /** A frame in the middle of its run, about to make a call. */
  datatype Link = Link(contract: Contract, readOnly: bool, depth: nat, call: CallRequest, frame: Frame, world: World)

  /** The call of frame a opens frame b. */
  ghost predicate Opens(env: Env, a: Link, b: Link) {
    var e := EnterCall(env, a.contract, a.readOnly, a.depth, a.call, a.frame, a.world);
    e.Enter? && b.contract == e.contract && b.readOnly == e.readOnly && b.depth == a.depth + 1
  }

  ghost predicate CallChain(env: Env, links: seq<Link>) {
    forall i :: 0 <= i < |links| - 1 ==> Opens(env, links[i], links[i + 1])
  }

  /** Down a chain of calls the origin stays, read-only mode is never left, and depth 64 is never passed. */
  lemma {:induction false} ChainKeeps(env: Env, links: seq<Link>, i: nat)
    requires CallChain(env, links) && i < |links| && links[0].depth <= 64
    ensures links[i].contract.origin == links[0].contract.origin
    ensures links[0].readOnly ==> links[i].readOnly
    ensures links[i].depth == links[0].depth + i <= 64
    decreases i
  {
    hide EnterCall;
    if i > 0 {
      ChainKeeps(env, links, i - 1);
      var a := links[i - 1];
      assert Opens(env, a, links[i - 1 + 1]);
      CallOpens(env, a.contract, a.readOnly, a.depth, a.call, a.frame, a.world);
    }
  }

  /** Every frame in a chain of DELEGATECALLs runs as, for and with the value of the frame that started the chain. */
  lemma {:induction false} DelegatesSee(env: Env, links: seq<Link>, i: nat)
    requires CallChain(env, links) && i < |links|
    requires forall k :: 0 <= k < i ==> links[k].call.kind.DelegateCall?
    ensures var first, last := links[0].contract, links[i].contract;
            && last.self == first.self && last.caller == first.caller
            && last.value == first.value && last.origin == first.origin
    decreases i
  {
    hide EnterCall;
    if i > 0 {
      DelegatesSee(env, links, i - 1);
      var a := links[i - 1];
      assert Opens(env, a, links[i - 1 + 1]);
      CallOpens(env, a.contract, a.readOnly, a.depth, a.call, a.frame, a.world);
    }
  }

  /** What a creation opens: the new account, endowed from its creator, running the init code. */
  lemma CreateOpens(env: Env, c: Contract, readOnly: bool, depth: nat, q: CreateRequest, g: Frame, w: World)
    ensures var e := EnterCreate(env, c, readOnly, depth, q, g, w);
            var creator := GetOrEmpty(w.accounts, c.self);
            && (e.Rejected? <==> readOnly) && (e.Rejected? ==> e.err == StaticStateChange)
            && (e.NotRun? <==> !readOnly && (depth >= 64 || (q.value != 0 && creator.balance < q.value)))
            && (e.Enter? ==>
                  && e.contract.self ==
                     (match q.salt
                      case None => env.createAddress(creator.nonce)
                      case Some(salt) => env.create2Address(c.self, salt, q.init))
                  && e.contract.caller == c.self && e.contract.origin == c.origin && e.contract.value == q.value
                  && e.contract.input == [] && e.contract.code == q.init && !e.readOnly
                  && e.budget == ForwardedEnergy(env.cfg, g.remaining, g.remaining)
                  && e.world.logs == w.logs
                  && GetOrEmpty(Bumped(c, w).accounts, c.self) == creator.(nonce := creator.nonce + 1)
                  && GetOrEmpty(e.world.accounts, c.self).nonce == creator.nonce + 1)
  {
    hide ForwardedEnergy;
  }

  /** What the caller finds after a child: return data, its copy in memory up to the room given, and nothing else. */
  lemma CallReturns(env: Env, q: CallRequest, f: Frame, o: Outcome)
    ensures var g := LeaveCall(env, q, f, o);
            && g.pc == f.pc && |g.stack| == |f.stack| + 1 && g.stack[..|f.stack|] == f.stack
            && (o.status.Failed? ==> g.mem == f.mem && g.returnData == [])
            && (!o.status.Failed? ==>
                  && g.returnData == o.ret && |g.mem| >= |f.mem|
                  && (forall i :: 0 <= i < |o.ret| && i < q.outSize ==>
                        q.outOff + i < |g.mem| && g.mem[q.outOff + i] == o.ret[i])
                  && (forall i :: 0 <= i < |f.mem| && !(q.outOff <= i < q.outOff + q.outSize) ==> g.mem[i] == f.mem[i]))
  {
    hide ForwardedEnergy;
    var data := o.ret[..Min(|o.ret|, q.outSize)];
    var m := WriteMem(f.mem, q.outOff, data);
    hide WriteMem;
    forall i | 0 <= i < |data|
      ensures q.outOff + i < |m| && m[q.outOff + i] == o.ret[i]
    {
      assert m[q.outOff..q.outOff + |data|][i] == data[i];
    }
  }

  /** A precompiled contract costs its price and gives its output, or takes everything it was given. */
  lemma BuiltinPays(answer: Precompiled, budget: nat, w: World)
    ensures var o := BuiltinOutcome(answer, budget, w);
            && o.world == w
            && (o.status.Ended? <==> answer.cost <= budget && answer.output.Some?)
            && (o.status.Ended? ==> answer.output == Some(o.ret) && o.remaining + answer.cost == budget)
            && (!o.status.Ended? ==>
                  o.remaining == 0 && o.ret == [] &&
                  o.status == Failed(if answer.cost > budget then OutOfEnergy else PrecompileFailure))
  {
  }

  // ---- where operands come from ----

  /** CALL and CALLCODE take energy, target, value, arguments and output area from the top of the stack down. */
  lemma CallLayout(
    f: Frame, rest: seq<Word>, gas: Word, target: Word, value: Word,
    inOff: Word, inSize: Word, outOff: Word, outSize: Word, kind: CallKind)
    requires f.stack == rest + [outSize, outOff, inSize, inOff, value, target, gas]
    requires kind.PlainCall? || kind.CallCode?
    ensures CallOperands(kind, f) ==
            CallOut(CallRequest(kind, AddressOf(target), value, ClampU64(gas), ReadMem(f.mem, inOff, inSize), outOff,
              outSize),
                    f.(pc := f.pc + 1, stack := rest, mem := Touch(f.mem, inOff, inSize)))
  {
    hide ReadMem, Touch;
    assert Drop(f.stack, 7) == rest;
  }

  /** DELEGATECALL and STATICCALL take the same without a value. */
  lemma ValuelessCallLayout(
    f: Frame, rest: seq<Word>, gas: Word, target: Word, inOff: Word, inSize: Word, outOff: Word, outSize: Word,
    kind: CallKind)
    requires f.stack == rest + [outSize, outOff, inSize, inOff, target, gas]
    requires kind.DelegateCall? || kind.StaticCall?
    ensures CallOperands(kind, f) ==
            CallOut(CallRequest(kind, AddressOf(target), 0, ClampU64(gas), ReadMem(f.mem, inOff, inSize), outOff,
              outSize),
                    f.(pc := f.pc + 1, stack := rest, mem := Touch(f.mem, inOff, inSize)))
  {
    hide ReadMem, Touch;
    assert Drop(f.stack, 6) == rest;
  }

  lemma CreateLayout(f: Frame, rest: seq<Word>, value: Word, off: Word, size: Word)
    requires f.stack == rest + [size, off, value]
    ensures CreateOperands(false, f) ==
            CreateOut(CreateRequest(value, ReadMem(f.mem, off, size), None),
                      f.(pc := f.pc + 1, stack := rest, mem := Touch(f.mem, off, size)))
  {
    hide ReadMem, Touch;
    assert Drop(f.stack, 3) == rest;
  }

  lemma Create2Layout(f: Frame, rest: seq<Word>, value: Word, off: Word, size: Word, salt: Word)
    requires f.stack == rest + [salt, size, off, value]
    ensures CreateOperands(true, f) ==
            CreateOut(CreateRequest(value, ReadMem(f.mem, off, size), Some(salt)),
                      f.(pc := f.pc + 1, stack := rest, mem := Touch(f.mem, off, size)))
  {
    hide ReadMem, Touch;
    assert Drop(f.stack, 4) == rest;
  }

  // ---- storage ----

  /** A stored word is loaded back by the account that stored it; other slots and accounts load what they did. */
  lemma LoadAfterStore(env: Env, c: Contract, f: Frame, w: World, rest: seq<Word>, key: Word, value: Word, g: Frame,
      k: Word)
    requires f.pc < |c.code| && f.stack == rest + [value, key]
    requires g.pc < |c.code| && g.stack == rest + [k]
    ensures var e := Exec(env, c, false, f, w, SStore);
            && e.Next? && e.frame == f.(pc := f.pc + 1, stack := rest) && e.world.logs == w.logs
            && (forall a :: a != c.self ==> GetOrEmpty(e.world.accounts, a) == GetOrEmpty(w.accounts, a))
            && var slots := GetOrEmpty(w.accounts, c.self).storage;
               var loaded := if k == key then value else if k in slots then slots[k] else 0;
               ExecLocal(env, c, g, e.world, SLoad) == Stay(g.pc + 1, rest + [loaded], g.mem)
  {
    assert Drop(f.stack, 2) == rest && Drop(g.stack, 1) == rest;
  }

  // ---- memory ----

  function Pow256(n: nat): nat { if n == 0 then 1 else 256 * Pow256(n - 1) }

  lemma DigitFits(w: nat, p: nat)
    requires w < 256 * p
    ensures w / 256 < p && w == 256 * (w / 256) + w % 256
  {
  }

  lemma {:induction false} BytesRoundTrip(w: nat, n: nat)
    requires w < Pow256(n)
    ensures BigEndian(ToBytes(w, n)) == w
    decreases n
  {
    if n > 0 {
      DigitFits(w, Pow256(n - 1));
      BytesRoundTrip(w / 256, n - 1);
      assert ToBytes(w, n)[..n - 1] == ToBytes(w / 256, n - 1);
      hide ToBytes, Pow256;
    }
  }

  lemma WordsAreThirtyTwoBytes()
    ensures Pow256(32) == UINT256
  {
    assert Pow256(8) == UINT64;
    assert Pow256(16) == UINT64 * UINT64;
    assert Pow256(24) == UINT64 * UINT64 * UINT64;
  }

  lemma MStoreEffect(env: Env, c: Contract, f: Frame, w: World, rest: seq<Word>, off: Word, value: Word)
    requires f.pc < |c.code| && f.stack == rest + [value, off]
    ensures ExecLocal(env, c, f, w, MStore) == Stay(f.pc + 1, rest, WriteMem(f.mem, off, ToBytes(value, 32)))
  {
    hide ToBytes, WriteMem;
    assert Drop(f.stack, 2) == rest;
  }

  lemma MLoadEffect(env: Env, c: Contract, g: Frame, w: World, rest: seq<Word>, off: Word)
    requires g.pc < |c.code| && g.stack == rest + [off]
    ensures ExecLocal(env, c, g, w, MLoad) ==
            Stay(g.pc + 1, rest + [WordOf(ReadMem(g.mem, off, 32))], Touch(g.mem, off, 32))
  {
    hide WordOf, ReadMem, Touch;
    assert Drop(g.stack, 1) == rest;
  }

  lemma WordRoundTrip(value: Word)
    ensures WordOf(ToBytes(value, 32)) == value
  {
    WordsAreThirtyTwoBytes();
    hide Pow256;
    BytesRoundTrip(value, 32);
    hide ToBytes, BigEndian;
  }

  /** MLOAD gives back the word MSTORE put at the same offset. */
  lemma LoadAfterMStore(env: Env, c: Contract, f: Frame, w: World, rest: seq<Word>, off: Word, value: Word, g: Frame)
    requires f.pc < |c.code| && f.stack == rest + [value, off]
    requires g.pc < |c.code| && g.stack == rest + [off]
    requires var e := ExecLocal(env, c, f, w, MStore); e.Stay? && g.mem == e.mem
    ensures ExecLocal(env, c, f, w, MStore) == Stay(f.pc + 1, rest, g.mem)
    ensures ExecLocal(env, c, g, w, MLoad) == Stay(g.pc + 1, rest + [value], g.mem)
  {
    hide ExecLocal, ToBytes, WordOf, WriteMem, ReadMem, Touch;
    MStoreEffect(env, c, f, w, rest, off, value);
    MLoadEffect(env, c, g, w, rest, off);
    WordRoundTrip(value);
    ReadBack(f.mem, off, ToBytes(value, 32));
  }

  /** What was written is read back, and reading it needs no more memory. */
  lemma ReadBack(mem: Bytes, off: nat, data: Bytes)
    requires data != []
    ensures var m := WriteMem(mem, off, data); ReadMem(m, off, |data|) == data && Touch(m, off, |data|) == m
  {
    var m := WriteMem(mem, off, data);
    var need := WordsForBytes(off + |data|) * 32;
    assert |Resize(mem, off + |data|)| >= need;
    assert |m| == |Resize(mem, off + |data|)|;
  }

  /** The first byte weighs most: words are big-endian. */
  lemma {:induction false} FirstByteWeighsMost(d: Byte, s: Bytes)
    ensures BigEndian([d] + s) == d * Pow256(|s|) + BigEndian(s)
    decreases |s|
  {
    if s == [] {
      assert [d] + s == [d] && [d][..0] == [];
    } else {
      var init := s[..|s| - 1];
      FirstByteWeighsMost(d, init);
      assert ([d] + s)[..|s|] == [d] + init;
      assert 256 * (d * Pow256(|init|)) == d * (256 * Pow256(|init|));
      hide Pow256;
    }
  }

  /** MSTORE8 writes the lowest byte of its word and nothing else. */
  lemma StoresLowByte(env: Env, c: Contract, f: Frame, w: World, rest: seq<Word>, off: Word, value: Word)
    requires f.pc < |c.code| && f.stack == rest + [value, off]
    ensures var l := ExecLocal(env, c, f, w, MStore8);
            && l.Stay? && l.stack == rest && off < |l.mem| && l.mem[off] == value % 256
            && forall i :: 0 <= i < |f.mem| && i != off ==> l.mem[i] == f.mem[i]
  {
    assert Drop(f.stack, 2) == rest;
    var m := WriteMem(f.mem, off, [value % 256]);
    hide WriteMem;
    assert m[off..off + 1][0] == value % 256;
  }

  /** The copying instructions fill [to, to + n) with the source from `from` on, zeros past its end. */
  ghost predicate Copied(l: Local, f: Frame, rest: seq<Word>, src: Bytes, from: nat, to: Word, n: Word) {
    && l.Stay? && l.pc == f.pc + 1 && l.stack == rest && |l.mem| >= |f.mem|
    && (n > 0 ==> to + n <= |l.mem|)
    && (forall i :: to <= i < to + n ==> l.mem[i] == if from + (i - to) < |src| then src[from + (i - to)] else 0)
    && (forall i :: 0 <= i < |f.mem| && !(to <= i < to + n) ==> l.mem[i] == f.mem[i])
  }

  lemma CopyLaw(f: Frame, popped: nat, rest: seq<Word>, to: Word, src: Bytes, from: Word, n: Word)
    requires popped <= |f.stack| && Drop(f.stack, popped) == rest
    ensures Copied(CopyInto(f, popped, to, src, from, n), f, rest, src, ClampU64(from), to, n)
  {
    var data := CopySlice(src, ClampU64(from), n);
    var m := WriteMem(f.mem, to, data);
    hide WriteMem, CopySlice, ClampU64;
    forall i | to <= i < to + n
      ensures m[i] == data[i - to]
    {
      assert m[to..to + |data|][i - to] == data[i - to];
    }
  }

  /** CALLDATACOPY and CODECOPY take destination, source offset and length from the top of the stack down. */
  lemma CopyLayout(env: Env, c: Contract, f: Frame, w: World, rest: seq<Word>, to: Word, from: Word, n: Word, i: Instr)
    requires f.pc < |c.code| && f.stack == rest + [n, from, to] && (i.CallDataCopy? || i.CodeCopy?)
    ensures var src := if i.CodeCopy? then c.code else c.input;
            Copied(ExecLocal(env, c, f, w, i), f, rest, src, ClampU64(from), to, n)
  {
    hide CopyInto, Copied, ClampU64;
    assert Drop(f.stack, 3) == rest;
    CopyLaw(f, 3, rest, to, if i.CodeCopy? then c.code else c.input, from, n);
  }

  /** EXTCODECOPY takes the account before them and copies its code. */
  lemma ExtCodeCopyLayout(
    env: Env, c: Contract, f: Frame, w: World, rest: seq<Word>, account: Word, to: Word, from: Word, n: Word)
    requires f.pc < |c.code| && f.stack == rest + [n, from, to, account]
    ensures var src := GetOrEmpty(w.accounts, AddressOf(account)).code;
            Copied(ExecLocal(env, c, f, w, ExtCodeCopy), f, rest, src, ClampU64(from), to, n)
  {
    hide CopyInto, Copied, ClampU64, GetOrEmpty, AddressOf;
    assert Drop(f.stack, 4) == rest;
    CopyLaw(f, 4, rest, to, GetOrEmpty(w.accounts, AddressOf(account)).code, from, n);
  }

  /** RETURNDATACOPY copies from the last child's answer, and faults rather than read past its end. */
  lemma ReturnDataLayout(env: Env, c: Contract, f: Frame, w: World, rest: seq<Word>, to: Word, from: Word, n: Word)
    requires f.pc < |c.code| && f.stack == rest + [n, from, to]
    ensures var l := ExecLocal(env, c, f, w, ReturnDataCopy);
            && (n > 0 && from + n >= UINT64 ==> l == Broken(GasUintOverflow))
            && (n > 0 && |f.returnData| < from + n < UINT64 ==> l == Broken(ReturnDataOutOfBounds))
            && (n == 0 || (from + n <= |f.returnData| && from + n < UINT64) ==>
                  Copied(l, f, rest, f.returnData, ClampU64(from), to, n))
  {
    hide ExecLocal, CopyInto, Copied, ClampU64;
    ReturnDataStep(env, c, f, w);
    assert Drop(f.stack, 3) == rest;
    CopyLaw(f, 3, rest, to, f.returnData, from, n);
  }

  lemma ReturnDataStep(env: Env, c: Contract, f: Frame, w: World)
    requires f.pc < |c.code| && |f.stack| >= 3
    ensures ExecLocal(env, c, f, w, ReturnDataCopy) == ReturnDataInto(f)
  {
    hide ReturnDataInto;
  }

  /** RETURN and REVERT take offset and size and end the frame with that stretch of memory. */
  lemma HaltLayout(env: Env, c: Contract, f: Frame, w: World, rest: seq<Word>, off: Word, size: Word)
    requires f.pc < |c.code| && f.stack == rest + [size, off]
    ensures var l := ExecLocal(env, c, f, w, Return);
            && l == Stopped(l.ret, false) && ExecLocal(env, c, f, w, Revert) == Stopped(l.ret, true)
            && |l.ret| == size
            && forall i :: 0 <= i < size ==> l.ret[i] == if off + i < |f.mem| then f.mem[off + i] else 0
  {
  }

  // ---- control ----

  /** JUMP goes where the top of the stack says; JUMPI does so exactly when the word below it is not zero. */
  lemma JumpLayout(
    env: Env, c: Contract, f: Frame, w: World, rest: seq<Word>, dest: Word, g: Frame, condition: Word)
    requires f.pc < |c.code| && f.stack == rest + [dest]
    requires g.pc < |c.code| && g.stack == rest + [condition, dest]
    ensures var valid := dest < UINT64 && ValidDest(c.code, dest);
            && ExecLocal(env, c, f, w, Jump) == (if valid then Stay(dest, rest, f.mem) else Broken(BadJumpDest))
            && ExecLocal(env, c, g, w, JumpI) ==
               (if condition == 0 then Stay(g.pc + 1, rest, g.mem)
                else if valid then Stay(dest, rest, g.mem)
                else Broken(BadJumpDest))
  {
    hide ValidDest;
    assert Drop(f.stack, 1) == rest && Drop(g.stack, 2) == rest;
  }

  // ---- stack ----

  /** A stack holds 1024 words: a push faults exactly when it is full. */
  lemma StackLimit(env: Env, c: Contract, readOnly: bool, f: Frame, w: World, n: nat)
    requires f.pc < |c.code| && |f.stack| <= 1024 && f.remaining >= 3 && 1 <= n <= 32
    ensures StepDecoded(env, c, readOnly, f, w, Some(Push(n))) == Fault(StackOverflow) <==> |f.stack| == 1024
    ensures |f.stack| < 1024 ==> StepDecoded(env, c, readOnly, f, w, Some(Push(n))).Next?
  {
    hide PushWord;
  }

  lemma StackMoves(env: Env, c: Contract, f: Frame, w: World, n: nat)
    requires f.pc < |c.code| && 1 <= n < |f.stack|
    ensures var s := f.stack;
            && ExecLocal(env, c, f, w, Dup(n)) == Stay(f.pc + 1, s + [s[|s| - n]], f.mem)
            && ExecLocal(env, c, f, w, Pop) == Stay(f.pc + 1, s[..|s| - 1], f.mem)
            && var swapped := ExecLocal(env, c, f, w, Swap(n));
               && swapped.Stay? && swapped.pc == f.pc + 1 && swapped.mem == f.mem && |swapped.stack| == |s|
               && swapped.stack[|s| - 1] == s[|s| - 1 - n] && swapped.stack[|s| - 1 - n] == s[|s| - 1]
               && forall i :: 0 <= i < |s| && i != |s| - 1 && i != |s| - 1 - n ==> swapped.stack[i] == s[i]
  {
  }

  // ---- prices ----

  /** A fresh memory of n words costs 3 for each word and one more for every 512 of the square, up to 3 MiB. */
  lemma FreshMemoryPrice(n: nat, at: Word)
    requires 0 < n && at == 32 * n - 32
    ensures var p := MemPrice(0, at, 32, 0);
            if n <= 98304 then p.Cost? && 512 * (p.energy - 3 * n) <= n * n < 512 * (p.energy - 3 * n + 1)
            else p.Refused? && p.err == if 32 * n < 0x1_0000_0000_0000_0000 then MemoryOverflow else GasUintOverflow
  {
    assert WordsForBytes(32 * n) == n;
  }

  /** Calls that touch no memory, by opcode: value costs 9000, an absent target of a plain CALL 25000 more. */
  lemma CallPrices(env: Env, c: Contract, f: Frame, w: World, gas: Word, target: Word, value: Word, rest: seq<Word>)
    requires f.stack == rest + [0, 0, 0, 0, value, target, gas]
    ensures var absent := AddressOf(target) !in w.accounts;
            && Decode(env.cfg, 0xf1) == Some(Call(PlainCall)) && Decode(env.cfg, 0xf2) == Some(Call(CallCode))
            && PriceOf(env, c, f, w, Call(PlainCall)) ==
               Cost(if value == 0 then 40 else if absent then 34040 else 9040)
            && PriceOf(env, c, f, w, Call(CallCode)) == Cost(if value == 0 then 40 else 9040)
  {
  }

  lemma ValuelessCallPrices(env: Env, c: Contract, f: Frame, w: World, gas: Word, target: Word, rest: seq<Word>)
    requires f.stack == rest + [0, 0, 0, 0, target, gas]
    ensures Decode(env.cfg, 0xf4) == Some(Call(DelegateCall)) && Decode(env.cfg, 0xfa) == Some(Call(StaticCall))
    ensures PriceOf(env, c, f, w, Call(DelegateCall)) == PriceOf(env, c, f, w, Call(StaticCall)) == Cost(40)
  {
  }

  /** Flat prices. */
  lemma FlatPrices(env: Env, c: Contract, f: Frame, w: World, i: Instr)
    requires |f.stack| >= Pops(i)
    ensures i.JumpDest? ==> PriceOf(env, c, f, w, i) == Cost(1)
    ensures i.Pop? ==> PriceOf(env, c, f, w, i) == Cost(2)
    ensures i.Push? || i.Dup? || i.Swap? ==> PriceOf(env, c, f, w, i) == Cost(3)
    ensures i.Jump? ==> PriceOf(env, c, f, w, i) == Cost(8)
    ensures i.JumpI? ==> PriceOf(env, c, f, w, i) == Cost(10)
    ensures i.SLoad? ==> PriceOf(env, c, f, w, i) == Cost(50)
  {
  }

  /** Opcodes that move words or control, by byte. */
  lemma MovesByByte(cfg: VmConfig, n: nat)
    requires n < 16
    ensures Decode(cfg, 0x50) == Some(Pop) && Decode(cfg, 0x54) == Some(SLoad)
    ensures Decode(cfg, 0x56) == Some(Jump) && Decode(cfg, 0x57) == Some(JumpI) && Decode(cfg, 0x5b) == Some(JumpDest)
    ensures Decode(cfg, 0x60 + n) == Some(Push(n + 1)) && Decode(cfg, 0x70 + n) == Some(Push(n + 17))
    ensures Decode(cfg, 0x80 + n) == Some(Dup(n + 1)) && Decode(cfg, 0x90 + n) == Some(Swap(n + 1))
  {
  }

  /** Opcodes that read, copy, log, create or end, by byte. */
  lemma OpcodesByByte(cfg: VmConfig, n: nat)
    requires n < 5
    ensures Decode(cfg, 0x00) == Some(Stop) && Decode(cfg, 0x20) == Some(Keccak)
    ensures Decode(cfg, 0x37) == Some(CallDataCopy) && Decode(cfg, 0x39) == Some(CodeCopy)
    ensures Decode(cfg, 0x3c) == Some(ExtCodeCopy) && Decode(cfg, 0x3e) == Some(ReturnDataCopy)
    ensures Decode(cfg, 0x51) == Some(MLoad) && Decode(cfg, 0x52) == Some(MStore) && Decode(cfg, 0x53) == Some(MStore8)
    ensures Decode(cfg, 0xa0 + n) == Some(EmitLog(n)) && Decode(cfg, 0xf0) == Some(Create)
    ensures Decode(cfg, 0xf3) == Some(Return) && Decode(cfg, 0xfd) == Some(Revert) && Decode(cfg, 0xfe) == Some(Invalid)
    ensures Decode(cfg, 0xf5) == if cfg.allowConstantinople then Some(Create2) else None
  {
  }

  /** SSTORE is dear exactly when it fills a slot the account does not have with a word that is not zero. */
  lemma StorePrice(env: Env, c: Contract, f: Frame, w: World, rest: seq<Word>, key: Word, value: Word)
    requires f.stack == rest + [value, key]
    ensures Decode(env.cfg, 0x55) == Some(SStore)
    ensures PriceOf(env, c, f, w, SStore) ==
            Cost(if value != 0 && key !in GetOrEmpty(w.accounts, c.self).storage then 20000 else 5000)
  {
  }

  /** Deployed code costs 200 energy a byte, and a child that cannot pay for its code is not deployed. */
  lemma CodeDeposit(env: Env, f: Frame, a: Address, o: Outcome)
    requires o.status.Ended?
    ensures Deployed(o) <==> 200 * |o.ret| <= o.remaining
    ensures var g := LeaveCreate(env, f, a, o);
            && |g.stack| == |f.stack| + 1
            && g.stack[|f.stack|] == (if Deployed(o) then 0x41 * UINT160 + a else 0)
            && g.remaining + CreateBudget(env, f) ==
               f.remaining + if Deployed(o) then o.remaining - 200 * |o.ret| else 0
  {
    hide ForwardedEnergy;
  }

  /** Growing memory in two steps costs what growing it at once costs. */
  lemma MemoryCostTelescopes(a: nat, b: nat, c: nat)
    requires a <= b <= c && 0 < b * 32 && c * 32 <= MEM_LIMIT
    ensures MemExpandCost(a * 32, b * 32).Cost? && MemExpandCost(b * 32, c * 32).Cost? &&
              MemExpandCost(a * 32, c * 32).Cost?
    ensures MemExpandCost(a * 32, c * 32).energy ==
            MemExpandCost(a * 32, b * 32).energy + MemExpandCost(b * 32, c * 32).energy
  {
    assert WordsForBytes(b * 32) == b && WordsForBytes(c * 32) == c;
  }
}
