/**
 Values, instruction table and configuration of the TVM.

 256-bit words are integers below 2^256, addresses are the 160-bit body of a
 TRON address, and everything the model does not compute (hash functions,
 arithmetic on words, precompiled contracts) is a function held in `Env`.
 */
module TvmTypes {
  import opened Options

  const UINT64: nat := 0x1_0000_0000_0000_0000
  const UINT160: nat := 0x1_0000_0000_0000_0000_0000_0000_0000_0000_0000_0000
  const UINT256: nat := 0x1_0000_0000_0000_0000_0000_0000_0000_0000_0000_0000_0000_0000_0000_0000_0000_0000

  const MAX_STACK: nat := 1024
  const MAX_DEPTH: nat := 64
  const MEM_LIMIT: nat := 3145728
  const STIPEND: nat := 2300
  const VALUE_TRANSFER: nat := 9000
  const NEW_ACCOUNT: nat := 25000
  const CREATE_BASE: nat := 32000
  const CREATE_DATA: nat := 200
  const ADDRESS_PREFIX: nat := 0x41

  type Byte = b: nat | b < 256
  type Word = w: nat | w < UINT256
  type Address = a: nat | a < UINT160
  type Bytes = seq<Byte>

  datatype VmError =
    | InvalidOpcode
    | BadJumpDest
    | MemoryOverflow
    | GasUintOverflow
    | StaticStateChange
    | ReturnDataOutOfBounds
    | OutOfEnergy
    | StackUnderflow
    | StackOverflow
    | StakingOpDeferred
    | PrecompileFailure

  datatype Account = Account(balance: Word, nonce: nat, code: Bytes, storage: map<Word, Word>)
  type Accounts = map<Address, Account>

  datatype Log = Log(address: Address, topics: seq<Word>, data: Bytes)

  /** Everything a rolled-back frame must restore: accounts and emitted logs. */
  datatype World = World(accounts: Accounts, logs: seq<Log>)

  datatype Contract = Contract(self: Address, caller: Address, origin: Address, value: Word, input: Bytes, code: Bytes)

  /** The mutable part of one frame; `remaining` is the energy left to it. */
  datatype Frame = Frame(pc: nat, stack: seq<Word>, mem: Bytes, returnData: Bytes, remaining: nat)

  datatype VmConfig = VmConfig(
    legacyMemCost: bool, forward6364: bool, allowTransferTrc10: bool, allowConstantinople: bool,
    allowSolidity059: bool, allowIstanbul: bool, allowTvmFreeze: bool, allowTvmVote: bool, allowTvmFreezeV2: bool)

  /** What a word-computing opcode may read. */
  datatype Sight = Sight(contract: Contract, frame: Frame, world: World)

  datatype Precompiled = Precompiled(cost: nat, output: Option<Bytes>)

  /** The parts of the machine that stay uninterpreted, and the active fork gates. */
  datatype Env = Env(
    cfg: VmConfig,
    compute: (Byte, seq<Word>, Sight) -> Word,
    keccak: Bytes -> Word,
    createAddress: nat -> Address,
    create2Address: (Address, Word, Bytes) -> Address,
    precompile: (Address, Bytes) -> Option<Precompiled>)

  datatype CallKind = PlainCall | CallCode | DelegateCall | StaticCall

  datatype Instr =
    | Stop
    | Compute(args: nat, tier: nat)
    | Exp
    | Keccak
    | Pop
    | MLoad
    | MStore
    | MStore8
    | SLoad
    | SStore
    | Jump
    | JumpI
    | JumpDest
    | Push(size: nat)
    | Dup(depth: nat)
    | Swap(depth: nat)
    | EmitLog(topics: nat)
    | CallDataCopy
    | CodeCopy
    | ExtCodeCopy
    | ReturnDataCopy
    | Create
    | Create2
    | Call(kind: CallKind)
    | Return
    | Revert
    | Invalid
    | Deferred(args: nat)

  function Min(a: nat, b: nat): nat { if a < b then a else b }
  function Max(a: nat, b: nat): nat { if a < b then b else a }

  // ---- the jump table ----

  /** Opcodes that pop some words, push one computed word and touch nothing else. */
  function ComputeEntry(op: Byte): Option<Instr> {
    match op
    case 0x01 => Some(Compute(2, 3))
    case 0x02 => Some(Compute(2, 5))
    case 0x03 => Some(Compute(2, 3))
    case 0x04 => Some(Compute(2, 5))
    case 0x05 => Some(Compute(2, 5))
    case 0x06 => Some(Compute(2, 5))
    case 0x07 => Some(Compute(2, 5))
    case 0x08 => Some(Compute(3, 8))
    case 0x09 => Some(Compute(3, 8))
    case 0x0b => Some(Compute(2, 5))
    case 0x15 => Some(Compute(1, 3))
    case 0x19 => Some(Compute(1, 3))
    case 0x31 => Some(Compute(1, 20))
    case 0x35 => Some(Compute(1, 3))
    case 0x3b => Some(Compute(1, 20))
    case 0x3f => Some(Compute(1, 400))
    case 0x47 => Some(Compute(0, 5))
    case 0xd1 => Some(Compute(2, 20))
    case 0xd2 => Some(Compute(0, 2))
    case 0xd3 => Some(Compute(0, 2))
    case 0xd4 => Some(Compute(1, 2))
    case _ =>
      if 0x10 <= op <= 0x1d then Some(Compute(2, 3))
      else if op in {0x30, 0x32, 0x33, 0x34, 0x36, 0x38, 0x3a, 0x3d} then Some(Compute(0, 2))
      else if 0x41 <= op <= 0x46 || 0x58 <= op <= 0x5a then Some(Compute(0, 2))
      else None
  }

  /** Opcodes of the 0xf0 range: frames, creation, halting. */
  function FrameEntry(op: Byte): Option<Instr> {
    match op
    case 0xf0 => Some(Create)
    case 0xf1 => Some(Call(PlainCall))
    case 0xf2 => Some(Call(CallCode))
    case 0xf3 => Some(Return)
    case 0xf4 => Some(Call(DelegateCall))
    case 0xf5 => Some(Create2)
    case 0xfa => Some(Call(StaticCall))
    case 0xfd => Some(Revert)
    case 0xfe => Some(Invalid)
    case _ => None
  }

  /** Stake and vote opcodes: registered with their arity, their executor always faults. */
  function StakingEntry(op: Byte): Option<Instr> {
    match op
    case 0xd5 => Some(Deferred(3))
    case 0xd6 => Some(Deferred(2))
    case 0xd7 => Some(Deferred(2))
    case 0xd8 => Some(Deferred(4))
    case 0xd9 => Some(Deferred(0))
    case 0xda => Some(Deferred(2))
    case 0xdb => Some(Deferred(2))
    case 0xdc => Some(Deferred(0))
    case 0xdd => Some(Deferred(0))
    case 0xde => Some(Deferred(3))
    case 0xdf => Some(Deferred(3))
    case _ => None
  }

  /** Registered operation at an opcode byte, before the fork gates. */
  function TableEntry(op: Byte): Option<Instr> {
    match op
    case 0x00 => Some(Stop)
    case 0x0a => Some(Exp)
    case 0x20 => Some(Keccak)
    case 0x37 => Some(CallDataCopy)
    case 0x39 => Some(CodeCopy)
    case 0x3c => Some(ExtCodeCopy)
    case 0x3e => Some(ReturnDataCopy)
    case 0x50 => Some(Pop)
    case 0x51 => Some(MLoad)
    case 0x52 => Some(MStore)
    case 0x53 => Some(MStore8)
    case 0x54 => Some(SLoad)
    case 0x55 => Some(SStore)
    case 0x56 => Some(Jump)
    case 0x57 => Some(JumpI)
    case 0x5b => Some(JumpDest)
    case _ =>
      if 0x60 <= op <= 0x7f then Some(Push(op - 0x5f))
      else if 0x80 <= op <= 0x8f then Some(Dup(op - 0x7f))
      else if 0x90 <= op <= 0x9f then Some(Swap(op - 0x8f))
      else if 0xa0 <= op <= 0xa4 then Some(EmitLog(op - 0xa0))
      else if 0xd5 <= op <= 0xdf then StakingEntry(op)
      else if 0xf0 <= op then FrameEntry(op)
      else ComputeEntry(op)
  }

  /** Fork gates: a gated opcode is invalid until its flag is set. */
  predicate Enabled(cfg: VmConfig, op: Byte) {
    if 0x1b <= op <= 0x1d || op == 0xf5 || op == 0x3f then cfg.allowConstantinople
    else if op == 0xd4 then cfg.allowSolidity059
    else if op == 0x46 || op == 0x47 then cfg.allowIstanbul
    else if 0xd1 <= op <= 0xd3 then cfg.allowTransferTrc10
    else if 0xd5 <= op <= 0xd7 then cfg.allowTvmFreeze
    else if 0xd8 <= op <= 0xd9 then cfg.allowTvmVote
    else if 0xda <= op <= 0xdf then cfg.allowTvmFreezeV2
    else true
  }

  function Decode(cfg: VmConfig, op: Byte): Option<Instr> {
    if Enabled(cfg, op) then TableEntry(op) else None
  }

  function Pops(i: Instr): nat {
    match i
    case Stop => 0
    case Compute(n, _) => n
    case Exp => 2
    case Keccak => 2
    case Pop => 1
    case MLoad => 1
    case MStore => 2
    case MStore8 => 2
    case SLoad => 1
    case SStore => 2
    case Jump => 1
    case JumpI => 2
    case JumpDest => 0
    case Push(_) => 0
    case Dup(n) => n
    case Swap(n) => n + 1
    case EmitLog(n) => 2 + n
    case CallDataCopy => 3
    case CodeCopy => 3
    case ExtCodeCopy => 4
    case ReturnDataCopy => 3
    case Create => 3
    case Create2 => 4
    case Call(k) => if k.PlainCall? || k.CallCode? then 7 else 6
    case Return => 2
    case Revert => 2
    case Invalid => 0
    case Deferred(n) => n
  }

  function Pushes(i: Instr): nat {
    match i
    case Compute(_, _) => 1
    case Exp => 1
    case Keccak => 1
    case MLoad => 1
    case SLoad => 1
    case Push(_) => 1
    case Dup(n) => n + 1
    case Swap(n) => n + 1
    case Create => 1
    case Create2 => 1
    case Call(_) => 1
    case Deferred(_) => 1
    case _ => 0
  }

  // ---- words and bytes ----

  function BigEndian(s: Bytes): nat {
    if s == [] then 0 else 256 * BigEndian(s[..|s| - 1]) + s[|s| - 1]
  }

  /** uint256 SetBytes: the big-endian value of the last 32 bytes. */
  function WordOf(s: Bytes): Word { BigEndian(s) % UINT256 }

  function ToBytes(w: nat, n: nat): (s: Bytes)
    ensures |s| == n
  {
    if n == 0 then [] else ToBytes(w / 256, n - 1) + [w % 256]
  }

  function AddressOf(w: Word): Address { w % UINT160 }

  /** A 21-byte address as a word: prefix byte 0x41, then the body. */
  function AddressWord(a: Address): (w: Word)
    ensures w != 0 && AddressOf(w) == a
  {
    ADDRESS_PREFIX * UINT160 + a
  }

  /** The value of v as uint64, or the maximum when it does not fit. */
  function ClampU64(v: Word): (r: nat)
    ensures r <= v && r <= 0xffff_ffff_ffff_ffff && (r == v || r == 0xffff_ffff_ffff_ffff)
  {
    if v < UINT64 then v else UINT64 - 1
  }

  // ---- memory ----

  function WordsForBytes(n: nat): nat { (n + 31) / 32 }

  function Zeros(n: nat): Bytes { seq(n, _ => 0) }

  function Resize(mem: Bytes, size: nat): (m: Bytes)
    ensures |m| >= size && mem <= m
  {
    var need := WordsForBytes(size) * 32;
    if |mem| >= need then mem else mem + Zeros(need - |mem|)
  }

  /** Memory after an access to [offset, offset + size). */
  function Touch(mem: Bytes, offset: nat, size: nat): (m: Bytes)
    ensures mem <= m && (size > 0 ==> |m| >= offset + size)
  {
    if size == 0 then mem else Resize(mem, offset + size)
  }

  function ReadMem(mem: Bytes, offset: nat, size: nat): (data: Bytes)
    ensures |data| == size
  {
    if size == 0 then [] else Touch(mem, offset, size)[offset..offset + size]
  }

  function WriteMem(mem: Bytes, offset: nat, data: Bytes): (m: Bytes)
    ensures |m| >= |mem|
    ensures |data| > 0 ==> |m| >= offset + |data| && m[offset..offset + |data|] == data
    ensures forall i :: 0 <= i < |mem| && !(offset <= i < offset + |data|) ==> m[i] == mem[i]
  {
    if data == [] then mem
    else
      var m := Resize(mem, offset + |data|);
      m[..offset] + data + m[offset + |data|..]
  }

  /** `length` bytes of src from srcOff, zero-filled past its end. */
  function CopySlice(src: Bytes, srcOff: nat, length: nat): (data: Bytes)
    ensures |data| == length
    ensures forall i :: 0 <= i < length ==> data[i] == if srcOff + i < |src| then src[srcOff + i] else 0
  {
    seq(length, i requires 0 <= i < length => if srcOff + i < |src| then src[srcOff + i] else 0)
  }

  // ---- stack ----

  function Peek(s: seq<Word>, n: nat): Word
    requires n < |s|
  {
    s[|s| - 1 - n]
  }

  function Drop(s: seq<Word>, n: nat): (r: seq<Word>)
    requires n <= |s|
    ensures |r| == |s| - n
  {
    s[..|s| - n]
  }

  // ---- accounts ----

  const EMPTY_ACCOUNT: Account := Account(0, 0, [], map[])

  function GetOrEmpty(m: Accounts, a: Address): Account {
    if a in m then m[a] else EMPTY_ACCOUNT
  }

  function BalanceOf(m: Accounts, a: Address): Word { GetOrEmpty(m, a).balance }

  function WithBalance(m: Accounts, a: Address, v: Word): Accounts {
    m[a := GetOrEmpty(m, a).(balance := v)]
  }

  function Credit(m: Accounts, a: Address, v: Word): Accounts {
    WithBalance(m, a, (BalanceOf(m, a) + v) % UINT256)
  }

  function Debit(m: Accounts, a: Address, v: Word): Accounts {
    WithBalance(m, a, (BalanceOf(m, a) - v) % UINT256)
  }

  function Transfer(m: Accounts, from: Address, to: Address, v: Word): Accounts {
    Credit(Debit(m, from, v), to, v)
  }

  function WithNonce(m: Accounts, a: Address, n: nat): Accounts {
    m[a := GetOrEmpty(m, a).(nonce := n)]
  }

  function WithCode(m: Accounts, a: Address, code: Bytes): Accounts {
    m[a := GetOrEmpty(m, a).(code := code)]
  }

  function WithSlot(m: Accounts, a: Address, k: Word, v: Word): Accounts {
    var acct := GetOrEmpty(m, a);
    m[a := acct.(storage := acct.storage[k := v])]
  }

  function WithAccount(m: Accounts, a: Address): Accounts {
    if a in m then m else m[a := EMPTY_ACCOUNT]
  }
}
