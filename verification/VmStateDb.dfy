/**
 The working copy the virtual machine runs a transaction on: a lazy cache over the
 node's stores and an optional historical provider, with snapshots and a flush. It
 behaves like a flat map that is copied whole at each snapshot.
 */
module VmStateDb {
  import opened Options
  import opened TvmTypes

  const INT64_MAX: nat := 0x7fff_ffff_ffff_ffff

  type Int64 = x: int | -0x8000_0000_0000_0000 <= x <= INT64_MAX

  function ToUnsigned(x: Int64): (u: nat)
    ensures u < UINT64
  {
    if x >= 0 then x else x + UINT64
  }

  /** The low 64 bits of a word, read as a signed number. */
  function ToSigned(w: nat): Int64 { if w % UINT64 <= INT64_MAX then w % UINT64 else w % UINT64 - UINT64 }

  function Look<K, V>(m: map<K, V>, k: K): Option<V> { if k in m then Some(m[k]) else None }

  /** An account record; `rest` stands for the fields the machine never looks at. */
  datatype Stored = Stored(balance: Int64, isContract: bool, rest: int)

  datatype Place = Place(owner: Address, slot: Word)

  datatype Node = Node(accounts: map<Address, Stored>, codes: map<Address, Bytes>, slots: map<Place, Word>)

  /** Historical state consulted when the node knows nothing; all-empty when there is none. */
  datatype Provider = Provider(balances: map<Address, Int64>, codes: map<Address, Bytes>, slots: map<Place, Word>)

  datatype Flat = Flat(balance: Word, nonce: nat, code: Bytes, present: bool)

  datatype Cached = Cached(
    flat: Flat, storage: map<Word, Word>, loaded: set<Word>, dirtySlots: set<Word>, balDirty: bool, codeDirty: bool)

  type Layer = map<Address, Cached>

  // ---- what lies beneath the cache ----

  function BaseFlat(n: Node, p: Provider, a: Address): Flat {
    Flat(
      if a in n.accounts then ToUnsigned(n.accounts[a].balance)
        else if a in p.balances then ToUnsigned(p.balances[a]) else 0,
      0,
      if a in n.codes then n.codes[a] else if a in p.codes then p.codes[a] else [],
      a in n.accounts || a in p.balances || a in n.codes || a in p.codes)
  }

  function BaseSlot(n: Node, p: Provider, a: Address, k: Word): Option<Word> {
    var at := Place(a, k);
    if at in n.slots then Some(n.slots[at]) else Look(p.slots, at)
  }

  // ---- what the working copy shows ----

  function Seen(n: Node, p: Provider, layer: Layer, a: Address): Flat {
    if a in layer then layer[a].flat else BaseFlat(n, p, a)
  }

  function SeenSlot(n: Node, p: Provider, layer: Layer, a: Address, k: Word): Option<Word> {
    if a in layer && k in layer[a].storage then Some(layer[a].storage[k])
    else if a in layer && k in layer[a].loaded then None
    else BaseSlot(n, p, a, k)
  }

  /** Anything not marked for writing back is what the stores hold. */
  ghost predicate CacheOk(n: Node, p: Provider, a: Address, c: Cached) {
    var base := BaseFlat(n, p, a);
    && (!c.balDirty ==> c.flat.balance == base.balance)
    && (!c.codeDirty ==> c.flat.code == base.code)
    && (c.flat.present <==> base.present || c.balDirty || c.codeDirty || c.dirtySlots != {})
    && c.dirtySlots <= c.storage.Keys <= c.loaded
    && forall k :: k in c.loaded && k !in c.dirtySlots ==> Look(c.storage, k) == BaseSlot(n, p, a, k)
  }

  ghost predicate LayerOk(n: Node, p: Provider, layer: Layer) { forall a :: a in layer ==> CacheOk(n, p, a, layer[a]) }

  function Untouched(n: Node, p: Provider, a: Address): Cached {
    Cached(BaseFlat(n, p, a), map[], {}, {}, false, false)
  }

  // ---- the flat map ----

  /** Values written so far; everything else reads as the stores do. */
  datatype Sheet = Sheet(flats: map<Address, Flat>, slots: map<Place, Word>)

  datatype Spec = Spec(sheet: Sheet, snaps: seq<Sheet>)

  function Read(n: Node, p: Provider, s: Sheet, a: Address): Flat
  {
    if a in s.flats then s.flats[a] else BaseFlat(n, p, a)
  }

  function ReadSlot(n: Node, p: Provider, s: Sheet, a: Address, k: Word): Option<Word> {
    if Place(a, k) in s.slots then Some(s.slots[Place(a, k)]) else BaseSlot(n, p, a, k)
  }

  datatype Op =
    | Exist(a: Address)
    | CreateAccount(a: Address)
    | GetBalance(a: Address)
    | AddBalance(a: Address, amount: Word)
    | SubBalance(a: Address, amount: Word)
    | GetNonce(a: Address)
    | SetNonce(a: Address, nonce: nat)
    | GetCode(a: Address)
    | SetCode(a: Address, code: Bytes)
    | GetStorage(a: Address, k: Word)
    | SetStorage(a: Address, k: Word, v: Word)
    | Snapshot
    | Revert(id: int)

  datatype Observation = Quiet | Truth(holds: bool) | Number(n: nat) | Code(code: Bytes) | Slot(v: Option<Word>)

  /** The account part a write leaves behind; reads leave it alone. */
  function Written(f: Flat, op: Op): Flat {
    match op
    case CreateAccount(_) => f.(present := true)
    case AddBalance(_, amount) => f.(balance := (f.balance + amount) % UINT256, present := true)
    case SubBalance(_, amount) => f.(balance := (f.balance + UINT256 - amount) % UINT256, present := true)
    case SetNonce(_, nonce) => f.(nonce := nonce)
    case SetCode(_, code) => f.(code := code, present := true)
    case SetStorage(_, _, _) => f.(present := true)
    case _ => f
  }

  predicate Writes(op: Op) {
    op.CreateAccount? || op.AddBalance? || op.SubBalance? || op.SetNonce? || op.SetCode? || op.SetStorage?
  }

  function SpecStep(n: Node, p: Provider, s: Spec, op: Op): Spec {
    if op.Snapshot? then s.(snaps := s.snaps + [s.sheet])
    else if op.Revert? then if 0 <= op.id < |s.snaps| then Spec(s.snaps[op.id], s.snaps[..op.id]) else s
    else if Writes(op) then
      s.(sheet := Sheet(
           s.sheet.flats[op.a := Written(Read(n, p, s.sheet, op.a), op)],
           if op.SetStorage? then s.sheet.slots[Place(op.a, op.k) := op.v] else s.sheet.slots))
    else s
  }

  function SpecObserve(n: Node, p: Provider, s: Spec, op: Op): Observation {
    match op
    case Exist(a) => Truth(Read(n, p, s.sheet, a).present)
    case GetBalance(a) => Number(Read(n, p, s.sheet, a).balance)
    case GetNonce(a) => Number(Read(n, p, s.sheet, a).nonce)
    case GetCode(a) => Code(Read(n, p, s.sheet, a).code)
    case GetStorage(a, k) => Slot(ReadSlot(n, p, s.sheet, a, k))
    case Snapshot => Number(|s.snaps|)
    case _ => Quiet
  }

  function SpecRun(n: Node, p: Provider, s: Spec, ops: seq<Op>): seq<Observation>
    decreases |ops|
  {
    if ops == [] then [] else [SpecObserve(n, p, s, ops[0])] + SpecRun(n, p, SpecStep(n, p, s, ops[0]), ops[1..])
  }

  /** The state a run ends in. */
  function SpecEnd(n: Node, p: Provider, s: Spec, ops: seq<Op>): Spec
    decreases |ops|
  {
    if ops == [] then s else SpecEnd(n, p, SpecStep(n, p, s, ops[0]), ops[1..])
  }

  /** No operation of the run reverts to snapshot `id` or an earlier one. */
  predicate RevertsAbove(ops: seq<Op>, id: nat) {
    forall i :: 0 <= i < |ops| && ops[i].Revert? ==> ops[i].id < 0 || ops[i].id > id
  }

  /** A run above a snapshot leaves it in place. */
  lemma {:induction false} SnapshotStands(n: Node, p: Provider, s: Spec, ops: seq<Op>, id: nat)
    requires id < |s.snaps| && RevertsAbove(ops, id)
    ensures var end := SpecEnd(n, p, s, ops); id < |end.snaps| && end.snaps[..id + 1] == s.snaps[..id + 1]
    decreases |ops|
  {
    hide Written, Read;
    if ops != [] {
      var next := SpecStep(n, p, s, ops[0]);
      assert next.snaps[..id + 1] == s.snaps[..id + 1];
      SnapshotStands(n, p, next, ops[1..], id);
    }
  }

  /** Reverting to a snapshot brings back the state it was taken in, whatever ran and was nested in between. */
  lemma RevertUndoes(n: Node, p: Provider, s: Spec, ops: seq<Op>)
    requires RevertsAbove(ops, |s.snaps|)
    ensures var taken := SpecStep(n, p, s, Snapshot);
            SpecObserve(n, p, s, Snapshot) == Number(|s.snaps|) &&
            SpecStep(n, p, SpecEnd(n, p, taken, ops), Op.Revert(|s.snaps|)) == s
  {
    var taken, id := SpecStep(n, p, s, Snapshot), |s.snaps|;
    SnapshotStands(n, p, taken, ops, id);
    hide SpecEnd;
    var end := SpecEnd(n, p, taken, ops);
    assert end.snaps[id] == end.snaps[..id + 1][id] && end.snaps[..id] == end.snaps[..id + 1][..id];
    assert taken.snaps[..id + 1][..id] == s.snaps;
  }

  /** What the node's stores know hides the history; an account neither knows is empty and absent. */
  lemma NodeHidesHistory(n: Node, p: Provider, q: Provider, a: Address)
    ensures a in n.accounts ==> BaseFlat(n, p, a).balance == BaseFlat(n, q, a).balance
    ensures a in n.codes ==> BaseFlat(n, p, a).code == BaseFlat(n, q, a).code == n.codes[a]
    ensures a !in n.accounts && a in p.balances ==>
              BaseFlat(n, p, a).balance == if p.balances[a] < 0 then p.balances[a] + UINT64 else p.balances[a]
    ensures a in n.accounts && n.accounts[a].balance >= 0 ==> BaseFlat(n, p, a).balance == n.accounts[a].balance
    ensures a !in n.codes && a in p.codes ==> BaseFlat(n, p, a).code == p.codes[a]
    ensures !BaseFlat(n, p, a).present <==>
              a !in n.accounts && a !in n.codes && a !in p.balances && a !in p.codes
    ensures !BaseFlat(n, p, a).present ==> BaseFlat(n, p, a) == Flat(0, 0, [], false)
  {
  }

  lemma SpecRunOn(n: Node, p: Provider, s: Spec, ops: seq<Op>)
    ensures ops == [] ==> SpecRun(n, p, s, ops) == []
    ensures ops != [] ==>
              SpecRun(n, p, s, ops) ==
                [SpecObserve(n, p, s, ops[0])] + SpecRun(n, p, SpecStep(n, p, s, ops[0]), ops[1..])
  {
  }

  // ---- agreement ----

  ghost predicate Agrees(n: Node, p: Provider, layer: Layer, s: Sheet) {
    && (forall a :: Seen(n, p, layer, a) == Read(n, p, s, a))
    && (forall a, k :: SeenSlot(n, p, layer, a, k) == ReadSlot(n, p, s, a, k))
  }

  ghost predicate Good(n: Node, p: Provider, layer: Layer, s: Sheet) { LayerOk(n, p, layer) && Agrees(n, p, layer, s) }

  ghost predicate GoodStack(n: Node, p: Provider, layers: seq<Layer>, sheets: seq<Sheet>) {
    |layers| == |sheets| && forall i :: 0 <= i < |layers| ==> Good(n, p, layers[i], sheets[i])
  }

  /** Pulling an account into the cache shows nothing new. */
  lemma LoadKeeps(n: Node, p: Provider, layer: Layer, s: Sheet, a: Address)
    requires Good(n, p, layer, s) && a !in layer
    ensures Good(n, p, layer[a := Untouched(n, p, a)], s)
  {
    hide BaseFlat, BaseSlot;
  }

  /** Looking a slot up, and remembering that it is absent, shows nothing new. */
  lemma LookupKeeps(n: Node, p: Provider, layer: Layer, s: Sheet, a: Address, k: Word, c: Cached)
    requires Good(n, p, layer, s) && a in layer && k !in layer[a].storage && k !in layer[a].loaded
    requires c == layer[a].(loaded := layer[a].loaded + {k}, storage := c.storage)
    requires c.storage == match BaseSlot(n, p, a, k) case Some(v) => layer[a].storage[k := v] case None =>
               layer[a].storage
    ensures Good(n, p, layer[a := c], s)
  {
    hide BaseFlat;
    var after := layer[a := c];
    forall b, j
      ensures SeenSlot(n, p, after, b, j) == ReadSlot(n, p, s, b, j)
    {
      assert SeenSlot(n, p, layer, b, j) == ReadSlot(n, p, s, b, j);
    }
    forall b
      ensures Seen(n, p, after, b) == Read(n, p, s, b)
    {
      assert Seen(n, p, layer, b) == Read(n, p, s, b);
    }
  }

  /** A write to the account part. */
  lemma WriteKeeps(n: Node, p: Provider, layer: Layer, s: Sheet, a: Address, c: Cached)
    requires Good(n, p, layer, s) && a in layer && CacheOk(n, p, a, c)
    requires c.storage == layer[a].storage && c.loaded == layer[a].loaded
    ensures Good(n, p, layer[a := c], s.(flats := s.flats[a := c.flat]))
  {
    hide BaseFlat, BaseSlot, CacheOk;
    var after, t := layer[a := c], s.(flats := s.flats[a := c.flat]);
    forall b, j
      ensures SeenSlot(n, p, after, b, j) == ReadSlot(n, p, t, b, j)
    {
      assert SeenSlot(n, p, layer, b, j) == ReadSlot(n, p, s, b, j);
    }
    forall b
      ensures Seen(n, p, after, b) == Read(n, p, t, b)
    {
      assert Seen(n, p, layer, b) == Read(n, p, s, b);
    }
  }

  lemma StoreKeeps(n: Node, p: Provider, layer: Layer, s: Sheet, a: Address, k: Word, v: Word, c: Cached)
    requires Good(n, p, layer, s) && a in layer && CacheOk(n, p, a, c)
    requires c.storage == layer[a].storage[k := v] && c.loaded == layer[a].loaded + {k}
    ensures Good(n, p, layer[a := c], Sheet(s.flats[a := c.flat], s.slots[Place(a, k) := v]))
  {
    hide BaseFlat, BaseSlot, CacheOk;
    var after, t := layer[a := c], Sheet(s.flats[a := c.flat], s.slots[Place(a, k) := v]);
    forall b, j
      ensures SeenSlot(n, p, after, b, j) == ReadSlot(n, p, t, b, j)
    {
      assert SeenSlot(n, p, layer, b, j) == ReadSlot(n, p, s, b, j);
    }
    forall b
      ensures Seen(n, p, after, b) == Read(n, p, t, b)
    {
      assert Seen(n, p, layer, b) == Read(n, p, s, b);
    }
  }

  // ---- flushing ----

  function FlushedAccount(n: Node, layer: Layer, a: Address): Option<Stored> {
    if a in layer && layer[a].balDirty then
      var was := if a in n.accounts then n.accounts[a] else Stored(0, false, 0);
      Some(Stored(ToSigned(layer[a].flat.balance), was.isContract || layer[a].flat.code != [], was.rest))
    else Look(n.accounts, a)
  }

  function FlushedCode(n: Node, layer: Layer, a: Address): Option<Bytes> {
    if a in layer && layer[a].codeDirty then Some(layer[a].flat.code) else Look(n.codes, a)
  }

  function FlushedSlot(n: Node, layer: Layer, at: Place): Option<Word> {
    if at.owner in layer && at.slot in layer[at.owner].dirtySlots then Look(layer[at.owner].storage, at.slot)
    else Look(n.slots, at)
  }

  /** Accounts in done have been written back, the others not yet. */
  ghost predicate PartlyFlushed(n: Node, layer: Layer, done: set<Address>, m: Node) {
    && (forall a: Address ::
          Look(m.accounts, a) == (if a in done then FlushedAccount(n, layer, a) else Look(n.accounts, a)) &&
          Look(m.codes, a) == (if a in done then FlushedCode(n, layer, a) else Look(n.codes, a)))
    && (forall at: Place :: Look(m.slots, at) == if at.owner in done then FlushedSlot(n, layer, at)
         else Look(n.slots, at))
  }

  lemma OneMoreFlushed(n: Node, layer: Layer, done: set<Address>, before: Node, after: Node, a: Address)
    requires a in layer && a !in done && PartlyFlushed(n, layer, done, before)
    requires forall b: Address ::
               Look(after.accounts, b) == if b == a then FlushedAccount(before, layer, a) else Look(before.accounts, b)
    requires forall b: Address ::
               Look(after.codes, b) == if b == a then FlushedCode(before, layer, a) else Look(before.codes, b)
    requires forall at: Place ::
               Look(after.slots, at) ==
               if at.owner == a && at.slot in layer[a].dirtySlots then Look(layer[a].storage, at.slot)
               else Look(before.slots, at)
    ensures PartlyFlushed(n, layer, done + {a}, after)
  {
    hide ToSigned, Look;
    assert Look(before.accounts, a) == Look(n.accounts, a) && Look(before.codes, a) == Look(n.codes, a);
    SameFlush(n, before, layer, a);
  }

  /** What is flushed for an account depends on its own record only. */
  lemma SameFlush(n: Node, m: Node, layer: Layer, a: Address)
    requires Look(n.accounts, a) == Look(m.accounts, a) && Look(n.codes, a) == Look(m.codes, a)
    ensures FlushedAccount(n, layer, a) == FlushedAccount(m, layer, a) &&
              FlushedCode(n, layer, a) == FlushedCode(m, layer, a)
  {
    hide ToSigned;
  }

  lemma SignedRoundTrip(w: nat)
    ensures ToUnsigned(ToSigned(w)) == w % UINT64
  {
  }

  lemma FlushedAt(n: Node, layer: Layer, m: Node, a: Address)
    requires PartlyFlushed(n, layer, layer.Keys, m)
    ensures Look(m.accounts, a) == FlushedAccount(n, layer, a) && Look(m.codes, a) == FlushedCode(n, layer, a)
  {
  }

  /** A flush keeps every account's other fields, and turns an account into a contract only when it holds code. */
  lemma FlushKeepsRecord(n: Node, layer: Layer, m: Node, a: Address)
    requires PartlyFlushed(n, layer, layer.Keys, m)
    ensures a in m.accounts <==> a in n.accounts || (a in layer && layer[a].balDirty)
    ensures a in m.accounts ==>
              && m.accounts[a].rest == (if a in n.accounts then n.accounts[a].rest else 0)
              && (m.accounts[a].isContract <==>
                    (a in n.accounts && n.accounts[a].isContract) ||
                    (a in layer && layer[a].balDirty && layer[a].flat.code != []))
    ensures a in m.accounts && !(a in layer && layer[a].balDirty) ==> m.accounts[a] == n.accounts[a]
  {
    FlushedAt(n, layer, m, a);
    hide PartlyFlushed, ToSigned;
  }

  /** What a fresh working copy reads at an address after the flush. */
  lemma FlushReadsBack(n: Node, p: Provider, layer: Layer, m: Node, a: Address)
    requires LayerOk(n, p, layer) && PartlyFlushed(n, layer, layer.Keys, m)
    ensures var was, now := Seen(n, p, layer, a), BaseFlat(m, p, a);
            && now.code == was.code
            && now.balance == was.balance % UINT64
            && (was.balance < UINT64 <==> now.balance == was.balance)
            && now.nonce == 0
            && (now.present <==> BaseFlat(n, p, a).present || (a in layer && (layer[a].balDirty || layer[a].codeDirty)))
  {
    hide PartlyFlushed, ToUnsigned, ToSigned, BaseSlot;
    FlushedAt(n, layer, m, a);
    if a in layer {
      assert CacheOk(n, p, a, layer[a]);
      SignedRoundTrip(layer[a].flat.balance);
    }
  }

  lemma FlushReadsSlotBack(n: Node, p: Provider, layer: Layer, m: Node, a: Address, k: Word)
    requires LayerOk(n, p, layer) && PartlyFlushed(n, layer, layer.Keys, m)
    ensures BaseSlot(m, p, a, k) == SeenSlot(n, p, layer, a, k)
  {
    hide BaseFlat;
    var at := Place(a, k);
    assert Look(m.slots, at) == if at.owner in layer then FlushedSlot(n, layer, at) else Look(n.slots, at) by {
      hide FlushedSlot, Look;
    }
    hide PartlyFlushed;
    if a in layer {
      assert CacheOk(n, p, a, layer[a]);
    }
  }

  /** The one thing besides the nonce that a flush forgets: an account made present only by a storage write. */
  lemma FlushForgets(n: Node, p: Provider, layer: Layer, m: Node, a: Address)
    requires LayerOk(n, p, layer) && PartlyFlushed(n, layer, layer.Keys, m)
    ensures BaseFlat(m, p, a).present != Seen(n, p, layer, a).present <==>
            !BaseFlat(n, p, a).present && a in layer && layer[a].dirtySlots != {} && !layer[a].balDirty &&
            !layer[a].codeDirty
  {
    hide BaseFlat, PartlyFlushed;
    FlushReadsBack(n, p, layer, m, a);
  }

  class StateDb {
    var node: Node
    const provider: Provider
    var dirty: Layer
    var snaps: seq<Layer>
    ghost var spec: Spec

    ghost predicate Valid()
      reads this
    {
      Good(node, provider, dirty, spec.sheet) && GoodStack(node, provider, snaps, spec.snaps)
    }

    constructor (node: Node, provider: Provider)
      ensures Valid() && spec == Spec(Sheet(map[], map[]), []) && this.node == node && this.provider == provider &&
                dirty == map[]
    {
      this.node, this.provider := node, provider;
      dirty, snaps := map[], [];
      spec := Spec(Sheet(map[], map[]), []);
    }

    /** The working account at a, pulled from the stores on first touch. */
    method Load(a: Address) returns (c: Cached)
      requires Valid()
      modifies this`dirty
      ensures Valid() && a in dirty && dirty[a] == c
      ensures c.flat == Read(node, provider, spec.sheet, a) && CacheOk(node, provider, a, c)
      ensures if a in old(dirty) then dirty == old(dirty) else dirty == old(dirty)[a := Untouched(node, provider, a)]
    {
      hide BaseFlat, BaseSlot, CacheOk;
      if a in dirty {
        assert Seen(node, provider, dirty, a) == dirty[a].flat;
        return dirty[a];
      }
      LoadKeeps(node, provider, dirty, spec.sheet, a);
      var flat := Pull(a);
      c := Cached(flat, map[], {}, {}, false, false);
      dirty := dirty[a := c];
      assert Seen(node, provider, dirty, a) == c.flat;
    }

    method Pull(a: Address) returns (flat: Flat)
      ensures flat == BaseFlat(node, provider, a)
    {
      var balance, code, present := 0, [], false;
      if a in node.accounts {
        balance, present := ToUnsigned(node.accounts[a].balance), true;
      } else if a in provider.balances {
        balance, present := ToUnsigned(provider.balances[a]), true;
      }
      if a in node.codes {
        code, present := node.codes[a], true;
      } else if a in provider.codes {
        code, present := provider.codes[a], true;
      }
      return Flat(balance, 0, code, present);
    }

    method Find(a: Address, k: Word) returns (v: Option<Word>)
      requires Valid()
      modifies this`dirty
      ensures Valid()
      ensures v == ReadSlot(node, provider, spec.sheet, a, k)
    {
      hide BaseFlat, CacheOk;
      var c := Load(a);
      assert SeenSlot(node, provider, dirty, a, k) == ReadSlot(node, provider, spec.sheet, a, k);
      if k in c.storage {
        return Some(c.storage[k]);
      }
      if k in c.loaded {
        return None;
      }
      var at := Place(a, k);
      v := if at in node.slots then Some(node.slots[at]) else Look(provider.slots, at);
      var storage := if v.Some? then c.storage[k := v.value] else c.storage;
      var found := c.(loaded := c.loaded + {k}, storage := storage);
      LookupKeeps(node, provider, dirty, spec.sheet, a, k, found);
      dirty := dirty[a := found];
    }

    /** Account-level writes. */
    method WriteAccount(op: Op)
      requires Valid() && Writes(op) && !op.SetStorage?
      modifies this`dirty, this`spec
      ensures Valid() && spec == SpecStep(node, provider, old(spec), op)
    {
      hide BaseFlat, BaseSlot, GoodStack, Agrees, LayerOk;
      var c := Load(op.a);
      var balDirty := c.balDirty || op.CreateAccount? || op.AddBalance? || op.SubBalance?;
      var after := c.(flat := Written(c.flat, op), balDirty := balDirty, codeDirty := c.codeDirty || op.SetCode?);
      WriteKeeps(node, provider, dirty, spec.sheet, op.a, after);
      dirty := dirty[op.a := after];
      spec := SpecStep(node, provider, spec, op);
    }

    method WriteSlot(a: Address, k: Word, v: Word)
      requires Valid()
      modifies this`dirty, this`spec
      ensures Valid() && spec == SpecStep(node, provider, old(spec), SetStorage(a, k, v))
      ensures a in dirty && k in dirty[a].dirtySlots
      ensures a !in old(dirty) ==> !dirty[a].balDirty && !dirty[a].codeDirty
    {
      hide BaseFlat, BaseSlot, GoodStack, Agrees, LayerOk;
      var c := Load(a);
      var after := c.(flat := c.flat.(present := true), storage := c.storage[k := v], loaded := c.loaded + {k},
        dirtySlots := c.dirtySlots + {k});
      assert k in after.dirtySlots;
      StoreKeeps(node, provider, dirty, spec.sheet, a, k, v, after);
      dirty := dirty[a := after];
      spec := SpecStep(node, provider, spec, SetStorage(a, k, v));
    }

    method TakeSnapshot() returns (id: nat)
      requires Valid()
      modifies this`snaps, this`spec
      ensures Valid() && spec == SpecStep(node, provider, old(spec), Snapshot)
      ensures id == |old(spec).snaps|
    {
      hide Good;
      snaps := snaps + [dirty];
      spec := SpecStep(node, provider, spec, Snapshot);
      return |snaps| - 1;
    }

    method RevertToSnapshot(id: int)
      requires Valid()
      modifies this`dirty, this`snaps, this`spec
      ensures Valid() && spec == SpecStep(node, provider, old(spec), Op.Revert(id))
    {
      hide Good;
      spec := SpecStep(node, provider, spec, Op.Revert(id));
      if id < 0 || id >= |snaps| {
        return;
      }
      dirty := snaps[id];
      snaps := snaps[..id];
    }

    method Apply(op: Op) returns (seen: Observation)
      requires Valid()
      modifies this`dirty, this`snaps, this`spec
      ensures Valid() && spec == SpecStep(node, provider, old(spec), op)
      ensures seen == SpecObserve(node, provider, old(spec), op)
    {
      hide BaseFlat, BaseSlot, GoodStack, Good, CacheOk;
      seen := Quiet;
      if op.Exist? {
        var c := Load(op.a);
        seen := Truth(c.flat.present);
      } else if op.GetBalance? {
        var c := Load(op.a);
        seen := Number(c.flat.balance);
      } else if op.GetNonce? {
        var c := Load(op.a);
        seen := Number(c.flat.nonce);
      } else if op.GetCode? {
        var c := Load(op.a);
        seen := Code(c.flat.code);
      } else if op.GetStorage? {
        var v := Find(op.a, op.k);
        seen := Slot(v);
      } else if op.SetStorage? {
        WriteSlot(op.a, op.k, op.v);
      } else if op.Snapshot? {
        var id := TakeSnapshot();
        seen := Number(id);
      } else if op.Revert? {
        RevertToSnapshot(op.id);
      } else {
        WriteAccount(op);
      }
    }

    /** Every run of operations shows exactly what the flat map shows. */
    method ApplyAll(ops: seq<Op>) returns (seen: seq<Observation>)
      requires Valid()
      modifies this`dirty, this`snaps, this`spec
      ensures Valid()
      ensures seen == SpecRun(node, provider, old(spec), ops)
    {
      hide Valid, SpecStep, SpecObserve, SpecRun;
      seen := [];
      for i := 0 to |ops|
        invariant Valid()
        invariant seen + SpecRun(node, provider, spec, ops[i..]) == SpecRun(node, provider, old(spec), ops)
      {
        assert ops[i..][0] == ops[i] && ops[i..][1..] == ops[i + 1..];
        SpecRunOn(node, provider, spec, ops[i..]);
        var o := Apply(ops[i]);
        seen := seen + [o];
      }
      SpecRunOn(node, provider, spec, []);
    }

    /** Writes one account's marked parts back. */
    method FlushOne(a: Address, ghost start: Node, ghost done: set<Address>)
      requires a in dirty && a !in done && PartlyFlushed(start, dirty, done, node)
      requires dirty[a].dirtySlots <= dirty[a].storage.Keys
      modifies this`node
      ensures PartlyFlushed(start, dirty, done + {a}, node)
    {
      hide PartlyFlushed, FlushedAccount, ToSigned;
      ghost var before := node;
      FlushAccount(a);
      FlushCode(a);
      FlushSlots(a);
      OneMoreFlushed(start, dirty, done, before, node, a);
    }

    method FlushAccount(a: Address)
      requires a in dirty
      modifies this`node
      ensures node == old(node).(accounts := node.accounts)
      ensures forall b: Address ::
                Look(node.accounts, b) == if b == a then FlushedAccount(old(node), dirty, a)
                  else Look(old(node).accounts, b)
    {
      hide ToSigned;
      var c := dirty[a];
      if c.balDirty {
        var was := if a in node.accounts then node.accounts[a] else Stored(0, false, 0);
        var stored := Stored(ToSigned(c.flat.balance), was.isContract || |c.flat.code| > 0, was.rest);
        node := node.(accounts := node.accounts[a := stored]);
      }
    }

    method FlushCode(a: Address)
      requires a in dirty
      modifies this`node
      ensures node == old(node).(codes := node.codes)
      ensures forall b: Address ::
                Look(node.codes, b) == if b == a then FlushedCode(old(node), dirty, a) else Look(old(node).codes, b)
    {
      var c := dirty[a];
      if c.codeDirty {
        node := node.(codes := node.codes[a := c.flat.code]);
      }
    }

    method FlushSlots(a: Address)
      requires a in dirty && dirty[a].dirtySlots <= dirty[a].storage.Keys
      modifies this`node
      ensures node.accounts == old(node).accounts && node.codes == old(node).codes
      ensures forall at: Place :: Look(node.slots, at) ==
                if at.owner == a && at.slot in dirty[a].dirtySlots then Look(dirty[a].storage, at.slot)
                else Look(old(node).slots, at)
    {
      var todo := dirty[a].dirtySlots;
      while todo != {}
        invariant todo <= dirty[a].dirtySlots
        invariant node.accounts == old(node).accounts && node.codes == old(node).codes
        invariant forall at: Place :: Look(node.slots, at) ==
                    if at.owner == a && at.slot in dirty[a].dirtySlots && at.slot !in todo
                    then Look(dirty[a].storage, at.slot) else Look(old(node).slots, at)
      {
        var k :| k in todo;
        node := node.(slots := node.slots[Place(a, k) := dirty[a].storage[k]]);
        todo := todo - {k};
      }
    }

    /** Whatever order the accounts are visited in, the stores end up the same, and a fresh copy reads them back. */
    method Flush()
      requires Valid()
      modifies this`node
      ensures PartlyFlushed(old(node), dirty, dirty.Keys, node)
      ensures forall a: Address ::
                var was, now := Read(old(node), provider, spec.sheet, a), BaseFlat(node, provider, a);
                now.code == was.code && (was.balance < UINT64 <==> now.balance == was.balance)
      ensures forall a: Address, k: Word ::
                BaseSlot(node, provider, a, k) == ReadSlot(old(node), provider, spec.sheet, a, k)
    {
      hide FlushedAccount, FlushedCode, FlushedSlot, BaseFlat, BaseSlot;
      var todo := dirty.Keys;
      while todo != {}
        invariant todo <= dirty.Keys
        invariant PartlyFlushed(old(node), dirty, dirty.Keys - todo, node)
      {
        var a :| a in todo;
        assert CacheOk(old(node), provider, a, dirty[a]);
        FlushOne(a, old(node), dirty.Keys - todo);
        assert dirty.Keys - (todo - {a}) == dirty.Keys - todo + {a};
        todo := todo - {a};
      }
      assert dirty.Keys - {} == dirty.Keys;
      FlushedReads();
    }

    twostate lemma FlushedReads()
      requires old(Valid()) && dirty == old(dirty) && spec == old(spec)
      requires PartlyFlushed(old(node), dirty, dirty.Keys, node)
      ensures forall a: Address ::
                var was, now := Read(old(node), provider, spec.sheet, a), BaseFlat(node, provider, a);
                now.code == was.code && (was.balance < UINT64 <==> now.balance == was.balance)
      ensures forall a: Address, k: Word ::
                BaseSlot(node, provider, a, k) == ReadSlot(old(node), provider, spec.sheet, a, k)
    {
      hide PartlyFlushed, BaseFlat, BaseSlot, CacheOk, Seen, SeenSlot, Read, ReadSlot;
      forall a: Address
        ensures var was, now := Read(old(node), provider, spec.sheet, a), BaseFlat(node, provider, a);
                now.code == was.code && (was.balance < UINT64 <==> now.balance == was.balance)
      {
        FlushReadsBack(old(node), provider, dirty, node, a);
        assert Seen(old(node), provider, dirty, a) == Read(old(node), provider, spec.sheet, a);
      }
      forall a: Address, k: Word
        ensures BaseSlot(node, provider, a, k) == ReadSlot(old(node), provider, spec.sheet, a, k)
      {
        FlushReadsSlotBack(old(node), provider, dirty, node, a, k);
        assert SeenSlot(old(node), provider, dirty, a, k) == ReadSlot(old(node), provider, spec.sheet, a, k);
      }
    }
  }

  /** A storage write alone makes an account present, and a flush and a fresh copy forget that it was. */
  method StorageAloneForgotten() returns (before: bool, after: bool)
    ensures before && !after
  {
    hide BaseSlot, Agrees, GoodStack, PartlyFlushed, CacheOk;
    var nothing := Node(map[], map[], map[]);
    var s := new StateDb(nothing, Provider(map[], map[], map[]));
    s.WriteSlot(1, 0, 7);
    var c := s.Load(1);
    before := c.flat.present;
    ghost var layer := s.dirty;
    s.Flush();
    FlushForgets(nothing, s.provider, layer, s.node, 1);
    var again := new StateDb(s.node, s.provider);
    var d := again.Load(1);
    after := d.flat.present;
  }

  // ---- against the in-memory account map ----

  /** The flat map shows what a plain account map holds. */
  ghost predicate Mirrors(n: Node, p: Provider, s: Sheet, m: Accounts) {
    && (forall a: Address :: Read(n, p, s, a) == FlatOf(m, a))
    && (forall a: Address, k: Word :: ReadSlot(n, p, s, a, k) == Look(GetOrEmpty(m, a).storage, k))
  }

  /** What an account map does with the same writes. */
  function MapStep(m: Accounts, op: Op): Accounts {
    match op
    case CreateAccount(a) => WithAccount(m, a)
    case AddBalance(a, amount) => Credit(m, a, amount)
    case SubBalance(a, amount) => Debit(m, a, amount)
    case SetNonce(a, nonce) => WithNonce(m, a, nonce)
    case SetCode(a, code) => WithCode(m, a, code)
    case SetStorage(a, k, v) => WithSlot(m, a, k, v)
    case _ => m
  }

  lemma MirrorSlots(n: Node, p: Provider, s: Spec, m: Accounts, op: Op)
    requires Mirrors(n, p, s.sheet, m) && Writes(op)
    ensures forall a: Address, k: Word ::
              ReadSlot(n, p, SpecStep(n, p, s, op).sheet, a, k) == Look(GetOrEmpty(MapStep(m, op), a).storage, k)
  {
    hide BaseFlat, BaseSlot;
    forall a: Address, k: Word
      ensures ReadSlot(n, p, SpecStep(n, p, s, op).sheet, a, k) == Look(GetOrEmpty(MapStep(m, op), a).storage, k)
    {
      assert ReadSlot(n, p, s.sheet, a, k) == Look(GetOrEmpty(m, a).storage, k);
    }
  }

  function FlatOf(m: Accounts, a: Address): Flat {
    var acct := GetOrEmpty(m, a);
    Flat(acct.balance, acct.nonce, acct.code, a in m)
  }

  lemma WrapsAlike(b: Word, v: Word)
    ensures (b + UINT256 - v) % UINT256 == (b - v) % UINT256
  {
  }

  /** One account under a write to it: the same except for the presence that setting a nonce gives in the map alone. */
  lemma WrittenFlat(m: Accounts, op: Op)
    requires Writes(op)
    ensures FlatOf(MapStep(m, op), op.a) == Written(FlatOf(m, op.a), op).(present := true)
    ensures Written(FlatOf(m, op.a), op).present <==> !(op.SetNonce? && op.a !in m)
    ensures forall a: Address :: a != op.a ==> FlatOf(MapStep(m, op), a) == FlatOf(m, a)
  {
    if op.SubBalance? {
      WrapsAlike(BalanceOf(m, op.a), op.amount);
    }
  }

  /**
   The two working states stay the same under a write exactly unless it sets the nonce of an account that is not
   there.
   */
  lemma MirrorsStep(n: Node, p: Provider, s: Spec, m: Accounts, op: Op)
    requires Mirrors(n, p, s.sheet, m) && Writes(op)
    ensures Mirrors(n, p, SpecStep(n, p, s, op).sheet, MapStep(m, op)) <==> !(op.SetNonce? && op.a !in m)
  {
    MirrorSlots(n, p, s, m, op);
    WrittenFlat(m, op);
    hide MapStep, FlatOf, BaseFlat, ReadSlot, GetOrEmpty, Written, Look;
    var t := SpecStep(n, p, s, op).sheet;
    assert forall a: Address :: Read(n, p, t, a) == if a == op.a then Written(FlatOf(m, a), op) else FlatOf(m, a) by {
      assert Read(n, p, s.sheet, op.a) == FlatOf(m, op.a);
      assert forall a: Address :: a != op.a ==> Read(n, p, t, a) == Read(n, p, s.sheet, a);
    }
    if op.SetNonce? && op.a !in m {
      assert Read(n, p, t, op.a) != FlatOf(MapStep(m, op), op.a);
    }
  }

  /** An account map with full-copy snapshots, as the in-memory state keeps them. */
  datatype MapState = MapState(accounts: Accounts, snaps: seq<Accounts>)

  function MapNext(s: MapState, op: Op): MapState {
    if op.Snapshot? then s.(snaps := s.snaps + [s.accounts])
    else if op.Revert? then if 0 <= op.id < |s.snaps| then MapState(s.snaps[op.id], s.snaps[..op.id]) else s
    else s.(accounts := MapStep(s.accounts, op))
  }

  function MapObserve(s: MapState, op: Op): Observation {
    match op
    case Exist(a) => Truth(a in s.accounts)
    case GetBalance(a) => Number(BalanceOf(s.accounts, a))
    case GetNonce(a) => Number(GetOrEmpty(s.accounts, a).nonce)
    case GetCode(a) => Code(GetOrEmpty(s.accounts, a).code)
    case GetStorage(a, k) => Slot(Look(GetOrEmpty(s.accounts, a).storage, k))
    case Snapshot => Number(|s.snaps|)
    case _ => Quiet
  }

  function MapRun(s: MapState, ops: seq<Op>): seq<Observation>
    decreases |ops|
  {
    if ops == [] then [] else [MapObserve(s, ops[0])] + MapRun(MapNext(s, ops[0]), ops[1..])
  }

  /** The nonce of an absent account is set. */
  predicate StrayNonce(s: MapState, op: Op) { op.SetNonce? && op.a !in s.accounts }

  /** The run sets no nonce of an account that is absent at that point. */
  predicate NoStrayNonce(s: MapState, ops: seq<Op>)
    decreases |ops|
  {
    ops == [] || (!StrayNonce(s, ops[0]) && NoStrayNonce(MapNext(s, ops[0]), ops[1..]))
  }

  ghost predicate MirrorsAll(n: Node, p: Provider, s: Spec, t: MapState) {
    && Mirrors(n, p, s.sheet, t.accounts) && |s.snaps| == |t.snaps|
    && forall i :: 0 <= i < |s.snaps| ==> Mirrors(n, p, s.snaps[i], t.snaps[i])
  }

  lemma MirrorsNext(n: Node, p: Provider, s: Spec, t: MapState, op: Op)
    requires MirrorsAll(n, p, s, t) && !StrayNonce(t, op)
    ensures MirrorsAll(n, p, SpecStep(n, p, s, op), MapNext(t, op))
  {
    if Writes(op) {
      MirrorsStep(n, p, s, t.accounts, op);
    }
    hide Mirrors, Read, ReadSlot, Written;
  }

  lemma MirrorsObserve(n: Node, p: Provider, s: Spec, t: MapState, op: Op)
    requires MirrorsAll(n, p, s, t)
    ensures SpecObserve(n, p, s, op) == MapObserve(t, op)
  {
    hide BaseFlat, Read, ReadSlot, Look;
    if op.Exist? || op.GetBalance? || op.GetNonce? || op.GetCode? {
      assert Read(n, p, s.sheet, op.a) == FlatOf(t.accounts, op.a);
    }
  }

  /** Whole runs, with snapshots and reverts, observe the same on the working copy and on the account map. */
  lemma {:induction false} MirrorsRun(n: Node, p: Provider, s: Spec, t: MapState, ops: seq<Op>)
    requires MirrorsAll(n, p, s, t) && NoStrayNonce(t, ops)
    ensures SpecRun(n, p, s, ops) == MapRun(t, ops)
    decreases |ops|
  {
    hide MirrorsAll, SpecStep, MapNext, SpecObserve, MapObserve, StrayNonce;
    if ops != [] {
      MirrorsNext(n, p, s, t, ops[0]);
      MirrorsObserve(n, p, s, t, ops[0]);
      MirrorsRun(n, p, SpecStep(n, p, s, ops[0]), MapNext(t, ops[0]), ops[1..]);
    }
  }

  /** So the lazy working copy shows every such run what the in-memory state would. */
  method ApplyMirrored(db: StateDb, ops: seq<Op>, ghost t: MapState) returns (seen: seq<Observation>)
    requires db.Valid() && MirrorsAll(db.node, db.provider, db.spec, t) && NoStrayNonce(t, ops)
    modifies db`dirty, db`snaps, db`spec
    ensures db.Valid() && seen == MapRun(t, ops)
  {
    hide StateDb.Valid, MirrorsAll, SpecRun, MapRun, NoStrayNonce;
    MirrorsRun(db.node, db.provider, db.spec, t, ops);
    seen := db.ApplyAll(ops);
  }
}
