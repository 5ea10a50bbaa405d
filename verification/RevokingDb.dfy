/**
 The revoking database: a committed store under a stack of write overlays.
 It is proved to behave like a stack of complete stores, the top one visible.
 */
module RevokingDb {
  import opened Options

  type Octet = b: nat | b < 256
  type Key = seq<Octet>
  type Value = seq<Octet>

  /** A pending write of one key, or the mark that it was deleted. */
  datatype Entry = Live(value: Value) | Deleted

  type Store = map<Key, Value>
  type Writes = map<Key, Entry>

  // ---- overlays ----

  /** What is visible through one overlay. */
  function Overlay(s: Store, w: Writes): Store {
    map k | k in s.Keys + w.Keys && !(k in w && w[k].Deleted?) :: if k in w then w[k].value else s[k]
  }

  /** What is visible through the lowest n sessions. */
  function View(base: Store, sessions: seq<Writes>, n: nat): Store
    requires n <= |sessions|
  {
    if n == 0 then base else Overlay(View(base, sessions, n - 1), sessions[n - 1])
  }

  /** The store as it was before each session opened, and as it is now on top. */
  function Views(base: Store, sessions: seq<Writes>): (st: seq<Store>)
    ensures |st| == |sessions| + 1
    ensures forall i :: 0 <= i <= |sessions| ==> st[i] == View(base, sessions, i)
  {
    seq(|sessions| + 1, i requires 0 <= i <= |sessions| => View(base, sessions, i))
  }

  lemma {:induction false} ViewPrefix(base: Store, a: seq<Writes>, b: seq<Writes>, n: nat)
    requires n <= |a| && n <= |b| && a[..n] == b[..n]
    ensures View(base, a, n) == View(base, b, n)
  {
    if n > 0 {
      assert a[..n - 1] == a[..n][..n - 1] && b[..n - 1] == b[..n][..n - 1];
      assert a[n - 1] == a[..n][n - 1] && b[n - 1] == b[..n][n - 1];
      ViewPrefix(base, a, b, n - 1);
    }
  }

  /** Merging an overlay into the one below it does not change what is visible. */
  lemma OverlayMerge(s: Store, a: Writes, b: Writes)
    ensures Overlay(Overlay(s, a), b) == Overlay(s, a + b)
  {
  }

  /** No writes, nothing changed: with the two laws below this fixes what an overlay shows. */
  lemma OverlayNothing(s: Store)
    ensures Overlay(s, map[]) == s
  {
  }

  lemma OverlayPut(s: Store, w: Writes, k: Key, v: Value)
    ensures Overlay(s, w[k := Live(v)]) == Overlay(s, w)[k := v]
  {
  }

  lemma OverlayDelete(s: Store, w: Writes, k: Key)
    ensures Overlay(s, w[k := Deleted]) == Overlay(s, w) - {k}
  {
  }

  /** A key the upper sessions do not mention is looked up below them. */
  lemma {:induction false} ViewSkips(base: Store, sessions: seq<Writes>, n: nat, m: nat, k: Key)
    requires n <= m <= |sessions|
    requires forall j :: n <= j < m ==> k !in sessions[j]
    ensures k in View(base, sessions, m) <==> k in View(base, sessions, n)
    ensures k in View(base, sessions, n) ==> View(base, sessions, m)[k] == View(base, sessions, n)[k]
    decreases m
  {
    if n < m {
      ViewSkips(base, sessions, n, m - 1, k);
    }
  }

  // ---- the specification: a stack of complete stores ----

  datatype Op = BuildSession | Put(key: Key, value: Value) | Delete(key: Key) | Commit | Revoke

  function Top(st: seq<Store>): Store
    requires |st| > 0
  {
    st[|st| - 1]
  }

  function SpecStep(st: seq<Store>, op: Op): (r: seq<Store>)
    requires |st| > 0
    ensures |r| > 0
  {
    var n := |st|;
    match op
    case BuildSession => st + [Top(st)]
    case Put(k, v) => st[n - 1 := Top(st)[k := v]]
    case Delete(k) => st[n - 1 := Top(st) - {k}]
    case Commit => if n == 1 then st else st[..n - 2] + [Top(st)]
    case Revoke => if n == 1 then st else st[..n - 1]
  }

  function SpecRun(st: seq<Store>, ops: seq<Op>): (r: seq<Store>)
    requires |st| > 0
    ensures |r| > 0
    decreases |ops|
  {
    if ops == [] then st else SpecRun(SpecStep(st, ops[0]), ops[1..])
  }

  /** No operation of the run brings the stack down to `floor` stores or fewer. */
  predicate StaysAbove(st: seq<Store>, ops: seq<Op>, floor: nat)
    requires |st| > 0
    decreases |ops|
  {
    |st| > floor && (ops != [] ==> StaysAbove(SpecStep(st, ops[0]), ops[1..], floor))
  }

  /** Whatever happens above a level of the stack leaves that level alone. */
  lemma {:induction false} LowerLevelsKept(st: seq<Store>, ops: seq<Op>, floor: nat)
    requires |st| > 0 && StaysAbove(st, ops, floor)
    ensures |SpecRun(st, ops)| > floor && SpecRun(st, ops)[..floor] == st[..floor]
    decreases |ops|
  {
    if ops != [] {
      var next := SpecStep(st, ops[0]);
      LowerLevelsKept(next, ops[1..], floor);
      assert next[..floor] == st[..floor];
    }
  }

  /** Revoke returns exactly the stack of the matching BuildSession, whatever was nested in between. */
  lemma RevokeRestores(st: seq<Store>, ops: seq<Op>)
    requires |st| > 0
    requires var open := SpecStep(st, BuildSession);
             StaysAbove(open, ops, |st|) && |SpecRun(open, ops)| == |st| + 1
    ensures SpecStep(SpecRun(SpecStep(st, BuildSession), ops), Revoke) == st
  {
    var open := SpecStep(st, BuildSession);
    LowerLevelsKept(open, ops, |st|);
    assert open[..|st|] == st;
  }

  // ---- key order ----

  /** bytes.Compare(a, b) < 0 */
  predicate Less(a: Key, b: Key) {
    b != [] && (a == [] || a[0] < b[0] || (a[0] == b[0] && Less(a[1..], b[1..])))
  }

  /** The keys agree up to position i, where a ends or has the smaller byte. */
  predicate SmallerAt(a: Key, b: Key, i: nat) {
    i <= |a| && i < |b| && a[..i] == b[..i] && (i == |a| || a[i] < b[i])
  }

  /** The order is lexicographic by unsigned byte, a proper prefix first. */
  lemma {:induction false} LessIsLexicographic(a: Key, b: Key)
    ensures Less(a, b) <==> exists i: nat :: SmallerAt(a, b, i)
    decreases |a|
  {
    if a == [] && b != [] {
      assert SmallerAt(a, b, 0);
    } else if a != [] && b != [] {
      LessIsLexicographic(a[1..], b[1..]);
      SmallerTail(a, b);
    }
  }

  lemma SmallerTail(a: Key, b: Key)
    requires a != [] && b != []
    ensures (exists i: nat :: SmallerAt(a, b, i)) <==>
              a[0] < b[0] || (a[0] == b[0] && exists i: nat :: SmallerAt(a[1..], b[1..], i))
  {
    if i: nat :| SmallerAt(a, b, i) {
      if i > 0 {
        assert a[..i][0] == b[..i][0] && a[1..][..i - 1] == a[..i][1..] && b[1..][..i - 1] == b[..i][1..];
        assert SmallerAt(a[1..], b[1..], i - 1);
      }
    }
    if a[0] < b[0] {
      assert SmallerAt(a, b, 0);
    }
    if a[0] == b[0] {
      if i: nat :| SmallerAt(a[1..], b[1..], i) {
        assert a[..i + 1] == [a[0]] + a[1..][..i] && b[..i + 1] == [b[0]] + b[1..][..i];
        assert SmallerAt(a, b, i + 1);
      }
    }
  }

  lemma {:induction false} LessIrreflexive(a: Key)
    ensures !Less(a, a)
  {
    if a != [] {
      LessIrreflexive(a[1..]);
    }
  }

  lemma {:induction false} LessTotal(a: Key, b: Key)
    ensures a == b || Less(a, b) || Less(b, a)
    decreases |a|
  {
    if a != [] && b != [] {
      LessTotal(a[1..], b[1..]);
      assert a == [a[0]] + a[1..] && b == [b[0]] + b[1..];
    }
  }

  lemma {:induction false} LessTrans(a: Key, b: Key, c: Key)
    requires Less(a, b) && Less(b, c)
    ensures Less(a, c)
  {
    if a != [] && a[0] == b[0] && b[0] == c[0] {
      LessTrans(a[1..], b[1..], c[1..]);
    }
  }

  datatype Pair = Pair(key: Key, value: Value)

  predicate Sorted(out: seq<Pair>) { forall i, j :: 0 <= i < j < |out| ==> Less(out[i].key, out[j].key) }

  /** out lists exactly the entries of s, in strictly increasing key order. */
  ghost predicate Lists(out: seq<Pair>, s: Store) {
    && Sorted(out)
    && (forall p :: p in out ==> p.key in s && s[p.key] == p.value)
    && (forall k :: k in s ==> Pair(k, s[k]) in out)
  }

  /** The entries of a store whose key starts with prefix. */
  function Matching(s: Store, prefix: Key): Store { map k | k in s && prefix <= k :: s[k] }

  /** Exactly the keys that continue the prefix, each with its own value. */
  lemma MatchingContinues(s: Store, prefix: Key, rest: Key, k: Key)
    ensures prefix + rest in Matching(s, prefix) <==> prefix + rest in s
    ensures k in Matching(s, prefix) ==> k == prefix + k[|prefix|..] && Matching(s, prefix)[k] == s[k]
  {
  }

  /** A store has only one listing. */
  lemma {:induction false} ListingUnique(a: seq<Pair>, b: seq<Pair>, s: Store)
    requires Lists(a, s) && Lists(b, s)
    ensures a == b
    decreases |a|
  {
    if a == [] {
      if b != [] {
        SameFirst(b, a, s);
      }
    } else {
      hide Less, Sorted;
      SameFirst(a, b, s);
      var rest := s - {a[0].key};
      TailLists(a, s);
      TailLists(b, s);
      ListingUnique(a[1..], b[1..], rest);
      assert a == [a[0]] + a[1..] && b == [b[0]] + b[1..];
    }
  }

  lemma SameFirst(a: seq<Pair>, b: seq<Pair>, s: Store)
    requires Lists(a, s) && Lists(b, s) && a != []
    ensures b != [] && a[0] == b[0]
  {
    assert a[0] in a;
    assert Pair(a[0].key, s[a[0].key]) in b;
    FirstIsLeast(a, b, s);
    FirstIsLeast(b, a, s);
    LessTotal(a[0].key, b[0].key);
    assert b[0] in b;
  }

  lemma FirstIsLeast(a: seq<Pair>, b: seq<Pair>, s: Store)
    requires Lists(a, s) && Lists(b, s) && a != [] && b != []
    ensures !Less(b[0].key, a[0].key)
  {
    assert b[0] in b;
    assert Pair(b[0].key, s[b[0].key]) in a;
    var i :| 0 <= i < |a| && a[i].key == b[0].key;
    if Less(b[0].key, a[0].key) {
      if i > 0 {
        LessTrans(b[0].key, a[0].key, a[i].key);
      }
      LessIrreflexive(b[0].key);
    }
  }

  lemma TailLists(a: seq<Pair>, s: Store)
    requires Lists(a, s) && a != []
    ensures Lists(a[1..], s - {a[0].key})
  {
    forall p | p in a[1..]
      ensures p.key in s - {a[0].key} && s[p.key] == p.value
    {
      var i :| 0 <= i < |a[1..]| && a[1..][i] == p;
      assert a[i + 1] == p && Less(a[0].key, a[i + 1].key);
      LessIrreflexive(p.key);
    }
    forall k | k in s - {a[0].key}
      ensures Pair(k, s[k]) in a[1..]
    {
      var i :| 0 <= i < |a| && a[i] == Pair(k, s[k]);
      assert a[1..][i - 1] == a[i];
    }
  }

  /** Inserts a new key at its place in a sorted listing. */
  method Insert(out: seq<Pair>, p: Pair, ghost s: Store) returns (r: seq<Pair>)
    requires Lists(out, s) && p.key !in s
    ensures Lists(r, s[p.key := p.value])
  {
    hide Less, Lists;
    var i := 0;
    while i < |out| && Less(out[i].key, p.key)
      invariant 0 <= i <= |out|
      invariant forall j :: 0 <= j < i ==> Less(out[j].key, p.key)
    {
      i := i + 1;
    }
    r := out[..i] + [p] + out[i..];
    InsertLists(out, i, p, s);
  }

  lemma InsertLists(out: seq<Pair>, i: nat, p: Pair, s: Store)
    requires Lists(out, s) && p.key !in s && i <= |out|
    requires forall j :: 0 <= j < i ==> Less(out[j].key, p.key)
    requires i < |out| ==> !Less(out[i].key, p.key)
    ensures Lists(out[..i] + [p] + out[i..], s[p.key := p.value])
  {
    hide Less;
    InsertSorted(out, i, p, s);
    InsertMembers(out, i, p);
    hide Sorted;
  }

  lemma InsertSorted(out: seq<Pair>, i: nat, p: Pair, s: Store)
    requires Lists(out, s) && p.key !in s && i <= |out|
    requires forall j :: 0 <= j < i ==> Less(out[j].key, p.key)
    requires i < |out| ==> !Less(out[i].key, p.key)
    ensures Sorted(out[..i] + [p] + out[i..])
  {
    hide Less;
    forall j | i <= j < |out|
      ensures Less(p.key, out[j].key)
    {
      assert out[i] in out;
      LessTotal(out[i].key, p.key);
      if i < j {
        LessTrans(p.key, out[i].key, out[j].key);
      }
    }
    assert Sorted(out);
    hide Lists;
  }

  lemma InsertMembers(out: seq<Pair>, i: nat, p: Pair)
    requires i <= |out|
    ensures forall x :: x in out[..i] + [p] + out[i..] <==> x == p || x in out
  {
    assert out == out[..i] + out[i..];
  }

  /** One more write of a batch on the top store. */
  lemma OneMoreWrite(st: seq<Store>, done: Writes, k: Key, e: Entry)
    requires |st| > 0
    ensures var d := |st| - 1;
            SpecStep(st[d := Overlay(Top(st), done)], if e.Deleted? then Delete(k) else Put(k, e.value)) ==
            st[d := Overlay(Top(st), done[k := e])]
  {
    hide Overlay;
    if e.Deleted? {
      OverlayDelete(Top(st), done, k);
    } else {
      OverlayPut(Top(st), done, k, e.value);
    }
  }

  // ---- the implementation ----

  class Database {
    var base: Store
    var sessions: seq<Writes>

    constructor (base: Store)
      ensures this.base == base && sessions == []
    {
      this.base := base;
      sessions := [];
    }

    /** The stack of complete stores this database stands for. */
    ghost function Stack(): (st: seq<Store>)
      reads this
      ensures |st| > 0
    {
      Views(base, sessions)
    }

    ghost function Visible(): Store
      reads this
    {
      View(base, sessions, |sessions|)
    }

    function Depth(): nat
      reads this
    {
      |sessions|
    }

    method Open() returns (depth: nat)
      modifies this
      ensures Stack() == SpecStep(old(Stack()), BuildSession) && base == old(base)
      ensures depth == Depth() == old(Depth()) + 1
    {
      sessions := sessions + [map[]];
      forall i | 0 <= i <= old(|sessions|)
        ensures View(base, sessions, i) == old(View(base, sessions, i))
      {
        ViewPrefix(base, sessions, old(sessions), i);
      }
      assert Overlay(old(Visible()), map[]) == old(Visible());
      return |sessions|;
    }

    /** Reads top-down through the sessions, then the base store. */
    method Get(key: Key) returns (v: Option<Value>)
      ensures v == if key in Visible() then Some(Visible()[key]) else None
    {
      var i := |sessions|;
      while i > 0
        invariant 0 <= i <= |sessions|
        invariant forall j :: i <= j < |sessions| ==> key !in sessions[j]
      {
        i := i - 1;
        if key in sessions[i] {
          ViewSkips(base, sessions, i + 1, |sessions|, key);
          return if sessions[i][key].Deleted? then None else Some(sessions[i][key].value);
        }
      }
      ViewSkips(base, sessions, 0, |sessions|, key);
      return if key in base then Some(base[key]) else None;
    }

    method Has(key: Key) returns (b: bool)
      ensures b <==> key in Visible()
    {
      var i := |sessions|;
      while i > 0
        invariant 0 <= i <= |sessions|
        invariant forall j :: i <= j < |sessions| ==> key !in sessions[j]
      {
        i := i - 1;
        if key in sessions[i] {
          ViewSkips(base, sessions, i + 1, |sessions|, key);
          return !sessions[i][key].Deleted?;
        }
      }
      ViewSkips(base, sessions, 0, |sessions|, key);
      return key in base;
    }

    /** Merges one session's matching writes, in any order, into the result so far. */
    method MergeInto(merged: Store, w: Writes, prefix: Key) returns (r: Store)
      ensures forall s :: Matching(s, prefix) == merged ==> r == Matching(Overlay(s, w), prefix)
    {
      r := merged;
      var todo := w.Keys;
      while todo != {}
        invariant todo <= w.Keys
        invariant forall k :: k in r <==> if prefix <= k && k in w && k !in todo then w[k].Live? else k in merged
        invariant forall k :: k in r ==> r[k] == if prefix <= k && k in w && k !in todo then w[k].value else merged[k]
      {
        var k :| k in todo;
        todo := todo - {k};
        if prefix <= k {
          if w[k].Deleted? {
            r := r - {k};
          } else {
            r := r[k := w[k].value];
          }
        }
      }
      forall s | Matching(s, prefix) == merged
        ensures r == Matching(Overlay(s, w), prefix)
      {
        forall k
          ensures k in r <==> k in Matching(Overlay(s, w), prefix)
          ensures k in r ==> r[k] == Matching(Overlay(s, w), prefix)[k]
        {
          assert k in Matching(s, prefix) <==> k in merged;
        }
      }
    }

    /** Every visible entry under a prefix, in key order. */
    method Scan(prefix: Key) returns (out: seq<Pair>)
      ensures Lists(out, Matching(Visible(), prefix))
    {
      var merged := Matching(base, prefix);
      for i := 0 to |sessions|
        invariant merged == Matching(View(base, sessions, i), prefix)
      {
        merged := MergeInto(merged, sessions[i], prefix);
      }
      out := [];
      var todo := merged.Keys;
      while todo != {}
        invariant todo <= merged.Keys
        invariant Lists(out, merged - todo)
      {
        var k :| k in todo;
        out := Insert(out, Pair(k, merged[k]), merged - todo);
        assert merged - (todo - {k}) == (merged - todo)[k := merged[k]];
        todo := todo - {k};
      }
      assert merged - {} == merged;
    }

    /** Replaces the top session's writes; the levels below are untouched. */
    ghost method TopChanged(before: seq<Writes>, w: Writes)
      requires |before| > 0 && sessions == before[|before| - 1 := w]
      ensures Views(base, sessions) == Views(base, before)[|before| := Overlay(View(base, before, |before| - 1), w)]
    {
      var n := |before|;
      forall i | 0 <= i < n
        ensures View(base, sessions, i) == View(base, before, i)
      {
        ViewPrefix(base, sessions, before, i);
      }
    }

    method PutKey(key: Key, value: Value)
      modifies this
      ensures Stack() == SpecStep(old(Stack()), Put(key, value))
      ensures Depth() == old(Depth()) && (old(Depth()) > 0 ==> base == old(base))
    {
      hide Overlay;
      var n := |sessions|;
      if n > 0 {
        ghost var before, below := sessions, View(base, sessions, n - 1);
        assert Stack()[n] == Overlay(below, before[n - 1]);
        OverlayPut(below, before[n - 1], key, value);
        hide View;
        sessions := sessions[n - 1 := sessions[n - 1][key := Live(value)]];
        TopChanged(before, sessions[n - 1]);
      } else {
        base := base[key := value];
      }
    }

    method DeleteKey(key: Key)
      modifies this
      ensures Stack() == SpecStep(old(Stack()), Delete(key))
      ensures Depth() == old(Depth()) && (old(Depth()) > 0 ==> base == old(base))
    {
      hide Overlay;
      var n := |sessions|;
      if n > 0 {
        ghost var before, below := sessions, View(base, sessions, n - 1);
        assert Stack()[n] == Overlay(below, before[n - 1]);
        OverlayDelete(below, before[n - 1], key);
        hide View;
        sessions := sessions[n - 1 := sessions[n - 1][key := Deleted]];
        TopChanged(before, sessions[n - 1]);
      } else {
        base := base - {key};
      }
    }

    /** Writes a batch of puts and deletes, in any order, into the top session. */
    method WriteAll(writes: Writes)
      requires Depth() > 0
      modifies this
      ensures Depth() == old(Depth()) && base == old(base)
      ensures Stack() == old(Stack())[Depth() := Overlay(old(Visible()), writes)]
    {
      var todo := writes.Keys;
      ghost var st := Stack();
      assert Overlay(Visible(), writes - todo) == Visible();
      hide Overlay, View, SpecStep;
      while todo != {}
        invariant todo <= writes.Keys && Depth() == old(Depth()) && base == old(base)
        invariant Stack() == st[Depth() := Overlay(Top(st), writes - todo)]
      {
        var k :| k in todo;
        ghost var done := writes - todo;
        assert writes - (todo - {k}) == done[k := writes[k]];
        OneMoreWrite(st, done, k, writes[k]);
        if writes[k].Deleted? {
          DeleteKey(k);
        } else {
          PutKey(k, writes[k].value);
        }
        todo := todo - {k};
      }
      assert writes - {} == writes;
    }

    /** Merges the top session into its parent, or flushes the only one to the base. */
    method CommitTop() returns (ok: bool)
      modifies this
      ensures Stack() == SpecStep(old(Stack()), Commit)
      ensures ok <==> old(Depth()) > 0
      ensures Visible() == old(Visible())
      ensures ok ==> Depth() == old(Depth()) - 1 && Stack()[..Depth()] == old(Stack())[..Depth()]
    {
      hide Overlay;
      var n := |sessions|;
      if n == 0 {
        return false;
      }
      ghost var before := sessions;
      var top := sessions[n - 1];
      sessions := sessions[..n - 1];
      if n > 1 {
        ghost var popped := sessions;
        var parent := MergeWrites(sessions[n - 2], top);
        sessions := sessions[n - 2 := parent];
        TopChanged(popped, parent);
        MergedViews(base, before, popped);
        assert Stack() == old(Stack())[..n - 1] + [old(Stack())[n]];
      } else {
        assert View(base, before, 1) == Overlay(View(base, before, 0), top);
        FlushToBase(top);
        assert Stack() == [old(Stack())[1]];
      }
      return true;
    }

    /** Copies the top session's entries, in any order, over the parent's. */
    method MergeWrites(parent: Writes, top: Writes) returns (r: Writes)
      ensures r == parent + top
    {
      r := parent;
      var todo := top.Keys;
      while todo != {}
        invariant todo <= top.Keys
        invariant r == parent + (top - todo)
      {
        var k :| k in todo;
        r := r[k := top[k]];
        todo := todo - {k};
      }
      assert top - {} == top;
    }

    method FlushToBase(top: Writes)
      modifies this`base
      ensures base == Overlay(old(base), top)
    {
      var todo := top.Keys;
      assert Overlay(base, top - top.Keys) == base;
      hide Overlay;
      while todo != {}
        invariant todo <= top.Keys
        invariant base == Overlay(old(base), top - todo)
      {
        var k :| k in todo;
        ghost var done := top - todo;
        assert top - (todo - {k}) == done[k := top[k]];
        if top[k].Deleted? {
          OverlayDelete(old(base), done, k);
          base := base - {k};
        } else {
          OverlayPut(old(base), done, k, top[k].value);
          base := base[k := top[k].value];
        }
        todo := todo - {k};
      }
      assert top - {} == top;
    }

    /** Discards the top session. */
    method RevokeTop() returns (ok: bool)
      modifies this`sessions
      ensures Stack() == SpecStep(old(Stack()), Revoke)
      ensures ok <==> old(Depth()) > 0
      ensures ok ==> Depth() == old(Depth()) - 1
      ensures !ok ==> Depth() == 0
    {
      var n := |sessions|;
      if n == 0 {
        return false;
      }
      sessions := sessions[..n - 1];
      forall i | 0 <= i < n
        ensures View(base, sessions, i) == old(View(base, sessions, i))
      {
        ViewPrefix(base, sessions, old(sessions), i);
      }
      return true;
    }

    method Apply(op: Op)
      modifies this
      ensures Stack() == SpecStep(old(Stack()), op)
    {
      match op
      case BuildSession => var _ := Open();
      case Put(k, v) => PutKey(k, v);
      case Delete(k) => DeleteKey(k);
      case Commit => var _ := CommitTop();
      case Revoke => var _ := RevokeTop();
    }

    /** Any sequence of operations moves the database as it moves the stack of stores. */
    method ApplyAll(ops: seq<Op>)
      modifies this
      ensures Stack() == SpecRun(old(Stack()), ops)
    {
      var i := 0;
      while i < |ops|
        invariant 0 <= i <= |ops|
        invariant SpecRun(Stack(), ops[i..]) == SpecRun(old(Stack()), ops)
      {
        assert ops[i..][1..] == ops[i + 1..];
        Apply(ops[i]);
        i := i + 1;
      }
    }
  }

  /** Levels after a merge of the top two sessions: the parent's old view is gone. */
  lemma MergedViews(base: Store, before: seq<Writes>, popped: seq<Writes>)
    requires |before| > 1 && popped == before[..|before| - 1]
    ensures var n := |before|;
            Views(base, popped)[n - 1 := Overlay(View(base, popped, n - 2), before[n - 2] + before[n - 1])] ==
            Views(base, before)[..n - 1] + [View(base, before, n)]
  {
    var n := |before|;
    forall i | 0 <= i < n
      ensures View(base, popped, i) == View(base, before, i)
    {
      ViewPrefix(base, popped, before, i);
    }
    OverlayMerge(View(base, before, n - 2), before[n - 2], before[n - 1]);
  }
}
