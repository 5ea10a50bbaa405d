/**
 The index of Stake 1.0 delegations in its two layouts: per-account lists, and one
 stamped record per edge and direction, with the lazy migration from the first to
 the second.
 */
module DelegationIndex {
  import opened Delegations
  import opened Voting

  /** An account's legacy record: whom it delegates to and who delegates to it. */
  datatype Lists = Lists(receivers: seq<Address>, givers: seq<Address>)

  /** Stamped edges are keyed owner-first: outEdges by (giver, receiver), inEdges by (receiver, giver). */
  datatype Index = Index(legacy: map<Address, Lists>, outEdges: map<Edge, int>, inEdges: map<Edge, int>)

  // ---- what an index represents ----

  predicate OutListed(ix: Index, e: Edge) { e.src in ix.legacy && e.dst in ix.legacy[e.src].receivers }

  predicate InListed(ix: Index, e: Edge) { e.dst in ix.legacy && e.src in ix.legacy[e.dst].givers }

  predicate HasOut(ix: Index, e: Edge) { OutListed(ix, e) || e in ix.outEdges }

  predicate HasIn(ix: Index, e: Edge) { InListed(ix, e) || Flip(e) in ix.inEdges }

  /** Seen from either end, the index holds exactly the edges of es. */
  ghost predicate Represents(ix: Index, es: set<Edge>) {
    forall e: Edge :: (e in es <==> HasOut(ix, e)) && (e in es <==> HasIn(ix, e))
  }

  /** Before the new layout is switched on there are no stamped edges. */
  ghost predicate LayoutOk(ix: Index, optimized: bool) { optimized || (ix.outEdges == map[] && ix.inEdges == map[]) }

  ghost predicate NoRepeats(s: seq<Address>) { forall i, j :: 0 <= i < j < |s| ==> s[i] != s[j] }

  ghost predicate ListsOk(ix: Index) {
    forall a :: a in ix.legacy ==> NoRepeats(ix.legacy[a].receivers) && NoRepeats(ix.legacy[a].givers)
  }

  // ---- list layout ----

  function ListsOf(ix: Index, a: Address): Lists { if a in ix.legacy then ix.legacy[a] else Lists([], []) }

  function WithReceiver(ix: Index, e: Edge): Index {
    var l := ListsOf(ix, e.src);
    if e.dst in l.receivers then ix else ix.(legacy := ix.legacy[e.src := l.(receivers := l.receivers + [e.dst])])
  }

  function WithGiver(ix: Index, e: Edge): Index {
    var l := ListsOf(ix, e.dst);
    if e.src in l.givers then ix else ix.(legacy := ix.legacy[e.dst := l.(givers := l.givers + [e.src])])
  }

  function Without(s: seq<Address>, a: Address): seq<Address> {
    if s == [] then []
    else Without(s[..|s| - 1], a) + if s[|s| - 1] != a then [s[|s| - 1]] else []
  }

  function DropReceiver(ix: Index, e: Edge): Index {
    if e.src !in ix.legacy then ix
    else
      var l := ix.legacy[e.src];
      ix.(legacy := ix.legacy[e.src := l.(receivers := Without(l.receivers, e.dst))])
  }

  function DropGiver(ix: Index, e: Edge): Index {
    if e.dst !in ix.legacy then ix
    else
      var l := ix.legacy[e.dst];
      ix.(legacy := ix.legacy[e.dst := l.(givers := Without(l.givers, e.src))])
  }

  // ---- edge layout ----

  function Stamp(ix: Index, e: Edge, t: int): Index {
    ix.(outEdges := ix.outEdges[e := t], inEdges := ix.inEdges[Flip(e) := t])
  }

  function Unstamp(ix: Index, e: Edge): Index {
    ix.(outEdges := ix.outEdges - {e}, inEdges := ix.inEdges - {Flip(e)})
  }

  /** Stamps the edges of a list with their positions, counted from one. */
  function StampAll(ix: Index, es: seq<Edge>): Index {
    if es == [] then ix else Stamp(StampAll(ix, es[..|es| - 1]), es[|es| - 1], |es|)
  }

  function EdgesFrom(a: Address, xs: seq<Address>): seq<Edge> {
    seq(|xs|, i requires 0 <= i < |xs| => Edge(a, xs[i]))
  }

  function EdgesTo(a: Address, xs: seq<Address>): seq<Edge> {
    seq(|xs|, i requires 0 <= i < |xs| => Edge(xs[i], a))
  }

  /** Migration of one account: its lists become stamped edges and the lists go away. */
  function Converted(ix: Index, a: Address): Index {
    if a !in ix.legacy then ix
    else
      var l := ix.legacy[a];
      var moved := StampAll(StampAll(ix, EdgesFrom(a, l.receivers)), EdgesTo(a, l.givers));
      moved.(legacy := ix.legacy - {a})
  }

  function Recorded(ix: Index, e: Edge, optimized: bool, now: int): Index {
    if optimized then Stamp(Converted(Converted(ix, e.src), e.dst), e, now) else WithGiver(WithReceiver(ix, e), e)
  }

  function Dropped(ix: Index, e: Edge, optimized: bool): Index {
    if optimized then Unstamp(Converted(Converted(ix, e.src), e.dst), e) else DropGiver(DropReceiver(ix, e), e)
  }

  // ---- migration ----

  lemma {:induction false} StampAllKeys(ix: Index, es: seq<Edge>)
    ensures StampAll(ix, es).legacy == ix.legacy
    ensures forall e: Edge :: e in StampAll(ix, es).outEdges <==> e in ix.outEdges || e in es
    ensures forall e: Edge :: Flip(e) in StampAll(ix, es).inEdges <==> Flip(e) in ix.inEdges || e in es
    decreases |es|
  {
    if es != [] {
      var n := |es| - 1;
      StampAllKeys(ix, es[..n]);
      assert es == es[..n] + [es[n]];
    }
  }

  /**
   Exactly what a migration adds: an edge is seen from one end afterwards if some end saw it before and a listed
   it.
   */
  lemma ConvertedExactly(ix: Index, a: Address, e: Edge)
    ensures HasOut(Converted(ix, a), e) <==> HasOut(ix, e) || (e.dst == a && InListed(ix, e))
    ensures HasIn(Converted(ix, a), e) <==> HasIn(ix, e) || (e.src == a && OutListed(ix, e))
    ensures !OutListed(Converted(ix, a), Edge(a, e.dst)) && !InListed(Converted(ix, a), Edge(e.src, a))
  {
    hide StampAll, EdgesFrom, EdgesTo;
    if a in ix.legacy {
      var l := ix.legacy[a];
      var first := StampAll(ix, EdgesFrom(a, l.receivers));
      StampAllKeys(ix, EdgesFrom(a, l.receivers));
      StampAllKeys(first, EdgesTo(a, l.givers));
      EdgeListed(a, l.receivers, e);
      EdgeListed(a, l.givers, e);
    }
  }

  lemma EdgeListed(a: Address, xs: seq<Address>, e: Edge)
    ensures e in EdgesFrom(a, xs) <==> e.src == a && e.dst in xs
    ensures e in EdgesTo(a, xs) <==> e.dst == a && e.src in xs
  {
    if e.src == a && e.dst in xs {
      var i :| 0 <= i < |xs| && xs[i] == e.dst;
      assert EdgesFrom(a, xs)[i] == e;
    }
    if e.dst == a && e.src in xs {
      var i :| 0 <= i < |xs| && xs[i] == e.src;
      assert EdgesTo(a, xs)[i] == e;
    }
  }

  /** Migrating an account neither loses an edge nor brings one back. */
  lemma ConvertRepresents(ix: Index, a: Address, es: set<Edge>)
    requires Represents(ix, es)
    ensures Represents(Converted(ix, a), es)
  {
    hide Converted;
    forall e: Edge
      ensures e in es <==> HasOut(Converted(ix, a), e)
      ensures e in es <==> HasIn(Converted(ix, a), e)
    {
      ConvertedExactly(ix, a, e);
    }
  }

  lemma {:induction false} StampedAt(ix: Index, es: seq<Edge>, i: nat)
    requires i < |es| && forall j :: i < j < |es| ==> es[j] != es[i]
    ensures es[i] in StampAll(ix, es).outEdges && StampAll(ix, es).outEdges[es[i]] == i + 1
    ensures Flip(es[i]) in StampAll(ix, es).inEdges && StampAll(ix, es).inEdges[Flip(es[i])] == i + 1
    decreases |es|
  {
    var n := |es| - 1;
    if i < n {
      assert es[..n][i] == es[i];
      StampedAt(ix, es[..n], i);
    }
  }

  lemma {:induction false} StampedOther(ix: Index, es: seq<Edge>, e: Edge)
    requires e !in es && e in ix.outEdges
    ensures e in StampAll(ix, es).outEdges && StampAll(ix, es).outEdges[e] == ix.outEdges[e]
    decreases |es|
  {
    if es != [] {
      assert es[|es| - 1] in es;
      StampedOther(ix, es[..|es| - 1], e);
    }
  }

  /** A migrated account's edges carry the order of its list. */
  lemma ConvertedOrder(ix: Index, a: Address, i: nat)
    requires ListsOk(ix) && a in ix.legacy && a !in ix.legacy[a].receivers && i < |ix.legacy[a].receivers|
    ensures var e := Edge(a, ix.legacy[a].receivers[i]);
            e in Converted(ix, a).outEdges && Converted(ix, a).outEdges[e] == i + 1
  {
    var l := ix.legacy[a];
    var es := EdgesFrom(a, l.receivers);
    forall j | i < j < |es|
      ensures es[j] != es[i]
    {
      assert l.receivers[i] != l.receivers[j];
    }
    StampedAt(ix, es, i);
    StampedOther(StampAll(ix, es), EdgesTo(a, l.givers), es[i]);
  }

  /** An edge that is on neither of an account's lists keeps its stamp through that account's migration. */
  lemma ConvertedOther(ix: Index, b: Address, e: Edge)
    requires e in ix.outEdges && e.src != b && e.dst != b
    ensures e in Converted(ix, b).outEdges && Converted(ix, b).outEdges[e] == ix.outEdges[e]
  {
    if b in ix.legacy {
      var l := ix.legacy[b];
      StampedOther(ix, EdgesFrom(b, l.receivers), e);
      StampedOther(StampAll(ix, EdgesFrom(b, l.receivers)), EdgesTo(b, l.givers), e);
    }
  }

  /** An incoming edge gets the position of its giver. */
  lemma ConvertedIncoming(ix: Index, b: Address, p: nat)
    requires ListsOk(ix) && b in ix.legacy && p < |ix.legacy[b].givers|
    ensures var e := Edge(ix.legacy[b].givers[p], b);
            e in Converted(ix, b).outEdges && Converted(ix, b).outEdges[e] == p + 1
  {
    var l := ix.legacy[b];
    var es := EdgesTo(b, l.givers);
    forall j | p < j < |es|
      ensures es[j] != es[p]
    {
      assert l.givers[p] != l.givers[j];
    }
    StampedAt(StampAll(ix, EdgesFrom(b, l.receivers)), es, p);
  }

  lemma ConvertedLegacy(ix: Index, a: Address)
    ensures Converted(ix, a).legacy == ix.legacy - {a}
  {
    if a in ix.legacy {
      var l := ix.legacy[a];
      StampAllKeys(ix, EdgesFrom(a, l.receivers));
      StampAllKeys(StampAll(ix, EdgesFrom(a, l.receivers)), EdgesTo(a, l.givers));
    }
  }

  /** a lists b as its i-th receiver and b lists a as its p-th giver, on lists without repeats or self-delegation. */
  ghost predicate Listed(ix: Index, a: Address, b: Address, i: nat, p: nat) {
    && ListsOk(ix) && a != b && a in ix.legacy && b in ix.legacy
    && a !in ix.legacy[a].receivers
    && i < |ix.legacy[a].receivers| && ix.legacy[a].receivers[i] == b
    && p < |ix.legacy[b].givers| && ix.legacy[b].givers[p] == a
  }

  /** After a's migration and then b's, the edge between them carries b's position and every other edge of a its own. */
  lemma RestampedExactly(ix: Index, a: Address, b: Address, i: nat, p: nat, j: nat)
    requires Listed(ix, a, b, i, p) && j < |ix.legacy[a].receivers|
    ensures var e := Edge(a, ix.legacy[a].receivers[j]);
            var out := Converted(Converted(ix, a), b).outEdges;
            e in out && out[e] == if j == i then p + 1 else j + 1
  {
    var one := Converted(ix, a);
    ConvertedOrder(ix, a, j);
    ConvertedLegacy(ix, a);
    assert one.legacy[b] == ix.legacy[b];
    ListsConverted(ix, a);
    hide Converted;
    if j == i {
      ConvertedIncoming(one, b, p);
    } else {
      assert ix.legacy[a].receivers[j] != b by {
        assert NoRepeats(ix.legacy[a].receivers);
      }
      ConvertedOther(one, b, Edge(a, ix.legacy[a].receivers[j]));
    }
  }

  /** a's edges are stamped in the order of xs. */
  ghost predicate StampedInOrder(out: map<Edge, int>, a: Address, xs: seq<Address>) {
    && (forall j :: 0 <= j < |xs| ==> Edge(a, xs[j]) in out)
    && (forall j, k :: 0 <= j < k < |xs| ==> out[Edge(a, xs[j])] < out[Edge(a, xs[k])])
  }

  /**
   The order survives the migration of the other end exactly when the two positions agree, or the last one only
   moves up.
   */
  lemma OrderSurvivesIff(ix: Index, a: Address, b: Address, i: nat, p: nat)
    requires Listed(ix, a, b, i, p)
    ensures var xs := ix.legacy[a].receivers;
            StampedInOrder(Converted(ix, a).outEdges, a, xs)
    ensures var xs := ix.legacy[a].receivers;
            StampedInOrder(Converted(Converted(ix, a), b).outEdges, a, xs) <==> p == i || (i == |xs| - 1 && p >= i)
  {
    var xs := ix.legacy[a].receivers;
    var one, out := Converted(ix, a).outEdges, Converted(Converted(ix, a), b).outEdges;
    forall j | 0 <= j < |xs|
      ensures Edge(a, xs[j]) in one && one[Edge(a, xs[j])] == j + 1
      ensures Edge(a, xs[j]) in out && out[Edge(a, xs[j])] == if j == i then p + 1 else j + 1
    {
      ConvertedOrder(ix, a, j);
      RestampedExactly(ix, a, b, i, p, j);
    }
    hide Converted, Listed;
    if p < i {
      assert out[Edge(a, xs[i - 1])] >= out[Edge(a, xs[i])];
    } else if p > i && i < |xs| - 1 {
      assert out[Edge(a, xs[i])] >= out[Edge(a, xs[i + 1])];
    }
  }

  const FAN_OUT := Index(map[1 := Lists([2, 3], []), 2 := Lists([], [1]), 3 := Lists([], [1])], map[], map[])

  lemma FanOutOk()
    ensures ListsOk(FAN_OUT) && Represents(FAN_OUT, {Edge(1, 2), Edge(1, 3)})
  {
  }

  /**
   An instance: account 1 delegates to 2 and then to 3, which knows it as its first giver; migrating 3 loses the
   order.
   */
  lemma OrderLostLater()
    ensures ListsOk(FAN_OUT) && Represents(FAN_OUT, {Edge(1, 2), Edge(1, 3)})
    ensures StampedInOrder(Converted(FAN_OUT, 1).outEdges, 1, [2, 3])
    ensures !StampedInOrder(Converted(Converted(FAN_OUT, 1), 3).outEdges, 1, [2, 3])
  {
    hide Converted, StampedInOrder, Represents;
    FanOutOk();
    assert Listed(FAN_OUT, 1, 3, 1, 0);
    OrderSurvivesIff(FAN_OUT, 1, 3, 1, 0);
  }

  // ---- the list layout keeps its edge set ----

  lemma WithoutLast(s: seq<Address>, x: Address, a: Address)
    ensures Without(s + [x], a) == if x == a then Without(s, a) else Without(s, a) + [x]
  {
    assert (s + [x])[..|s|] == s;
  }

  /** Removal works position by position, so what stays keeps its order. */
  lemma {:induction false} WithoutAdds(s: seq<Address>, t: seq<Address>, a: Address)
    ensures Without(s + t, a) == Without(s, a) + Without(t, a)
    decreases |t|
  {
    if t == [] {
      assert s + t == s && Without([], a) == [];
    } else {
      hide Without;
      var init, x := t[..|t| - 1], t[|t| - 1];
      WithoutAdds(s, init, a);
      WithoutLast(init, x, a);
      WithoutLast(s + init, x, a);
      assert t == init + [x] && s + t == s + init + [x];
    }
  }

  lemma {:induction false} WithoutContents(s: seq<Address>, a: Address)
    ensures forall x :: x in Without(s, a) <==> x in s && x != a
    ensures NoRepeats(s) ==> NoRepeats(Without(s, a))
    decreases |s|
  {
    if s != [] {
      var n := |s| - 1;
      WithoutContents(s[..n], a);
      assert s == s[..n] + [s[n]];
      if NoRepeats(s) {
        assert forall i :: 0 <= i < n ==> s[i] != s[n];
        assert s[n] !in s[..n];
        assert s[n] !in Without(s[..n], a);
      }
    }
  }

  lemma ListedRecord(ix: Index, e: Edge, f: Edge)
    ensures HasOut(WithGiver(WithReceiver(ix, e), e), f) <==> HasOut(ix, f) || f == e
    ensures HasIn(WithGiver(WithReceiver(ix, e), e), f) <==> HasIn(ix, f) || f == e
  {
  }

  lemma ListedDrop(ix: Index, e: Edge, f: Edge)
    requires LayoutOk(ix, false)
    ensures HasOut(DropGiver(DropReceiver(ix, e), e), f) <==> HasOut(ix, f) && f != e
    ensures HasIn(DropGiver(DropReceiver(ix, e), e), f) <==> HasIn(ix, f) && f != e
  {
    hide Without;
    WithoutContents(ListsOf(ix, e.src).receivers, e.dst);
    WithoutContents(ListsOf(ix, e.dst).givers, e.src);
  }

  lemma PutLists(ix: Index, a: Address, l: Lists)
    requires ListsOk(ix) && NoRepeats(l.receivers) && NoRepeats(l.givers)
    ensures ListsOk(ix.(legacy := ix.legacy[a := l]))
  {
    hide NoRepeats;
  }

  lemma ListsRecorded(ix: Index, e: Edge)
    requires ListsOk(ix)
    ensures ListsOk(WithReceiver(ix, e)) && ListsOk(WithGiver(ix, e))
  {
    var l, m := ListsOf(ix, e.src), ListsOf(ix, e.dst);
    if e.dst !in l.receivers {
      PutLists(ix, e.src, l.(receivers := l.receivers + [e.dst]));
    }
    if e.src !in m.givers {
      PutLists(ix, e.dst, m.(givers := m.givers + [e.src]));
    }
  }

  lemma ListsDropped(ix: Index, e: Edge)
    requires ListsOk(ix)
    ensures ListsOk(DropReceiver(ix, e)) && ListsOk(DropGiver(ix, e))
  {
    hide NoRepeats, Without;
    var l, m := ListsOf(ix, e.src), ListsOf(ix, e.dst);
    if e.src in ix.legacy {
      WithoutContents(l.receivers, e.dst);
      PutLists(ix, e.src, l.(receivers := Without(l.receivers, e.dst)));
    }
    if e.dst in ix.legacy {
      WithoutContents(m.givers, e.src);
      PutLists(ix, e.dst, m.(givers := Without(m.givers, e.src)));
    }
  }

  lemma ListsConverted(ix: Index, a: Address)
    requires ListsOk(ix)
    ensures ListsOk(Converted(ix, a))
  {
    if a in ix.legacy {
      var l := ix.legacy[a];
      StampAllKeys(ix, EdgesFrom(a, l.receivers));
      StampAllKeys(StampAll(ix, EdgesFrom(a, l.receivers)), EdgesTo(a, l.givers));
    }
  }

  // ---- recording and dropping an edge, whichever layout is active ----

  ghost predicate IndexOk(ix: Index, es: set<Edge>, optimized: bool) {
    Represents(ix, es) && LayoutOk(ix, optimized) && ListsOk(ix)
  }

  /** Both ends migrated: only stamped edges can mention e. */
  lemma BothConverted(ix: Index, e: Edge, es: set<Edge>)
    requires Represents(ix, es) && ListsOk(ix)
    ensures var both := Converted(Converted(ix, e.src), e.dst);
            Represents(both, es) && ListsOk(both) && !OutListed(both, e) && !InListed(both, e)
  {
    hide Converted, Represents, ListsOk;
    ConvertRepresents(ix, e.src, es);
    ConvertRepresents(Converted(ix, e.src), e.dst, es);
    ListsConverted(ix, e.src);
    ListsConverted(Converted(ix, e.src), e.dst);
    ConvertedExactly(Converted(ix, e.src), e.dst, e);
    ConvertedNotListed(ix, e.src, e.dst, e.dst);
  }

  lemma ConvertedNotListed(ix: Index, a: Address, b: Address, x: Address)
    ensures !OutListed(Converted(Converted(ix, a), b), Edge(a, x))
  {
    var one := Converted(ix, a);
    assert a !in one.legacy;
    if b in one.legacy {
      var l := one.legacy[b];
      StampAllKeys(one, EdgesFrom(b, l.receivers));
    }
  }

  lemma RecordKeeps(ix: Index, e: Edge, es: set<Edge>, optimized: bool, now: int)
    requires IndexOk(ix, es, optimized)
    ensures IndexOk(Recorded(ix, e, optimized, now), es + {e}, optimized)
  {
    if optimized {
      StampKeeps(ix, e, es, now);
    } else {
      ListKeeps(ix, e, es, now);
    }
  }

  lemma StampKeeps(ix: Index, e: Edge, es: set<Edge>, now: int)
    requires IndexOk(ix, es, true)
    ensures IndexOk(Recorded(ix, e, true, now), es + {e}, true)
    ensures IndexOk(Dropped(ix, e, true), es - {e}, true)
  {
    hide Converted;
    BothConverted(ix, e, es);
  }

  lemma ListKeeps(ix: Index, e: Edge, es: set<Edge>, now: int)
    requires IndexOk(ix, es, false)
    ensures IndexOk(Recorded(ix, e, false, now), es + {e}, false)
  {
    assert ListsOk(Recorded(ix, e, false, now)) by {
      hide ListsOk;
      ListsRecorded(ix, e);
      ListsRecorded(WithReceiver(ix, e), e);
    }
    hide ListsOk, NoRepeats, HasOut, HasIn;
    forall f: Edge
      ensures f in es + {e} <==> HasOut(Recorded(ix, e, false, now), f)
      ensures f in es + {e} <==> HasIn(Recorded(ix, e, false, now), f)
    {
      hide WithGiver, WithReceiver;
      ListedRecord(ix, e, f);
    }
  }

  lemma DropKeeps(ix: Index, e: Edge, es: set<Edge>, optimized: bool)
    requires IndexOk(ix, es, optimized)
    ensures IndexOk(Dropped(ix, e, optimized), es - {e}, optimized)
  {
    if optimized {
      StampKeeps(ix, e, es, 0);
    } else {
      UnlistKeeps(ix, e, es);
    }
  }

  lemma UnlistKeeps(ix: Index, e: Edge, es: set<Edge>)
    requires IndexOk(ix, es, false)
    ensures IndexOk(Dropped(ix, e, false), es - {e}, false)
  {
    assert ListsOk(Dropped(ix, e, false)) by {
      hide ListsOk;
      ListsDropped(ix, e);
      ListsDropped(DropReceiver(ix, e), e);
    }
    hide ListsOk, NoRepeats, HasOut, HasIn;
    forall f: Edge
      ensures f in es - {e} <==> HasOut(Dropped(ix, e, false), f)
      ensures f in es - {e} <==> HasIn(Dropped(ix, e, false), f)
    {
      hide DropGiver, DropReceiver;
      ListedDrop(ix, e, f);
    }
  }

  // ---- the store ----

  method ContainsAddr(list: seq<Address>, a: Address) returns (found: bool)
    ensures found <==> a in list
  {
    for i := 0 to |list|
      invariant a !in list[..i]
    {
      if list[i] == a {
        return true;
      }
      assert list[..i + 1] == list[..i] + [list[i]];
    }
    assert list[..|list|] == list;
    return false;
  }

  method RemoveAddr(list: seq<Address>, a: Address) returns (out: seq<Address>)
    ensures out == Without(list, a)
    ensures forall x :: x in out <==> x in list && x != a
  {
    out := [];
    for i := 0 to |list|
      invariant out == Without(list[..i], a)
    {
      assert list[..i + 1][..i] == list[..i];
      if list[i] != a {
        out := out + [list[i]];
      }
    }
    assert list[..|list|] == list;
    WithoutContents(list, a);
  }

  class IndexStore {
    var legacy: map<Address, Lists>
    var outEdges: map<Edge, int>
    var inEdges: map<Edge, int>

    ghost function Contents(): Index
      reads this
    {
      Index(legacy, outEdges, inEdges)
    }

    constructor ()
      ensures Contents() == Index(map[], map[], map[])
    {
      legacy, outEdges, inEdges := map[], map[], map[];
    }

    method Delegate(e: Edge, time: int)
      modifies this
      ensures Contents() == Stamp(old(Contents()), e, time)
    {
      outEdges := outEdges[e := time];
      inEdges := inEdges[Flip(e) := time];
    }

    method UnDelegate(e: Edge)
      modifies this
      ensures Contents() == Unstamp(old(Contents()), e)
    {
      outEdges := outEdges - {e};
      inEdges := inEdges - {Flip(e)};
    }

    method Convert(a: Address)
      modifies this
      ensures Contents() == Converted(old(Contents()), a)
    {
      if a !in legacy {
        return;
      }
      ghost var start := Contents();
      var l := legacy[a];
      ghost var es, fs := EdgesFrom(a, l.receivers), EdgesTo(a, l.givers);
      for i := 0 to |l.receivers|
        invariant Contents() == StampAll(start, es[..i])
      {
        assert es[..i + 1][..i] == es[..i];
        Delegate(Edge(a, l.receivers[i]), i + 1);
      }
      assert es[..|l.receivers|] == es;
      ghost var middle := Contents();
      for i := 0 to |l.givers|
        invariant Contents() == StampAll(middle, fs[..i])
      {
        assert fs[..i + 1][..i] == fs[..i];
        Delegate(Edge(l.givers[i], a), i + 1);
      }
      assert fs[..|l.givers|] == fs;
      StampAllKeys(start, es);
      StampAllKeys(middle, fs);
      legacy := legacy - {a};
    }

    method AddDelegationIndex(e: Edge)
      modifies this
      ensures Contents() == WithGiver(WithReceiver(old(Contents()), e), e)
    {
      var l := if e.src in legacy then legacy[e.src] else Lists([], []);
      var known := ContainsAddr(l.receivers, e.dst);
      if !known {
        legacy := legacy[e.src := l.(receivers := l.receivers + [e.dst])];
      }
      l := if e.dst in legacy then legacy[e.dst] else Lists([], []);
      known := ContainsAddr(l.givers, e.src);
      if !known {
        legacy := legacy[e.dst := l.(givers := l.givers + [e.src])];
      }
    }

    method RemoveDelegationIndex(e: Edge)
      modifies this
      ensures Contents() == DropGiver(DropReceiver(old(Contents()), e), e)
    {
      if e.src in legacy {
        var receivers := RemoveAddr(legacy[e.src].receivers, e.dst);
        legacy := legacy[e.src := legacy[e.src].(receivers := receivers)];
      }
      if e.dst in legacy {
        var givers := RemoveAddr(legacy[e.dst].givers, e.src);
        legacy := legacy[e.dst := legacy[e.dst].(givers := givers)];
      }
    }

    method RecordDelegationIndex(e: Edge, optimized: bool, now: int, ghost es: set<Edge>)
      requires IndexOk(Contents(), es, optimized)
      modifies this
      ensures Contents() == Recorded(old(Contents()), e, optimized, now)
      ensures IndexOk(Contents(), es + {e}, optimized)
      ensures optimized ==>
                && e in Contents().outEdges && Contents().outEdges[e] == now
                && Flip(e) in Contents().inEdges && Contents().inEdges[Flip(e)] == now
    {
      hide IndexOk, Converted, WithGiver, WithReceiver;
      RecordKeeps(Contents(), e, es, optimized, now);
      if !optimized {
        AddDelegationIndex(e);
      } else {
        Convert(e.src);
        Convert(e.dst);
        Delegate(e, now);
      }
    }

    method DropDelegationIndex(e: Edge, optimized: bool, ghost es: set<Edge>)
      requires IndexOk(Contents(), es, optimized)
      modifies this
      ensures Contents() == Dropped(old(Contents()), e, optimized)
      ensures IndexOk(Contents(), es - {e}, optimized)
    {
      hide IndexOk, Converted, DropGiver, DropReceiver;
      DropKeeps(Contents(), e, es, optimized);
      if !optimized {
        RemoveDelegationIndex(e);
      } else {
        Convert(e.src);
        Convert(e.dst);
        UnDelegate(e);
      }
    }
  }

  // ---- key layout ----

  type Bytes = seq<nat>

  const ADDRESS_LENGTH: nat := 21
  const ADDRESS_PREFIX: nat := 0x41

  predicate WellFormed(a: Bytes) { |a| == ADDRESS_LENGTH && a[0] == ADDRESS_PREFIX }

  datatype IndexKey = ListKey(owner: Bytes) | EdgeKey(prefix: nat, a: Bytes, b: Bytes)

  ghost predicate KeyOk(k: IndexKey) {
    match k
    case ListKey(owner) => WellFormed(owner)
    case EdgeKey(prefix, a, b) => 1 <= prefix <= 4 && WellFormed(a) && WellFormed(b)
  }

  function Encoded(k: IndexKey): Bytes {
    match k
    case ListKey(owner) => owner
    case EdgeKey(prefix, a, b) => [prefix] + a + b
  }

  /** List records, the two stamped directions and their Stake 2.0 counterparts never share a database key. */
  lemma KeysDistinct(k: IndexKey, m: IndexKey)
    requires KeyOk(k) && KeyOk(m) && Encoded(k) == Encoded(m)
    ensures k == m
  {
    if k.EdgeKey? && m.EdgeKey? {
      assert Encoded(k)[1..22] == k.a && Encoded(k)[22..] == k.b;
      assert Encoded(m)[1..22] == m.a && Encoded(m)[22..] == m.b;
      assert Encoded(k)[0] == k.prefix && Encoded(m)[0] == m.prefix;
    }
  }
}
