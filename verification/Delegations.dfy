/**
 Vocabulary shared by the two generations of resource delegation: who delegates
 how much to whom, and the sums of delegations leaving and reaching an account.
 */
module Delegations {
  import opened MapSums
  import opened Voting

  const TRX_PRECISION: int := 1_000_000
  const DAY_MS: int := 86_400_000

  datatype Resource = Bandwidth | Energy | TronPower

  /** A quantity per delegable resource. */
  datatype Amounts = Amounts(net: int, energy: int) {
    function Of(r: Resource): int { if r.Bandwidth? then net else energy }

    function Plus(r: Resource, d: int): Amounts {
      if r.Bandwidth? then this.(net := net + d) else this.(energy := energy + d)
    }
  }

  /** The stored network weight after adding d; it is floored at zero only under the new reward rules. */
  function NewWeight(w: int, d: int, floored: bool): int { if d != 0 && floored && w + d < 0 then 0 else w + d }

  datatype Edge = Edge(src: Address, dst: Address)

  predicate Delegable(r: Resource) { r.Bandwidth? || r.Energy? }

  function Flip(e: Edge): Edge { Edge(e.dst, e.src) }

  type Entries = map<Edge, Amounts>

  function Outgoing(es: Entries, a: Address, r: Resource): map<Edge, int> {
    map e | e in es && e.src == a :: es[e].Of(r)
  }

  function Incoming(es: Entries, a: Address, r: Resource): map<Edge, int> {
    map e | e in es && e.dst == a :: es[e].Of(r)
  }

  function EntryOf(es: Entries, e: Edge): Amounts { if e in es then es[e] else Amounts(0, 0) }

  /** Writes an entry, or deletes it when nothing is left on either side. */
  function PutEntry(es: Entries, e: Edge, d: Amounts): Entries {
    if d == Amounts(0, 0) then es - {e} else es[e := d]
  }

  lemma OutgoingPut(es: Entries, e: Edge, d: Amounts, a: Address, r: Resource)
    ensures Sum(Outgoing(PutEntry(es, e, d), a, r)) ==
            Sum(Outgoing(es, a, r)) + if a == e.src then d.Of(r) - EntryOf(es, e).Of(r) else 0
  {
    var before, after := Outgoing(es, a, r), Outgoing(PutEntry(es, e, d), a, r);
    if a != e.src {
      assert after == before;
    } else if d == Amounts(0, 0) {
      assert after == before - {e};
      SumRemove(before, e);
    } else {
      assert after == before[e := d.Of(r)];
      SumUpdate(before, e, d.Of(r));
    }
  }

  lemma IncomingPut(es: Entries, e: Edge, d: Amounts, a: Address, r: Resource)
    ensures Sum(Incoming(PutEntry(es, e, d), a, r)) ==
            Sum(Incoming(es, a, r)) + if a == e.dst then d.Of(r) - EntryOf(es, e).Of(r) else 0
  {
    var before, after := Incoming(es, a, r), Incoming(PutEntry(es, e, d), a, r);
    if a != e.dst {
      assert after == before;
    } else if d == Amounts(0, 0) {
      assert after == before - {e};
      SumRemove(before, e);
    } else {
      assert after == before[e := d.Of(r)];
      SumUpdate(before, e, d.Of(r));
    }
  }

  /** Entries join existing, different accounts and hold something. */
  ghost predicate EntriesOk(known: set<Address>, es: Entries) {
    forall e :: e in es ==>
      e.src != e.dst && e.src in known && e.dst in known &&
      es[e].net >= 0 && es[e].energy >= 0 && es[e] != Amounts(0, 0)
  }

  lemma SumsNonNegative(known: set<Address>, es: Entries, a: Address, r: Resource)
    requires EntriesOk(known, es)
    ensures Sum(Outgoing(es, a, r)) >= 0 && Sum(Incoming(es, a, r)) >= 0
    ensures forall e :: e in es && e.dst == a ==> es[e].Of(r) <= Sum(Incoming(es, a, r))
  {
    SumBounds(Outgoing(es, a, r));
    SumBounds(Incoming(es, a, r));
    assert forall e :: e in es && e.dst == a ==> Incoming(es, a, r)[e] == es[e].Of(r);
  }
}
