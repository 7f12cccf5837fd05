/**
 * Replaying one kind of fetched event into a table, one upsert per event in
 * list order, and what the resulting rows hold: per address, the sum of the
 * converted amounts of that address's events, whatever their order.
 */
module Replay {
  import opened Conversion
  import opened Ledger

  /** The decoded values of one TokensFrozen or TokensUnfrozen log: holder and raw amount. */
  datatype TokenEvent = TokenEvent(addr: string, amt: nat)

  /** Every address that some event in the list names. */
  function Addresses(events: seq<TokenEvent>): set<string>
  {
    set e | e in events :: e.addr
  }

  /** Sum of the converted amounts of the events that name `addr`. */
  function AddressTotal(events: seq<TokenEvent>, addr: string): (r: nat)
    ensures addr !in Addresses(events) ==> r == 0
    decreases |events|
  {
    if events == [] then 0
    else
      var last := events[|events| - 1];
      AddressTotal(events[..|events| - 1], addr)
        + (if last.addr == addr then ToWholeTokens(last.amt) else 0)
  }

  /** Sum of the converted amounts of all the events. */
  function SeqTotal(events: seq<TokenEvent>): nat
    decreases |events|
  {
    if events == [] then 0
    else SeqTotal(events[..|events| - 1]) + ToWholeTokens(events[|events| - 1].amt)
  }

  /**
   * The effect of `forEach(event => handleEvent(kind, event, ...))`: one
   * upsert per event, in list order, each stamped with the same block.
   */
  function ApplyAll(t: Table, kind: Kind, events: seq<TokenEvent>, block: nat): (r: Table)
    ensures r.Keys == t.Keys + Addresses(events)
    decreases |events|
  {
    if events == [] then t
    else
      var last := events[|events| - 1];
      assert events == events[..|events| - 1] + [last];
      Upsert(ApplyAll(t, kind, events[..|events| - 1], block), kind, last.addr, ToWholeTokens(last.amt), block)
  }

  /** Replaying one more event of a list is one more upsert. */
  lemma ApplyAllStep(t: Table, kind: Kind, events: seq<TokenEvent>, k: nat, block: nat)
    requires k < |events|
    ensures ApplyAll(t, kind, events[..k + 1], block)
         == Upsert(ApplyAll(t, kind, events[..k], block), kind, events[k].addr, ToWholeTokens(events[k].amt), block)
  {
    assert events[..k + 1][..k] == events[..k];
  }

  /** The addresses of a non-empty list: those of all but its last event, and the last one's. */
  lemma AddressesLast(events: seq<TokenEvent>)
    requires events != []
    ensures Addresses(events) == Addresses(events[..|events| - 1]) + {events[|events| - 1].addr}
  {
    var init, last := events[..|events| - 1], events[|events| - 1];
    assert events == init + [last];
    forall x | x in Addresses(events)
      ensures x in Addresses(init) + {last.addr}
    {
      var e :| e in events && e.addr == x;
      assert e in init || e == last;
    }
    forall x | x in Addresses(init)
      ensures x in Addresses(events)
    {
      var e :| e in init && e.addr == x;
      assert e in events;
    }
  }

  /**
   * Each row after a replay: its earlier value (or a freshly inserted row
   * stamped with the block) with the address's total added to the event's
   * column, and nothing else about it changed.
   */
  lemma {:induction false} ApplyAllRow(t: Table, kind: Kind, events: seq<TokenEvent>, block: nat, a: string)
    requires a in t || a in Addresses(events)
    ensures ApplyAll(t, kind, events, block)[a]
         == Credit(if a in t then t[a] else NewRow(block), kind, AddressTotal(events, a))
    decreases |events|
  {
    var base := if a in t then t[a] else NewRow(block);
    if events == [] {
      CreditTwice(base, kind, 0, 0);
    } else {
      var init := events[..|events| - 1];
      var last := events[|events| - 1];
      var amount := ToWholeTokens(last.amt);
      var before := ApplyAll(t, kind, init, block);
      AddressesLast(events);
      var after := ApplyAll(t, kind, events, block);
      assert after == Upsert(before, kind, last.addr, amount, block);
      assert AddressTotal(events, a) == AddressTotal(init, a) + (if last.addr == a then amount else 0);
      if last.addr != a {
        ApplyAllRow(t, kind, init, block, a);
        assert after[a] == before[a];
      } else if a in before {
        ApplyAllRow(t, kind, init, block, a);
        assert after[a] == Credit(before[a], kind, amount);
        CreditTwice(base, kind, AddressTotal(init, a), amount);
      } else {
        assert AddressTotal(init, a) == 0;
        assert after[a] == Credit(NewRow(block), kind, amount);
        CreditTwice(base, kind, 0, amount);
      }
    }
  }

  /** Replaying raises the event column's sum by the total of all events and leaves the other. */
  lemma {:induction false} SumApplyAll(t: Table, kind: Kind, events: seq<TokenEvent>, block: nat, column: Kind)
    ensures Sum(ApplyAll(t, kind, events, block), column)
         == Sum(t, column) + (if column == kind then SeqTotal(events) else 0)
    decreases |events|
  {
    if events != [] {
      var init := events[..|events| - 1];
      var last := events[|events| - 1];
      SumApplyAll(t, kind, init, block, column);
      SumUpsert(ApplyAll(t, kind, init, block), kind, last.addr, ToWholeTokens(last.amt), block, column);
    }
  }

  lemma {:induction false} AddressTotalAppend(xs: seq<TokenEvent>, ys: seq<TokenEvent>, addr: string)
    ensures AddressTotal(xs + ys, addr) == AddressTotal(xs, addr) + AddressTotal(ys, addr)
    decreases |ys|
  {
    if ys == [] {
      assert xs + ys == xs;
    } else {
      var init := ys[..|ys| - 1];
      assert (xs + ys)[..|xs + ys| - 1] == xs + init;
      AddressTotalAppend(xs, init, addr);
    }
  }

  /** Taking one event out of a list takes its converted amount out of the address's total. */
  lemma AddressTotalRemove(ys: seq<TokenEvent>, j: nat, addr: string)
    requires j < |ys|
    ensures AddressTotal(ys, addr)
         == AddressTotal(ys[..j] + ys[j + 1..], addr) + AddressTotal([ys[j]], addr)
  {
    var left, right := ys[..j], ys[j + 1..];
    assert ys == left + [ys[j]] + right;
    AddressTotalAppend(left + [ys[j]], right, addr);
    AddressTotalAppend(left, [ys[j]], addr);
    AddressTotalAppend(left, right, addr);
  }

  /** Removing the same event from two lists with equal multisets leaves equal multisets. */
  lemma MultisetRemove(xs: seq<TokenEvent>, ys: seq<TokenEvent>, j: nat)
    requires xs != [] && j < |ys| && ys[j] == xs[|xs| - 1]
    requires multiset(xs) == multiset(ys)
    ensures multiset(xs[..|xs| - 1]) == multiset(ys[..j] + ys[j + 1..])
  {
    var last := ys[j];
    var init, left, right := xs[..|xs| - 1], ys[..j], ys[j + 1..];
    assert xs == init + [last];
    assert ys == left + [last] + right;
    calc {
      multiset(init);
      multiset(xs) - multiset{last};
      multiset(ys) - multiset{last};
      multiset(left) + multiset(right);
      multiset(left + right);
    }
  }

  /** An address's total depends only on the multiset of events, not on their order. */
  lemma {:induction false} AddressTotalPermutation(xs: seq<TokenEvent>, ys: seq<TokenEvent>, addr: string)
    requires multiset(xs) == multiset(ys)
    ensures AddressTotal(xs, addr) == AddressTotal(ys, addr)
    decreases |xs|
  {
    if xs == [] {
      assert |ys| == |multiset(ys)| == 0;
    } else {
      var last := xs[|xs| - 1];
      assert last in multiset(ys);
      var j :| 0 <= j < |ys| && ys[j] == last;
      MultisetRemove(xs, ys, j);
      AddressTotalPermutation(xs[..|xs| - 1], ys[..j] + ys[j + 1..], addr);
      AddressTotalRemove(ys, j, addr);
      assert [last][..0] == [];
    }
  }

  lemma AddressesPermutation(xs: seq<TokenEvent>, ys: seq<TokenEvent>)
    requires multiset(xs) == multiset(ys)
    ensures Addresses(xs) == Addresses(ys)
  {
    forall e ensures e in xs <==> e in ys {
      assert e in xs <==> e in multiset(xs);
      assert e in ys <==> e in multiset(ys);
    }
  }

  /** Replaying a reordering of the same events yields the same table. */
  lemma ApplyAllPermutation(t: Table, kind: Kind, xs: seq<TokenEvent>, ys: seq<TokenEvent>, block: nat)
    requires multiset(xs) == multiset(ys)
    ensures ApplyAll(t, kind, xs, block) == ApplyAll(t, kind, ys, block)
  {
    var r, s := ApplyAll(t, kind, xs, block), ApplyAll(t, kind, ys, block);
    AddressesPermutation(xs, ys);
    forall a | a in r
      ensures r[a] == s[a]
    {
      ApplyAllRow(t, kind, xs, block, a);
      ApplyAllRow(t, kind, ys, block, a);
      AddressTotalPermutation(xs, ys, a);
    }
  }
}
