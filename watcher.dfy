/**
 * The polling cycle: truncate every watched table, then per contract replay
 * the fetched TokensFrozen and TokensUnfrozen events into its table and
 * reconcile it. The chain side (latest block, past events, ABI loading) is
 * an input: one `Fetch` per contract, `Failed` when anything in that
 * contract's guarded block throws before a query on its table is issued.
 */
module Watcher {
  import opened Conversion
  import opened Ledger
  import opened Replay

  /** The table Watched() of the configured contracts, in configuration order; no name repeats. */
  function Watched(): (r: seq<string>)
    ensures |r| == 4
    ensures forall i, j :: 0 <= i < j < |r| ==> r[i] != r[j]
  {
    ["timelock_contract_1", "timelock_contract_2", "timelock_reward_reserve_contract", "token_contract"]
  }

  /** Only the two timelock contracts have their events replayed. */
  predicate IsTimelock(name: string)
  {
    name == "timelock_contract_1" || name == "timelock_contract_2"
  }

  /** Of the configured contracts, exactly the first two are replayed. */
  lemma TimelockContracts()
    ensures forall i :: 0 <= i < |Watched()| ==> (IsTimelock(Watched()[i]) <==> i < 2)
  {
  }

  /** What one contract's guarded block obtains from the chain in a cycle. */
  datatype Fetch =
    | Failed
    | Fetched(latest: nat, frozen: seq<TokenEvent>, unfrozen: seq<TokenEvent>)

  /** A cleared table after the frozen list and then the unfrozen list have been replayed. */
  function Replayed(latest: nat, frozen: seq<TokenEvent>, unfrozen: seq<TokenEvent>): Table
  {
    ApplyAll(ApplyAll(map[], TokensFrozen, frozen, latest), TokensUnfrozen, unfrozen, latest)
  }

  /**
   * The table a cycle leaves for one contract, starting from the cleared
   * table; `replays` tells whether the contract is one whose events are replayed.
   */
  ghost function Rebuilt(replays: bool, fetch: Fetch): (r: Table)
    ensures fetch.Failed? ==> r == map[]
    ensures fetch.Fetched? ==> TotalKey in r && r[TotalKey].blockNumber == fetch.latest
    ensures forall a :: a in r ==> NetDerived(r[a])
  {
    match fetch
    case Failed => map[]
    case Fetched(latest, frozen, unfrozen) =>
      Reconcile(if replays then Replayed(latest, frozen, unfrozen) else map[], latest)
  }

  /** A replayed row holds the address's frozen and unfrozen totals, no net amount yet. */
  lemma ReplayedRow(latest: nat, frozen: seq<TokenEvent>, unfrozen: seq<TokenEvent>, a: string)
    ensures var t := Replayed(latest, frozen, unfrozen);
      && (a in t <==> a in Addresses(frozen) + Addresses(unfrozen))
      && (a in t ==> t[a] == Row(AddressTotal(frozen, a), AddressTotal(unfrozen, a), None, latest, false))
  {
    var t0: Table := map[];
    var t1 := ApplyAll(t0, TokensFrozen, frozen, latest);
    var t2 := ApplyAll(t1, TokensUnfrozen, unfrozen, latest);
    assert t2 == Replayed(latest, frozen, unfrozen);
    if a in t2 {
      var f, u := AddressTotal(frozen, a), AddressTotal(unfrozen, a);
      var base := if a in t1 then t1[a] else NewRow(latest);
      if a in t1 {
        ApplyAllRow(t0, TokensFrozen, frozen, latest, a);
        assert base == Row(f, 0, None, latest, false);
      } else {
        assert f == 0;
      }
      ApplyAllRow(t1, TokensUnfrozen, unfrozen, latest, a);
      assert t2[a] == Credit(base, TokensUnfrozen, u);
    }
  }

  /** Proof step: unfolds `Rebuilt` for a successful fetch. */
  lemma RebuiltFetched(replays: bool, latest: nat, frozen: seq<TokenEvent>, unfrozen: seq<TokenEvent>)
    ensures Rebuilt(replays, Fetched(latest, frozen, unfrozen))
         == Reconcile(if replays then Replayed(latest, frozen, unfrozen) else map[], latest)
  {
  }

  /** Reconciliation keeps the address rows of a table and derives their net amount. */
  lemma ReconciledRow(t: Table, block: nat, a: string)
    requires a != TotalKey
    ensures a in Reconcile(t, block) <==> a in t
    ensures a in t ==>
      Reconcile(t, block)[a] == t[a].(netAmount := Some(Net(t[a].totalFrozen, t[a].totalUnfrozen)))
  {
    ReconcileTotals(t, block);
  }

  /**
   * Address rows of a rebuilt timelock table: exactly the addresses named by
   * some event, each with the per-address sums of converted amounts, the
   * cycle's block, isTotal false and the derived net amount.
   */
  lemma RebuiltAddressRow(latest: nat, frozen: seq<TokenEvent>, unfrozen: seq<TokenEvent>, a: string)
    requires a != TotalKey
    ensures var r := Rebuilt(true, Fetched(latest, frozen, unfrozen));
      && (a in r <==> a in Addresses(frozen) + Addresses(unfrozen))
      && (a in r ==>
            r[a] == Row(AddressTotal(frozen, a), AddressTotal(unfrozen, a),
                        Some(Net(AddressTotal(frozen, a), AddressTotal(unfrozen, a))), latest, false))
  {
    RebuiltFetched(true, latest, frozen, unfrozen);
    ReplayedRow(latest, frozen, unfrozen, a);
    ReconciledRow(Replayed(latest, frozen, unfrozen), latest, a);
  }

  /**
   * The TOTAL row of a rebuilt timelock table, when no event Watched() the
   * address "TOTAL": the sums of all converted amounts of each kind, which
   * are also the sums over the address rows (conservation).
   */
  lemma RebuiltTotalRow(latest: nat, frozen: seq<TokenEvent>, unfrozen: seq<TokenEvent>)
    requires TotalKey !in Addresses(frozen) + Addresses(unfrozen)
    ensures var r := Rebuilt(true, Fetched(latest, frozen, unfrozen));
      && TotalKey in r
      && r[TotalKey] == Row(SeqTotal(frozen), SeqTotal(unfrozen),
                            Some(Net(SeqTotal(frozen), SeqTotal(unfrozen))), latest, true)
      && r[TotalKey].totalFrozen == Sum(r - {TotalKey}, TokensFrozen)
      && r[TotalKey].totalUnfrozen == Sum(r - {TotalKey}, TokensUnfrozen)
  {
    RebuiltFetched(true, latest, frozen, unfrozen);
    ReplayedRow(latest, frozen, unfrozen, TotalKey);
    ReplayedSums(latest, frozen, unfrozen);
    ReconcileTotals(Replayed(latest, frozen, unfrozen), latest);
  }

  /** The column sums of a replayed table are the totals of all converted amounts of each kind. */
  lemma ReplayedSums(latest: nat, frozen: seq<TokenEvent>, unfrozen: seq<TokenEvent>)
    ensures Sum(Replayed(latest, frozen, unfrozen), TokensFrozen) == SeqTotal(frozen)
    ensures Sum(Replayed(latest, frozen, unfrozen), TokensUnfrozen) == SeqTotal(unfrozen)
  {
    var t0: Table := map[];
    var t1 := ApplyAll(t0, TokensFrozen, frozen, latest);
    assert Sum(t0, TokensFrozen) == 0 && Sum(t0, TokensUnfrozen) == 0;
    SumApplyAll(t0, TokensFrozen, frozen, latest, TokensFrozen);
    SumApplyAll(t0, TokensFrozen, frozen, latest, TokensUnfrozen);
    SumApplyAll(t1, TokensUnfrozen, unfrozen, latest, TokensFrozen);
    SumApplyAll(t1, TokensUnfrozen, unfrozen, latest, TokensUnfrozen);
  }

  /** Every address row of a reconciled table carries its derived net amount. */
  lemma RebuiltNetDerived(replays: bool, fetch: Fetch, a: string)
    requires a in Rebuilt(replays, fetch) && a != TotalKey
    ensures NetDerived(Rebuilt(replays, fetch)[a])
  {
  }

  /**
   * The other configured tables get no address rows in a cycle: only the
   * TOTAL row, with zero sums (the empty SUM) and the cycle's block.
   */
  lemma OtherTableHoldsOnlyTotal(fetch: Fetch)
    requires fetch.Fetched?
    ensures Rebuilt(false, fetch) == map[TotalKey := Row(0, 0, Some(0), fetch.latest, true)]
  {
    var t0: Table := map[];
    ReconcileTotals(t0, fetch.latest);
  }

  /** The rebuilt table depends on the fetched events only as multisets: order does not matter. */
  lemma RebuiltIgnoresOrder(replays: bool, latest: nat,
                            frozen: seq<TokenEvent>, unfrozen: seq<TokenEvent>,
                            frozen': seq<TokenEvent>, unfrozen': seq<TokenEvent>)
    requires multiset(frozen) == multiset(frozen') && multiset(unfrozen) == multiset(unfrozen')
    ensures Rebuilt(replays, Fetched(latest, frozen, unfrozen))
         == Rebuilt(replays, Fetched(latest, frozen', unfrozen'))
  {
    var t0: Table := map[];
    ApplyAllPermutation(t0, TokensFrozen, frozen, frozen', latest);
    var t1 := ApplyAll(t0, TokensFrozen, frozen, latest);
    ApplyAllPermutation(t1, TokensUnfrozen, unfrozen, unfrozen', latest);
  }

  /**
   * Two freezes of 1 and 0.5 tokens and one unfreeze of 0.3 tokens for the
   * same holder leave the row 2 frozen, 0 unfrozen, net 2.
   */
  lemma ScenarioRow()
    ensures var frozen := [TokenEvent("0xAA", 100_000_000), TokenEvent("0xAA", 50_000_000)];
      var unfrozen := [TokenEvent("0xAA", 30_000_000)];
      Rebuilt(true, Fetched(7, frozen, unfrozen))["0xAA"] == Row(2, 0, Some(2), 7, false)
  {
    var frozen := [TokenEvent("0xAA", 100_000_000), TokenEvent("0xAA", 50_000_000)];
    var unfrozen := [TokenEvent("0xAA", 30_000_000)];
    ConversionExamples();
    assert frozen[..1] == [frozen[0]];
    assert AddressTotal(frozen, "0xAA") == 2;
    assert AddressTotal(unfrozen, "0xAA") == 0;
    assert frozen[0] in frozen;
    RebuiltAddressRow(7, frozen, unfrozen, "0xAA");
  }

  /** SELECT SUM(totalFrozen), SUM(totalUnfrozen) over every row of a table. */
  method SumColumns(t: Table) returns (frozen: nat, unfrozen: nat)
    ensures frozen == Sum(t, TokensFrozen) && unfrozen == Sum(t, TokensUnfrozen)
  {
    frozen, unfrozen := 0, 0;
    var rest := t;
    while rest != map[]
      invariant rest.Keys <= t.Keys
      invariant forall a :: a in rest ==> rest[a] == t[a]
      invariant frozen + Sum(rest, TokensFrozen) == Sum(t, TokensFrozen)
      invariant unfrozen + Sum(rest, TokensUnfrozen) == Sum(t, TokensUnfrozen)
      decreases rest.Keys
    {
      var a :| a in rest;
      SumRemove(rest, TokensFrozen, a);
      SumRemove(rest, TokensUnfrozen, a);
      frozen := frozen + rest[a].totalFrozen;
      unfrozen := unfrozen + rest[a].totalUnfrozen;
      rest := rest - {a};
    }
  }

  /** The database: one table per configured contract. */
  class Store {
    var tables: map<string, Table>

    ghost predicate Valid()
      reads this
    {
      forall name :: name in tables <==> name in Watched()
    }

    /** The tables as they stand after start-up: created and truncated. */
    constructor ()
      ensures Valid()
      ensures forall name :: name in tables ==> tables[name] == map[]
    {
      tables := map name | name in Watched() :: map[];
    }

    /** TRUNCATE every configured table. */
    method ClearTables()
      requires Valid()
      modifies this
      ensures Valid()
      ensures forall name :: name in tables ==> tables[name] == map[]
    {
      for i := 0 to |Watched()|
        invariant Valid()
        invariant forall j :: 0 <= j < i ==> tables[Watched()[j]] == map[]
      {
        tables := tables[Watched()[i] := map[]];
      }
    }

    /** Converts the event's amount and upserts it into the table; no other table changes. */
    method HandleEvent(kind: Kind, event: TokenEvent, tableName: string, blockNumber: nat)
      requires tableName in tables
      modifies this
      ensures tables == old(tables)[tableName :=
        Upsert(old(tables)[tableName], kind, event.addr, ToWholeTokens(event.amt), blockNumber)]
    {
      var amount := ToWholeTokens(event.amt);
      tables := tables[tableName := Upsert(tables[tableName], kind, event.addr, amount, blockNumber)];
    }

    /** The TOTAL upsert followed by the net-amount update, on one table. */
    method UpdateTotalRow(tableName: string, blockNumber: nat)
      requires tableName in tables
      modifies this
      ensures tables == old(tables)[tableName := Reconcile(old(tables)[tableName], blockNumber)]
    {
      var frozen, unfrozen := SumColumns(tables[tableName]);
      tables := tables[tableName := UpsertTotal(tables[tableName], frozen, unfrozen, blockNumber)];
      tables := tables[tableName := SetNet(tables[tableName])];
    }

    /** `forEach` over one fetched event list. */
    method HandleEvents(kind: Kind, events: seq<TokenEvent>, tableName: string, blockNumber: nat)
      requires tableName in tables
      modifies this
      ensures tables == old(tables)[tableName :=
        ApplyAll(old(tables)[tableName], kind, events, blockNumber)]
    {
      ghost var start := tables[tableName];
      for k := 0 to |events|
        invariant tables == old(tables)[tableName := ApplyAll(start, kind, events[..k], blockNumber)]
      {
        ApplyAllStep(start, kind, events, k, blockNumber);
        HandleEvent(kind, events[k], tableName, blockNumber);
      }
      assert events[..|events|] == events;
    }

    /** Both `forEach` replays of a timelock contract, on its cleared table. */
    method ReplayEvents(name: string, latest: nat, frozen: seq<TokenEvent>, unfrozen: seq<TokenEvent>)
      requires name in tables && tables[name] == map[]
      modifies this
      ensures tables == old(tables)[name := Replayed(latest, frozen, unfrozen)]
    {
      HandleEvents(TokensFrozen, frozen, name, latest);
      HandleEvents(TokensUnfrozen, unfrozen, name, latest);
    }

    /**
     * The guarded block of one contract in a cycle, on its freshly cleared
     * table: replay (timelock contracts only), then reconcile. A failed fetch
     * throws before any query on the table, which stays cleared.
     */
    method PollContract(name: string, replays: bool, fetch: Fetch)
      requires name in tables && tables[name] == map[]
      modifies this
      ensures tables == old(tables)[name := Rebuilt(replays, fetch)]
    {
      match fetch {
        case Failed =>
          assert tables == tables[name := map[]];
        case Fetched(latest, frozen, unfrozen) =>
          if replays {
            ReplayEvents(name, latest, frozen, unfrozen);
          }
          UpdateTotalRow(name, latest);
          RebuiltFetched(replays, latest, frozen, unfrozen);
      }
    }

    /**
     * One cycle. Every table ends as the rebuild of its own contract's fetch:
     * the result depends neither on the tables before the cycle nor on the
     * other contracts' fetches, so a failing contract leaves only its own
     * table cleared and running the same cycle twice yields the same tables.
     */
    method PollEvents(fetches: seq<Fetch>)
      requires Valid() && |fetches| == |Watched()|
      modifies this
      ensures Valid()
      ensures forall i :: 0 <= i < |Watched()| ==> tables[Watched()[i]] == Rebuilt(IsTimelock(Watched()[i]), fetches[i])
    {
      ClearTables();
      for i := 0 to |Watched()|
        invariant Valid()
        invariant forall j :: 0 <= j < i ==> tables[Watched()[j]] == Rebuilt(IsTimelock(Watched()[j]), fetches[j])
        invariant forall j :: i <= j < |Watched()| ==> tables[Watched()[j]] == map[]
      {
        var name := Watched()[i];
        ghost var before := tables;
        PollContract(name, IsTimelock(name), fetches[i]);
        forall j | 0 <= j < |Watched()| && j != i
          ensures tables[Watched()[j]] == before[Watched()[j]]
        {
          assert Watched()[j] != name;
        }
      }
    }
  }
}
