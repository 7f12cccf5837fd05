/**
 * One watched contract's table: rows keyed by address, the insert-or-add
 * upsert that an event performs, the column sums, and the two steps of
 * reconciliation (the synthetic TOTAL row, then every row's net amount).
 */
module Ledger {

  datatype Option<T> = None | Some(value: T)

  /** The two event kinds the watcher replays; each feeds one accumulator column. */
  datatype Kind = TokensFrozen | TokensUnfrozen

  /**
   * A table row. `netAmount` is NULL (None) until reconciliation sets it;
   * it is kept signed here (see the README on the unsigned column).
   */
  datatype Row = Row(
    totalFrozen: nat,
    totalUnfrozen: nat,
    netAmount: Option<int>,
    blockNumber: nat,
    isTotal: bool)

  /** A table: its primary key is the address column. */
  type Table = map<string, Row>

  /** Address of the synthetic row that holds the table's sums. */
  const TotalKey: string := "TOTAL"

  function Other(kind: Kind): Kind
  {
    match kind
    case TokensFrozen => TokensUnfrozen
    case TokensUnfrozen => TokensFrozen
  }

  /** The accumulator column an event kind adds to. */
  function Accumulator(row: Row, kind: Kind): nat
  {
    match kind
    case TokensFrozen => row.totalFrozen
    case TokensUnfrozen => row.totalUnfrozen
  }

  /** The net amount step 2 derives from the two accumulators: frozen minus unfrozen. */
  function Net(frozen: nat, unfrozen: nat): int
  {
    frozen as int - unfrozen as int
  }

  /** A row's net amount as reconciliation derives it. */
  predicate NetDerived(row: Row)
  {
    row.netAmount == Some(Net(row.totalFrozen, row.totalUnfrozen))
  }

  /**
   * The row an insert creates before the amount is added: both accumulators
   * 0, netAmount NULL (no value given), the cycle's block, isTotal at its
   * column default FALSE.
   */
  function NewRow(block: nat): (r: Row)
    ensures forall kind :: Accumulator(r, kind) == 0
    ensures r.netAmount == None && r.blockNumber == block && !r.isTotal
  {
    Row(0, 0, None, block, false)
  }

  /** Adds an amount to the accumulator of the given kind. */
  function Credit(row: Row, kind: Kind, amount: nat): (r: Row)
    ensures Accumulator(r, kind) == Accumulator(row, kind) + amount
    ensures Accumulator(r, Other(kind)) == Accumulator(row, Other(kind))
    ensures r.netAmount == row.netAmount && r.blockNumber == row.blockNumber
    ensures r.isTotal == row.isTotal
  {
    match kind
    case TokensFrozen => row.(totalFrozen := row.totalFrozen + amount)
    case TokensUnfrozen => row.(totalUnfrozen := row.totalUnfrozen + amount)
  }

  lemma {:induction false} CreditTwice(row: Row, kind: Kind, x: nat, y: nat)
    ensures Credit(Credit(row, kind, x), kind, y) == Credit(row, kind, x + y)
  {
    match kind
    case TokensFrozen =>
    case TokensUnfrozen =>
  }

  /**
   * INSERT ... ON DUPLICATE KEY UPDATE for one event: a new address gets a
   * row with the amount in the event's column and 0 in the other; an existing
   * address has the amount added to that column only.
   */
  function Upsert(t: Table, kind: Kind, addr: string, amount: nat, block: nat): (r: Table)
    ensures r.Keys == t.Keys + {addr}
    ensures addr !in t ==>
      && Accumulator(r[addr], kind) == amount
      && Accumulator(r[addr], Other(kind)) == 0
      && r[addr].netAmount == None
      && r[addr].blockNumber == block
      && !r[addr].isTotal
    ensures addr in t ==>
      && Accumulator(r[addr], kind) == Accumulator(t[addr], kind) + amount
      && Accumulator(r[addr], Other(kind)) == Accumulator(t[addr], Other(kind))
      && r[addr].netAmount == t[addr].netAmount
      && r[addr].blockNumber == t[addr].blockNumber
      && r[addr].isTotal == t[addr].isTotal
    ensures forall a {:trigger r[a]} :: a in t && a != addr ==> r[a] == t[a]
  {
    var row := if addr in t then t[addr] else NewRow(block);
    t[addr := Credit(row, kind, amount)]
  }

  /**
   * SUM(column) over every row of a table; 0 for an empty table (where SQL
   * gives NULL). No row's value exceeds the sum.
   */
  ghost function Sum(t: Table, kind: Kind): (r: nat)
    ensures t == map[] ==> r == 0
    ensures forall a :: a in t ==> Accumulator(t[a], kind) <= r
    decreases t.Keys
  {
    if t == map[] then 0
    else
      var a :| a in t;
      var rest := t - {a};
      assert forall b :: b in t && b != a ==> b in rest && rest[b] == t[b];
      Accumulator(t[a], kind) + Sum(rest, kind)
  }

  /** The sum does not depend on which row is taken out first. */
  lemma {:induction false} SumRemove(t: Table, kind: Kind, a: string)
    requires a in t
    ensures Sum(t, kind) == Accumulator(t[a], kind) + Sum(t - {a}, kind)
    decreases t.Keys
  {
    var b :| b in t && Sum(t, kind) == Accumulator(t[b], kind) + Sum(t - {b}, kind);
    if b != a {
      SumRemove(t - {b}, kind, a);
      SumRemove(t - {a}, kind, b);
      assert t - {b} - {a} == t - {a} - {b};
    }
  }

  /** Tables that agree on a column's keys and values have the same sum of it. */
  lemma {:induction false} SumSameColumn(t: Table, u: Table, kind: Kind)
    requires t.Keys == u.Keys
    requires forall a :: a in t ==> Accumulator(t[a], kind) == Accumulator(u[a], kind)
    ensures Sum(t, kind) == Sum(u, kind)
    decreases t.Keys
  {
    if t != map[] {
      var a :| a in t;
      SumRemove(t, kind, a);
      SumRemove(u, kind, a);
      SumSameColumn(t - {a}, u - {a}, kind);
    } else {
      assert u == map[];
    }
  }

  /** An upsert raises the event's column sum by the amount and leaves the other sum alone. */
  lemma SumUpsert(t: Table, kind: Kind, addr: string, amount: nat, block: nat, column: Kind)
    ensures Sum(Upsert(t, kind, addr, amount, block), column)
         == Sum(t, column) + (if column == kind then amount else 0)
  {
    var r := Upsert(t, kind, addr, amount, block);
    SumRemove(r, column, addr);
    assert r - {addr} == t - {addr};
    if addr in t {
      SumRemove(t, column, addr);
    } else {
      assert t - {addr} == t;
    }
  }

  /**
   * Step 1 of reconciliation: INSERT the TOTAL row with the given sums, or
   * on a duplicate key overwrite its sums, net amount and block (isTotal
   * is not in the update list, so an existing row keeps its flag).
   */
  function UpsertTotal(t: Table, frozen: nat, unfrozen: nat, block: nat): (r: Table)
    ensures r.Keys == t.Keys + {TotalKey}
    ensures forall a {:trigger r[a]} :: a in t && a != TotalKey ==> r[a] == t[a]
    ensures r[TotalKey].totalFrozen == frozen && r[TotalKey].totalUnfrozen == unfrozen
    ensures NetDerived(r[TotalKey]) && r[TotalKey].blockNumber == block
    ensures r[TotalKey].isTotal == (TotalKey !in t || t[TotalKey].isTotal)
  {
    var net := Some(Net(frozen, unfrozen));
    if TotalKey in t then
      t[TotalKey := t[TotalKey].(totalFrozen := frozen, totalUnfrozen := unfrozen,
                                 netAmount := net, blockNumber := block)]
    else
      t[TotalKey := Row(frozen, unfrozen, net, block, true)]
  }

  /**
   * Step 2 of reconciliation: UPDATE ... SET netAmount = totalFrozen - totalUnfrozen
   * WHERE address != 'TOTAL'.
   */
  function SetNet(t: Table): (r: Table)
    ensures r.Keys == t.Keys
    ensures forall a :: a in r && a != TotalKey ==> NetDerived(r[a])
    ensures forall a {:trigger r[a]} :: a in t ==> r[a] == t[a].(netAmount := r[a].netAmount)
    ensures TotalKey in t ==> r[TotalKey] == t[TotalKey]
  {
    map a | a in t ::
      if a == TotalKey then t[a]
      else t[a].(netAmount := Some(Net(t[a].totalFrozen, t[a].totalUnfrozen)))
  }

  /** A table whose address rows already carry their derived net amount is left as it is by step 2. */
  lemma SetNetFixesDerived(t: Table)
    requires forall a :: a in t && a != TotalKey ==> NetDerived(t[a])
    ensures SetNet(t) == t
  {
  }

  /** Step 2 is idempotent. */
  lemma SetNetIdempotent(t: Table)
    ensures SetNet(SetNet(t)) == SetNet(t)
  {
    SetNetFixesDerived(SetNet(t));
  }

  /**
   * Both steps of reconciliation; the sums range over every row present,
   * TOTAL included. Afterwards the table has a TOTAL row and every row,
   * TOTAL included, carries its derived net amount.
   */
  ghost function Reconcile(t: Table, block: nat): (r: Table)
    ensures r.Keys == t.Keys + {TotalKey}
    ensures forall a :: a in r ==> NetDerived(r[a])
  {
    SetNet(UpsertTotal(t, Sum(t, TokensFrozen), Sum(t, TokensUnfrozen), block))
  }

  /**
   * After reconciliation the TOTAL row holds the column sums of the table as
   * it was, their difference and the block; every address row has its net
   * amount derived and nothing else changed. When no TOTAL row existed
   * beforehand, the TOTAL row equals the sums over the address rows now present.
   */
  lemma ReconcileTotals(t: Table, block: nat)
    ensures var r := Reconcile(t, block);
      && r.Keys == t.Keys + {TotalKey}
      && r[TotalKey].totalFrozen == Sum(t, TokensFrozen)
      && r[TotalKey].totalUnfrozen == Sum(t, TokensUnfrozen)
      && NetDerived(r[TotalKey])
      && r[TotalKey].blockNumber == block
      && r[TotalKey].isTotal == (TotalKey !in t || t[TotalKey].isTotal)
      && (forall a :: a in t && a != TotalKey ==>
            r[a] == t[a].(netAmount := Some(Net(t[a].totalFrozen, t[a].totalUnfrozen))))
    ensures TotalKey !in t ==>
      var r := Reconcile(t, block);
      && r[TotalKey].totalFrozen == Sum(r - {TotalKey}, TokensFrozen)
      && r[TotalKey].totalUnfrozen == Sum(r - {TotalKey}, TokensUnfrozen)
  {
    var u := UpsertTotal(t, Sum(t, TokensFrozen), Sum(t, TokensUnfrozen), block);
    var r := SetNet(u);
    assert r == Reconcile(t, block);
    assert r[TotalKey] == u[TotalKey];
    forall a | a in t && a != TotalKey
      ensures r[a] == t[a].(netAmount := Some(Net(t[a].totalFrozen, t[a].totalUnfrozen)))
    {
      assert u[a] == t[a];
    }
    if TotalKey !in t {
      var rest := r - {TotalKey};
      assert rest.Keys == t.Keys;
      forall a | a in t
        ensures Accumulator(t[a], TokensFrozen) == Accumulator(rest[a], TokensFrozen)
        ensures Accumulator(t[a], TokensUnfrozen) == Accumulator(rest[a], TokensUnfrozen)
      {
        assert u[a] == t[a];
      }
      SumSameColumn(t, rest, TokensFrozen);
      SumSameColumn(t, rest, TokensUnfrozen);
    }
  }

  /**
   * The SUM has no filter on the address: an existing TOTAL row is counted
   * in its own new value.
   */
  lemma ReconcileCountsExistingTotal(t: Table, block: nat, column: Kind)
    requires TotalKey in t
    ensures Accumulator(Reconcile(t, block)[TotalKey], column)
         == Sum(t - {TotalKey}, column) + Accumulator(t[TotalKey], column)
  {
    ReconcileTotals(t, block);
    SumRemove(t, column, TotalKey);
  }

  /**
   * Step 1 is therefore not idempotent: reconciling a freshly rebuilt table
   * twice doubles the TOTAL row's sums.
   */
  lemma ReconcileTwiceDoubles(t: Table, block: nat, column: Kind)
    requires TotalKey !in t
    ensures Accumulator(Reconcile(Reconcile(t, block), block)[TotalKey], column)
         == 2 * Sum(t, column)
  {
    var r := Reconcile(t, block);
    ReconcileTotals(t, block);
    ReconcileCountsExistingTotal(r, block, column);
    match column
    case TokensFrozen =>
    case TokensUnfrozen =>
  }
}
