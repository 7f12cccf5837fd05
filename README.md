# Timelock watcher bookkeeping, in Dafny

The timelock watcher polls a set of token contracts and keeps one database
table per contract. Each row is keyed by holder address and holds:

- `totalFrozen` and `totalUnfrozen`, the accumulated whole-token amounts of the
  holder's `TokensFrozen` and `TokensUnfrozen` events;
- `netAmount`, which reconciliation derives;
- `blockNumber`;
- `isTotal`.

A synthetic row with address `TOTAL` holds the column sums.

Every polling cycle does three things:

1. It truncates every table.
2. For the two timelock contracts only, it replays each contract's complete
   `TokensFrozen` history and then its complete `TokensUnfrozen` history. Each
   event is one insert-or-add upsert of the amount converted to whole tokens.
3. It reconciles each table in two steps: it upserts the `TOTAL` row from the
   column sums, then sets every address row's net amount.

An error in one contract's block skips the rest of that contract only.

This project models that engine over in-memory maps. The modules are:

- `Conversion`: the raw amount (eight decimals) rounded to whole tokens, halves
  going up.
- `Ledger`: a table as `map<string, Row>`, with:
  - the event upsert;
  - the `SUM` aggregate, as a ghost function over the map;
  - the two reconciliation steps;
  - their composition, `Reconcile`.
- `Replay`: one `forEach` over an event list as a fold of upserts (`ApplyAll`),
  and what the replayed rows hold, whatever the event order.
- `Watcher`: the cycle.
  - `Rebuilt` says which table a cycle leaves for one contract, given what was
    fetched for it.
  - The class `Store` holds the database (`tables: map<string, Table>`).
  - Its methods mutate `tables` as the queries do: truncate, upsert one event,
    replay a list, reconcile, poll one contract, poll all.
  - Each method's postcondition ties the new state to the functions above.

The chain side is an input. One `Fetch` per configured contract is either
`Failed` or `Fetched(latest, frozen, unfrozen)`.

- `Failed` stands for a throw in that contract's guarded block before any query
  on its table. This covers `getBlockNumber`, the ABI read, the contract
  construction and `getPastEvents`.
- `Fetched` carries the latest block number and the two decoded event lists.

Queries on the single connection run in the order they are issued, as the
driver queues them, so they are modelled as sequential steps.

Two properties of the program deserve a note.

- The `SUM` at server.js:178 has no address filter, so an existing `TOTAL`
  row counts in its own new value.
  - `Ledger.ReconcileCountsExistingTotal` and `Ledger.ReconcileTwiceDoubles`
    state this.
  - In a cycle the table has just been truncated, so no `TOTAL` row exists when
    step 1 runs. Conservation then holds exactly, as
    `Watcher.RebuiltTotalRow` proves.
- Each cycle truncates every table (server.js:97, 61-69) and replays the full
  history from each contract's creation block (server.js:106-116). Nothing is
  carried over from one cycle to the next, provided cycles do not overlap (see
  "## Left out").

## Model

| member | source | states |
|---|---|---|
| `Conversion.ToWholeTokens` | timelock-watcher/server.js:152-153 | The stored figure r is the unique whole number with r·10^8 − 5·10^7 ≤ amt < r·10^8 + 5·10^7: the amount divided by 10^8, rounded to nearest, ties up |
| `Conversion.NearestWholeToken` | timelock-watcher/server.js:153 | The stored figure is within half a token (5·10^7 base units) of the raw amount, and is exactly half a token above it only when the amount sits on a half |
| `Conversion.ToWholeTokensUnique` | timelock-watcher/server.js:153 | Any r whose rounding window holds the amount is the stored figure |
| `Conversion.HalfRoundsUp` | timelock-watcher/server.js:153 | k tokens plus exactly half a token rounds to k + 1 |
| `Conversion.BelowHalfRoundsDown` | timelock-watcher/server.js:153 | k tokens plus less than half a token rounds to k |
| `Conversion.ConversionExamples` | timelock-watcher/server.js:153 | 10^8→1, 1.5·10^8→2, 149999999→1, 3·10^7→0, 5·10^7→1, 2.5·10^8→3 |
| `Ledger.NewRow` | timelock-watcher/server.js:158-159 | The inserted row before the amount is added: both accumulators 0, no net amount (the column is not in the insert list), the given block, isTotal false (its column default) |
| `Ledger.Credit` | timelock-watcher/server.js:160-164 | Adds the amount to the event kind's accumulator; the other accumulator, the net amount, the block and the flag are unchanged |
| `Ledger.Upsert` | timelock-watcher/server.js:157-164 | The key set gains the event's address. A new address gets a row with the amount in the event's column, 0 in the other, no net amount, the given block and isTotal false. An existing address has the amount added to that column only: other column, net amount, block and flag kept. Every other row is unchanged |
| `Ledger.SumUpsert` | timelock-watcher/server.js:157-164 | An upsert raises the event column's sum by exactly the amount and leaves the other column's sum unchanged |
| `Ledger.Sum` | timelock-watcher/server.js:178 | SUM over every row of the table, the TOTAL row included: 0 for an empty table, and at least each row's own value |
| `Ledger.UpsertTotal` | timelock-watcher/server.js:176-183 | Step 1. The TOTAL row gets the given sums, their difference as net amount and the block. isTotal is true on insert; an existing TOTAL row keeps its flag, which is not in the update list. Every address row is unchanged |
| `Ledger.SetNet` | timelock-watcher/server.js:186-190 | Step 2. The same keys. Every non-TOTAL row gets netAmount = totalFrozen − totalUnfrozen with every other field kept. The TOTAL row is untouched |
| `Ledger.SetNetFixesDerived` | timelock-watcher/server.js:186-190 | Step 2 leaves a table unchanged when its address rows already carry their derived net amount |
| `Ledger.SetNetIdempotent` | timelock-watcher/server.js:186-190 | Running step 2 twice equals running it once |
| `Ledger.Reconcile` | timelock-watcher/server.js:175-202 | Both steps in order. The table afterwards has exactly its earlier keys plus TOTAL, and every row, TOTAL included, carries netAmount = totalFrozen − totalUnfrozen |
| `Ledger.ReconcileTotals` | timelock-watcher/server.js:175-202 | After both steps: keys plus TOTAL; TOTAL holds the SUMs over all rows present before, their difference and the block; every address row is its old row with the derived net amount. Without a prior TOTAL row, the TOTAL sums equal the sums over the address rows afterwards (conservation) |
| `Ledger.ReconcileCountsExistingTotal` | timelock-watcher/server.js:178 | The unfiltered SUM: an existing TOTAL row's own value is added into its new value |
| `Ledger.ReconcileTwiceDoubles` | timelock-watcher/server.js:176-183 | Step 1 is not idempotent: reconciling a TOTAL-free table twice gives a TOTAL of twice the column sums |
| `Replay.AddressTotal` | timelock-watcher/server.js:115-116 | An address named by no event has total 0 |
| `Replay.ApplyAll` | timelock-watcher/server.js:115-116 | Replaying a list adds exactly the addresses the events name to the table's keys |
| `Replay.ApplyAllRow` | timelock-watcher/server.js:115-116 | Each row after a replay is its earlier row, or a new row stamped with the block, with the sum of the address's converted amounts added to the event's column and nothing else changed |
| `Replay.SumApplyAll` | timelock-watcher/server.js:115-116 | A replay raises the event column's sum by the total of all converted amounts and leaves the other column's sum |
| `Replay.AddressTotalPermutation` | timelock-watcher/server.js:115-116 | An address's total depends only on the multiset of events, not on their order |
| `Replay.ApplyAllPermutation` | timelock-watcher/server.js:115-116 | Replaying any reordering of the same events yields the same table |
| `Watcher.Watched` | timelock-watcher/server.js:6-30 | The configuration lists four contracts, and no table name repeats |
| `Watcher.TimelockContracts` | timelock-watcher/server.js:105 | Of the configured contracts, exactly the first two (the two timelock contracts) have their events fetched and replayed; the reward-reserve and token contracts do not |
| `Watcher.ReplayedRow` | timelock-watcher/server.js:115-116 | After both replays of a cleared table, the rows are exactly the addresses some event names. Each holds that address's frozen and unfrozen totals, no net amount, the latest block and isTotal false |
| `Watcher.ReplayedSums` | timelock-watcher/server.js:115-116 | The column sums of a replayed cleared table are the totals of all converted frozen and unfrozen amounts |
| `Watcher.ReconciledRow` | timelock-watcher/server.js:175-202 | Reconciliation keeps exactly the address rows and gives each its derived net amount |
| `Watcher.Rebuilt` | timelock-watcher/server.js:99-124 | The table one guarded block leaves on a cleared table. A failed fetch leaves it empty; a successful one leaves a TOTAL row stamped with the latest block; every row carries its derived net amount |
| `Watcher.RebuiltAddressRow` | timelock-watcher/server.js:96-125 | A timelock table after a cycle holds a row for an address iff some event names it. The row is (frozen total, unfrozen total, their difference, latest block, false), whatever the table held before |
| `Watcher.RebuiltTotalRow` | timelock-watcher/server.js:96-125 | When no event names "TOTAL", the TOTAL row after a cycle is (all frozen, all unfrozen, difference, latest, true), and each sum equals the sum over the address rows |
| `Watcher.RebuiltNetDerived` | timelock-watcher/server.js:186-190 | Every address row of a table after a cycle carries netAmount = totalFrozen − totalUnfrozen |
| `Watcher.OtherTableHoldsOnlyTotal` | timelock-watcher/server.js:105-120 | A non-timelock table after a successful cycle holds only the TOTAL row: zero sums, net 0, latest block, isTotal true |
| `Watcher.RebuiltIgnoresOrder` | timelock-watcher/server.js:115-116 | A table after a cycle depends on each fetched event list only as a multiset |
| `Watcher.ScenarioRow` | timelock-watcher/server.js:150-171 | Freezes of 1 and 0.5 tokens and an unfreeze of 0.3 tokens for one holder give the row (2, 0, net 2) |
| `Watcher.SumColumns` | timelock-watcher/server.js:178 | The loop over the rows returns exactly SUM(totalFrozen) and SUM(totalUnfrozen) of the table |
| `Watcher.Store.constructor` | timelock-watcher/server.js:34-71 | At start-up one table exists per configured contract, and each is empty |
| `Watcher.Store.ClearTables` | timelock-watcher/server.js:61-69 | Every configured table is empty afterwards, and the set of tables is unchanged |
| `Watcher.Store.HandleEvent` | timelock-watcher/server.js:150-171 | The named table becomes the upsert of the event's converted amount with the given block. No other table changes |
| `Watcher.Store.HandleEvents` | timelock-watcher/server.js:115-116 | The `forEach`: the named table becomes the replay of the list in order. No other table changes |
| `Watcher.Store.UpdateTotalRow` | timelock-watcher/server.js:175-202 | The named table becomes its reconciliation, step 1 then step 2. No other table changes |
| `Watcher.Store.ReplayEvents` | timelock-watcher/server.js:115-116 | Both `forEach` lines on a cleared table leave the replayed table. No other table changes |
| `Watcher.Store.PollContract` | timelock-watcher/server.js:99-124 | One guarded block on a cleared table leaves that contract's rebuilt table. A failed fetch leaves it cleared. No other table changes |
| `Watcher.Store.PollEvents` | timelock-watcher/server.js:96-125 | After a cycle, every configured table equals the rebuild of its own contract's fetch. The result does not depend on the tables beforehand, so running the same cycle twice, one after the other, yields identical tables. It does not depend on the other contracts' fetches either, so a failing contract leaves only its own table cleared |

## Left out

- MySQL connection, callbacks and the `throw` inside them: queries are sequential steps that succeed.
- `CREATE TABLE IF NOT EXISTS` provisioning: only the column fields are modelled, as natural numbers. `Store.constructor` stands for the state after start-up, when the tables exist and have been truncated.
- Web3 provider, reconnection, `getBlockNumber`, `getPastEvents`, the contract object and the ABI file read. These are network, library and file I/O, and they are replaced by the `Fetch` input. `createWebSocketProvider` is never called.
- `setInterval` scheduling and the eager first call: one cycle is modelled. Cycles that run one after the other are covered by `PollEvents` not depending on the prior tables.
- Overlapping cycles are not modelled: cycles are assumed to run one at a time. `setInterval(pollEvents, 60000)` does not wait for the asynchronous `pollEvents`. If fetching takes longer than the interval, the next cycle's `TRUNCATE` can land before this cycle's upserts. The later cycle then replays the same history onto a table that already holds those rows and a `TOTAL` row. The address rows are then counted twice, and the new `TOTAL` also adds in the old `TOTAL`, so conservation fails.
- Floating point: `Math.round(Number(amt) / 1e8)` is modelled as exact integer round-half-up. Amounts near 2^53 are not modelled.
- The commented-out truncating `BigInt` variant of `handleEvent`: it is dead code.
- A throw part-way through a `forEach`, for example a malformed event without `returnValues`: events are decoded before replay, so a partially replayed table is not modelled.
- SQL `SUM` over an empty table is `NULL` in MySQL. Here it is 0, so the TOTAL row of an empty table shows 0, 0 and net 0.
- `netAmount` is a signed integer. MySQL's out-of-range error when the unsigned column would go negative is not modelled.
- Column widths: BIGINT UNSIGNED and INT UNSIGNED overflow are not modelled, since the integers are unbounded.
- String-interpolated SQL and injection: addresses are opaque keys.
- Key comparison is exact string equality. Under MySQL's default collation, the primary key `address` (server.js:38) and `WHERE address != 'TOTAL'` (server.js:189) compare without regard to case. This makes no difference as long as every event carries a given holder's address in the same checksummed spelling, which is how the node decodes it.
- Console logging.
- `Watcher.RebuiltTotalRow` assumes that no event names the address "TOTAL". If one did, it would share the TOTAL row's primary key.
