# Warehouse stock ledger, modelled in Dafny

This project models the stock ledger of a small Django inventory application:
the registry of warehouse locations, the per-location stock records of each
SKU, and the log of transfers between locations. The application exposes them
through three management commands (`LOCATION REGISTER/UNREGISTER`,
`INVENTORY INCREMENT/DECREMENT/OBSERVE`, `INVENTORY TRANSFER`) and guards every
write of a stock record in the model's `save` method.

The store is modelled as three tables:

- locations: a map from location id to its active flag (ids are unique and
  never removed; unregistering only clears the flag);
- stock records: a map from the unique pair (SKU code, location id) to
  `(quantity, originalQuantity)`;
- moves: an append-only sequence of `(sku, source, destination, quantity)`.

Layout, one module per source file or concern:

| file | module | models |
|---|---|---|
| `models.dfy` | `Models` | the tables, the error kinds, the write guard `Save`, the ledger invariant `Valid` |
| `locations.dfy` | `Locations` | `register_location`, `unregister_location` |
| `stock.dfy` | `Stock` | `increment_inventory`, `decrement_inventory`, what `observe_inventory` must list |
| `transfers.dfy` | `Transfers` | `transfer_inventory`: its checks in order, then the two legs and the move record |
| `lex.dfy` | `Lex` | the SKU order used by OBSERVE (character-wise lexicographic), proved a strict total order |
| `history.dfy` | `History` | arbitrary runs of commands: the invariant, append-only log, net quantity |
| `inventory.dfy` | `Inventory` | class `Ledger`: the three tables as fields updated in place, one method per command |
| `scenarios.dfy` | `Scenarios` | concrete command sequences and their outcomes |

Every command is described twice: once as a function from the old store to a
`Transition` (the reported result and the new store), about which the
properties are proved, and once as a method of `Inventory.Ledger` that follows
the command's code step by step (guards with early exits, field updates,
guarded writes, a roll-back for the transaction) and is proved to make exactly
that transition. A failed command reports one error kind carrying the ids and
numbers its message shows; the message text itself is not modelled.

OBSERVE only reads, so `Inventory.Ledger.Observe` is specified directly: it
fails for a missing or inactive location, and otherwise returns the one
listing (`Stock.ListingUnique`) of the records with a positive quantity in
strictly ascending SKU order, or the separate `NoItems` marker. The database
does the ordering in the original (`order_by('sku_code')`); the method stands
for that query and the loop over its rows by emitting the least remaining SKU
at each step. The order is code-point order, character by character, a proper
prefix sorting first.

In three places the code behaves differently from what one would expect of a
ledger; the model follows the code:

- The sign of an INCREMENT amount is not checked, so a negative amount that
  keeps both counters non-negative is accepted and lowers the original
  quantity (`Stock.NegativeIncrementLowersOriginal`). The original quantity is
  therefore monotone only over runs without negative increments
  (`History.RunKeepsOriginals`), not over all runs as a lifetime total of
  stock received would be.
  The sign of a DECREMENT amount is not checked either: a negative amount
  raises the quantity.
- A transfer into an existing destination record adds to its quantity only;
  its original quantity is unchanged. Only a newly created destination record
  starts with `original_quantity = quantity` (`Transfers.TransferEffect`).
  Apart from that one case, the original quantity of a record moves exactly by
  the accepted INCREMENT amounts (`History.OriginalIsAcceptedIncrements`).
- A missing location and an inactive one are reported the same way by
  INCREMENT, DECREMENT, OBSERVE and TRANSFER, so the model has one error kind
  for both (`LocationNotFound`, `SourceNotFound`, `DestinationNotFound`).

## Model

| member | source | states |
|---|---|---|
| `Models.Save` | inventory/models.py:37-48 | a stock write is refused if the location is inactive, else if the quantity is negative, else if the original quantity is negative, in that order; otherwise exactly that record is inserted or replaced and nothing else changes |
| `Locations.Register` | inventory/management/commands/location_master.py:29-47 | an active id is refused with AlreadyExists and nothing changes; an inactive id is reactivated in place; an unknown id becomes an active location; on success only that location's entry changes |
| `Locations.Unregister` | inventory/management/commands/location_master.py:58-77 | an unknown id fails with LocationNotFound; otherwise it fails if and only if some record at the location has quantity > 0, reporting their number and changing nothing; on success the location is kept but inactive and nothing else changes |
| `Locations.RegisterPreservesValid` | inventory/management/commands/location_master.py:32-47 | registering keeps the ledger invariant |
| `Locations.UnregisterPreservesValid` | inventory/management/commands/location_master.py:67-76 | deactivating only an empty location keeps "no inactive location holds stock" |
| `Locations.UnregisterIdempotent` | inventory/management/commands/location_master.py:61-77 | since the status is not consulted, a successful unregister can be repeated and succeeds again without further change |
| `Locations.ReRegisterRestores` | inventory/management/commands/location_master.py:35-40 | unregistering an active location and registering it again reactivates the same record: the store is exactly as before, zero-quantity records included |
| `Stock.Increment` | inventory/management/commands/stock_detail.py:38-65 | a missing or inactive location fails with nothing changed; an absent record is created with both counters = amount, an existing one gets amount added to both; the sign is not checked and a result with a negative counter is refused by the write guard with nothing changed, reporting NegativeQuantity when the new quantity is negative and otherwise NegativeOriginalQuantity with the new original quantity; on success only that record changes and the new quantity is reported |
| `Stock.Decrement` | inventory/management/commands/stock_detail.py:73-106 | fails with nothing changed when the location is missing or inactive, then when the record is missing, then when quantity < amount (reporting available and required); on success quantity drops by amount, original quantity stays, the quantity is never negative and only that record changes; on a valid store it succeeds exactly when none of the three checks fails |
| `Stock.SavePreservesValid` | inventory/models.py:37-48 | a write the guard admits keeps the ledger invariant |
| `Stock.IncrementPreservesValid` | inventory/management/commands/stock_detail.py:46-56 | INCREMENT keeps the ledger invariant |
| `Stock.DecrementPreservesValid` | inventory/management/commands/stock_detail.py:95-98 | DECREMENT keeps the ledger invariant |
| `Stock.IncrementThenDecrement` | inventory/management/commands/stock_detail.py:53-56 | an increment followed by a decrement of the same amount restores the quantity and leaves the original quantity raised by the amount |
| `Stock.NegativeIncrementLowersOriginal` | inventory/management/commands/stock_detail.py:53-56 | for every existing record at an active location, a negative increment that keeps both counters non-negative is accepted, reports the new quantity and strictly lowers the original quantity |
| `Stock.NegativeIncrementExample` | inventory/management/commands/stock_detail.py:53-56 | an instance: a record holding 5 of 10 received, incremented by -3, becomes 2 of 7 |
| `Stock.ListingNotEmpty` | inventory/management/commands/stock_detail.py:131-133 | a listing with lines implies a positive record, so EMPTY and a list of lines are never both correct |
| `Stock.ListingUnique` | inventory/management/commands/stock_detail.py:124-137 | a location has only one listing: OBSERVE's output is determined by the store |
| `Stock.PositiveCountsAgree` | inventory/models.py:28-31 | because (SKU, location) is unique, the records at a location with quantity > 0 are as many as the SKUs held there |
| `Stock.ListingCountsHeld` | inventory/management/commands/location_master.py:67-70 | the number of records UNREGISTER reports as holding stock equals the number of ITEM lines OBSERVE lists for the location (stock_detail.py:124-137), zero exactly when it prints EMPTY |
| `Transfers.Transfer` | inventory/management/commands/move_inventory.py:36-105 | the first failing check is reported, in the order: source inactive or missing, destination inactive or missing, same location, quantity <= 0, item missing at the source, source quantity < quantity; any failure leaves the store unchanged; success implies all checks passed, and on a valid store every admissible transfer succeeds |
| `Transfers.Commit` | inventory/management/commands/move_inventory.py:84-105 | the two writes and the move record commit together: if the guard refuses either write the store is unchanged, and on a valid store neither is refused |
| `Transfers.TransferEffect` | inventory/management/commands/move_inventory.py:84-105 | a successful transfer lowers the source quantity by q, raises an existing destination's quantity by q or creates it with both counters = q, leaves every stored original quantity, every other record and the locations unchanged, and appends exactly the one move (sku, src, dst, q) |
| `Transfers.TransferConserves` | inventory/management/commands/move_inventory.py:84-97 | a successful transfer conserves source + destination quantity of the SKU |
| `Transfers.TransferPreservesValid` | inventory/management/commands/move_inventory.py:60-105 | a transfer keeps the ledger invariant, including "every logged move has q > 0 between two different known locations" |
| `Lex.LessIrreflexive` | inventory/management/commands/stock_detail.py:124-128 | no SKU sorts before itself |
| `Lex.LessAsymmetric` | inventory/management/commands/stock_detail.py:124-128 | two SKUs are never each before the other |
| `Lex.LessTransitive` | inventory/management/commands/stock_detail.py:124-128 | the SKU order is transitive |
| `Lex.LessTotal` | inventory/management/commands/stock_detail.py:124-128 | any two different SKUs are ordered one way or the other |
| `Lex.LeastExists` | inventory/management/commands/stock_detail.py:124-128 | every non-empty set of SKUs has a least element, so the ordered query always has a next row |
| `Lex.AscendingUnique` | inventory/management/commands/stock_detail.py:124-128 | two strictly ascending sequences with the same elements are equal |
| `Lex.AscendingDistinct` | inventory/management/commands/stock_detail.py:124-128 | a strictly ascending sequence of SKUs repeats none, so it has as many distinct SKUs as lines |
| `History.ApplyPreservesValid` | inventory/models.py:37-48 | every command keeps the ledger invariant |
| `History.ApplyExtends` | inventory/management/commands/location_master.py:74-76 | no command removes a location or a record or rewrites the log, and only an increment with a negative amount can lower an original quantity |
| `History.RunPreservesValid` | inventory/models.py:37-48 | from a valid store every run of commands ends in a valid store: no stored counter is ever negative and no inactive location holds stock |
| `History.RunExtends` | inventory/models.py:51-58 | over any run locations and records only accumulate and the move log is append-only |
| `History.RunKeepsOriginals` | inventory/management/commands/stock_detail.py:53-56 | over a run without negative increments no original quantity decreases |
| `History.QuantityIsAcceptedNet` | inventory/management/commands/stock_detail.py:53-97 | over any run of increments and decrements of one SKU at one location, the final quantity is the initial one plus the accepted increments minus the accepted decrements |
| `History.OriginalIsAcceptedIncrements` | inventory/management/commands/stock_detail.py:46-56 | over any run of increments and decrements of one SKU at one location, the final original quantity is the initial one plus exactly the accepted increment amounts: decrements never change it |
| `Inventory.Ledger.constructor` | inventory/models.py:5-58 | a new store is empty and satisfies the invariant |
| `Inventory.Ledger.Save` | inventory/models.py:37-48 | the in-place write performs exactly `Models.Save` |
| `Inventory.Ledger.Register` | inventory/management/commands/location_master.py:23-50 | the in-place command performs exactly `Locations.Register` and keeps the invariant |
| `Inventory.Ledger.Unregister` | inventory/management/commands/location_master.py:52-79 | the in-place command performs exactly `Locations.Unregister` and keeps the invariant |
| `Inventory.Ledger.Increment` | inventory/management/commands/stock_detail.py:31-65 | the in-place command performs exactly `Stock.Increment` and keeps the invariant |
| `Inventory.Ledger.Decrement` | inventory/management/commands/stock_detail.py:67-106 | the in-place command performs exactly `Stock.Decrement` and keeps the invariant |
| `Inventory.Ledger.Observe` | inventory/management/commands/stock_detail.py:108-140 | a missing or inactive location fails with LocationNotFound; otherwise the result lists exactly the positive records at the location with their quantities in strictly ascending SKU order, or is the EMPTY marker when there are none |
| `Inventory.Ledger.Transfer` | inventory/management/commands/move_inventory.py:29-112 | the in-place command performs exactly `Transfers.Transfer` and keeps the invariant |
| `Inventory.Ledger.Commit` | inventory/management/commands/move_inventory.py:84-105 | the writes of an admissible transfer perform exactly `Transfers.Commit`, restoring the stock table when a write is refused |
| `Scenarios.RegisterTwice` | inventory/management/commands/location_master.py:32-34 | registering A1 twice: created, then AlreadyExists |
| `Scenarios.OverDecrement` | inventory/management/commands/stock_detail.py:88-93 | after adding 10, taking 15 fails with available 10, required 15, and the quantity stays 10 |
| `Scenarios.TransferSix` | inventory/management/commands/move_inventory.py:84-105 | moving 6 of 10 leaves 4 at the source, creates 6 at the destination, logs one move; a move to the same location fails |
| `Scenarios.UnregisterOnceEmpty` | inventory/management/commands/location_master.py:67-77 | a location holding 4 units fails to unregister with one record counted; after taking the 4 it unregisters and keeps the zero record |
| `Scenarios.TwoLineListing` | inventory/management/commands/stock_detail.py:124-137 | with 5 of SKU1, 3 of SKU2 and 0 of SKU3 the only listing is SKU1 5, SKU2 3 |

## Left out

- Argument parsing and dispatch (`add_arguments`, `handle` in each command), and the text of every message written to standard output: results are error kinds and values instead.
- An amount missing from the command line (`None`), which fails in the original with a generic exception; the model's amounts are always integers.
- The generic `except Exception` branches: unexpected database or runtime failures are not modelled. The write guard's `ValidationError` is modelled as a failure that changes nothing.
- The database's own limits: the 32-bit range of `IntegerField` and the `max_length` of the id columns. Integers and ids are unbounded.
- The collation the database uses for `order_by('sku_code')`: the model orders SKUs by character code point.
- Timestamps (`creation_date`, `updation_date`), `__str__`, table names and indexes, and `on_delete=CASCADE` (locations are never deleted, so it never applies).
- Concurrency and transaction isolation: each command is one sequential, all-or-nothing transition; racing callers are not modelled.
- The database sequence ids of move records: a move is identified by its position in the log.
- inventory/admin.py, which only configures the admin interface.
