/**
 * The ledger's persisted state and the write guard on stock records
 * (inventory/models.py).
 *
 * The three tables become three pieces of a `State` value: locations keyed by
 * their unique id with an active flag, stock records keyed by the unique pair
 * (SKU code, location id), and the append-only log of moves.
 */
module Models {

  type LocationId = string
  type Sku = string

  /** A stock record is identified by the pair (sku_code, location). */
  type Key = (Sku, LocationId)

  datatype StockRecord = StockRecord(quantity: int, originalQuantity: int)

  /** One row of the move log: which SKU went from where to where, how many. */
  datatype Move = Move(sku: Sku, source: LocationId, destination: LocationId, quantity: int)

  datatype State = State(
    locations: map<LocationId, bool>,
    stock: map<Key, StockRecord>,
    moves: seq<Move>)

  /** The failure kinds the commands report, with the ids and numbers their
      messages carry. The last three are the write guard's rejections. */
  datatype Error =
    | AlreadyExists(location: LocationId)
    | LocationNotFound(location: LocationId)
    | HasInventory(location: LocationId, records: nat)
    | ItemNotFound(sku: Sku, location: LocationId)
    | InsufficientQuantity(sku: Sku, location: LocationId, available: int, required: int)
    | SourceNotFound(location: LocationId)
    | DestinationNotFound(location: LocationId)
    | SameLocation(location: LocationId)
    | InvalidQuantity(amount: int)
    | InactiveLocation(location: LocationId)
    | NegativeQuantity(value: int)
    | NegativeOriginalQuantity(value: int)

  datatype Result<T> = Ok(value: T) | Err(error: Error)

  /** What one command reports, and the state it leaves behind. */
  datatype Transition<T> = Transition(result: Result<T>, next: State)

  /** The empty store a fresh database starts from. */
  const Empty := State(map[], map[], [])

  /** A location that exists and has not been unregistered. */
  predicate Active(s: State, loc: LocationId)
  {
    loc in s.locations && s.locations[loc]
  }

  /** The stock records at `loc` with a positive quantity. */
  function PositiveRecords(stock: map<Key, StockRecord>, loc: LocationId): (keys: set<Key>)
    ensures forall k :: k in keys <==> k in stock && k.1 == loc && stock[k].quantity > 0
  {
    set k | k in stock && k.1 == loc && stock[k].quantity > 0
  }

  /** Quantity of `sku` held at `loc`, zero when there is no record. */
  function QuantityAt(s: State, sku: Sku, loc: LocationId): int
  {
    if (sku, loc) in s.stock then s.stock[(sku, loc)].quantity else 0
  }

  /** Original quantity of `sku` at `loc`, zero when there is no record. */
  function OriginalAt(s: State, sku: Sku, loc: LocationId): int
  {
    if (sku, loc) in s.stock then s.stock[(sku, loc)].originalQuantity else 0
  }

  /** The SKUs held at `loc` with a positive quantity, one per stock record. */
  function PositiveSkus(stock: map<Key, StockRecord>, loc: LocationId): (skus: set<Sku>)
    ensures forall sku :: sku in skus <==> (sku, loc) in stock && stock[(sku, loc)].quantity > 0
  {
    set k | k in stock && k.1 == loc && stock[k].quantity > 0 :: k.0
  }

  /**
   * The write guard of a stock record (StockDetail.save): the write is refused
   * when the record's location is inactive, then when the quantity is negative,
   * then when the original quantity is negative; otherwise exactly that one
   * record is inserted or replaced and nothing else changes.
   */
  function Save(s: State, key: Key, rec: StockRecord): (r: Result<State>)
    ensures r.Ok? <==> Active(s, key.1) && rec.quantity >= 0 && rec.originalQuantity >= 0
    ensures !Active(s, key.1) ==> r == Err(InactiveLocation(key.1))
    ensures Active(s, key.1) && rec.quantity < 0 ==> r == Err(NegativeQuantity(rec.quantity))
    ensures Active(s, key.1) && rec.quantity >= 0 && rec.originalQuantity < 0
            ==> r == Err(NegativeOriginalQuantity(rec.originalQuantity))
    ensures r.Ok? ==> r.value.locations == s.locations && r.value.moves == s.moves
    ensures r.Ok? ==> r.value.stock.Keys == s.stock.Keys + {key} && r.value.stock[key] == rec
    ensures r.Ok? ==> forall k :: k in s.stock && k != key ==> r.value.stock[k] == s.stock[k]
  {
    if !Active(s, key.1) then Err(InactiveLocation(key.1))
    else if rec.quantity < 0 then Err(NegativeQuantity(rec.quantity))
    else if rec.originalQuantity < 0 then Err(NegativeOriginalQuantity(rec.originalQuantity))
    else Ok(s.(stock := s.stock[key := rec]))
  }

  /**
   * The ledger invariant that the commands keep:
   * - every stock record and every move refers to a known location (foreign keys);
   * - every stored record has both counters non-negative (the write guard);
   * - a location that is not active holds no positive quantity (it was only
   *   deactivated when empty, and inactive locations take no writes);
   * - every logged move carries a positive quantity between two different locations.
   */
  ghost predicate Valid(s: State)
  {
    && (forall k :: k in s.stock ==> k.1 in s.locations)
    && (forall k :: k in s.stock ==> s.stock[k].quantity >= 0 && s.stock[k].originalQuantity >= 0)
    && (forall k :: k in s.stock && !s.locations[k.1] ==> s.stock[k].quantity == 0)
    && (forall i :: 0 <= i < |s.moves| ==> ValidMove(s, s.moves[i]))
  }

  ghost predicate ValidMove(s: State, m: Move)
  {
    m.source in s.locations && m.destination in s.locations &&
    m.source != m.destination && m.quantity > 0
  }
}
