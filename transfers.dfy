/**
 * Moving stock between two locations
 * (inventory/management/commands/move_inventory.py).
 *
 * A chain of checks, each reporting its own failure and the first failing one
 * winning, then two writes (the source leg and the destination leg) and one
 * appended move, all inside one transaction: if either write is refused by the
 * write guard, the store is rolled back to where it was.
 */
module Transfers {
  import opened Models

  /** All of TRANSFER's checks pass. */
  predicate Admissible(s: State, src: LocationId, dst: LocationId, sku: Sku, q: int)
  {
    && Active(s, src) && Active(s, dst) && src != dst && q > 0
    && (sku, src) in s.stock && s.stock[(sku, src)].quantity >= q
  }

  /**
   * TRANSFER of `q` units of `sku` from `src` to `dst`. The checks run in this
   * order: source active, destination active, different locations, positive
   * quantity, record present at the source, enough quantity there.
   */
  function Transfer(s: State, src: LocationId, dst: LocationId, sku: Sku, q: int): (t: Transition<()>)
    // The first failing check decides the error.
    ensures !Active(s, src) ==> t.result == Err(SourceNotFound(src))
    ensures Active(s, src) && !Active(s, dst) ==> t.result == Err(DestinationNotFound(dst))
    ensures Active(s, src) && Active(s, dst) && src == dst ==> t.result == Err(SameLocation(src))
    ensures Active(s, src) && Active(s, dst) && src != dst && q <= 0 ==> t.result == Err(InvalidQuantity(q))
    ensures Active(s, src) && Active(s, dst) && src != dst && q > 0 && (sku, src) !in s.stock ==>
              t.result == Err(ItemNotFound(sku, src))
    ensures Active(s, src) && Active(s, dst) && src != dst && q > 0 && (sku, src) in s.stock &&
            s.stock[(sku, src)].quantity < q ==>
              t.result == Err(InsufficientQuantity(sku, src, s.stock[(sku, src)].quantity, q))
    // All or nothing.
    ensures t.result.Err? ==> t.next == s
    ensures t.result.Ok? ==> Admissible(s, src, dst, sku, q)
    // On a valid store the write guard never objects to an admissible transfer.
    ensures Valid(s) && Admissible(s, src, dst, sku, q) ==> t.result.Ok?
  {
    if !Active(s, src) then Transition(Err(SourceNotFound(src)), s)
    else if !Active(s, dst) then Transition(Err(DestinationNotFound(dst)), s)
    else if src == dst then Transition(Err(SameLocation(src)), s)
    else if q <= 0 then Transition(Err(InvalidQuantity(q)), s)
    else if (sku, src) !in s.stock then Transition(Err(ItemNotFound(sku, src)), s)
    else if s.stock[(sku, src)].quantity < q then
      Transition(Err(InsufficientQuantity(sku, src, s.stock[(sku, src)].quantity, q)), s)
    else Commit(s, src, dst, sku, q)
  }

  /**
   * The writes of an admissible transfer, in one transaction: the source leg,
   * then the destination leg (creating the record if absent), then the move
   * record. A write refused by the guard rolls everything back.
   */
  function Commit(s: State, src: LocationId, dst: LocationId, sku: Sku, q: int): (t: Transition<()>)
    requires Admissible(s, src, dst, sku, q)
    ensures t.result.Err? ==> t.next == s
    ensures Valid(s) ==> t.result.Ok?
  {
    var outbound := s.stock[(sku, src)];
    match Save(s, (sku, src), outbound.(quantity := outbound.quantity - q))
    case Err(e) => Transition(Err(e), s)
    case Ok(s1) =>
      var inbound :=
        if (sku, dst) in s1.stock then s1.stock[(sku, dst)].(quantity := s1.stock[(sku, dst)].quantity + q)
        else StockRecord(q, q);
      match Save(s1, (sku, dst), inbound)
      case Err(e) => Transition(Err(e), s)
      case Ok(s2) => Transition(Ok(()), s2.(moves := s2.moves + [Move(sku, src, dst, q)]))
  }

  /**
   * What a successful transfer does: the source loses `q`, the destination
   * gains `q` (a new destination record starts with both counters at `q`), no
   * original quantity already stored changes, no other record and no location
   * changes, and exactly one move is appended to the log.
   */
  lemma TransferEffect(s: State, src: LocationId, dst: LocationId, sku: Sku, q: int)
    requires Transfer(s, src, dst, sku, q).result.Ok?
    ensures var s' := Transfer(s, src, dst, sku, q).next;
            && (sku, src) in s.stock && (sku, src) in s'.stock && (sku, dst) in s'.stock
            && s'.stock[(sku, src)] == s.stock[(sku, src)].(quantity := s.stock[(sku, src)].quantity - q)
            && ((sku, dst) in s.stock ==>
                  s'.stock[(sku, dst)] == s.stock[(sku, dst)].(quantity := s.stock[(sku, dst)].quantity + q))
            && ((sku, dst) !in s.stock ==> s'.stock[(sku, dst)] == StockRecord(q, q))
            && s'.stock.Keys == s.stock.Keys + {(sku, dst)}
            && (forall k :: k in s.stock && k != (sku, src) && k != (sku, dst) ==> s'.stock[k] == s.stock[k])
            && s'.locations == s.locations
            && s'.moves == s.moves + [Move(sku, src, dst, q)]
  {
  }

  /** A successful transfer conserves the quantity of the SKU held by the two
      locations together. */
  lemma TransferConserves(s: State, src: LocationId, dst: LocationId, sku: Sku, q: int)
    requires Transfer(s, src, dst, sku, q).result.Ok?
    ensures var s' := Transfer(s, src, dst, sku, q).next;
            QuantityAt(s', sku, src) + QuantityAt(s', sku, dst) == QuantityAt(s, sku, src) + QuantityAt(s, sku, dst)
  {
  }

  lemma TransferPreservesValid(s: State, src: LocationId, dst: LocationId, sku: Sku, q: int)
    requires Valid(s)
    ensures Valid(Transfer(s, src, dst, sku, q).next)
  {
  }
}
