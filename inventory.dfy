/**
 * The ledger as the commands run it: one store whose three tables are
 * updated in place, one method per command.
 *
 * Each method follows its command step by step (the guards with early exits,
 * the field updates, the guarded writes) and is proved to make exactly the
 * transition that the matching function of `Locations`, `Stock` or
 * `Transfers` describes, so every property proved there holds of it.
 */
module Inventory {
  import opened Models
  import Lex
  import Locations
  import Stock
  import Transfers

  class Ledger {
    var locations: map<LocationId, bool>
    var stock: map<Key, StockRecord>
    var moves: seq<Move>

    /** The three tables as one value. */
    function Snapshot(): (s: State)
      reads this
    {
      State(locations, stock, moves)
    }

    ghost predicate Valid()
      reads this
    {
      Models.Valid(Snapshot())
    }

    constructor ()
      ensures Snapshot() == Empty && Valid()
    {
      locations, stock, moves := map[], map[], [];
    }

    /** StockDetail.save: the three checks, then the one write. */
    method Save(key: Key, rec: StockRecord) returns (r: Result<()>)
      modifies this
      ensures Models.Save(old(Snapshot()), key, rec).Ok? ==>
                r == Ok(()) && Snapshot() == Models.Save(old(Snapshot()), key, rec).value
      ensures Models.Save(old(Snapshot()), key, rec).Err? ==>
                r == Err(Models.Save(old(Snapshot()), key, rec).error) && Snapshot() == old(Snapshot())
    {
      if !(key.1 in locations && locations[key.1]) {
        return Err(InactiveLocation(key.1));
      }
      if rec.quantity < 0 {
        return Err(NegativeQuantity(rec.quantity));
      }
      if rec.originalQuantity < 0 {
        return Err(NegativeOriginalQuantity(rec.originalQuantity));
      }
      stock := stock[key := rec];
      r := Ok(());
    }

    /** LOCATION REGISTER */
    method Register(loc: LocationId) returns (r: Result<Locations.Registration>)
      modifies this
      ensures Transition(r, Snapshot()) == Locations.Register(old(Snapshot()), loc)
      ensures old(Valid()) ==> Valid()
    {
      if loc in locations {
        if locations[loc] {
          return Err(AlreadyExists(loc));
        }
        // Reactivate the same record.
        locations := locations[loc := true];
        r := Ok(Locations.Reactivated);
      } else {
        locations := locations[loc := true];
        r := Ok(Locations.Created);
      }
      if old(Valid()) {
        Locations.RegisterPreservesValid(old(Snapshot()), loc);
      }
    }

    /** LOCATION UNREGISTER */
    method Unregister(loc: LocationId) returns (r: Result<()>)
      modifies this
      ensures Transition(r, Snapshot()) == Locations.Unregister(old(Snapshot()), loc)
      ensures old(Valid()) ==> Valid()
    {
      if loc !in locations {
        return Err(LocationNotFound(loc));
      }
      var held := PositiveRecords(stock, loc);
      if |held| > 0 {
        return Err(HasInventory(loc, |held|));
      }
      locations := locations[loc := false];
      r := Ok(());
      if old(Valid()) {
        Locations.UnregisterPreservesValid(old(Snapshot()), loc);
      }
    }

    /** INVENTORY INCREMENT */
    method Increment(loc: LocationId, sku: Sku, amount: int) returns (r: Result<int>)
      modifies this
      ensures Transition(r, Snapshot()) == Stock.Increment(old(Snapshot()), loc, sku, amount)
      ensures old(Valid()) ==> Valid()
    {
      if !(loc in locations && locations[loc]) {
        return Err(LocationNotFound(loc));
      }
      var key := (sku, loc);
      var rec: StockRecord;
      if key !in stock {
        rec := StockRecord(amount, amount);
      } else {
        rec := stock[key];
        rec := rec.(quantity := rec.quantity + amount, originalQuantity := rec.originalQuantity + amount);
      }
      var saved := Save(key, rec);
      if saved.Err? {
        return Err(saved.error);
      }
      r := Ok(rec.quantity);
      if old(Valid()) {
        Stock.IncrementPreservesValid(old(Snapshot()), loc, sku, amount);
      }
    }

    /** INVENTORY DECREMENT */
    method Decrement(loc: LocationId, sku: Sku, amount: int) returns (r: Result<Stock.Change>)
      modifies this
      ensures Transition(r, Snapshot()) == Stock.Decrement(old(Snapshot()), loc, sku, amount)
      ensures old(Valid()) ==> Valid()
    {
      if !(loc in locations && locations[loc]) {
        return Err(LocationNotFound(loc));
      }
      var key := (sku, loc);
      if key !in stock {
        return Err(ItemNotFound(sku, loc));
      }
      var rec := stock[key];
      if rec.quantity < amount {
        return Err(InsufficientQuantity(sku, loc, rec.quantity, amount));
      }
      var before := rec.quantity;
      rec := rec.(quantity := rec.quantity - amount);
      var saved := Save(key, rec);
      if saved.Err? {
        return Err(saved.error);
      }
      r := Ok(Stock.Change(before, rec.quantity));
      if old(Valid()) {
        Stock.DecrementPreservesValid(old(Snapshot()), loc, sku, amount);
      }
    }

    /**
     * INVENTORY OBSERVE: reads only. The records at the location with a
     * positive quantity are produced least SKU first, as an ordered query
     * hands them out.
     */
    method Observe(loc: LocationId) returns (r: Result<Stock.Listing>)
      ensures !Active(Snapshot(), loc) ==> r == Err(LocationNotFound(loc))
      ensures Active(Snapshot(), loc) ==> r.Ok? && Stock.IsListing(stock, loc, r.value)
    {
      if !(loc in locations && locations[loc]) {
        return Err(LocationNotFound(loc));
      }
      var pending := PositiveSkus(stock, loc);
      var entries: seq<(Sku, int)> := [];
      while pending != {}
        invariant pending <= PositiveSkus(stock, loc)
        invariant Lex.StrictlyAscending(Stock.SkusOf(entries))
        invariant forall i :: 0 <= i < |entries| ==>
                    (entries[i].0, loc) in stock && entries[i].1 == stock[(entries[i].0, loc)].quantity > 0
        invariant forall sku :: sku in PositiveSkus(stock, loc) ==> sku in pending || sku in Stock.SkusOf(entries)
        invariant forall i, x :: 0 <= i < |entries| && x in pending ==> Lex.Less(entries[i].0, x)
        decreases pending
      {
        Lex.LeastExists(pending);
        var next :| next in pending && forall x :: x in pending ==> !Lex.Less(x, next);
        forall x | x in pending && x != next
          ensures Lex.Less(next, x)
        {
          Lex.LessTotal(next, x);
        }
        Stock.SkusOfAppend(entries, (next, stock[(next, loc)].quantity));
        entries := entries + [(next, stock[(next, loc)].quantity)];
        pending := pending - {next};
      }
      if entries == [] {
        r := Ok(Stock.NoItems);
      } else {
        r := Ok(Stock.Items(entries));
      }
    }

    /** INVENTORY TRANSFER, inside one transaction. */
    method Transfer(src: LocationId, dst: LocationId, sku: Sku, q: int) returns (r: Result<()>)
      modifies this
      ensures Transition(r, Snapshot()) == Transfers.Transfer(old(Snapshot()), src, dst, sku, q)
      ensures old(Valid()) ==> Valid()
    {
      if !(src in locations && locations[src]) {
        return Err(SourceNotFound(src));
      }
      if !(dst in locations && locations[dst]) {
        return Err(DestinationNotFound(dst));
      }
      if src == dst {
        return Err(SameLocation(src));
      }
      if q <= 0 {
        return Err(InvalidQuantity(q));
      }
      if (sku, src) !in stock {
        return Err(ItemNotFound(sku, src));
      }
      var outbound := stock[(sku, src)];
      if outbound.quantity < q {
        return Err(InsufficientQuantity(sku, src, outbound.quantity, q));
      }
      r := Commit(src, dst, sku, q);
      if old(Valid()) {
        Transfers.TransferPreservesValid(old(Snapshot()), src, dst, sku, q);
      }
    }

    /** The writes of an admissible transfer; everything here commits together
        or is rolled back to the stock table as it was on entry. */
    method Commit(src: LocationId, dst: LocationId, sku: Sku, q: int) returns (r: Result<()>)
      requires Transfers.Admissible(Snapshot(), src, dst, sku, q)
      modifies this
      ensures Transition(r, Snapshot()) == Transfers.Commit(old(Snapshot()), src, dst, sku, q)
    {
      var before := stock;
      var outbound := stock[(sku, src)];
      outbound := outbound.(quantity := outbound.quantity - q);
      var saved := Save((sku, src), outbound);
      if saved.Err? {
        stock := before;
        return Err(saved.error);
      }
      var inbound: StockRecord;
      if (sku, dst) in stock {
        inbound := stock[(sku, dst)];
        inbound := inbound.(quantity := inbound.quantity + q);
      } else {
        inbound := StockRecord(q, q);
      }
      saved := Save((sku, dst), inbound);
      if saved.Err? {
        stock := before;
        return Err(saved.error);
      }
      moves := moves + [Move(sku, src, dst, q)];
      r := Ok(());
    }
  }
}
