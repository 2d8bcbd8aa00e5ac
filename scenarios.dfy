/**
 * Concrete command sequences and what the ledger reports for them, worked
 * out on the functions of `Locations`, `Stock` and `Transfers`.
 */
module Scenarios {
  import opened Models
  import Locations
  import Stock
  import Transfers
  import Inventory
  import Lex

  /** Registering twice: the second registration is refused. */
  lemma RegisterTwice()
    ensures var t1 := Locations.Register(Empty, "A1");
            && t1.result == Ok(Locations.Created)
            && Locations.Register(t1.next, "A1") == Transition(Err(AlreadyExists("A1")), t1.next)
  {
  }

  /** Decrementing more than is held is refused, reporting 10 available and 15
      required, and the quantity stays 10. */
  lemma OverDecrement()
    ensures var s1 := Locations.Register(Empty, "A1").next;
            var t2 := Stock.Increment(s1, "A1", "SKU1", 10);
            var t3 := Stock.Decrement(t2.next, "A1", "SKU1", 15);
            && t2.result == Ok(10)
            && t3.result == Err(InsufficientQuantity("SKU1", "A1", 10, 15))
            && t3.next.stock[("SKU1", "A1")].quantity == 10
  {
  }

  /** Moving 6 of 10 units leaves 4 at the source, creates a destination record
      holding 6, and logs one move; moving to the same location is refused. */
  lemma TransferSix()
    ensures var s1 := Locations.Register(Locations.Register(Empty, "A1").next, "A2").next;
            var s2 := Stock.Increment(s1, "A1", "SKU1", 10).next;
            var t := Transfers.Transfer(s2, "A1", "A2", "SKU1", 6);
            && t.result == Ok(())
            && t.next.stock[("SKU1", "A1")] == StockRecord(4, 10)
            && t.next.stock[("SKU1", "A2")] == StockRecord(6, 6)
            && t.next.moves == [Move("SKU1", "A1", "A2", 6)]
            && Transfers.Transfer(t.next, "A1", "A1", "SKU1", 1) == Transition(Err(SameLocation("A1")), t.next)
  {
  }

  /** A location holding 4 units of one SKU cannot be unregistered (one record
      holds stock); once that record is brought to zero it can, and the record
      is kept. */
  lemma UnregisterOnceEmpty()
    ensures var s := State(map["A1" := true, "A2" := true], map[("SKU1", "A1") := StockRecord(4, 10)], []);
            var t1 := Locations.Unregister(s, "A1");
            var s2 := Stock.Decrement(s, "A1", "SKU1", 4).next;
            var t3 := Locations.Unregister(s2, "A1");
            && t1 == Transition(Err(HasInventory("A1", 1)), s)
            && t3.result == Ok(())
            && !Active(t3.next, "A1")
            && t3.next.stock == map[("SKU1", "A1") := StockRecord(0, 10)]
  {
    var stock := map[("SKU1", "A1") := StockRecord(4, 10)];
    assert PositiveRecords(stock, "A1") == {("SKU1", "A1")};
  }

  /** The only listing of a location holding 5 of SKU1, 3 of SKU2 and none of
      SKU3 is those two lines, SKU1 first. */
  lemma TwoLineListing(stock: map<Key, StockRecord>, l: Stock.Listing)
    requires stock == map[("SKU2", "A1") := StockRecord(3, 3), ("SKU1", "A1") := StockRecord(5, 5),
                          ("SKU3", "A1") := StockRecord(0, 0)]
    requires Stock.IsListing(stock, "A1", l)
    ensures l == Stock.Items([("SKU1", 5), ("SKU2", 3)])
  {
    var expected := Stock.Items([("SKU1", 5), ("SKU2", 3)]);
    assert Stock.SkusOf(expected.entries) == ["SKU1", "SKU2"];
    assert Lex.Less("SKU1", "SKU2");
    assert PositiveSkus(stock, "A1") == {"SKU1", "SKU2"};
    Stock.ListingUnique(stock, "A1", l, expected);
  }

  /** Observing after stocking two SKUs out of order lists them in SKU order:
      the contract of `Observe` admits no other answer. */
  method ObserveInOrder()
  {
    var ledger := new Inventory.Ledger();
    var registered := ledger.Register("A1");
    assert ledger.locations == map["A1" := true] && ledger.stock == map[];
    var added := ledger.Increment("A1", "SKU2", 3);
    assert ledger.stock == map[("SKU2", "A1") := StockRecord(3, 3)];
    added := ledger.Increment("A1", "SKU1", 5);
    assert ledger.stock == map[("SKU2", "A1") := StockRecord(3, 3), ("SKU1", "A1") := StockRecord(5, 5)];
    added := ledger.Increment("A1", "SKU3", 0);
    assert ledger.stock == map[("SKU2", "A1") := StockRecord(3, 3), ("SKU1", "A1") := StockRecord(5, 5),
                               ("SKU3", "A1") := StockRecord(0, 0)];
    var listing := ledger.Observe("A1");
    TwoLineListing(ledger.stock, listing.value);
    assert listing == Ok(Stock.Items([("SKU1", 5), ("SKU2", 3)]));
  }
}
