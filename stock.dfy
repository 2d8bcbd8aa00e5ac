/**
 * Stock adjustments and the per-location listing
 * (inventory/management/commands/stock_detail.py).
 *
 * INCREMENT creates a record on first use and otherwise adds to both counters;
 * DECREMENT is checked against the location, the record and the available
 * quantity; every write goes through the record's write guard (`Models.Save`),
 * and a refused write leaves the store as it was.
 */
module Stock {
  import opened Models
  import Lex

  /** The quantity before and after a successful decrement. */
  datatype Change = Change(before: int, after: int)

  /** The only difference between `s` and `s'` is the record at `key`. */
  ghost predicate OnlyRecordChanged(s: State, s': State, key: Key)
  {
    && s'.locations == s.locations
    && s'.moves == s.moves
    && s'.stock.Keys == s.stock.Keys + {key}
    && forall k :: k in s.stock && k != key ==> s'.stock[k] == s.stock[k]
  }

  /**
   * INCREMENT: the location must exist and be active. An absent record is
   * created with both counters equal to `amount`; an existing one has `amount`
   * added to both. The sign of `amount` is not checked: the write guard alone
   * refuses a result with a negative counter.
   */
  function Increment(s: State, loc: LocationId, sku: Sku, amount: int): (t: Transition<int>)
    ensures !Active(s, loc) ==> t == Transition(Err(LocationNotFound(loc)), s)
    ensures t.result.Err? ==> t.next == s
    ensures t.result.Ok? ==>
              && OnlyRecordChanged(s, t.next, (sku, loc))
              && t.result.value == t.next.stock[(sku, loc)].quantity >= 0
    ensures Active(s, loc) && (sku, loc) !in s.stock ==>
              (t.result.Ok? <==> amount >= 0) &&
              (t.result.Err? ==> t.result.error == NegativeQuantity(amount)) &&
              (t.result.Ok? ==> t.next.stock[(sku, loc)] == StockRecord(amount, amount))
    ensures Active(s, loc) && (sku, loc) in s.stock ==>
              var cur := s.stock[(sku, loc)];
              (t.result.Ok? <==> cur.quantity + amount >= 0 && cur.originalQuantity + amount >= 0) &&
              (t.result.Ok? ==> t.next.stock[(sku, loc)] ==
                                  StockRecord(cur.quantity + amount, cur.originalQuantity + amount)) &&
              (t.result.Err? && cur.quantity + amount < 0 ==>
                 t.result.error == NegativeQuantity(cur.quantity + amount)) &&
              (t.result.Err? && cur.quantity + amount >= 0 ==>
                 t.result.error == NegativeOriginalQuantity(cur.originalQuantity + amount))
  {
    if !Active(s, loc) then Transition(Err(LocationNotFound(loc)), s)
    else
      var key := (sku, loc);
      var rec :=
        if key in s.stock then
          StockRecord(s.stock[key].quantity + amount, s.stock[key].originalQuantity + amount)
        else
          StockRecord(amount, amount);
      match Save(s, key, rec)
      case Ok(s') => Transition(Ok(rec.quantity), s')
      case Err(e) => Transition(Err(e), s)
  }

  /**
   * DECREMENT: refused, with nothing changed, when the location is missing or
   * inactive, then when the record is missing, then when the quantity is below
   * `amount` (reporting both numbers). Otherwise the quantity drops by `amount`
   * and the original quantity stays.
   */
  function Decrement(s: State, loc: LocationId, sku: Sku, amount: int): (t: Transition<Change>)
    ensures t.result.Err? ==> t.next == s
    ensures !Active(s, loc) ==> t.result == Err(LocationNotFound(loc))
    ensures Active(s, loc) && (sku, loc) !in s.stock ==> t.result == Err(ItemNotFound(sku, loc))
    ensures Active(s, loc) && (sku, loc) in s.stock && s.stock[(sku, loc)].quantity < amount ==>
              t.result == Err(InsufficientQuantity(sku, loc, s.stock[(sku, loc)].quantity, amount))
    ensures t.result.Ok? ==>
              && (sku, loc) in s.stock
              && var cur := s.stock[(sku, loc)];
              && OnlyRecordChanged(s, t.next, (sku, loc))
              && t.result.value == Change(cur.quantity, cur.quantity - amount)
              && t.next.stock[(sku, loc)] == StockRecord(cur.quantity - amount, cur.originalQuantity)
              && t.next.stock[(sku, loc)].quantity >= 0
    ensures Valid(s) ==>
              (t.result.Ok? <==> Active(s, loc) && (sku, loc) in s.stock && s.stock[(sku, loc)].quantity >= amount)
  {
    var key := (sku, loc);
    if !Active(s, loc) then Transition(Err(LocationNotFound(loc)), s)
    else if key !in s.stock then Transition(Err(ItemNotFound(sku, loc)), s)
    else if s.stock[key].quantity < amount then
      Transition(Err(InsufficientQuantity(sku, loc, s.stock[key].quantity, amount)), s)
    else
      var rec := s.stock[key].(quantity := s.stock[key].quantity - amount);
      match Save(s, key, rec)
      case Ok(s') => Transition(Ok(Change(s.stock[key].quantity, rec.quantity)), s')
      case Err(e) => Transition(Err(e), s)
  }

  /** A write at an active location keeps the invariant when the record written
      has non-negative counters, which `Save` guarantees. */
  lemma SavePreservesValid(s: State, key: Key, rec: StockRecord)
    requires Valid(s) && Save(s, key, rec).Ok?
    ensures Valid(Save(s, key, rec).value)
  {
  }

  lemma IncrementPreservesValid(s: State, loc: LocationId, sku: Sku, amount: int)
    requires Valid(s)
    ensures Valid(Increment(s, loc, sku, amount).next)
  {
  }

  lemma DecrementPreservesValid(s: State, loc: LocationId, sku: Sku, amount: int)
    requires Valid(s)
    ensures Valid(Decrement(s, loc, sku, amount).next)
  {
  }

  /** A decrement undoes an increment of the same amount on an existing record:
      the quantity is back where it was, while the original quantity keeps the
      amount that was added. */
  lemma IncrementThenDecrement(s: State, loc: LocationId, sku: Sku, amount: int)
    requires Valid(s) && amount >= 0 && Active(s, loc) && (sku, loc) in s.stock
    ensures var s1 := Increment(s, loc, sku, amount).next;
            var t := Decrement(s1, loc, sku, amount);
            && t.result == Ok(Change(s.stock[(sku, loc)].quantity + amount, s.stock[(sku, loc)].quantity))
            && t.next.stock[(sku, loc)] ==
                 s.stock[(sku, loc)].(originalQuantity := s.stock[(sku, loc)].originalQuantity + amount)
  {
  }

  /** Because the sign of an increment is not checked, a negative amount that
      keeps both counters non-negative is accepted and lowers the original
      quantity, which is therefore not a lifetime total of stock received. */
  lemma NegativeIncrementLowersOriginal(s: State, loc: LocationId, sku: Sku, amount: int)
    requires Active(s, loc) && (sku, loc) in s.stock && amount < 0
    requires s.stock[(sku, loc)].quantity + amount >= 0 && s.stock[(sku, loc)].originalQuantity + amount >= 0
    ensures var t := Increment(s, loc, sku, amount);
            && t.result == Ok(s.stock[(sku, loc)].quantity + amount)
            && t.next.stock[(sku, loc)].originalQuantity < s.stock[(sku, loc)].originalQuantity
  {
  }

  /** An instance: 5 on hand out of 10 received, incremented by -3. */
  lemma NegativeIncrementExample()
    ensures var s := State(map["A1" := true], map[("SKU1", "A1") := StockRecord(5, 10)], []);
            Increment(s, "A1", "SKU1", -3) ==
              Transition(Ok(2), s.(stock := map[("SKU1", "A1") := StockRecord(2, 7)]))
  {
  }

  // ---------------------------------------------------------------------------
  // OBSERVE: the listing of one location.

  /** What OBSERVE reports for an active location: the distinct EMPTY marker,
      or the (SKU, quantity) lines in order. */
  datatype Listing = NoItems | Items(entries: seq<(Sku, int)>)

  /** The SKU column of a listing. */
  function SkusOf(entries: seq<(Sku, int)>): (skus: seq<Sku>)
    ensures |skus| == |entries|
    ensures forall i :: 0 <= i < |entries| ==> skus[i] == entries[i].0
  {
    if entries == [] then [] else [entries[0].0] + SkusOf(entries[1..])
  }

  lemma SkusOfAppend(entries: seq<(Sku, int)>, e: (Sku, int))
    ensures SkusOf(entries + [e]) == SkusOf(entries) + [e.0]
  {
  }

  /**
   * `l` lists exactly the records at `loc` with a positive quantity, each with
   * its quantity, in strictly ascending SKU order; NoItems when there are none.
   */
  ghost predicate IsListing(stock: map<Key, StockRecord>, loc: LocationId, l: Listing)
  {
    match l
    case NoItems => PositiveSkus(stock, loc) == {}
    case Items(entries) =>
      && entries != []
      && Lex.StrictlyAscending(SkusOf(entries))
      && (forall i :: 0 <= i < |entries| ==>
            (entries[i].0, loc) in stock && entries[i].1 == stock[(entries[i].0, loc)].quantity > 0)
      && (forall sku :: sku in PositiveSkus(stock, loc) ==> sku in SkusOf(entries))
  }

  /** A listing with lines means the location holds something. */
  lemma ListingNotEmpty(stock: map<Key, StockRecord>, loc: LocationId, l: Listing)
    requires l.Items? && IsListing(stock, loc, l)
    ensures PositiveSkus(stock, loc) != {}
  {
  }

  /** There is only one listing of a location: OBSERVE's output is determined
      by the store. */
  lemma {:induction false} ListingUnique(stock: map<Key, StockRecord>, loc: LocationId, l1: Listing, l2: Listing)
    requires IsListing(stock, loc, l1) && IsListing(stock, loc, l2)
    ensures l1 == l2
  {
    match l1
    case NoItems =>
      if l2.Items? {
        ListingNotEmpty(stock, loc, l2);
      }
    case Items(es1) =>
      ListingNotEmpty(stock, loc, l1);
      var es2 := l2.entries;
      var xs, ys := SkusOf(es1), SkusOf(es2);
      forall z
        ensures z in xs <==> z in ys
      {
        if z in xs {
          var i :| 0 <= i < |xs| && xs[i] == z;
          assert z in PositiveSkus(stock, loc);
        }
        if z in ys {
          var i :| 0 <= i < |ys| && ys[i] == z;
          assert z in PositiveSkus(stock, loc);
        }
      }
      Lex.AscendingUnique(xs, ys);
      assert |es1| == |es2|;
      forall i | 0 <= i < |es1|
        ensures es1[i] == es2[i]
      {
        assert xs[i] == ys[i];
      }
  }

  /** Stock records at one location are told apart by their SKU alone. */
  lemma {:induction false} SkusOfKeys(keys: set<Key>, loc: LocationId)
    requires forall k :: k in keys ==> k.1 == loc
    ensures |set k | k in keys :: k.0| == |keys|
    decreases |keys|
  {
    if keys != {} {
      var k :| k in keys;
      var rest := keys - {k};
      SkusOfKeys(rest, loc);
      assert k.0 !in (set x | x in rest :: x.0);
      assert (set x | x in keys :: x.0) == (set x | x in rest :: x.0) + {k.0};
    }
  }

  /** Each record holding stock at `loc` is one SKU held there. */
  lemma PositiveCountsAgree(stock: map<Key, StockRecord>, loc: LocationId)
    ensures |PositiveRecords(stock, loc)| == |PositiveSkus(stock, loc)|
  {
    SkusOfKeys(PositiveRecords(stock, loc), loc);
    assert PositiveSkus(stock, loc) == set k | k in PositiveRecords(stock, loc) :: k.0;
  }

  /** The number of records UNREGISTER reports as still holding stock is the
      number of lines OBSERVE lists for the location. */
  lemma ListingCountsHeld(stock: map<Key, StockRecord>, loc: LocationId, l: Listing)
    requires IsListing(stock, loc, l)
    ensures |PositiveRecords(stock, loc)| == if l.NoItems? then 0 else |l.entries|
  {
    PositiveCountsAgree(stock, loc);
    if l.Items? {
      var xs := SkusOf(l.entries);
      Lex.AscendingDistinct(xs);
      assert (set x | x in xs) == PositiveSkus(stock, loc) by {
        forall z | z in xs
          ensures z in PositiveSkus(stock, loc)
        {
          var i :| 0 <= i < |xs| && xs[i] == z;
        }
      }
    }
  }
}
