/**
 * Any sequence of ledger commands, applied one after another.
 *
 * The invariant of `Models.Valid` holds after every command, the move log only
 * grows, no location and no stock record ever disappears, and, as long as no
 * increment carries a negative amount, no original quantity ever decreases.
 */
module History {
  import opened Models
  import Locations
  import Stock
  import Transfers

  /** The state-changing commands; OBSERVE only reads and is not among them. */
  datatype Command =
    | Register(loc: LocationId)
    | Unregister(loc: LocationId)
    | Increment(loc: LocationId, sku: Sku, amount: int)
    | Decrement(loc: LocationId, sku: Sku, amount: int)
    | Transfer(src: LocationId, dst: LocationId, sku: Sku, quantity: int)

  /** The store after one command, whatever it reported. */
  function Apply(s: State, c: Command): (s': State)
  {
    match c
    case Register(loc) => Locations.Register(s, loc).next
    case Unregister(loc) => Locations.Unregister(s, loc).next
    case Increment(loc, sku, amount) => Stock.Increment(s, loc, sku, amount).next
    case Decrement(loc, sku, amount) => Stock.Decrement(s, loc, sku, amount).next
    case Transfer(src, dst, sku, q) => Transfers.Transfer(s, src, dst, sku, q).next
  }

  /** The store after the commands in order. */
  function Run(s: State, cs: seq<Command>): (s': State)
    decreases |cs|
  {
    if cs == [] then s else Run(Apply(s, cs[0]), cs[1..])
  }

  /** No increment in `cs` has a negative amount. */
  predicate NonNegativeIncrements(cs: seq<Command>)
  {
    forall i :: 0 <= i < |cs| && cs[i].Increment? ==> cs[i].amount >= 0
  }

  /** Every command of `cs` is an increment or a decrement of `sku` at `loc`. */
  predicate OnlyAdjusts(cs: seq<Command>, loc: LocationId, sku: Sku)
  {
    forall i :: 0 <= i < |cs| ==> (cs[i].Increment? || cs[i].Decrement?) && cs[i].loc == loc && cs[i].sku == sku
  }

  /** The sum of the amounts of the increments that were accepted during the
      run, minus that of the decrements that were accepted; refused commands
      contribute nothing. */
  function AcceptedNet(s: State, cs: seq<Command>): (n: int)
    decreases |cs|
  {
    if cs == [] then 0
    else
      var delta :=
        match cs[0]
        case Increment(loc, sku, amount) => if Stock.Increment(s, loc, sku, amount).result.Ok? then amount else 0
        case Decrement(loc, sku, amount) => if Stock.Decrement(s, loc, sku, amount).result.Ok? then -amount else 0
        case _ => 0;
      delta + AcceptedNet(Apply(s, cs[0]), cs[1..])
  }

  /** The sum of the amounts of the increments that were accepted during the
      run; decrements and refused commands contribute nothing. */
  function AcceptedIncrements(s: State, cs: seq<Command>): (n: int)
    decreases |cs|
  {
    if cs == [] then 0
    else
      var delta :=
        match cs[0]
        case Increment(loc, sku, amount) => if Stock.Increment(s, loc, sku, amount).result.Ok? then amount else 0
        case _ => 0;
      delta + AcceptedIncrements(Apply(s, cs[0]), cs[1..])
  }

  /** `s'` keeps every location and record of `s`, and the log of `s` is a prefix of that of `s'`. */
  ghost predicate Extends(s: State, s': State)
  {
    && s.locations.Keys <= s'.locations.Keys
    && s.stock.Keys <= s'.stock.Keys
    && s.moves <= s'.moves
  }

  /** No original quantity of `s` is lower in `s'`. */
  ghost predicate OriginalsKept(s: State, s': State)
  {
    forall k :: k in s.stock && k in s'.stock ==> s'.stock[k].originalQuantity >= s.stock[k].originalQuantity
  }

  lemma ApplyPreservesValid(s: State, c: Command)
    requires Valid(s)
    ensures Valid(Apply(s, c))
  {
    match c
    case Register(loc) => Locations.RegisterPreservesValid(s, loc);
    case Unregister(loc) => Locations.UnregisterPreservesValid(s, loc);
    case Increment(loc, sku, amount) => Stock.IncrementPreservesValid(s, loc, sku, amount);
    case Decrement(loc, sku, amount) => Stock.DecrementPreservesValid(s, loc, sku, amount);
    case Transfer(src, dst, sku, q) => Transfers.TransferPreservesValid(s, src, dst, sku, q);
  }

  lemma ApplyExtends(s: State, c: Command)
    ensures Extends(s, Apply(s, c))
    ensures c.Increment? ==> c.amount >= 0 ==> OriginalsKept(s, Apply(s, c))
    ensures !c.Increment? ==> OriginalsKept(s, Apply(s, c))
  {
  }

  /** Starting from a valid store, every run ends in a valid store: no stored
      counter is ever negative and no inactive location holds stock. */
  lemma {:induction false} RunPreservesValid(s: State, cs: seq<Command>)
    requires Valid(s)
    ensures Valid(Run(s, cs))
    decreases |cs|
  {
    if cs != [] {
      ApplyPreservesValid(s, cs[0]);
      RunPreservesValid(Apply(s, cs[0]), cs[1..]);
    }
  }

  /** Locations are never removed, stock records are never deleted, and the
      move log is append-only. */
  lemma {:induction false} RunExtends(s: State, cs: seq<Command>)
    ensures Extends(s, Run(s, cs))
    decreases |cs|
  {
    if cs != [] {
      ApplyExtends(s, cs[0]);
      RunExtends(Apply(s, cs[0]), cs[1..]);
    }
  }

  /** Without negative increments, original quantities never decrease. */
  lemma {:induction false} RunKeepsOriginals(s: State, cs: seq<Command>)
    requires NonNegativeIncrements(cs)
    ensures OriginalsKept(s, Run(s, cs))
    decreases |cs|
  {
    if cs != [] {
      var s1 := Apply(s, cs[0]);
      ApplyExtends(s, cs[0]);
      assert NonNegativeIncrements(cs[1..]) by {
        forall i | 0 <= i < |cs[1..]| && cs[1..][i].Increment?
          ensures cs[1..][i].amount >= 0
        {
          assert cs[1..][i] == cs[i + 1];
        }
      }
      RunKeepsOriginals(s1, cs[1..]);
      RunExtends(s1, cs[1..]);
    }
  }

  /** Over any run of increments and decrements of one SKU at one location, the
      final quantity is the initial one (zero for a record not yet created)
      plus the accepted increments minus the accepted decrements. */
  lemma {:induction false} QuantityIsAcceptedNet(s: State, cs: seq<Command>, loc: LocationId, sku: Sku)
    requires OnlyAdjusts(cs, loc, sku)
    ensures QuantityAt(Run(s, cs), sku, loc) == QuantityAt(s, sku, loc) + AcceptedNet(s, cs)
    decreases |cs|
  {
    if cs != [] {
      assert cs[0].loc == loc && cs[0].sku == sku;
      assert OnlyAdjusts(cs[1..], loc, sku) by {
        forall i | 0 <= i < |cs[1..]|
          ensures (cs[1..][i].Increment? || cs[1..][i].Decrement?) && cs[1..][i].loc == loc && cs[1..][i].sku == sku
        {
          assert cs[1..][i] == cs[i + 1];
        }
      }
      QuantityIsAcceptedNet(Apply(s, cs[0]), cs[1..], loc, sku);
    }
  }

  /** Over any run of increments and decrements of one SKU at one location, the
      final original quantity is the initial one (zero for a record not yet
      created) plus the accepted increments: decrements never change it. */
  lemma {:induction false} OriginalIsAcceptedIncrements(s: State, cs: seq<Command>, loc: LocationId, sku: Sku)
    requires OnlyAdjusts(cs, loc, sku)
    ensures OriginalAt(Run(s, cs), sku, loc) == OriginalAt(s, sku, loc) + AcceptedIncrements(s, cs)
    decreases |cs|
  {
    if cs != [] {
      assert cs[0].loc == loc && cs[0].sku == sku;
      assert OnlyAdjusts(cs[1..], loc, sku) by {
        forall i | 0 <= i < |cs[1..]|
          ensures (cs[1..][i].Increment? || cs[1..][i].Decrement?) && cs[1..][i].loc == loc && cs[1..][i].sku == sku
        {
          assert cs[1..][i] == cs[i + 1];
        }
      }
      OriginalIsAcceptedIncrements(Apply(s, cs[0]), cs[1..], loc, sku);
    }
  }
}
