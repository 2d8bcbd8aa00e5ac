/**
 * Location lifecycle (inventory/management/commands/location_master.py):
 * registering creates or reactivates a location, unregistering deactivates an
 * empty one. Locations are never removed, so an id always denotes the same
 * record.
 */
module Locations {
  import opened Models

  /** The two ways a registration succeeds. */
  datatype Registration = Created | Reactivated

  /** Every location other than `loc`, and the stock and the move log, are left as they were. */
  ghost predicate OnlyLocationChanged(s: State, s': State, loc: LocationId)
  {
    && s'.stock == s.stock
    && s'.moves == s.moves
    && s'.locations.Keys == s.locations.Keys + {loc}
    && forall other :: other in s.locations && other != loc ==> s'.locations[other] == s.locations[other]
  }

  /**
   * REGISTER: an id that is already active is refused; an inactive one is
   * switched back on in place; an unknown one becomes a new active location.
   */
  function Register(s: State, loc: LocationId): (t: Transition<Registration>)
    ensures Active(s, loc) ==> t == Transition(Err(AlreadyExists(loc)), s)
    ensures loc in s.locations && !Active(s, loc) ==> t.result == Ok(Reactivated)
    ensures loc !in s.locations ==> t.result == Ok(Created)
    ensures t.result.Ok? ==> Active(t.next, loc) && OnlyLocationChanged(s, t.next, loc)
  {
    if loc in s.locations then
      if s.locations[loc] then Transition(Err(AlreadyExists(loc)), s)
      else Transition(Ok(Reactivated), s.(locations := s.locations[loc := true]))
    else Transition(Ok(Created), s.(locations := s.locations[loc := true]))
  }

  /**
   * UNREGISTER: an unknown id is refused; a location still holding a positive
   * quantity of anything is refused with the number of such records; otherwise
   * the location is marked inactive and kept, together with all its records.
   * The status is not consulted, so an inactive empty location can be
   * unregistered again.
   */
  function Unregister(s: State, loc: LocationId): (t: Transition<()>)
    ensures loc !in s.locations ==> t == Transition(Err(LocationNotFound(loc)), s)
    ensures loc in s.locations ==>
              (t.result.Err? <==> exists sku :: (sku, loc) in s.stock && s.stock[(sku, loc)].quantity > 0)
    ensures loc in s.locations && t.result.Err? ==>
              t.next == s && t.result.error == HasInventory(loc, |PositiveRecords(s.stock, loc)|)
    ensures t.result.Ok? ==> !Active(t.next, loc) && loc in t.next.locations && OnlyLocationChanged(s, t.next, loc)
  {
    if loc !in s.locations then Transition(Err(LocationNotFound(loc)), s)
    else
      var held := PositiveRecords(s.stock, loc);
      if |held| > 0 then
        Transition(Err(HasInventory(loc, |held|)), s)
      else
        Transition(Ok(()), s.(locations := s.locations[loc := false]))
  }

  lemma RegisterPreservesValid(s: State, loc: LocationId)
    requires Valid(s)
    ensures Valid(Register(s, loc).next)
  {
  }

  lemma UnregisterPreservesValid(s: State, loc: LocationId)
    requires Valid(s)
    ensures Valid(Unregister(s, loc).next)
  {
  }

  /** A successful unregister can be repeated: the second call succeeds too and
      changes nothing further. */
  lemma UnregisterIdempotent(s: State, loc: LocationId)
    requires Unregister(s, loc).result.Ok?
    ensures Unregister(Unregister(s, loc).next, loc) == Transition(Ok(()), Unregister(s, loc).next)
  {
  }

  /** Unregistering and then registering the same id brings back the same
      location record with its stock records kept: the store differs from the
      original only in that the location is now active. */
  lemma ReRegisterRestores(s: State, loc: LocationId)
    requires Active(s, loc) && Unregister(s, loc).result.Ok?
    ensures Register(Unregister(s, loc).next, loc) == Transition(Ok(Reactivated), s)
  {
  }
}
