/** A collection lease: one file lock, re-entrant operation counts per thread, and a close
    that drains before it lets go. Every function below is one section under the condition. */
module Leases {
  import opened Basics
  import Maps

  datatype LeaseError = LeaseClosed | LeaseClosing | WrongCollection | WrongStore | WrongMode

  /** `open` says the descriptors are still the lease's; `locked` that the file lock is held;
      `releases` counts how often it was let go. */
  datatype Lease = Lease(
    collection: Id, exclusive: bool, owner: Id, issued: bool,
    active: nat, holders: map<Id, nat>, closing: bool, closed: bool,
    open: bool, locked: bool, releases: nat)

  function Fresh(collection: Id, exclusive: bool, owner: Id): Lease {
    Lease(collection, exclusive, owner, exclusive, 0, map[], false, false, true, true, 0)
  }

  // ----- operations -----

  function Depth(l: Lease, thread: Id): nat {
    if thread in l.holders then l.holders[thread] else 0
  }

  /** Under a closing lease a thread that is already inside may only nest. */
  function EnterError(l: Lease, thread: Id, collection: Id, owner: Option<Id>, exclusive: Option<bool>): Option<LeaseError> {
    if l.closed then Some(LeaseClosed)
    else if l.closing && Depth(l, thread) == 0 then Some(LeaseClosing)
    else if l.collection != collection then Some(WrongCollection)
    else if owner.Some? && owner.value != l.owner then Some(WrongStore)
    else if exclusive.Some? && exclusive.value != l.exclusive then Some(WrongMode)
    else None
  }

  function Entered(l: Lease, thread: Id): Lease {
    l.(active := l.active + 1, holders := l.holders[thread := Depth(l, thread) + 1])
  }

  function Left(l: Lease, thread: Id): Lease
    requires 0 < Depth(l, thread) && 0 < l.active
  {
    var depth := Depth(l, thread) - 1;
    l.(active := l.active - 1, holders := if depth > 0 then l.holders[thread := depth] else l.holders - {thread})
  }

  // ----- close -----

  datatype CloseStart = Refused | AlreadyClosed | Follow | Lead

  function StartClose(l: Lease, thread: Id): CloseStart {
    if Depth(l, thread) > 0 then Refused
    else if l.closed then AlreadyClosed
    else if l.closing then Follow
    else Lead
  }

  function Closing(l: Lease): Lease { l.(closing := true) }

  predicate Drained(l: Lease) { l.closing && l.active == 0 && l.open }

  function Taken(l: Lease): Lease { l.(open := false) }

  function Unlocked(l: Lease): Lease { l.(locked := false, releases := l.releases + 1) }

  function Finished(l: Lease): Lease { l.(closed := true) }

  // ----- what every lease keeps -----

  ghost predicate LeaseOk(l: Lease) {
    && l.active == Maps.Sum(l.holders)
    && (forall t <- l.holders :: 0 < l.holders[t])
    && (!l.open ==> l.closing && l.active == 0)
    && (!l.locked ==> !l.open)
    && (l.closed ==> !l.locked)
    && l.releases == (if l.locked then 0 else 1)
  }

  lemma FreshOk(collection: Id, exclusive: bool, owner: Id)
    ensures LeaseOk(Fresh(collection, exclusive, owner))
  {
  }

  lemma NobodyInside(l: Lease)
    requires LeaseOk(l) && l.active == 0
    ensures l.holders == map[]
  {
    Maps.SumAtLeastCount(l.holders);
    assert |l.holders.Keys| == 0;
  }

  lemma InsideIsActive(l: Lease, thread: Id)
    requires LeaseOk(l) && 0 < Depth(l, thread)
    ensures 0 < l.active && l.open && l.locked
  {
    Maps.SumRemove(l.holders, thread);
  }

  lemma EnteredOk(l: Lease, thread: Id, collection: Id, owner: Option<Id>, exclusive: Option<bool>)
    requires LeaseOk(l) && EnterError(l, thread, collection, owner, exclusive).None?
    ensures LeaseOk(Entered(l, thread)) && l.open
  {
    if !l.open {
      NobodyInside(l);
    }
    Maps.SumUpdate(l.holders, thread, Depth(l, thread) + 1);
  }

  lemma LeftOk(l: Lease, thread: Id)
    requires LeaseOk(l) && 0 < Depth(l, thread) && 0 < l.active
    ensures LeaseOk(Left(l, thread))
  {
    InsideIsActive(l, thread);
    Maps.SumUpdate(l.holders, thread, (Depth(l, thread) - 1) as nat);
    Maps.SumRemove(l.holders, thread);
  }

  /** Once the descriptors are taken no operation begins again, under any thread. */
  lemma NothingBeginsAfterDrain(l: Lease, thread: Id, collection: Id, owner: Option<Id>, exclusive: Option<bool>)
    requires LeaseOk(l) && !l.open
    ensures EnterError(l, thread, collection, owner, exclusive) in {Some(LeaseClosed), Some(LeaseClosing)}
  {
    NobodyInside(l);
  }

  // ----- what an entry shows, and what it changes -----

  predicate Inside(l: Lease, thread: Id) {
    thread in l.holders && 0 < l.holders[thread]
  }

  predicate NamesLease(l: Lease, collection: Id, owner: Option<Id>, exclusive: Option<bool>) {
    && collection == l.collection
    && (owner.Some? ==> owner.value == l.owner)
    && (exclusive.Some? ==> exclusive.value == l.exclusive)
  }

  /** An accepted entry finds the lease open to its thread and names its collection, its owner if
      one is given and its mode if one is asked for; a refusal names the first of these to fail. */
  lemma EntryExactly(l: Lease, thread: Id, collection: Id, owner: Option<Id>, exclusive: Option<bool>)
    ensures var error := EnterError(l, thread, collection, owner, exclusive);
            var admits := !l.closed && (l.closing ==> Inside(l, thread));
            && (error == None <==> admits && NamesLease(l, collection, owner, exclusive))
            && (error == Some(LeaseClosed) <==> l.closed)
            && (error == Some(LeaseClosing) <==> !l.closed && l.closing && !Inside(l, thread))
            && (error == Some(WrongCollection) <==> admits && collection != l.collection)
            && (error == Some(WrongStore) <==> admits && collection == l.collection && owner.Some? && owner.value != l.owner)
            && (error == Some(WrongMode) <==> admits && NamesLease(l, collection, owner, None) && exclusive == Some(!l.exclusive))
  {
  }

  /** Entering goes one deeper under this thread and no other, and leaving undoes it. */
  lemma EnterLeave(l: Lease, thread: Id)
    requires LeaseOk(l)
    ensures var k := Entered(l, thread);
            && Inside(k, thread) && k.active == l.active + 1
            && k.holders.Keys == l.holders.Keys + {thread}
            && (forall t <- l.holders :: k.holders[t] == l.holders[t] + if t == thread then 1 else 0)
            && (thread !in l.holders ==> k.holders[thread] == 1)
            && Left(k, thread) == l
  {
    var k := Entered(l, thread);
    if thread !in l.holders {
      assert k.holders - {thread} == l.holders;
    } else {
      assert k.holders[thread := l.holders[thread]] == l.holders;
    }
  }

  // ----- the lease as an object -----

  class CollectionLease {
    const collection: Id
    const exclusive: bool
    const owner: Id
    var activeOperations: nat
    var holders: map<Id, nat>
    var closing: bool
    var closed: bool
    var open: bool
    var locked: bool
    ghost var releases: nat
    var issued: bool

    ghost function View(): Lease reads this {
      Lease(collection, exclusive, owner, issued, activeOperations, holders, closing, closed, open, locked, releases)
    }

    constructor (collection: Id, exclusive: bool, owner: Id)
      ensures View() == Fresh(collection, exclusive, owner) && LeaseOk(View())
    {
      this.collection, this.exclusive, this.owner, this.issued := collection, exclusive, owner, exclusive;
      activeOperations, holders, closing, closed, open, locked, releases := 0, map[], false, false, true, true, 0;
    }

    /** The first half of an operation scope. */
    method Enter(thread: Id, name: Id, token: Option<Id>, mode: Option<bool>) returns (error: Option<LeaseError>)
      requires LeaseOk(View())
      modifies this
      ensures LeaseOk(View())
      ensures error == EnterError(old(View()), thread, name, token, mode)
      ensures View() == if error.None? then Entered(old(View()), thread) else old(View())
      ensures error.None? <==> !old(closed) && (old(closing) ==> Inside(old(View()), thread)) && NamesLease(old(View()), name, token, mode)
      ensures error.None? ==> open && locked && Inside(View(), thread) && activeOperations == old(activeOperations) + 1
    {
      var depth := if thread in holders then holders[thread] else 0;
      if closed {
        return Some(LeaseClosed);
      }
      if closing && depth == 0 {
        return Some(LeaseClosing);
      }
      if collection != name {
        return Some(WrongCollection);
      }
      if token.Some? && token.value != owner {
        return Some(WrongStore);
      }
      if mode.Some? && mode.value != exclusive {
        return Some(WrongMode);
      }
      EnteredOk(View(), thread, name, token, mode);
      activeOperations := activeOperations + 1;
      holders := holders[thread := depth + 1];
      return None;
    }

    /** The second half; `drained` tells the waiters to look again. */
    method Leave(thread: Id) returns (drained: bool)
      requires LeaseOk(View()) && 0 < Depth(View(), thread) && 0 < activeOperations
      modifies this
      ensures LeaseOk(View()) && View() == Left(old(View()), thread)
      ensures View().(active := old(activeOperations), holders := old(holders)) == old(View())
      ensures activeOperations == old(activeOperations) - 1 && holders - {thread} == old(holders) - {thread}
      ensures Inside(View(), thread) <==> old(holders)[thread] > 1
      ensures Inside(View(), thread) ==> holders[thread] == old(holders)[thread] - 1
      ensures drained <==> holders == map[]
    {
      LeftOk(View(), thread);
      var depth := holders[thread] - 1;
      if depth > 0 {
        holders := holders[thread := depth];
      } else {
        holders := holders - {thread};
      }
      activeOperations := activeOperations - 1;
      drained := activeOperations == 0;
      if drained {
        NobodyInside(View());
      }
    }

    /** close() up to its wait. */
    method BeginClose(thread: Id) returns (r: CloseStart)
      requires LeaseOk(View())
      modifies this
      ensures LeaseOk(View()) && r == StartClose(old(View()), thread)
      ensures r == Refused <==> Inside(View(), thread)
      ensures r == AlreadyClosed <==> !Inside(View(), thread) && closed
      ensures r == Follow <==> !Inside(View(), thread) && !closed && old(closing)
      ensures r == Lead <==> closing && !old(closing) && !closed
      ensures View() == if r == Lead then Closing(old(View())) else old(View())
    {
      if thread in holders && holders[thread] > 0 {
        return Refused;
      }
      if closed {
        return AlreadyClosed;
      }
      if closing {
        return Follow;
      }
      closing := true;
      return Lead;
    }

    /** The leader after the drain takes the descriptors out of the lease. */
    method TakeDescriptors()
      requires LeaseOk(View()) && Drained(View())
      modifies this
      ensures LeaseOk(View()) && View() == Taken(old(View())) && !open && holders == map[]
    {
      NobodyInside(View());
      open := false;
    }

    /** Outside the condition: the file lock is let go, for the first and only time. */
    method ReleaseLock()
      requires LeaseOk(View()) && !open && locked
      modifies this
      ensures LeaseOk(View()) && View() == Unlocked(old(View()))
      ensures old(releases) == 0 && releases == 1 && !locked
    {
      locked, releases := false, releases + 1;
    }

    method MarkClosed()
      requires LeaseOk(View()) && !locked
      modifies this
      ensures LeaseOk(View()) && View() == Finished(old(View())) && closed
    {
      closed := true;
    }
  }
}
