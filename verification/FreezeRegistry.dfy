/** Many clients over one registry: leases are acquired, entered, drained and closed by any
    number of threads, and threads inside freeze leases read the registry, check a draft against
    what they read, and store it, in every interleaving. */
module FreezeRegistry {
  import opened Basics
  import opened Leases
  import opened Manifests
  import Maps

  /** Where a thread stands inside close(): waiting for a leader, leading, or back. */
  datatype Closer = Following | Leading | Returned

  /** A publication between its read and its store. */
  datatype Pending = Pending(draft: Draft, seen: seq<Manifest>)

  datatype World = World(
    leases: map<Id, Lease>, records: seq<Manifest>, closers: map<(Id, Id), Closer>, pending: map<(Id, Id), Pending>)

  const EMPTY := World(map[], [], map[], map[])

  /** One atomic section of one thread. `Check` ends the acquisition of a write lease. */
  datatype Move =
    | Acquire(id: Id, collection: Id, exclusive: bool, owner: Id)
    | Check(id: Id)
    | Enter(id: Id, thread: Id, collection: Id, token: Option<Id>, mode: Option<bool>)
    | Leave(id: Id, thread: Id)
    | StartClosing(id: Id, thread: Id)
    | Take(id: Id, thread: Id)
    | Unlock(id: Id, thread: Id)
    | Finish(id: Id, thread: Id)
    | Wake(id: Id, thread: Id)
    | Read(id: Id, thread: Id, draft: Draft)
    | Store(id: Id, thread: Id)

  /** The shared/exclusive file lock of a collection. */
  predicate Lockable(leases: map<Id, Lease>, collection: Id, exclusive: bool) {
    forall i <- leases :: leases[i].collection == collection && leases[i].locked ==> !exclusive && !leases[i].exclusive
  }

  function PutLease(w: World, id: Id, l: Lease): World {
    w.(leases := w.leases[id := l])
  }

  function PutCloser(w: World, id: Id, thread: Id, c: Closer): World {
    w.(closers := w.closers[(id, thread) := c])
  }

  /** Leaving an operation gives up a publication that was not stored. */
  function GiveUp(w: World, id: Id, thread: Id): World {
    w.(pending := w.pending - {(id, thread)})
  }

  predicate Led(w: World, id: Id, thread: Id) {
    (id, thread) in w.closers && w.closers[(id, thread)] == Leading
  }

  /** A section that its guard does not allow changes nothing. */
  function Next(w: World, m: Move, address: Draft -> Id): World {
    if m.Acquire? then
      if m.id !in w.leases && Lockable(w.leases, m.collection, m.exclusive)
      then PutLease(w, m.id, Fresh(m.collection, m.exclusive, m.owner)) else w
    else if m.id !in w.leases then w
    else
      var l := w.leases[m.id];
      match m
      case Check(id) => if l.open && !l.closing && !Bound(w.records, l.collection) then PutLease(w, id, l.(issued := true)) else w
      case Enter(id, thread, collection, owner, mode) =>
        if l.issued && EnterError(l, thread, collection, owner, mode) == None then PutLease(w, id, Entered(l, thread)) else w
      case Leave(id, thread) =>
        if 0 < Depth(l, thread) && 0 < l.active then PutLease(GiveUp(w, id, thread), id, Left(l, thread)) else w
      case StartClosing(id, thread) =>
        (match StartClose(l, thread)
         case Refused => w
         case AlreadyClosed => PutCloser(w, id, thread, Returned)
         case Follow => if Led(w, id, thread) then w else PutCloser(w, id, thread, Following)
         case Lead => PutCloser(PutLease(w, id, Closing(l)), id, thread, Leading))
      case Take(id, thread) => if Led(w, id, thread) && Drained(l) then PutLease(w, id, Taken(l)) else w
      case Unlock(id, thread) => if Led(w, id, thread) && !l.open && l.locked then PutLease(w, id, Unlocked(l)) else w
      case Finish(id, thread) =>
        if Led(w, id, thread) && !l.locked then PutCloser(PutLease(w, id, Finished(l)), id, thread, Returned) else w
      case Wake(id, thread) =>
        if (id, thread) in w.closers && w.closers[(id, thread)] == Following && l.closed
        then PutCloser(w, id, thread, Returned) else w
      case Read(id, thread, draft) =>
        if l.issued && l.exclusive && 0 < Depth(l, thread) && draft.intent.collection == l.collection
        then w.(pending := w.pending[(id, thread) := Pending(draft, w.records)]) else w
      case Store(id, thread) =>
        if (id, thread) in w.pending
        then GiveUp(w, id, thread).(records := AfterStore(w.records, w.pending[(id, thread)], address)) else w
  }

  /** The draft is checked against what was read and stored into what is there. */
  function AfterStore(records: seq<Manifest>, p: Pending, address: Draft -> Id): seq<Manifest> {
    if Publishable(p.draft.intent, p.seen) then Stored(records, Manifest(address(p.draft), p.draft)) else records
  }

  function Run(w: World, ms: seq<Move>, address: Draft -> Id): World {
    if ms == [] then w else Next(Run(w, ms[..|ms|-1], address), ms[|ms|-1], address)
  }

  // ----- the invariant -----

  ghost predicate LeasesOk(leases: map<Id, Lease>) {
    forall i <- leases :: LeaseOk(leases[i]) && (leases[i].exclusive ==> leases[i].issued)
  }

  /** A locked freeze lease is alone on its collection. */
  predicate LocksOk(leases: map<Id, Lease>) {
    forall i, j :: i in leases && j in leases && i != j && leases[i].locked && leases[j].locked ==>
      leases[i].collection == leases[j].collection ==> !leases[i].exclusive && !leases[j].exclusive
  }

  /** A collection with a manifest has no issued write lease that still holds its lock. */
  predicate FreezeOk(leases: map<Id, Lease>, records: seq<Manifest>) {
    forall i <- leases :: leases[i].issued && !leases[i].exclusive && leases[i].locked ==> !Bound(records, leases[i].collection)
  }

  /** Each close() that came back did so after the lease was closed, and one thread leads. */
  predicate ClosersOk(leases: map<Id, Lease>, closers: map<(Id, Id), Closer>) {
    && (forall k <- closers :: k.0 in leases && leases[k.0].closing)
    && (forall k <- closers :: closers[k] == Returned ==> leases[k.0].closed)
    && (forall j, k :: j in closers && k in closers && j.0 == k.0 && closers[j] == Leading && closers[k] == Leading ==> j == k)
    && (forall k <- closers :: closers[k] == Leading ==> !leases[k.0].closed)
  }

  /** A pending publication is made from inside a freeze lease of its collection, and what it
      has read is still there. */
  predicate PendingOk(leases: map<Id, Lease>, pending: map<(Id, Id), Pending>, records: seq<Manifest>) {
    forall k <- pending ::
      && k.0 in leases && leases[k.0].exclusive && 0 < Depth(leases[k.0], k.1)
      && pending[k].draft.intent.collection == leases[k.0].collection && pending[k].seen <= records
  }

  ghost predicate LeaseSide(leases: map<Id, Lease>, pending: map<(Id, Id), Pending>, records: seq<Manifest>) {
    LeasesOk(leases) && LocksOk(leases) && FreezeOk(leases, records) && PendingOk(leases, pending, records)
  }

  ghost predicate Safe(w: World, address: Draft -> Id) {
    LeaseSide(w.leases, w.pending, w.records) && ClosersOk(w.leases, w.closers) && Sound(w.records, address)
  }

  // ----- one section keeps it -----

  /** The lease stays what it was to other leases, and threads that publish stay inside. */
  predicate Quiet(l: Lease, k: Lease) {
    && k.collection == l.collection && k.exclusive == l.exclusive
    && (k.locked ==> l.locked) && k.issued == l.issued
  }

  predicate KeepsPending(pending: map<(Id, Id), Pending>, id: Id, k: Lease) {
    forall p <- pending :: p.0 == id ==> 0 < Depth(k, p.1)
  }

  lemma LeasePut(leases: map<Id, Lease>, pending: map<(Id, Id), Pending>, records: seq<Manifest>, id: Id, k: Lease)
    requires LeaseSide(leases, pending, records) && id in leases && Quiet(leases[id], k) && LeaseOk(k)
    requires KeepsPending(pending, id, k)
    ensures LeaseSide(leases[id := k], pending, records)
  {
  }

  lemma ClosersKeep(leases: map<Id, Lease>, closers: map<(Id, Id), Closer>, id: Id, k: Lease)
    requires ClosersOk(leases, closers) && id in leases && (leases[id].closing ==> k.closing) && k.closed == leases[id].closed
    ensures ClosersOk(leases[id := k], closers)
  {
  }

  lemma QuietPut(w: World, id: Id, k: Lease, address: Draft -> Id)
    requires Safe(w, address) && id in w.leases && Quiet(w.leases[id], k) && LeaseOk(k) && KeepsPending(w.pending, id, k)
    requires (w.leases[id].closing ==> k.closing) && k.closed == w.leases[id].closed
    ensures Safe(PutLease(w, id, k), address)
  {
    LeasePut(w.leases, w.pending, w.records, id, k);
    ClosersKeep(w.leases, w.closers, id, k);
  }

  lemma LeaveSafe(w: World, id: Id, thread: Id, address: Draft -> Id)
    requires Safe(w, address) && id in w.leases && 0 < Depth(w.leases[id], thread) && 0 < w.leases[id].active
    ensures Safe(PutLease(GiveUp(w, id, thread), id, Left(w.leases[id], thread)), address)
  {
    LeftOk(w.leases[id], thread);
    QuietPut(GiveUp(w, id, thread), id, Left(w.leases[id], thread), address);
  }

  lemma LeaseAdded(leases: map<Id, Lease>, pending: map<(Id, Id), Pending>, records: seq<Manifest>, id: Id, k: Lease)
    requires LeaseSide(leases, pending, records) && id !in leases && LeaseOk(k) && k.issued == k.exclusive
    requires Lockable(leases, k.collection, k.exclusive)
    ensures LeaseSide(leases[id := k], pending, records)
  {
  }

  lemma AcquireSafe(w: World, id: Id, collection: Id, exclusive: bool, owner: Id, address: Draft -> Id)
    requires Safe(w, address) && id !in w.leases && Lockable(w.leases, collection, exclusive)
    ensures Safe(PutLease(w, id, Fresh(collection, exclusive, owner)), address)
  {
    FreshOk(collection, exclusive, owner);
    LeaseAdded(w.leases, w.pending, w.records, id, Fresh(collection, exclusive, owner));
  }

  lemma CloserSafe(w: World, id: Id, thread: Id, c: Closer, address: Draft -> Id)
    requires Safe(w, address) && id in w.leases && w.leases[id].closing
    requires c == Returned ==> w.leases[id].closed
    requires c == Leading ==> !w.leases[id].closed && forall k <- w.closers :: k.0 != id
    ensures Safe(PutCloser(w, id, thread, c), address)
  {
  }

  lemma LeadSafe(w: World, id: Id, thread: Id, address: Draft -> Id)
    requires Safe(w, address) && id in w.leases && StartClose(w.leases[id], thread) == Lead
    ensures Safe(PutCloser(PutLease(w, id, Closing(w.leases[id])), id, thread, Leading), address)
  {
    assert forall k <- w.closers :: k.0 != id;
    QuietPut(w, id, Closing(w.leases[id]), address);
    CloserSafe(PutLease(w, id, Closing(w.leases[id])), id, thread, Leading, address);
  }

  lemma ClosersFinish(leases: map<Id, Lease>, closers: map<(Id, Id), Closer>, id: Id, thread: Id)
    requires ClosersOk(leases, closers) && id in leases && (id, thread) in closers && closers[(id, thread)] == Leading
    ensures ClosersOk(leases[id := Finished(leases[id])], closers[(id, thread) := Returned])
  {
  }

  lemma FinishSafe(w: World, id: Id, thread: Id, address: Draft -> Id)
    requires Safe(w, address) && id in w.leases && Led(w, id, thread) && !w.leases[id].locked
    ensures Safe(PutCloser(PutLease(w, id, Finished(w.leases[id])), id, thread, Returned), address)
  {
    LeasePut(w.leases, w.pending, w.records, id, Finished(w.leases[id]));
    ClosersFinish(w.leases, w.closers, id, thread);
  }

  lemma LeaseIssued(leases: map<Id, Lease>, pending: map<(Id, Id), Pending>, records: seq<Manifest>, id: Id)
    requires LeaseSide(leases, pending, records) && id in leases && !Bound(records, leases[id].collection)
    ensures LeaseSide(leases[id := leases[id].(issued := true)], pending, records)
  {
  }

  lemma CheckSafe(w: World, id: Id, address: Draft -> Id)
    requires Safe(w, address) && id in w.leases && !Bound(w.records, w.leases[id].collection)
    ensures Safe(PutLease(w, id, w.leases[id].(issued := true)), address)
  {
    LeaseIssued(w.leases, w.pending, w.records, id);
    ClosersKeep(w.leases, w.closers, id, w.leases[id].(issued := true));
  }

  lemma BoundAfter(records: seq<Manifest>, m: Manifest, collection: Id)
    requires Bound(Stored(records, m), collection) && m.draft.intent.collection != collection
    ensures Bound(records, collection)
  {
    var r :| r in Stored(records, m) && r.draft.intent.collection == collection;
    assert r in records;
  }

  lemma ReadSafe(w: World, id: Id, thread: Id, d: Draft, address: Draft -> Id)
    requires Safe(w, address) && id in w.leases && w.leases[id].exclusive && 0 < Depth(w.leases[id], thread)
    requires d.intent.collection == w.leases[id].collection
    ensures Safe(w.(pending := w.pending[(id, thread) := Pending(d, w.records)]), address)
  {
  }

  lemma StoredIsSound(w: World, p: Pending, address: Draft -> Id)
    requires Sound(w.records, address) && p.seen <= w.records
    ensures Sound(AfterStore(w.records, p, address), address) && w.records <= AfterStore(w.records, p, address)
  {
    if Publishable(p.draft.intent, p.seen) {
      StoreIsSound(p.seen, w.records, Manifest(address(p.draft), p.draft), address);
    }
  }

  /** A store happens while its lease is the only one on the collection. */
  lemma StoreSafe(w: World, id: Id, thread: Id, address: Draft -> Id)
    requires Safe(w, address) && (id, thread) in w.pending
    ensures Safe(GiveUp(w, id, thread).(records := AfterStore(w.records, w.pending[(id, thread)], address)), address)
  {
    var p := w.pending[(id, thread)];
    var after := AfterStore(w.records, p, address);
    StoredIsSound(w, p, address);
    InsideIsActive(w.leases[id], thread);
    forall i <- w.leases | w.leases[i].issued && !w.leases[i].exclusive && w.leases[i].locked
      ensures !Bound(after, w.leases[i].collection) {
      if Bound(after, w.leases[i].collection) {
        BoundAfter(w.records, Manifest(address(p.draft), p.draft), w.leases[i].collection);
      }
    }
  }

  predicate ClosesLease(m: Move) {
    m.StartClosing? || m.Take? || m.Unlock? || m.Finish? || m.Wake?
  }

  lemma StartSafe(w: World, id: Id, thread: Id, address: Draft -> Id)
    requires Safe(w, address) && id in w.leases
    ensures Safe(Next(w, StartClosing(id, thread), address), address)
  {
    match StartClose(w.leases[id], thread)
    case Refused =>
    case AlreadyClosed => CloserSafe(w, id, thread, Returned, address);
    case Follow =>
      if !Led(w, id, thread) {
        CloserSafe(w, id, thread, Following, address);
      }
    case Lead => LeadSafe(w, id, thread, address);
  }

  lemma ClosingNextSafe(w: World, m: Move, address: Draft -> Id)
    requires Safe(w, address) && ClosesLease(m) && m.id in w.leases && Next(w, m, address) != w
    ensures Safe(Next(w, m, address), address)
  {
    var l := w.leases[m.id];
    match m
    case StartClosing(id, thread) => StartSafe(w, id, thread, address);
    case Take(id, thread) => QuietPut(w, id, Taken(l), address);
    case Unlock(id, thread) => QuietPut(w, id, Unlocked(l), address);
    case Finish(id, thread) => FinishSafe(w, id, thread, address);
    case Wake(id, thread) => CloserSafe(w, id, thread, Returned, address);
  }

  lemma InsideNextSafe(w: World, m: Move, address: Draft -> Id)
    requires Safe(w, address) && !m.Acquire? && !ClosesLease(m) && m.id in w.leases && Next(w, m, address) != w
    ensures Safe(Next(w, m, address), address)
  {
    var l := w.leases[m.id];
    match m
    case Check(id) => CheckSafe(w, id, address);
    case Enter(id, thread, collection, owner, mode) =>
      EnteredOk(l, thread, collection, owner, mode);
      QuietPut(w, id, Entered(l, thread), address);
    case Leave(id, thread) => LeaveSafe(w, id, thread, address);
    case Read(id, thread, draft) => ReadSafe(w, id, thread, draft, address);
    case Store(id, thread) => StoreSafe(w, id, thread, address);
  }

  /** One section of one thread, whatever the others are doing. */
  lemma NextSafe(w: World, m: Move, address: Draft -> Id)
    requires Safe(w, address)
    ensures Safe(Next(w, m, address), address)
  {
    if m.Acquire? {
      if m.id !in w.leases && Lockable(w.leases, m.collection, m.exclusive) {
        AcquireSafe(w, m.id, m.collection, m.exclusive, m.owner, address);
      }
    } else if m.id in w.leases && Next(w, m, address) != w {
      if ClosesLease(m) {
        ClosingNextSafe(w, m, address);
      } else {
        InsideNextSafe(w, m, address);
      }
    }
  }

  // ----- what holds over every run -----

  lemma EmptySafe(address: Draft -> Id)
    requires Injective(address)
    ensures Safe(EMPTY, address)
  {
  }

  lemma {:induction false} RunSafe(w: World, ms: seq<Move>, address: Draft -> Id)
    requires Safe(w, address)
    ensures Safe(Run(w, ms, address), address)
  {
    if ms != [] {
      RunSafe(w, ms[..|ms|-1], address);
      NextSafe(Run(w, ms[..|ms|-1], address), ms[|ms|-1], address);
    }
  }

  /** A write operation is under way on the collection. */
  predicate Writing(w: World, collection: Id) {
    exists i <- w.leases :: w.leases[i].issued && !w.leases[i].exclusive && w.leases[i].collection == collection && 0 < w.leases[i].active
  }

  /** A thread is admitted to a write operation that names the collection, under any lease. */
  predicate WriteEnters(w: World, m: Move, collection: Id) {
    && m.Enter? && m.id in w.leases && w.leases[m.id].issued && !w.leases[m.id].exclusive
    && m.collection == collection && EnterError(w.leases[m.id], m.thread, m.collection, m.token, m.mode) == None
  }

  /** A thread is inside a freeze lease of the collection: from before its reads until after its
      store has been made durable. */
  predicate Freezing(w: World, collection: Id) {
    exists i <- w.leases :: w.leases[i].exclusive && w.leases[i].collection == collection && 0 < w.leases[i].active
  }

  /** No write operation on the collection is under way, none can begin, and no write lease on it
      can be acquired or issued. */
  ghost predicate WriteFree(w: World, collection: Id, address: Draft -> Id) {
    && !Writing(w, collection)
    && (forall m: Move :: !WriteEnters(w, m, collection))
    && (forall id :: Next(w, Check(id), address) != w ==> w.leases[id].collection != collection)
  }

  lemma CheckNeedsOpen(w: World, id: Id, address: Draft -> Id)
    requires Safe(w, address) && Next(w, Check(id), address) != w
    ensures id in w.leases && w.leases[id].open && !w.leases[id].exclusive && !Bound(w.records, w.leases[id].collection)
  {
  }

  lemma UnlockedIsWriteFree(w: World, collection: Id, address: Draft -> Id)
    requires Safe(w, address)
    requires forall i <- w.leases :: !w.leases[i].exclusive && w.leases[i].collection == collection && w.leases[i].issued ==> !w.leases[i].locked
    requires forall id :: Next(w, Check(id), address) != w ==> w.leases[id].collection != collection
    ensures WriteFree(w, collection, address)
  {
    forall m: Move | m.Enter? && m.id in w.leases && w.leases[m.id].issued && !w.leases[m.id].exclusive && m.collection == collection
      ensures EnterError(w.leases[m.id], m.thread, m.collection, m.token, m.mode) != None {
      EntryExactly(w.leases[m.id], m.thread, m.collection, m.token, m.mode);
      if w.leases[m.id].collection == collection {
        assert !w.leases[m.id].locked;
        NothingBeginsAfterDrain(w.leases[m.id], m.thread, m.collection, m.token, m.mode);
      }
    }
  }

  lemma FreezingIsAlone(w: World, collection: Id, address: Draft -> Id)
    requires Safe(w, address) && Freezing(w, collection)
    ensures !Lockable(w.leases, collection, false)
    ensures forall i <- w.leases :: !w.leases[i].exclusive && w.leases[i].collection == collection ==> !w.leases[i].locked && !w.leases[i].open
  {
    var f :| f in w.leases && w.leases[f].exclusive && w.leases[f].collection == collection && 0 < w.leases[f].active;
    assert LeaseOk(w.leases[f]);
    forall i <- w.leases | !w.leases[i].exclusive && w.leases[i].collection == collection
      ensures !w.leases[i].locked && !w.leases[i].open {
      assert LeaseOk(w.leases[i]) && i != f;
    }
  }

  lemma PendingIsFreezing(w: World, collection: Id, address: Draft -> Id)
    requires Safe(w, address)
    ensures forall k <- w.pending :: w.pending[k].draft.intent.collection == collection ==> Freezing(w, collection)
  {
    forall k <- w.pending ensures 0 < w.leases[k.0].active {
      InsideIsActive(w.leases[k.0], k.1);
    }
  }

  lemma FreezingIsWriteFree(w: World, collection: Id, address: Draft -> Id)
    requires Safe(w, address) && Freezing(w, collection)
    ensures WriteFree(w, collection, address) && !Lockable(w.leases, collection, false)
  {
    FreezingIsAlone(w, collection, address);
    forall id | Next(w, Check(id), address) != w ensures w.leases[id].collection != collection {
      CheckNeedsOpen(w, id, address);
    }
    UnlockedIsWriteFree(w, collection, address);
  }

  /** A publication lasts from its read to its store, and its lease outlives both; in all that
      time no write operation on the collection overlaps it. */
  lemma NoWriteOverlapsPublication(ms: seq<Move>, collection: Id, address: Draft -> Id)
    requires Injective(address)
    ensures var w := Run(EMPTY, ms, address);
            && (forall k <- w.pending :: w.pending[k].draft.intent.collection == collection ==> Freezing(w, collection))
            && (Freezing(w, collection) ==> WriteFree(w, collection, address) && !Lockable(w.leases, collection, false))
  {
    EmptySafe(address);
    RunSafe(EMPTY, ms, address);
    PendingIsFreezing(Run(EMPTY, ms, address), collection, address);
    if Freezing(Run(EMPTY, ms, address), collection) {
      FreezingIsWriteFree(Run(EMPTY, ms, address), collection, address);
    }
  }

  lemma NextGrows(w: World, m: Move, address: Draft -> Id)
    requires Safe(w, address)
    ensures w.records <= Next(w, m, address).records
  {
    if m.Store? && (m.id, m.thread) in w.pending {
      StoredIsSound(w, w.pending[(m.id, m.thread)], address);
    }
  }

  lemma {:induction false} RegistryGrows(w: World, ms: seq<Move>, address: Draft -> Id)
    requires Safe(w, address)
    ensures w.records <= Run(w, ms, address).records
  {
    if ms != [] {
      var before := Run(w, ms[..|ms|-1], address);
      RegistryGrows(w, ms[..|ms|-1], address);
      RunSafe(w, ms[..|ms|-1], address);
      NextGrows(before, ms[|ms|-1], address);
    }
  }

  lemma BoundStays(a: seq<Manifest>, b: seq<Manifest>, collection: Id)
    requires a <= b && Bound(a, collection)
    ensures Bound(b, collection)
  {
    var m :| m in a && m.draft.intent.collection == collection;
    assert m in b;
  }

  lemma FrozenState(w: World, collection: Id, address: Draft -> Id)
    requires Safe(w, address) && Bound(w.records, collection)
    ensures WriteFree(w, collection, address)
  {
    forall id | Next(w, Check(id), address) != w ensures w.leases[id].collection != collection {
      CheckNeedsOpen(w, id, address);
    }
    UnlockedIsWriteFree(w, collection, address);
  }

  /** Once a collection has a manifest, then in every later state it has that manifest, no write
      operation on the collection is under way, none that names it can begin, and no write lease
      on it is issued. */
  lemma FrozenForEver(ms: seq<Move>, later: seq<Move>, k: nat, collection: Id, address: Draft -> Id)
    requires Injective(address) && k < |Run(EMPTY, ms, address).records|
    requires Run(EMPTY, ms, address).records[k].draft.intent.collection == collection
    ensures var w := Run(Run(EMPTY, ms, address), later, address);
            && Run(EMPTY, ms, address).records <= w.records
            && WriteFree(w, collection, address)
  {
    assert Run(EMPTY, ms, address).records[k] in Run(EMPTY, ms, address).records;
    EmptySafe(address);
    RunSafe(EMPTY, ms, address);
    var w := Run(EMPTY, ms, address);
    RegistryGrows(w, later, address);
    RunSafe(w, later, address);
    BoundStays(w.records, Run(w, later, address).records, collection);
    FrozenState(Run(w, later, address), collection, address);
  }

  /** What every lease looks like in every reachable state: the count is the sum of the
      threads' depths; the descriptors go only when nobody is inside, the lock goes once, after
      them; nothing begins afterwards; and a close() that came back left a closed lease. */
  lemma LeasesDrain(ms: seq<Move>, id: Id, address: Draft -> Id)
    requires Injective(address) && id in Run(EMPTY, ms, address).leases
    ensures var w := Run(EMPTY, ms, address);
            var l := w.leases[id];
            && l.active == Maps.Sum(l.holders) && l.releases <= 1
            && (l.releases == 1 ==> !l.open) && (!l.open ==> l.closing && l.holders == map[])
            && (!l.open ==> forall thread, collection, token, mode :: EnterError(l, thread, collection, token, mode) != None)
            && (l.closing ==> forall thread, collection, token, mode :: EnterError(l, thread, collection, token, mode) == None ==> 0 < Depth(l, thread))
            && (forall thread :: (id, thread) in w.closers && w.closers[(id, thread)] == Returned ==> l.closed && l.releases == 1)
  {
    EmptySafe(address);
    RunSafe(EMPTY, ms, address);
    var l := Run(EMPTY, ms, address).leases[id];
    if !l.open {
      NobodyInside(l);
    }
  }

  predicate MovesOn(l: Lease, k: Lease) {
    (l.closing ==> k.closing) && (!l.open ==> !k.open) && (l.closed ==> k.closed) && l.releases <= k.releases
  }

  lemma NextMovesOn(w: World, m: Move, id: Id, address: Draft -> Id)
    requires id in w.leases
    ensures id in Next(w, m, address).leases && MovesOn(w.leases[id], Next(w, m, address).leases[id])
  {
  }

  /** A closing lease stays closing, taken descriptors stay taken, a closed lease stays closed. */
  lemma {:induction false} DrainIsFinal(w: World, ms: seq<Move>, id: Id, address: Draft -> Id)
    requires id in w.leases
    ensures id in Run(w, ms, address).leases && MovesOn(w.leases[id], Run(w, ms, address).leases[id])
  {
    if ms != [] {
      DrainIsFinal(w, ms[..|ms|-1], id, address);
      NextMovesOn(Run(w, ms[..|ms|-1], address), ms[|ms|-1], id, address);
    }
  }

  // ----- what the sections make possible -----

  /** A file lock is granted exactly when no lease on the collection holds it the other way. */
  lemma AcquiredExactly(w: World, id: Id, collection: Id, exclusive: bool, owner: Id, address: Draft -> Id)
    ensures var after := Next(w, Acquire(id, collection, exclusive, owner), address);
            if id !in w.leases && forall i <- w.leases :: w.leases[i].locked && w.leases[i].collection == collection ==> !exclusive && !w.leases[i].exclusive
            then && after == w.(leases := w.leases[id := after.leases[id]])
                 && var l := after.leases[id];
                    && l.collection == collection && l.exclusive == exclusive && l.owner == owner && l.issued == exclusive
                    && l.locked && l.open && !l.closing && !l.closed && l.holders == map[]
            else after == w
  {
  }

  lemma CheckIssues(w: World, id: Id, l: Lease, address: Draft -> Id)
    requires id in w.leases && w.leases[id] == l && l.open && !l.closing
    requires forall m <- w.records :: m.draft.intent.collection != l.collection
    ensures Next(w, Check(id), address) == w.(leases := w.leases[id := l.(issued := true)])
  {
  }

  lemma EnterAdmits(w: World, id: Id, thread: Id, l: Lease, address: Draft -> Id)
    requires id in w.leases && w.leases[id] == l && l.issued && !l.closing && !l.closed && l.holders == map[]
    ensures var m := Enter(id, thread, l.collection, Some(l.owner), Some(l.exclusive));
            Next(w, m, address) == w.(leases := w.leases[id := l.(active := l.active + 1, holders := map[thread := 1])])
  {
  }

  /** On a collection without manifests that no freeze lease holds, a writer gets in. */
  lemma WriterGetsIn(w: World, id: Id, thread: Id, collection: Id, owner: Id, address: Draft -> Id)
    requires id !in w.leases && forall m <- w.records :: m.draft.intent.collection != collection
    requires forall i <- w.leases :: w.leases[i].locked && w.leases[i].exclusive ==> w.leases[i].collection != collection
    ensures var a := Next(w, Acquire(id, collection, false, owner), address);
            var b := Next(a, Check(id), address);
            var c := Next(b, Enter(id, thread, collection, Some(owner), Some(false)), address);
            && id in c.leases && c.leases[id].holders == map[thread := 1] && c.leases[id].collection == collection
            && Writing(c, collection)
  {
    AcquiredExactly(w, id, collection, false, owner, address);
    var a := Next(w, Acquire(id, collection, false, owner), address);
    CheckIssues(a, id, a.leases[id], address);
    var b := Next(a, Check(id), address);
    EnterAdmits(b, id, thread, b.leases[id], address);
  }

  /** A close is refused inside an operation, comes back from a closed lease, follows one that is
      closing and otherwise leads; a follower comes back exactly when the lease is closed. */
  lemma CloseBegins(w: World, id: Id, thread: Id, address: Draft -> Id)
    requires id in w.leases
    ensures var l, after := w.leases[id], Next(w, StartClosing(id, thread), address);
            && after.leases == (if Inside(l, thread) || l.closing || l.closed then w.leases else w.leases[id := l.(closing := true)])
            && after == w.(leases := after.leases, closers := after.closers)
            && after.closers ==
               if Inside(l, thread) then w.closers
               else if l.closed then w.closers[(id, thread) := Returned]
               else if !l.closing then w.closers[(id, thread) := Leading]
               else if Led(w, id, thread) then w.closers
               else w.closers[(id, thread) := Following]
    ensures (id, thread) in w.closers && w.closers[(id, thread)] == Following ==>
              Next(w, Wake(id, thread), address) ==
              if w.leases[id].closed then w.(closers := w.closers[(id, thread) := Returned]) else w
  {
  }

  lemma TakeWhenDrained(w: World, id: Id, thread: Id, l: Lease, address: Draft -> Id)
    requires id in w.leases && w.leases[id] == l && l.open && l.closing
    requires (id, thread) in w.closers && w.closers[(id, thread)] == Leading
    ensures Next(w, Take(id, thread), address) == if l.active == 0 then w.(leases := w.leases[id := l.(open := false)]) else w
  {
  }

  lemma UnlockOnce(w: World, id: Id, thread: Id, l: Lease, address: Draft -> Id)
    requires id in w.leases && w.leases[id] == l && (id, thread) in w.closers && w.closers[(id, thread)] == Leading
    ensures Next(w, Unlock(id, thread), address) ==
            if !l.open && l.locked then w.(leases := w.leases[id := l.(locked := false, releases := l.releases + 1)]) else w
  {
  }

  lemma FinishAfterUnlock(w: World, id: Id, thread: Id, l: Lease, address: Draft -> Id)
    requires id in w.leases && w.leases[id] == l && (id, thread) in w.closers && w.closers[(id, thread)] == Leading
    ensures Next(w, Finish(id, thread), address) ==
            if l.locked then w
            else w.(leases := w.leases[id := l.(closed := true)], closers := w.closers[(id, thread) := Returned])
  {
  }

  /** While anybody is inside, the leader of a close waits; once nobody is, it takes the
      descriptors, lets the lock go for the only time and comes back from a closed lease. */
  lemma LeaderFinishes(w: World, id: Id, thread: Id, l: Lease, address: Draft -> Id)
    requires Safe(w, address) && id in w.leases && w.leases[id] == l && l.open
    requires (id, thread) in w.closers && w.closers[(id, thread)] == Leading
    ensures l.holders != map[] ==> Next(w, Take(id, thread), address) == w
    ensures l.holders == map[] ==>
              Next(Next(Next(w, Take(id, thread), address), Unlock(id, thread), address), Finish(id, thread), address)
              == w.(leases := w.leases[id := l.(open := false, locked := false, closed := true, releases := 1)],
                    closers := w.closers[(id, thread) := Returned])
  {
    assert l.closing && LeaseOk(l);
    TakeWhenDrained(w, id, thread, l, address);
    if l.active == 0 {
      NobodyInside(l);
    }
    if l.holders == map[] {
      var taken, unlocked := l.(open := false), l.(open := false, locked := false, releases := 1);
      UnlockOnce(w.(leases := w.leases[id := taken]), id, thread, taken, address);
      assert w.leases[id := taken][id := unlocked] == w.leases[id := unlocked];
      FinishAfterUnlock(w.(leases := w.leases[id := unlocked]), id, thread, unlocked, address);
      assert w.leases[id := unlocked][id := unlocked.(closed := true)] == w.leases[id := unlocked.(closed := true)];
    }
  }

  lemma ReadPends(w: World, id: Id, thread: Id, d: Draft, address: Draft -> Id)
    requires id in w.leases && w.leases[id].issued && w.leases[id].exclusive && Inside(w.leases[id], thread)
    requires d.intent.collection == w.leases[id].collection
    ensures Next(w, Read(id, thread, d), address) == w.(pending := w.pending[(id, thread) := Pending(d, w.records)])
  {
  }

  lemma StoreStores(w: World, id: Id, thread: Id, p: Pending, address: Draft -> Id)
    requires id in w.leases && (id, thread) in w.pending && w.pending[(id, thread)] == p
    ensures var after := Next(w, Store(id, thread), address);
            && after == w.(pending := w.pending - {(id, thread)}, records := after.records)
            && after.records == if Publishable(p.draft.intent, p.seen) then Stored(w.records, Manifest(address(p.draft), p.draft)) else w.records
  {
  }

  /** A publication that meets no other is stored exactly when no manifest has its intent, the
      predecessor it names is a manifest of its collection, and it names one if the collection
      has any. */
  lemma PublishedAlone(w: World, id: Id, thread: Id, d: Draft, address: Draft -> Id)
    requires Safe(w, address) && id in w.leases && w.leases[id].exclusive && Inside(w.leases[id], thread)
    requires d.intent.collection == w.leases[id].collection
    ensures Next(Next(w, Read(id, thread, d), address), Store(id, thread), address).records ==
            if && (forall m <- w.records :: m.draft.intent != d.intent)
               && (d.intent.predecessor.Some? ==> HeldIn(w.records, d.intent.predecessor.value, d.intent.collection))
               && (d.intent.predecessor.None? ==> forall m <- w.records :: m.draft.intent.collection != d.intent.collection)
            then w.records + [Manifest(address(d), d)] else w.records
  {
    ReadPends(w, id, thread, d, address);
    StoreStores(Next(w, Read(id, thread, d), address), id, thread, Pending(d, w.records), address);
    PublishableExactly(d.intent, w.records);
  }
}
