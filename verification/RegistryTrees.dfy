/** When the registry is one tree per collection. Nothing orders two threads of one freeze lease
    between their checks and their stores, so it is not one in every interleaving: it is exactly
    when every store would still pass the checks, and always when each freeze lease has one
    thread at a time inside. */
module RegistryTrees {
  import opened Basics
  import opened Leases
  import opened Manifests
  import opened FreezeRegistry

  // ----- runs whose stores are still publishable -----

  /** A store that adds a manifest finds it publishable in the registry as it is by then. */
  predicate TimelyStep(w: World, m: Move, address: Draft -> Id) {
    m.Store? && (m.id, m.thread) in w.pending && Next(w, m, address).records != w.records ==>
      Publishable(w.pending[(m.id, m.thread)].draft.intent, w.records)
  }

  predicate Timely(w: World, ms: seq<Move>, address: Draft -> Id) {
    ms != [] ==> Timely(w, ms[..|ms|-1], address) && TimelyStep(Run(w, ms[..|ms|-1], address), ms[|ms|-1], address)
  }

  lemma StepTreeIff(w: World, m: Move, address: Draft -> Id)
    requires Safe(w, address) && Tree(w.records)
    ensures Tree(Next(w, m, address).records) <==> TimelyStep(w, m, address)
  {
    if m.Store? && m.id in w.leases && (m.id, m.thread) in w.pending {
      NextStore(w, m, address);
    } else {
      NextOther(w, m, address);
    }
    if Next(w, m, address).records != w.records {
      var p := w.pending[(m.id, m.thread)];
      TreeGrowsIff(w.records, Manifest(address(p.draft), p.draft), address);
    }
  }

  /** A run leaves one tree per collection exactly when each of its stores was still publishable;
      a tree once lost is never regained. */
  lemma {:induction false} RunTreeIff(w: World, ms: seq<Move>, address: Draft -> Id)
    requires Safe(w, address) && Tree(w.records)
    ensures Tree(Run(w, ms, address).records) <==> Timely(w, ms, address)
  {
    if ms != [] {
      var before := Run(w, ms[..|ms|-1], address);
      RunTreeIff(w, ms[..|ms|-1], address);
      RunSafe(w, ms[..|ms|-1], address);
      NextGrows(before, ms[|ms|-1], address);
      PrefixIsTree(before.records, Next(before, ms[|ms|-1], address).records);
      if Tree(before.records) {
        StepTreeIff(before, ms[|ms|-1], address);
      }
    }
  }

  // ----- one thread at a time -----

  /** No freeze lease has two threads inside. */
  predicate Alone(w: World) {
    forall i <- w.leases :: w.leases[i].exclusive ==>
      forall t, u :: t in w.leases[i].holders && u in w.leases[i].holders ==> t == u
  }

  predicate AloneThroughout(w: World, ms: seq<Move>, address: Draft -> Id) {
    Alone(w) && (ms != [] ==> AloneThroughout(w, ms[..|ms|-1], address) && Alone(Run(w, ms, address)))
  }

  /** Nobody has stored into the collection of a pending publication since its read. */
  predicate UpToDate(pending: map<(Id, Id), Pending>, records: seq<Manifest>) {
    forall k <- pending :: SameWithin(pending[k].seen, records, pending[k].draft.intent.collection)
  }

  lemma PendingAlone(w: World, j: (Id, Id), k: (Id, Id), address: Draft -> Id)
    requires Safe(w, address) && Alone(w) && j in w.pending && k in w.pending
    requires w.pending[j].draft.intent.collection == w.pending[k].draft.intent.collection
    ensures j == k
  {
    InsideIsActive(w.leases[j.0], j.1);
    InsideIsActive(w.leases[k.0], k.1);
    assert j.0 == k.0;
  }

  lemma NextStore(w: World, m: Move, address: Draft -> Id)
    requires m.Store? && m.id in w.leases && (m.id, m.thread) in w.pending
    ensures Next(w, m, address).pending == w.pending - {(m.id, m.thread)}
    ensures Next(w, m, address).records == AfterStore(w.records, w.pending[(m.id, m.thread)], address)
  {
  }

  lemma NextOther(w: World, m: Move, address: Draft -> Id)
    requires !(m.Store? && m.id in w.leases && (m.id, m.thread) in w.pending)
    ensures Next(w, m, address).records == w.records
    ensures forall k <- Next(w, m, address).pending ::
              Next(w, m, address).pending[k].seen == w.records || (k in w.pending && Next(w, m, address).pending[k] == w.pending[k])
  {
  }

  lemma StoreKeepsUpToDate(w: World, k: (Id, Id), address: Draft -> Id)
    requires Safe(w, address) && Alone(w) && UpToDate(w.pending, w.records) && k in w.pending
    ensures UpToDate(w.pending - {k}, AfterStore(w.records, w.pending[k], address))
  {
    var p := w.pending[k];
    var after := AfterStore(w.records, p, address);
    forall j <- w.pending | j != k ensures SameWithin(w.pending[j].seen, after, w.pending[j].draft.intent.collection) {
      if w.pending[j].draft.intent.collection == p.draft.intent.collection {
        PendingAlone(w, j, k, address);
      }
    }
  }

  lemma AloneStep(w: World, m: Move, address: Draft -> Id, after: World)
    requires Safe(w, address) && Alone(w) && UpToDate(w.pending, w.records) && after == Next(w, m, address)
    ensures after.records != w.records ==>
              m.Store? && (m.id, m.thread) in w.pending && Publishable(w.pending[(m.id, m.thread)].draft.intent, w.records)
    ensures UpToDate(after.pending, after.records)
  {
    if m.Store? && m.id in w.leases && (m.id, m.thread) in w.pending {
      var p := w.pending[(m.id, m.thread)];
      NextStore(w, m, address);
      StoreKeepsUpToDate(w, (m.id, m.thread), address);
      if Publishable(p.draft.intent, p.seen) {
        ChecksStay(p.draft.intent, p.seen, w.records);
      }
    } else {
      NextOther(w, m, address);
    }
  }

  lemma {:induction false} AloneIsTimely(w: World, ms: seq<Move>, address: Draft -> Id)
    requires Safe(w, address) && UpToDate(w.pending, w.records) && AloneThroughout(w, ms, address)
    ensures Timely(w, ms, address)
    ensures UpToDate(Run(w, ms, address).pending, Run(w, ms, address).records)
  {
    if ms != [] {
      var before := Run(w, ms[..|ms|-1], address);
      AloneIsTimely(w, ms[..|ms|-1], address);
      RunSafe(w, ms[..|ms|-1], address);
      assert Alone(before);
      AloneStep(before, ms[|ms|-1], address, Next(before, ms[|ms|-1], address));
    }
  }

  /** With one thread at a time inside each freeze lease, every run of every number of clients
      leaves one tree per collection and at most one manifest per intent. */
  lemma AloneRunsKeepTrees(ms: seq<Move>, address: Draft -> Id)
    requires Injective(address) && AloneThroughout(EMPTY, ms, address)
    ensures Tree(Run(EMPTY, ms, address).records)
  {
    EmptySafe(address);
    AloneIsTimely(EMPTY, ms, address);
    RunTreeIff(EMPTY, ms, address);
  }

  // ----- two threads inside -----

  function Collision(id: Id, t: Id, d: Draft, u: Id, e: Draft): seq<Move> {
    [Read(id, t, d), Read(id, u, e), Store(id, t), Store(id, u)]
  }

  lemma BothRead(w: World, id: Id, t: Id, d: Draft, u: Id, e: Draft, address: Draft -> Id)
    requires id in w.leases && w.leases[id].exclusive && w.leases[id].issued
    requires 0 < Depth(w.leases[id], t) && 0 < Depth(w.leases[id], u)
    requires d.intent.collection == w.leases[id].collection == e.intent.collection
    ensures Next(Next(w, Read(id, t, d), address), Read(id, u, e), address) ==
            w.(pending := w.pending[(id, t) := Pending(d, w.records)][(id, u) := Pending(e, w.records)])
  {
  }

  lemma BothStore(w: World, id: Id, t: Id, d: Draft, u: Id, e: Draft, address: Draft -> Id)
    requires id in w.leases && t != u && (id, t) in w.pending && (id, u) in w.pending
    requires w.pending[(id, t)] == Pending(d, w.records) && w.pending[(id, u)] == Pending(e, w.records)
    requires Publishable(d.intent, w.records) && Publishable(e.intent, w.records) && d != e
    requires Manifest(address(d), d) !in w.records && Manifest(address(e), e) !in w.records
    ensures Next(Next(w, Store(id, t), address), Store(id, u), address).records ==
            w.records + [Manifest(address(d), d)] + [Manifest(address(e), e)]
  {
    NextStore(w, Store(id, t), address);
    assert id in Next(w, Store(id, t), address).leases;
    NextStore(Next(w, Store(id, t), address), Store(id, u), address);
  }

  lemma CollisionStores(w: World, id: Id, t: Id, d: Draft, u: Id, e: Draft, address: Draft -> Id)
    requires id in w.leases && w.leases[id].exclusive && w.leases[id].issued
    requires t != u && 0 < Depth(w.leases[id], t) && 0 < Depth(w.leases[id], u)
    requires d != e && d.intent.collection == w.leases[id].collection == e.intent.collection
    requires Publishable(d.intent, w.records) && Publishable(e.intent, w.records)
    ensures Run(w, Collision(id, t, d, u, e), address).records ==
            w.records + [Manifest(address(d), d)] + [Manifest(address(e), e)]
  {
    NothingMatches(w.records, d.intent);
    NothingMatches(w.records, e.intent);
    FourMoves(w, Collision(id, t, d, u, e), address);
    BothRead(w, id, t, d, u, e, address);
    BothStore(Next(Next(w, Read(id, t, d), address), Read(id, u, e), address), id, t, d, u, e, address);
  }

  /** From any state with two threads inside one freeze lease, two drafts that pass the checks and
      share their intent, or both lack a predecessor, are both stored: no tree is left, and of a
      shared intent no manifest is ever found again. */
  lemma TwoInsideMayCollide(w: World, id: Id, t: Id, d: Draft, u: Id, e: Draft, address: Draft -> Id, w': World)
    requires Safe(w, address) && id in w.leases && w.leases[id].exclusive
    requires t != u && 0 < Depth(w.leases[id], t) && 0 < Depth(w.leases[id], u)
    requires d != e && d.intent.collection == w.leases[id].collection == e.intent.collection
    requires Publishable(d.intent, w.records) && Publishable(e.intent, w.records)
    requires d.intent == e.intent || (d.intent.predecessor.None? && e.intent.predecessor.None?)
    requires w' == Run(w, Collision(id, t, d, u, e), address)
    ensures w'.records == w.records + [Manifest(address(d), d), Manifest(address(e), e)]
    ensures !Tree(w'.records)
    ensures d.intent == e.intent ==> |Matching(w'.records, d.intent)| == 2
  {
    CollisionStores(w, id, t, d, u, e, address);
    TwiceStored(w.records, Manifest(address(d), d), Manifest(address(e), e));
  }

  lemma TwiceStored(records: seq<Manifest>, first: Manifest, second: Manifest)
    requires first.draft.intent.collection == second.draft.intent.collection
    requires first.draft.intent == second.draft.intent || second.draft.intent.predecessor.None?
    requires Matching(records, first.draft.intent) == []
    ensures !Tree(records + [first] + [second])
    ensures first.draft.intent == second.draft.intent ==> |Matching(records + [first] + [second], first.draft.intent)| == 2
  {
    var n := |records|;
    var more := records + [first] + [second];
    assert more[n] == first && more[n + 1] == second;
    assert more[..n + 1] == records + [first] && more[..n + 1][..n] == records;
  }

  lemma FourMoves(w: World, ms: seq<Move>, address: Draft -> Id)
    requires |ms| == 4
    ensures Run(w, ms, address) == Next(Next(Next(Next(w, ms[0], address), ms[1], address), ms[2], address), ms[3], address)
  {
    assert ms[..3][..2] == ms[..2] && ms[..2][..1] == ms[..1] && ms[..1][..0] == [];
    assert Run(w, ms[..1], address) == Next(w, ms[0], address);
    assert Run(w, ms[..2], address) == Next(Next(w, ms[0], address), ms[1], address);
    assert Run(w, ms[..3], address) == Next(Next(Next(w, ms[0], address), ms[1], address), ms[2], address);
  }

  lemma OpeningRun(address: Draft -> Id, opening: seq<Move>)
    requires opening == [Acquire(0, 7, true, 1), Enter(0, 1, 7, None, None), Enter(0, 2, 7, None, None), Check(0)]
    ensures var w := Run(EMPTY, opening, address);
            w.records == [] && 0 in w.leases && w.leases[0] == Entered(Entered(Fresh(7, true, 1), 1), 2)
  {
    FourMoves(EMPTY, opening, address);
  }

  /** The smallest such run: one freeze lease, two threads, one intent, an empty registry. */
  lemma CollidingRun(address: Draft -> Id, opening: seq<Move>, w: World)
    requires Injective(address)
    requires opening == [Acquire(0, 7, true, 1), Enter(0, 1, 7, None, None), Enter(0, 2, 7, None, None), Check(0)]
    requires w == Run(EMPTY, opening, address)
    ensures var d, e := Draft(Intent(7, None, 0), 0), Draft(Intent(7, None, 0), 1);
            var records := Run(w, Collision(0, 1, d, 2, e), address).records;
            && !Tree(records)
            && forall later :: records <= later && Forest(later) ==> FoundIn(later, d.intent) == Err(IntentConflict)
  {
    EmptySafe(address);
    RunSafe(EMPTY, opening, address);
    OpeningRun(address, opening);
    var d, e := Draft(Intent(7, None, 0), 0), Draft(Intent(7, None, 0), 1);
    var after := Run(w, Collision(0, 1, d, 2, e), address);
    TwoInsideMayCollide(w, 0, 1, d, 2, e, address, after);
    forall later | after.records <= later && Forest(later) ensures FoundIn(later, d.intent) == Err(IntentConflict) {
      TwiceIsForEver(after.records, later, d.intent);
    }
  }
}
