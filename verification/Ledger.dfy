/** The durable ledger as a state machine: every call is one atomic transaction over heads,
    epochs, roots, reservations, attempts and seals. */
module Ledger {
  import opened Basics
  import opened EgressContracts
  import opened Accounts
  import opened CorpusInvariants
  import opened Enforcer
  import Maps

  datatype Key = Key(root: Id, run: Id, policy: Policy, token: Id)
  datatype Row = Row(id: Id, key: Key, corpus: Id, epoch: Id, entry: Entry)
  datatype Epoch = Epoch(predecessor: Option<Id>, inherited: CorpusBook, book: CorpusBook)
  datatype RootRow = RootRow(epoch: Id, book: RootBook)
  datatype ReservationState = Reserved | Succeeded | FailedKnown
  datatype Attempt = Attempt(reservation: Id, succeeded: bool)

  /** `log` lists the committed reservations in commit order; `chains` and `inherited` record
      history that no step reads. */
  datatype Ledger = Ledger(
    heads: map<Id, Id>, epochs: map<Id, Epoch>, chains: map<Id, seq<Id>>, roots: map<Id, RootRow>,
    log: seq<Row>, states: map<Id, ReservationState>, seals: set<(Id, Id)>, attempts: seq<Attempt>)

  const EMPTY := Ledger(map[], map[], map[], map[], [], map[], {}, [])

  // ----- reserve -----

  /** One call of check_and_reserve: the request, what the server owns, and the caller's key. */
  datatype Call = Call(p: ReservationRequest, policy: Policy, counter: Counter, authorized: bool, token: Id)
  {
    function Root(): Id { p.request.root }
    function Corpus(): Id { p.request.version.corpus }
    function KeyOf(): Key { Key(p.request.root, p.request.run, policy, token) }
    function Entry(): Entry { EntryOf(p.request, p.disclosures) }
  }

  datatype Reply =
    | Granted(row: Row)
    | Replayed(row: Row)
    | Violation(code: Code)
    | RunSealed
    | Collision

  function RowWith(log: seq<Row>, key: Key): Option<Row> {
    if log == [] then None
    else if log[|log|-1].key == key then Some(log[|log|-1])
    else RowWith(log[..|log|-1], key)
  }

  /** The epoch and books a call finds under its locks; a first call for a corpus or a root
      starts them empty. */
  function EpochFor(l: Ledger, c: Call, freshEpoch: Id): Id {
    if c.Corpus() in l.heads then l.heads[c.Corpus()] else freshEpoch
  }

  function CorpusFor(l: Ledger, c: Call): CorpusBook {
    if c.Corpus() in l.heads && l.heads[c.Corpus()] in l.epochs then l.epochs[l.heads[c.Corpus()]].book
    else EmptyCorpus(c.Corpus(), c.policy)
  }

  function RootFor(l: Ledger, c: Call): RootBook {
    if c.Root() in l.roots then l.roots[c.Root()].book
    else EmptyRoot(c.Root(), c.p.request.level, c.policy)
  }

  function BooksFor(l: Ledger, c: Call): Books {
    Books(RootFor(l, c), CorpusFor(l, c))
  }

  /** Locks, seal, replay, enforcer, in that order; `decision` is the enforcer's. */
  function ReplyGiven(l: Ledger, c: Call, freshEpoch: Id, freshId: Id, decision: Option<Code>): Reply {
    var epoch := EpochFor(l, c, freshEpoch);
    var replay := RowWith(l.log, c.KeyOf());
    if c.Corpus() !in l.heads && freshEpoch in l.epochs then Collision
    else if c.Root() in l.roots && l.roots[c.Root()].epoch != epoch then Violation(PolicyMismatch)
    else if (c.Root(), c.p.request.run) in l.seals then RunSealed
    else if replay.Some? then Replayed(replay.value)
    else if decision.Some? then Violation(decision.value)
    else if freshId in l.states then Collision
    else Granted(Row(freshId, c.KeyOf(), c.Corpus(), epoch, c.Entry()))
  }

  ghost function DecisionOn(l: Ledger, c: Call): Option<Code> {
    Decision(BooksFor(l, c), c.p, c.policy, c.counter, c.authorized)
  }

  ghost function ReserveReply(l: Ledger, c: Call, freshEpoch: Id, freshId: Id): Reply {
    ReplyGiven(l, c, freshEpoch, freshId, DecisionOn(l, c))
  }

  /** Both scopes and the reservation are written together; `found` is the corpus book under
      the lock, which a first epoch starts from. */
  function Write(l: Ledger, row: Row, found: CorpusBook, after: Books): Ledger {
    var epoch :=
      if row.epoch in l.epochs then l.epochs[row.epoch].(book := after.corpus) else Epoch(None, found, after.corpus);
    l.(heads := l.heads[row.corpus := row.epoch],
       chains := if row.corpus in l.heads then l.chains else l.chains[row.corpus := [row.epoch]],
       epochs := l.epochs[row.epoch := epoch],
       roots := l.roots[row.key.root := RootRow(row.epoch, after.root)],
       log := l.log + [row],
       states := l.states[row.id := Reserved])
  }

  ghost function Reserve(l: Ledger, c: Call, freshEpoch: Id, freshId: Id): Ledger {
    match ReserveReply(l, c, freshEpoch, freshId)
    case Granted(row) => Write(l, row, CorpusFor(l, c), Post(BooksFor(l, c), row.entry))
    case _ => l
  }

  // ----- rebind -----

  datatype Rebinding = Rebinding(corpus: Id, expectedId: Id, expectedPolicy: Policy, policy: Policy)

  datatype RebindReply =
    | Conflict
    | RebindCollision
    | Bound(predecessor: Id, successor: Id, oldPolicy: Policy, newPolicy: Policy, inherited: Priced, rebound: bool)

  function Inherit(book: CorpusBook, policy: Policy): CorpusBook {
    book.(policy := policy)
  }

  function RebindReplyOf(l: Ledger, r: Rebinding, next: Id): RebindReply {
    if r.corpus !in l.heads || l.heads[r.corpus] !in l.epochs then Conflict else
      var head := l.heads[r.corpus];
      var active := l.epochs[head];
      if head == r.expectedId && active.book.policy == r.expectedPolicy == r.policy then
        Bound(head, head, active.book.policy, active.book.policy, At(active.book.accounts, Whole), false)
      else if head != r.expectedId then
        if active.book.policy != r.policy || active.predecessor != Some(r.expectedId) then Conflict
        else if r.expectedId !in l.epochs || l.epochs[r.expectedId].book.policy != r.expectedPolicy then Conflict
        else Bound(r.expectedId, head, r.expectedPolicy, active.book.policy, At(l.epochs[r.expectedId].book.accounts, Whole), false)
      else if active.book.policy != r.expectedPolicy then Conflict
      else if next in l.epochs then RebindCollision
      else Bound(head, next, active.book.policy, r.policy, At(active.book.accounts, Whole), true)
  }

  function Rebind(l: Ledger, r: Rebinding, next: Id): Ledger {
    var reply := RebindReplyOf(l, r, next);
    if reply.Bound? && reply.rebound && r.corpus in l.chains then
      var book := Inherit(l.epochs[r.expectedId].book, r.policy);
      l.(heads := l.heads[r.corpus := next],
         chains := l.chains[r.corpus := l.chains[r.corpus] + [next]],
         epochs := l.epochs[next := Epoch(Some(r.expectedId), book, book)])
    else l
  }

  // ----- attempts and seals -----

  /** An attempt needs its reservation; a second one is recorded too and decides the state. */
  function Record(l: Ledger, a: Attempt): Ledger {
    if a.reservation !in l.states then l else
      l.(attempts := l.attempts + [a],
         states := l.states[a.reservation := if a.succeeded then Succeeded else FailedKnown])
  }

  function Seal(l: Ledger, root: Id, run: Id): Ledger {
    l.(seals := l.seals + {(root, run)})
  }

  // ----- runs -----

  /** One committed or rolled back transaction. A caller that loses the connection does not
      learn which: both cases are steps, the second one being `Rollback`. */
  datatype Action =
    | DoReserve(call: Call, freshEpoch: Id, freshId: Id)
    | DoRebind(rebinding: Rebinding, next: Id)
    | DoRecord(attempt: Attempt)
    | DoSeal(root: Id, run: Id)
    | Rollback

  ghost function Step(l: Ledger, a: Action): Ledger {
    match a
    case DoReserve(c, freshEpoch, freshId) => Reserve(l, c, freshEpoch, freshId)
    case DoRebind(r, next) => Rebind(l, r, next)
    case DoRecord(attempt) => Record(l, attempt)
    case DoSeal(root, run) => Seal(l, root, run)
    case Rollback => l
  }

  ghost function Steps(l: Ledger, actions: seq<Action>): Ledger {
    if actions == [] then l else Step(Steps(l, actions[..|actions|-1]), actions[|actions|-1])
  }

  ghost predicate Reachable(l: Ledger) {
    exists actions :: Steps(EMPTY, actions) == l
  }
}
