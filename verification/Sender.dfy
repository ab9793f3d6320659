/** One call of the policy-bound transport, written as the program that runs it, and refining
    the moves of one client of the interleaved system. */
module Sender {
  import opened Basics
  import opened EgressContracts
  import opened Accounts
  import opened Enforcer
  import opened Ledger
  import opened LedgerInvariants
  import opened PostgresLedger
  import opened Transport
  import Maps

  datatype AdapterEnd = Responds | ProviderError | Faults | CancelledInFlight

  /** What the outside does to one call: the two transactions' fates, the adapter's end, a
      cancellation while the attempt is being recorded, and the seals' fates. */
  datatype World = World(
    freshEpoch: Id, freshId: Id, reserve: Fate, end: AdapterEnd, record: Fate, interrupted: bool, seals: (Fate, Fate))

  datatype Outcome =
    | NoAdapter
    | Rejected(code: Code)
    | NotReserved(answer: Answer)
    | ReplayRefused(id: Id)
    | ReceiptFor(id: Id)
    | AttemptFailed(id: Id)
    | NotRecorded(error: LedgerError)
    | Interrupted

  /** The moves lead from one system to another, kept folded. */
  ghost predicate Ran(start: System, ms: seq<Move>, s: System) {
    forall n: nat {:trigger Maps.Unfold(n)} :: Maps.Unfold(n) ==> s == Moves(start, ms)
  }

  /** The outcomes that come after a payload reached an adapter. */
  predicate HandedOver(r: Outcome) {
    r.ReceiptFor? || r.AttemptFailed? || r.NotRecorded? || r.Interrupted?
  }

  /** The call a routed request becomes: the enforcer's own facts under the caller's key. */
  function CallFor(q: EgressRequest, policy: Policy, counter: Counter, authorized: (bool, bool), token: Id): EgressContracts.Result<Call> {
    match Prepared(q, policy, counter, authorized.0)
    case Err(code) => Err(code)
    case Ok(p) => Ok(Call(p, policy, counter, authorized.1, token))
  }

  /** The one case in which a payload may leave: the caller saw its fresh reservation. */
  ghost predicate MaySend(l: Ledger, c: Call, w: World) {
    w.reserve == Delivered && ReserveReply(l, c, w.freshEpoch, w.freshId).Granted?
  }

  ghost function RowFor(l: Ledger, c: Call, w: World): Row
    requires MaySend(l, c, w)
  {
    ReserveReply(l, c, w.freshEpoch, w.freshId).row
  }

  ghost function PhaseAfter(l: Ledger, c: Call, w: World): Phase {
    if MaySend(l, c, w) then Holding(c, RowFor(l, c, w)) else Done(NotSent, None)
  }

  /** What a caller without a fresh reservation is told. */
  ghost predicate Unsent(r: Outcome, l: Ledger, c: Call, w: World) {
    if w.reserve != Delivered then r == NotReserved(Failed(Lost(w.reserve)))
    else
      match ReserveReply(l, c, w.freshEpoch, w.freshId)
      case Granted(_) => false
      case Replayed(row) => r == ReplayRefused(row.id)
      case Violation(code) => r == NotReserved(Refused(code))
      case RunSealed => r == NotReserved(Sealed)
      case Collision => r == NotReserved(Failed(Unavailable))
  }

  /** What a caller whose payload left is told: a receipt only of a recorded success. */
  function Accounted(id: Id, w: World): Outcome {
    if w.end == CancelledInFlight || w.interrupted then Interrupted
    else if w.record != Delivered then NotRecorded(Lost(w.record))
    else if w.end == Responds then ReceiptFor(id)
    else AttemptFailed(id)
  }

  function SealIf(l: Ledger, fate: Fate, key: Key): Ledger {
    if Commits(fate) then Seal(l, key.root, key.run) else l
  }

  /** The ledger once a sent payload has been accounted for: the attempt if its write committed,
      and the seal a refused write asks for; then a seal in any case when the caller was cancelled. */
  function LedgerSettled(l: Ledger, row: Row, ok: bool, w: World): Ledger {
    var recorded := if Commits(w.record) then Record(l, Attempt(row.id, ok)) else l;
    if w.record != Delivered then SealIf(recorded, w.seals.0, row.key) else recorded
  }

  function LedgerAccounted(l: Ledger, row: Row, w: World): Ledger {
    var settled := LedgerSettled(l, row, w.end == Responds, w);
    if w.end == CancelledInFlight || w.interrupted then SealIf(settled, w.seals.1, row.key) else settled
  }

  /** A granted row is the call's own and its reservation is in the ledger from then on. */
  lemma GrantedRow(l: Ledger, c: Call, w: World)
    requires MaySend(l, c, w)
    ensures var row := RowFor(l, c, w); row.key == c.KeyOf() && row.id in Reserve(l, c, w.freshEpoch, w.freshId).states
  {
  }

  /** The call a request becomes is made of that request, the server's own policy and counter, what
      the sender is authorized for and the caller's token; it is refused as its facts are. */
  lemma CallForExactly(q: EgressRequest, policy: Policy, counter: Counter, authorized: (bool, bool), token: Id)
    ensures match CallFor(q, policy, counter, authorized, token)
            case Err(code) => Prepared(q, policy, counter, authorized.0) == Err(code)
            case Ok(c) =>
              && c.p.request == q && c.policy == policy && c.counter == counter && c.authorized == authorized.1 && c.token == token
              && Prepared(q, policy, counter, authorized.0) == Ok(c.p)
              && c.KeyOf() == Key(q.root, q.run, policy, token)
  {
  }

  /** What is told to a caller whose payload left: a receipt when the adapter answered and a failure
      when it did not, each only with its record seen; otherwise that the record was not made, or
      that the caller was interrupted. */
  lemma AccountedExactly(id: Id, w: World)
    ensures var r := Accounted(id, w);
            var disturbed := w.end == CancelledInFlight || w.interrupted;
            && (r == ReceiptFor(id) <==> !disturbed && w.record == Delivered && w.end == Responds)
            && (r == AttemptFailed(id) <==> !disturbed && w.record == Delivered && (w.end == ProviderError || w.end == Faults))
            && (r == NotRecorded(Ambiguous) <==> !disturbed && (w.record == CommittedUnseen || w.record == LostBefore))
            && (r == NotRecorded(Unavailable) <==> !disturbed && (w.record == DatabaseError || w.record == Unreachable))
            && (r == Interrupted <==> disturbed)
  {
  }

  /** The write is in the database whether or not its caller saw it. */
  predicate InDatabase(fate: Fate) {
    match fate
    case Delivered => true
    case CommittedUnseen => true
    case LostBefore => false
    case DatabaseError => false
    case Unreachable => false
  }

  lemma SealedIf(l: Ledger, fate: Fate, key: Key)
    ensures SealIf(l, fate, key) == l.(seals := l.seals + if InDatabase(fate) then {(key.root, key.run)} else {})
  {
  }

  lemma RecordedIf(l: Ledger, row: Row, ok: bool, fate: Fate)
    requires row.id in l.states
    ensures (if Commits(fate) then Record(l, Attempt(row.id, ok)) else l) ==
            if InDatabase(fate)
            then l.(attempts := l.attempts + [Attempt(row.id, ok)], states := l.states[row.id := if ok then Succeeded else FailedKnown])
            else l
  {
  }

  /** The ledger with these attempts and states and, if asked for, the seal of the row's run. */
  function LedgerWith(l: Ledger, attempts: seq<Attempt>, states: map<Id, ReservationState>, sealing: bool, key: Key): Ledger {
    l.(attempts := attempts, states := states, seals := l.seals + if sealing then {(key.root, key.run)} else {})
  }

  lemma SettledLedger(l: Ledger, row: Row, ok: bool, w: World)
    requires row.id in l.states
    ensures LedgerSettled(l, row, ok, w) ==
            LedgerWith(l, if InDatabase(w.record) then l.attempts + [Attempt(row.id, ok)] else l.attempts,
                       if !InDatabase(w.record) then l.states else l.states[row.id := if ok then Succeeded else FailedKnown],
                       w.record != Delivered && InDatabase(w.seals.0), row.key)
  {
    RecordedIf(l, row, ok, w.record);
    SealedIf(if Commits(w.record) then Record(l, Attempt(row.id, ok)) else l, w.seals.0, row.key);
  }

  lemma SealedAgain(l: Ledger, attempts: seq<Attempt>, states: map<Id, ReservationState>, first: bool, second: bool, key: Key, m: Ledger)
    requires m == LedgerWith(l, attempts, states, first, key)
    ensures m.(seals := m.seals + if second then {(key.root, key.run)} else {}) == LedgerWith(l, attempts, states, first || second, key)
  {
  }

  /** What accounting for a send leaves in the ledger: the attempt and the state it gives the
      reservation, when that write got through; and the seal of the run, when the record was not
      seen or the caller was disturbed and that write got through. Nothing else moves. */
  lemma AccountedLedger(l: Ledger, row: Row, w: World)
    requires row.id in l.states
    ensures var disturbed := w.end == CancelledInFlight || w.interrupted;
            LedgerAccounted(l, row, w) ==
            LedgerWith(l, if InDatabase(w.record) then l.attempts + [Attempt(row.id, w.end == Responds)] else l.attempts,
                       if !InDatabase(w.record) then l.states
                       else l.states[row.id := if w.end == Responds then Succeeded else FailedKnown],
                       (w.record != Delivered && InDatabase(w.seals.0)) || (disturbed && InDatabase(w.seals.1)), row.key)
  {
    var m := LedgerSettled(l, row, w.end == Responds, w);
    SettledLedger(l, row, w.end == Responds, w);
    if w.end == CancelledInFlight || w.interrupted {
      SealedIf(m, w.seals.1, row.key);
      SealedAgain(l, m.attempts, m.states, w.record != Delivered && InDatabase(w.seals.0), InDatabase(w.seals.1), row.key, m);
    }
  }

  /** What is told to a caller whose payload stayed. */
  lemma UnsentExactly(r: Outcome, l: Ledger, c: Call, w: World)
    requires !MaySend(l, c, w)
    ensures Unsent(r, l, c, w) <==>
            r == if w.reserve == CommittedUnseen || w.reserve == LostBefore then NotReserved(Failed(Ambiguous))
                 else if w.reserve == DatabaseError || w.reserve == Unreachable then NotReserved(Failed(Unavailable))
                 else match ReserveReply(l, c, w.freshEpoch, w.freshId)
                      case Replayed(row) => ReplayRefused(row.id)
                      case Violation(code) => NotReserved(Refused(code))
                      case RunSealed => NotReserved(Sealed)
                      case _ => NotReserved(Failed(Unavailable))
  {
  }

  /** A client may send exactly when its answer is a reservation that is not a replay. */
  lemma AnswerDecides(l: Ledger, c: Call, w: World, a: Answer)
    requires w.reserve == Delivered ==> Answers(a, ReserveReply(l, c, w.freshEpoch, w.freshId), BooksFor(l, c))
    requires w.reserve != Delivered ==> a == Failed(Lost(w.reserve))
    ensures a.Reservation? && !a.replayed <==> MaySend(l, c, w)
    ensures MaySend(l, c, w) ==> a.id == RowFor(l, c, w).id
    ensures !MaySend(l, c, w) ==> Unsent(if a.Reservation? then ReplayRefused(a.id) else NotReserved(a), l, c, w)
  {
  }

  /** How an outcome of the call reads on the client's final phase. */
  ghost predicate Ended(r: Outcome, p: Phase) {
    match r
    case NotReserved(_) => p == Done(NotSent, None)
    case ReplayRefused(_) => p == Done(NotSent, None)
    case ReceiptFor(id) => p.Done? && p.result == Receipt && p.sent.Some? && p.sent.value.id == id
    case AttemptFailed(id) => p.Done? && p.result == ProviderFailed && p.sent.Some? && p.sent.value.id == id
    case NotRecorded(_) => p.Done? && p.result == Raised
    case Interrupted => p.Done? && p.result == Raised
    case _ => false
  }

  class PolicyBoundTransport {
    const db: Database
    const routes: set<(Id, Id)>
    ghost var system: System
    ghost var moves: seq<Move>
    ghost const start: System

    /** The ghost system is this transport's view of the shared one: same ledger, same wire. */
    ghost predicate Valid() reads this, db {
      db.Valid() && Ran(start, moves, system) && system.ledger == db.state
    }

    constructor (db: Database, routes: set<(Id, Id)>)
      requires db.Valid()
      ensures Valid() && this.db == db && this.routes == routes && start == System(db.state, map[], [], {}) && moves == []
    {
      this.db, this.routes := db, routes;
      start, moves := System(db.state, map[], [], {}), [];
      system := System(db.state, map[], [], {});
      new;
    }

    /** A move of this transport's own, taken on the ghost system. */
    ghost method Take(m: Move)
      requires Ran(start, moves, system)
      modifies this
      ensures Ran(start, moves, system) && system == Next(old(system), m) && moves == old(moves) + [m]
    {
      system, moves := Next(system, m), moves + [m];
    }

    ghost method TakeReserve(client: Id, c: Call, w: World)
      requires Ran(start, moves, system) && client !in system.clients
      modifies this
      ensures Ran(start, moves, system) && old(moves) <= moves && client in system.clients
      ensures system.ledger == if Commits(w.reserve) then Reserve(old(system.ledger), c, w.freshEpoch, w.freshId) else old(system.ledger)
      ensures system.clients[client] == PhaseAfter(old(system.ledger), c, w) && system.wire == old(system.wire)
    {
      Take(Start(client, c));
      var m := ReserveCall(client, w.freshEpoch, w.freshId, w.reserve);
      Take(m);
    }

    /** The payload goes to the adapter, and the adapter ends. */
    ghost method TakeSend(client: Id, end: AdapterEnd)
      requires Ran(start, moves, system) && client in system.clients && system.clients[client].Holding?
      modifies this
      ensures Ran(start, moves, system) && old(moves) <= moves && client in system.clients && system.ledger == old(system.ledger)
      ensures system.wire == old(system.wire) + [Sent(old(system.clients[client].row), old(system.clients[client].call))]
      ensures var row := old(system.clients[client].row);
              system.clients[client] == if end == CancelledInFlight then Cancelling(row, false) else Recording(row, end == Responds)
    {
      Take(HandOver(client));
      Take(if end == Responds then Respond(client) else if end == CancelledInFlight then Cancel(client) else Fail(client));
    }

    ghost method TakeInterrupt(client: Id, row: Row, ok: bool)
      requires Ran(start, moves, system) && client in system.clients && system.clients[client] == Recording(row, ok)
      modifies this
      ensures Ran(start, moves, system) && old(moves) <= moves && system.ledger == old(system.ledger) && system.wire == old(system.wire)
      ensures client in system.clients && system.clients[client] == Cancelling(row, ok)
    {
      Take(Cancel(client));
    }

    ghost method TakeRecord(client: Id, fate: Fate, row: Row, ok: bool, cancelled: bool)
      requires Ran(start, moves, system) && client in system.clients
      requires system.clients[client] == if cancelled then Cancelling(row, ok) else Recording(row, ok)
      modifies this
      ensures Ran(start, moves, system) && old(moves) <= moves && client in system.clients && system.wire == old(system.wire)
      ensures system.ledger == if Commits(fate) then Record(old(system.ledger), Attempt(row.id, ok)) else old(system.ledger)
      ensures system.clients[client] ==
              if cancelled || fate != Delivered || row.id !in old(system.ledger).states then Sealing(row)
              else Done(if ok then Receipt else ProviderFailed, Some(row))
    {
      Take(RecordCall(client, fate));
    }

    ghost method TakeSeal(client: Id, fate: Fate, row: Row)
      requires Ran(start, moves, system) && client in system.clients && system.clients[client] == Sealing(row)
      modifies this
      ensures Ran(start, moves, system) && old(moves) <= moves && client in system.clients && system.wire == old(system.wire)
      ensures system.ledger == if Commits(fate) then Seal(old(system.ledger), row.key.root, row.key.run) else old(system.ledger)
      ensures system.clients[client] == Done(Raised, Some(row))
    {
      Take(SealCall(client, fate));
    }

    ghost method TakeForeignSeal(fate: Fate, root: Id, run: Id)
      requires Ran(start, moves, system)
      modifies this
      ensures Ran(start, moves, system) && old(moves) <= moves && system.clients == old(system.clients) && system.wire == old(system.wire)
      ensures system.ledger == if Commits(fate) then Seal(old(system.ledger), root, run) else old(system.ledger)
    {
      Take(Foreign(if Commits(fate) then DoSeal(root, run) else Rollback));
    }

    /** Reserve, hand over once, then account for it, as one client of the interleaved system. */
    method Send(q: EgressRequest, policy: Policy, counter: Counter, authorized: (bool, bool), token: Id, ghost client: Id, w: World)
      returns (r: Outcome)
      requires Valid() && client !in system.clients
      modifies this, db
      ensures Valid() && old(moves) <= moves
      ensures r.NoAdapter? <==> (q.route.provider, q.model) !in routes
      ensures r.Rejected? <==> (q.route.provider, q.model) in routes && CallFor(q, policy, counter, authorized, token).Err?
      ensures r.Rejected? ==> CallFor(q, policy, counter, authorized, token) == Err(r.code)
      ensures r.NoAdapter? || r.Rejected? ==> system == old(system)
      ensures !r.NoAdapter? && !r.Rejected? ==>
        var c := CallFor(q, policy, counter, authorized, token).value;
        var l := old(db.state);
        var reserved := if Commits(w.reserve) then Reserve(l, c, w.freshEpoch, w.freshId) else l;
        && client in system.clients && Ended(r, system.clients[client])
        && (HandedOver(r) <==> MaySend(l, c, w))
        && (MaySend(l, c, w) ==>
              && r == Accounted(RowFor(l, c, w).id, w)
              && system.wire == old(system.wire) + [Sent(RowFor(l, c, w), c)]
              && db.state == LedgerAccounted(reserved, RowFor(l, c, w), w))
        && (!MaySend(l, c, w) ==> Unsent(r, l, c, w) && system.wire == old(system.wire) && db.state == reserved)
    {
      if (q.route.provider, q.model) !in routes {
        return NoAdapter;
      }
      var prepared := Prepare(q, policy, counter, authorized.0);
      if prepared.Err? {
        return Rejected(prepared.code);
      }
      r := SendPrepared(Call(prepared.value, policy, counter, authorized.1, token), client, w);
    }

    /** Steps three to five, for a call the enforcer prepared. */
    method SendPrepared(c: Call, ghost client: Id, w: World) returns (r: Outcome)
      requires Valid() && client !in system.clients
      modifies this, db
      ensures Valid() && old(moves) <= moves && !r.NoAdapter? && !r.Rejected?
      ensures client in system.clients && Ended(r, system.clients[client])
      ensures HandedOver(r) <==> MaySend(old(db.state), c, w)
      ensures var l := old(db.state);
              var reserved := if Commits(w.reserve) then Reserve(l, c, w.freshEpoch, w.freshId) else l;
              if MaySend(l, c, w) then
                && r == Accounted(RowFor(l, c, w).id, w)
                && system.wire == old(system.wire) + [Sent(RowFor(l, c, w), c)]
                && db.state == LedgerAccounted(reserved, RowFor(l, c, w), w)
              else Unsent(r, l, c, w) && system.wire == old(system.wire) && db.state == reserved
    {
      ghost var l := db.state;
      var answer := ReserveOnce(c, client, w);
      if answer.Reservation? && !answer.replayed {
        GrantedRow(l, c, w);
        r := Deliver(answer.id, c.p.request.root, c.p.request.run, client, w);
      } else {
        r := if answer.Reservation? then ReplayRefused(answer.id) else NotReserved(answer);
      }
    }

    /** check_and_reserve, seen by the client. */
    method ReserveOnce(c: Call, ghost client: Id, w: World) returns (answer: Answer)
      requires Valid() && client !in system.clients
      modifies this, db
      ensures Valid() && old(moves) <= moves && client in system.clients && system.wire == old(system.wire)
      ensures db.state == if Commits(w.reserve) then Reserve(old(db.state), c, w.freshEpoch, w.freshId) else old(db.state)
      ensures system.clients[client] == PhaseAfter(old(db.state), c, w)
      ensures answer.Reservation? && !answer.replayed <==> MaySend(old(db.state), c, w)
      ensures MaySend(old(db.state), c, w) ==> answer.id == RowFor(old(db.state), c, w).id
      ensures !MaySend(old(db.state), c, w) ==>
              Unsent(if answer.Reservation? then ReplayRefused(answer.id) else NotReserved(answer), old(db.state), c, w)
    {
      answer := db.CheckAndReserve(c, w.freshEpoch, w.freshId, w.reserve);
      AnswerDecides(system.ledger, c, w, answer);
      TakeReserve(client, c, w);
    }

    /** Exactly one hand-over under a held reservation, and its accounting. */
    method Deliver(id: Id, root: Id, run: Id, ghost client: Id, w: World) returns (r: Outcome)
      requires Valid() && client in system.clients && system.clients[client].Holding?
      requires var row := system.clients[client].row; row.id == id && row.key.root == root && row.key.run == run && id in db.state.states
      modifies this, db
      ensures Valid() && old(moves) <= moves && client in system.clients && Ended(r, system.clients[client])
      ensures r == Accounted(id, w)
      ensures var held := old(system.clients[client]);
              system.wire == old(system.wire) + [Sent(held.row, held.call)] && db.state == LedgerAccounted(old(db.state), held.row, w)
    {
      ghost var row := system.clients[client].row;
      TakeSend(client, w.end);
      if w.end == CancelledInFlight {
        Reconcile(id, root, run, false, client, row, w);
        return Interrupted;
      }
      r := RecordAfterSend(id, root, run, w.end == Responds, client, row, w);
    }

    // ----- each ledger call with the move it makes -----

    method RecordMove(attempt: Attempt, fate: Fate, ghost client: Id, ghost row: Row, ghost cancelled: bool) returns (error: Option<LedgerError>)
      requires Valid() && client in system.clients && attempt.reservation == row.id && row.id in db.state.states
      requires system.clients[client] == if cancelled then Cancelling(row, attempt.succeeded) else Recording(row, attempt.succeeded)
      modifies this, db
      ensures Valid() && old(moves) <= moves && client in system.clients && system.wire == old(system.wire)
      ensures db.state == if Commits(fate) then Record(old(db.state), attempt) else old(db.state)
      ensures error == if fate == Delivered then None else Some(Lost(fate))
      ensures system.clients[client] ==
              if cancelled || fate != Delivered then Sealing(row) else Done(if attempt.succeeded then Receipt else ProviderFailed, Some(row))
    {
      ghost var l := db.state;
      error := db.RecordAttempt(attempt, fate);
      assert system.ledger == l;
      assert db.state == if Commits(fate) then Record(l, Attempt(row.id, attempt.succeeded)) else l;
      TakeRecord(client, fate, row, attempt.succeeded, cancelled);
    }

    method SealMove(root: Id, run: Id, fate: Fate, ghost client: Id, ghost row: Row)
      requires Valid() && client in system.clients && system.clients[client] == Sealing(row) && row.key.root == root && row.key.run == run
      modifies this, db
      ensures Valid() && old(moves) <= moves && client in system.clients && system.wire == old(system.wire)
      ensures db.state == SealIf(old(db.state), fate, row.key) && system.clients[client] == Done(Raised, Some(row))
    {
      var error := db.SealRun(root, run, fate);
      TakeSeal(client, fate, row);
    }

    /** A seal that the client's own last move does not wait for. */
    method SealAside(root: Id, run: Id, fate: Fate, ghost row: Row)
      requires Valid() && row.key.root == root && row.key.run == run
      modifies this, db
      ensures Valid() && old(moves) <= moves && system.clients == old(system.clients) && system.wire == old(system.wire)
      ensures db.state == SealIf(old(db.state), fate, row.key)
    {
      var error := db.SealRun(root, run, fate);
      TakeForeignSeal(fate, root, run);
    }

    /** Record the attempt; when that is refused the run is sealed; when the caller is cancelled
        meanwhile the record is settled and the run is sealed in any case. */
    method RecordAfterSend(id: Id, root: Id, run: Id, ok: bool, ghost client: Id, ghost row: Row, w: World) returns (r: Outcome)
      requires Valid() && client in system.clients && system.clients[client] == Recording(row, ok)
      requires row.id == id && row.key.root == root && row.key.run == run && id in db.state.states
      requires ok == (w.end == Responds) && w.end != CancelledInFlight
      modifies this, db
      ensures Valid() && old(moves) <= moves && client in system.clients && Ended(r, system.clients[client])
      ensures r == Accounted(id, w)
      ensures system.wire == old(system.wire) && db.state == LedgerAccounted(old(db.state), row, w)
    {
      if w.interrupted {
        TakeInterrupt(client, row, ok);
        Reconcile(id, root, run, ok, client, row, w);
        return Interrupted;
      }
      r := RecordOrSeal(id, root, run, ok, client, row, w);
    }

    /** Undisturbed: the attempt is recorded, or the run is sealed because it was not. */
    method RecordOrSeal(id: Id, root: Id, run: Id, ok: bool, ghost client: Id, ghost row: Row, w: World) returns (r: Outcome)
      requires Valid() && client in system.clients && system.clients[client] == Recording(row, ok)
      requires row.id == id && row.key.root == root && row.key.run == run && id in db.state.states
      requires ok == (w.end == Responds) && w.end != CancelledInFlight && !w.interrupted
      modifies this, db
      ensures Valid() && old(moves) <= moves && client in system.clients && Ended(r, system.clients[client])
      ensures r == Accounted(id, w)
      ensures system.wire == old(system.wire) && db.state == LedgerAccounted(old(db.state), row, w)
    {
      var error := RecordMove(Attempt(id, ok), w.record, client, row, false);
      if error.None? {
        return if ok then ReceiptFor(id) else AttemptFailed(id);
      }
      SealMove(root, run, w.seals.0, client, row);
      return NotRecorded(error.value);
    }

    /** Settle the record of a cancelled send: a refused write seals the run too. */
    method Settle(id: Id, root: Id, run: Id, ok: bool, ghost client: Id, ghost row: Row, w: World)
      requires Valid() && client in system.clients && system.clients[client] == Cancelling(row, ok)
      requires row.id == id && row.key.root == root && row.key.run == run && id in db.state.states
      modifies this, db
      ensures Valid() && old(moves) <= moves && client in system.clients && system.clients[client] == Sealing(row)
      ensures system.wire == old(system.wire) && db.state == LedgerSettled(old(db.state), row, ok, w)
    {
      var error := RecordMove(Attempt(id, ok), w.record, client, row, true);
      if error.Some? {
        SealAside(root, run, w.seals.0, row);
      }
    }

    method Reconcile(id: Id, root: Id, run: Id, ok: bool, ghost client: Id, ghost row: Row, w: World)
      requires Valid() && client in system.clients && system.clients[client] == Cancelling(row, ok)
      requires row.id == id && row.key.root == root && row.key.run == run && id in db.state.states
      requires ok == (w.end == Responds) && (w.end == CancelledInFlight || w.interrupted)
      modifies this, db
      ensures Valid() && old(moves) <= moves && client in system.clients && system.clients[client] == Done(Raised, Some(row))
      ensures system.wire == old(system.wire) && db.state == LedgerAccounted(old(db.state), row, w)
    {
      Settle(id, root, run, ok, client, row, w);
      SealMove(root, run, w.seals.1, client, row);
    }
  }
}
