/** Many sends at once over one ledger: each step of a send is one action, so every
    interleaving of replays, refusals, lost commits, provider failures, cancellations, seals
    and foreign transactions is a sequence of actions. */
module Transport {
  import opened Basics
  import opened EgressContracts
  import opened Accounts
  import opened Acceptance
  import opened OrderIndependence
  import opened CorpusInvariants
  import opened Enforcer
  import opened Ledger
  import opened LedgerInvariants
  import opened LedgerRuns
  import opened LedgerProperties
  import opened PostgresLedger
  import Maps

  datatype Result = NotSent | Receipt | ProviderFailed | Raised

  /** Where one send stands. Everything from InFlight on has handed its payload to an adapter. */
  datatype Phase =
    | Calling(call: Call)
    | Holding(call: Call, row: Row)
    | InFlight(call: Call, row: Row)
    | Recording(row: Row, ok: bool)
    | Cancelling(row: Row, ok: bool)
    | Sealing(row: Row)
    | Done(result: Result, sent: Option<Row>)

  datatype Sent = Sent(row: Row, call: Call)

  /** `wire` lists the payloads handed to adapters, `sealTries` the runs a send tried to seal. */
  datatype System = System(ledger: Ledger, clients: map<Id, Phase>, wire: seq<Sent>, sealTries: set<(Id, Id)>)

  const START := System(EMPTY, map[], [], {})

  datatype Move =
    | Start(client: Id, call: Call)
    | ReserveCall(client: Id, freshEpoch: Id, freshId: Id, fate: Fate)
    | HandOver(client: Id)
    | Respond(client: Id)
    | Fail(client: Id)
    | Cancel(client: Id)
    | RecordCall(client: Id, fate: Fate)
    | SealCall(client: Id, fate: Fate)
    | Foreign(action: Action)

  function Put(s: System, client: Id, phase: Phase): System {
    s.(clients := s.clients[client := phase])
  }

  ghost function AfterReserve(s: System, m: Move, call: Call): System
    requires m.ReserveCall?
  {
    var reply := ReserveReply(s.ledger, call, m.freshEpoch, m.freshId);
    var ledger := if Commits(m.fate) then Reserve(s.ledger, call, m.freshEpoch, m.freshId) else s.ledger;
    var phase := if m.fate == Delivered && reply.Granted? then Holding(call, reply.row) else Done(NotSent, None);
    Put(s, m.client, phase).(ledger := ledger)
  }

  /** A recorded attempt ends the send; a refused or cancelled one goes on to seal the run. */
  function AfterRecord(s: System, m: Move, row: Row, ok: bool, cancelled: bool): System
    requires m.RecordCall?
  {
    var attempt := Attempt(row.id, ok);
    var ledger := if Commits(m.fate) then Record(s.ledger, attempt) else s.ledger;
    var written := m.fate == Delivered && row.id in s.ledger.states;
    var phase :=
      if cancelled || !written then Sealing(row)
      else Done(if ok then Receipt else ProviderFailed, Some(row));
    Put(s, m.client, phase).(ledger := ledger)
  }

  /** The payload leaves. */
  function AfterHandOver(s: System, i: Id, call: Call, row: Row): System {
    Put(s, i, InFlight(call, row)).(wire := s.wire + [Sent(row, call)])
  }

  function AfterSeal(s: System, i: Id, fate: Fate, row: Row): System {
    Put(s, i, Done(Raised, Some(row))).(
      ledger := if Commits(fate) then Seal(s.ledger, row.key.root, row.key.run) else s.ledger,
      sealTries := s.sealTries + {(row.key.root, row.key.run)})
  }

  /** A move that does not fit the client's phase changes nothing. */
  ghost function Next(s: System, m: Move): System {
    if m.Foreign? then s.(ledger := Step(s.ledger, m.action))
    else if m.Start? then if m.client in s.clients then s else Put(s, m.client, Calling(m.call))
    else if m.client !in s.clients then s
    else
      match (m, s.clients[m.client])
      case (ReserveCall(_, _, _, _), Calling(call)) => AfterReserve(s, m, call)
      case (HandOver(i), Holding(call, row)) => AfterHandOver(s, i, call, row)
      case (Respond(i), InFlight(_, row)) => Put(s, i, Recording(row, true))
      case (Fail(i), InFlight(_, row)) => Put(s, i, Recording(row, false))
      case (Cancel(i), InFlight(_, row)) => Put(s, i, Cancelling(row, false))
      case (Cancel(i), Recording(row, ok)) => Put(s, i, Cancelling(row, ok))
      case (RecordCall(_, _), Recording(row, ok)) => AfterRecord(s, m, row, ok, false)
      case (RecordCall(_, _), Cancelling(row, ok)) => AfterRecord(s, m, row, ok, true)
      case (SealCall(i, fate), Sealing(row)) => AfterSeal(s, i, fate, row)
      case _ => s
  }

  ghost function Moves(s: System, ms: seq<Move>): System {
    if ms == [] then s else Next(Moves(s, ms[..|ms|-1]), ms[|ms|-1])
  }

  // ----- the invariant -----

  function RowOf(p: Phase): Option<Row> {
    match p
    case Holding(_, row) => Some(row)
    case InFlight(_, row) => Some(row)
    case Recording(row, _) => Some(row)
    case Cancelling(row, _) => Some(row)
    case Sealing(row) => Some(row)
    case Done(_, sent) => sent
    case Calling(_) => None
  }

  /** The call and the row agree, and the row charges exactly what the payload discloses. */
  ghost predicate Charged(call: Call, row: Row) {
    row.key == call.KeyOf() && row.entry == call.Entry() && Prepared(call.p.request, call.policy, call.counter, call.authorized) == Ok(call.p)
  }

  ghost predicate OnWire(wire: seq<Sent>, row: Row) {
    exists k :: 0 <= k < |wire| && wire[k].row == row
  }

  ghost predicate HolderOk(l: Ledger, wire: seq<Sent>, p: Phase) {
    RowOf(p).Some? ==>
      && RowOf(p).value in l.log
      && (if p.Holding? then !OnWire(wire, p.row) && Charged(p.call, p.row) else OnWire(wire, RowOf(p).value))
  }

  ghost predicate ExitOk(l: Ledger, tries: set<(Id, Id)>, p: Phase) {
    match p
    case Done(Receipt, Some(row)) => Attempt(row.id, true) in l.attempts
    case Done(ProviderFailed, Some(row)) => Attempt(row.id, false) in l.attempts
    case Done(Raised, Some(row)) => (row.key.root, row.key.run) in tries
    case Done(NotSent, None) => true
    case Done(_, _) => false
    case _ => true
  }

  ghost predicate WireOk(l: Ledger, wire: seq<Sent>) {
    && (forall k :: 0 <= k < |wire| ==> wire[k].row in l.log && Charged(wire[k].call, wire[k].row))
    && (forall i, j :: 0 <= i < j < |wire| ==> wire[i].row != wire[j].row)
  }

  ghost predicate HoldersOk(l: Ledger, clients: map<Id, Phase>, wire: seq<Sent>) {
    && (forall i <- clients :: HolderOk(l, wire, clients[i]))
    && (forall i, j :: i in clients && j in clients && i != j && clients[i].Holding? && clients[j].Holding? ==>
          clients[i].row != clients[j].row)
  }

  ghost predicate ExitsOk(l: Ledger, clients: map<Id, Phase>, tries: set<(Id, Id)>) {
    forall i <- clients :: ExitOk(l, tries, clients[i])
  }

  ghost predicate Safe(s: System) {
    && Sound(s.ledger)
    && WireOk(s.ledger, s.wire)
    && HoldersOk(s.ledger, s.clients, s.wire)
    && ExitsOk(s.ledger, s.clients, s.sealTries)
  }

  // ----- the ledger moves -----

  lemma PrefixHas<T>(a: seq<T>, b: seq<T>, x: T)
    requires a <= b && x in a
    ensures x in b
  {
  }

  lemma LedgerMoved(l: Ledger, m: Ledger, clients: map<Id, Phase>, wire: seq<Sent>, tries: set<(Id, Id)>, tries': set<(Id, Id)>)
    requires l.log <= m.log && l.attempts <= m.attempts && tries <= tries'
    requires WireOk(l, wire) && HoldersOk(l, clients, wire) && ExitsOk(l, clients, tries)
    ensures WireOk(m, wire) && HoldersOk(m, clients, wire) && ExitsOk(m, clients, tries')
  {
    forall k | 0 <= k < |wire| ensures wire[k].row in m.log {
      PrefixHas(l.log, m.log, wire[k].row);
    }
    forall i <- clients ensures HolderOk(m, wire, clients[i]) && ExitOk(m, tries', clients[i]) {
      assert HolderOk(l, wire, clients[i]) && ExitOk(l, tries, clients[i]);
    }
  }

  lemma PhasePut(l: Ledger, clients: map<Id, Phase>, wire: seq<Sent>, tries: set<(Id, Id)>, client: Id, p: Phase)
    requires HoldersOk(l, clients, wire) && ExitsOk(l, clients, tries)
    requires HolderOk(l, wire, p) && ExitOk(l, tries, p)
    requires p.Holding? ==> forall i <- clients :: clients[i].Holding? ==> clients[i].row != p.row
    ensures HoldersOk(l, clients[client := p], wire) && ExitsOk(l, clients[client := p], tries)
  {
  }

  // ----- each kind of move keeps the system safe -----

  lemma FreshRow(l: Ledger, row: Row, clients: map<Id, Phase>, wire: seq<Sent>)
    requires Sound(l) && row.id !in l.states && WireOk(l, wire) && HoldersOk(l, clients, wire)
    ensures !OnWire(wire, row) && forall i <- clients :: clients[i].Holding? ==> clients[i].row != row
  {
    SoundMeans(l);
    forall r <- l.log ensures r != row {
      assert RowOk(r, l.states, l.roots, l.epochs);
    }
    forall i <- clients | clients[i].Holding? ensures clients[i].row != row {
      assert HolderOk(l, wire, clients[i]);
    }
  }

  lemma GrantedCharges(l: Ledger, c: Call, freshEpoch: Id, freshId: Id, row: Row, m: Ledger)
    requires ReserveReply(l, c, freshEpoch, freshId) == Granted(row) && m == Reserve(l, c, freshEpoch, freshId)
    ensures Charged(c, row) && row.id !in l.states && row in m.log
  {
    GrantedUnfolds(l, c, freshEpoch, freshId, DecisionOn(l, c));
    GrantedLog(l, c, freshEpoch, freshId, row, m);
    assert Decided(l, c, DecisionOn(l, c));
    OnlyCanonical(l, c);
  }

  lemma OnlyCanonical(l: Ledger, c: Call)
    requires Decided(l, c, None)
    ensures Prepared(c.p.request, c.policy, c.counter, c.authorized) == Ok(c.p)
  {
    DecidedMeans(l, c, None);
    OnlyPreparedIsAccepted(BooksFor(l, c), c.p, c.policy, c.counter, c.authorized);
  }

  lemma ReserveSafe(s: System, m: Move, call: Call, t: System)
    requires Safe(s) && m.ReserveCall? && t == AfterReserve(s, m, call)
    ensures Safe(t)
  {
    var l := if Commits(m.fate) then Reserve(s.ledger, call, m.freshEpoch, m.freshId) else s.ledger;
    var reply := ReserveReply(s.ledger, call, m.freshEpoch, m.freshId);
    StepSound(s.ledger, DoReserve(call, m.freshEpoch, m.freshId));
    LaterItself(s.ledger);
    ReserveLater(s.ledger, call, m.freshEpoch, m.freshId, Reserve(s.ledger, call, m.freshEpoch, m.freshId));
    LedgerMoved(s.ledger, l, s.clients, s.wire, s.sealTries, s.sealTries);
    if m.fate == Delivered && reply.Granted? {
      GrantedCharges(s.ledger, call, m.freshEpoch, m.freshId, reply.row, l);
      FreshRow(s.ledger, reply.row, s.clients, s.wire);
      PhasePut(l, s.clients, s.wire, s.sealTries, m.client, Holding(call, reply.row));
    } else {
      PhasePut(l, s.clients, s.wire, s.sealTries, m.client, Done(NotSent, None));
    }
  }

  lemma WireGrown(wire: seq<Sent>, x: Sent, row: Row)
    ensures OnWire(wire + [x], row) <==> OnWire(wire, row) || row == x.row
  {
    var more := wire + [x];
    if OnWire(wire, row) {
      var k :| 0 <= k < |wire| && wire[k].row == row;
      assert more[k].row == row;
    }
    assert more[|wire|] == x;
    if OnWire(more, row) {
      var k :| 0 <= k < |more| && more[k].row == row;
      assert k < |wire| ==> wire[k].row == row;
    }
  }

  lemma WireSafe(l: Ledger, wire: seq<Sent>, x: Sent)
    requires WireOk(l, wire) && x.row in l.log && Charged(x.call, x.row) && !OnWire(wire, x.row)
    ensures WireOk(l, wire + [x])
  {
    forall k | 0 <= k < |wire| ensures wire[k].row != x.row {
      assert OnWire(wire, wire[k].row);
    }
  }

  lemma HandOverSafe(l: Ledger, clients: map<Id, Phase>, wire: seq<Sent>, tries: set<(Id, Id)>, i: Id)
    requires WireOk(l, wire) && HoldersOk(l, clients, wire) && ExitsOk(l, clients, tries)
    requires i in clients && clients[i].Holding?
    ensures var wire', p := wire + [Sent(clients[i].row, clients[i].call)], InFlight(clients[i].call, clients[i].row);
            WireOk(l, wire') && HoldersOk(l, clients[i := p], wire') && ExitsOk(l, clients[i := p], tries)
  {
    var x := Sent(clients[i].row, clients[i].call);
    var p := InFlight(clients[i].call, clients[i].row);
    assert HolderOk(l, wire, clients[i]);
    WireSafe(l, wire, x);
    HoldersAfterHandOver(l, clients, wire, i, x, p);
  }

  lemma HoldersAfterHandOver(l: Ledger, clients: map<Id, Phase>, wire: seq<Sent>, i: Id, x: Sent, p: Phase)
    requires HoldersOk(l, clients, wire) && i in clients && clients[i].Holding?
    requires x == Sent(clients[i].row, clients[i].call) && p == InFlight(clients[i].call, clients[i].row)
    ensures HoldersOk(l, clients[i := p], wire + [x])
  {
    assert HolderOk(l, wire, clients[i]);
    var after := clients[i := p];
    forall j <- after ensures HolderOk(l, wire + [x], after[j]) {
      if RowOf(after[j]).Some? {
        WireGrown(wire, x, RowOf(after[j]).value);
      }
      assert j != i ==> HolderOk(l, wire, clients[j]);
    }
  }

  /** The ledger after a record move, and the phase that follows from it. */
  lemma RecordedLedger(l: Ledger, fate: Fate, attempt: Attempt, m: Ledger)
    requires Sound(l) && m == if Commits(fate) then Record(l, attempt) else l
    ensures Sound(m) && l.log <= m.log && l.attempts <= m.attempts
    ensures fate == Delivered && attempt.reservation in l.states ==> attempt in m.attempts
  {
    SoundMeans(l);
    RecordKeepsInv(l, attempt);
    if fate == Delivered && attempt.reservation in l.states {
      assert m.attempts[|l.attempts|] == attempt;
    }
  }

  lemma RecordSafe(s: System, m: Move, row: Row, ok: bool, cancelled: bool, t: System)
    requires Safe(s) && m.RecordCall? && t == AfterRecord(s, m, row, ok, cancelled)
    requires row in s.ledger.log && OnWire(s.wire, row)
    ensures Safe(t)
  {
    RecordedLedger(s.ledger, m.fate, Attempt(row.id, ok), t.ledger);
    LedgerMoved(s.ledger, t.ledger, s.clients, s.wire, s.sealTries, s.sealTries);
    PhasePut(t.ledger, s.clients, s.wire, s.sealTries, m.client, t.clients[m.client]);
  }

  lemma SealSafe(s: System, i: Id, fate: Fate, row: Row, t: System)
    requires Safe(s) && row in s.ledger.log && OnWire(s.wire, row)
    requires t == AfterSeal(s, i, fate, row)
    ensures Safe(t)
  {
    StepSound(s.ledger, DoSeal(row.key.root, row.key.run));
    LedgerMoved(s.ledger, t.ledger, s.clients, s.wire, s.sealTries, t.sealTries);
    PhasePut(t.ledger, s.clients, s.wire, t.sealTries, i, Done(Raised, Some(row)));
  }

  lemma PutSafe(s: System, i: Id, p: Phase)
    requires Safe(s) && !p.Holding? && HolderOk(s.ledger, s.wire, p) && ExitOk(s.ledger, s.sealTries, p)
    ensures Safe(Put(s, i, p))
  {
    PhasePut(s.ledger, s.clients, s.wire, s.sealTries, i, p);
  }

  lemma ForeignSafe(s: System, a: Action)
    requires Safe(s)
    ensures Safe(s.(ledger := Step(s.ledger, a)))
  {
    StepSound(s.ledger, a);
    StepLater(s.ledger, a, Step(s.ledger, a));
    LedgerMoved(s.ledger, Step(s.ledger, a), s.clients, s.wire, s.sealTries, s.sealTries);
  }

  lemma ClientSafe(s: System, i: Id)
    requires Safe(s) && i in s.clients
    ensures HolderOk(s.ledger, s.wire, s.clients[i])
  {
  }

  lemma NextSafe(s: System, m: Move, t: System)
    requires Safe(s) && t == Next(s, m)
    ensures Safe(t)
  {
    if m.Foreign? {
      ForeignSafe(s, m.action);
    } else if m.Start? {
      if m.client !in s.clients {
        PutSafe(s, m.client, Calling(m.call));
      }
    } else if m.client in s.clients {
      ClientSafe(s, m.client);
      if m.Respond? || m.Fail? || m.Cancel? {
        LocalNextSafe(s, m, s.clients[m.client], t);
      } else {
        ClientNextSafe(s, m, s.clients[m.client], t);
      }
    }
  }

  /** Where the adapter's end or a cancellation leaves a client; a move that does not fit leaves
      it where it was. */
  function LocalPhase(m: Move, p: Phase): Phase {
    match (m, p)
    case (Respond(_), InFlight(_, row)) => Recording(row, true)
    case (Fail(_), InFlight(_, row)) => Recording(row, false)
    case (Cancel(_), InFlight(_, row)) => Cancelling(row, false)
    case (Cancel(_), Recording(row, ok)) => Cancelling(row, ok)
    case _ => p
  }

  lemma NextIsLocal(s: System, m: Move, p: Phase)
    requires (m.Respond? || m.Fail? || m.Cancel?) && m.client in s.clients && p == s.clients[m.client]
    ensures LocalPhase(m, p) != p ==> Next(s, m) == Put(s, m.client, LocalPhase(m, p))
    ensures LocalPhase(m, p) == p ==> Next(s, m) == s
    ensures LocalPhase(m, p) != p ==> !LocalPhase(m, p).Holding? && !LocalPhase(m, p).Done? && !p.Holding? && RowOf(LocalPhase(m, p)) == RowOf(p)
  {
  }

  lemma LocalNextSafe(s: System, m: Move, p: Phase, t: System)
    requires Safe(s) && (m.Respond? || m.Fail? || m.Cancel?) && m.client in s.clients && p == s.clients[m.client] && t == Next(s, m)
    requires HolderOk(s.ledger, s.wire, p)
    ensures Safe(t)
  {
    NextIsLocal(s, m, p);
    if LocalPhase(m, p) != p {
      PutSafe(s, m.client, LocalPhase(m, p));
    }
  }

  /** The client's phase is one the move is for. */
  predicate Fits(m: Move, p: Phase) {
    match m
    case ReserveCall(_, _, _, _) => p.Calling?
    case HandOver(_) => p.Holding?
    case RecordCall(_, _) => p.Recording? || p.Cancelling?
    case SealCall(_, _) => p.Sealing?
    case _ => false
  }

  lemma NextFits(s: System, m: Move, p: Phase)
    requires (m.ReserveCall? || m.HandOver? || m.RecordCall? || m.SealCall?) && m.client in s.clients && p == s.clients[m.client]
    ensures Next(s, m) ==
            if !Fits(m, p) then s
            else if m.ReserveCall? then AfterReserve(s, m, p.call)
            else if m.HandOver? then AfterHandOver(s, m.client, p.call, p.row)
            else if m.RecordCall? then AfterRecord(s, m, p.row, p.ok, p.Cancelling?)
            else AfterSeal(s, m.client, m.fate, p.row)
  {
  }

  lemma HandedOverSafe(s: System, i: Id, call: Call, row: Row, t: System)
    requires Safe(s) && i in s.clients && s.clients[i] == Holding(call, row) && t == AfterHandOver(s, i, call, row)
    ensures Safe(t)
  {
    HandOverSafe(s.ledger, s.clients, s.wire, s.sealTries, i);
  }

  lemma ClientNextSafe(s: System, m: Move, p: Phase, t: System)
    requires Safe(s) && !m.Foreign? && !m.Start? && !m.Respond? && !m.Fail? && !m.Cancel? && m.client in s.clients && p == s.clients[m.client] && t == Next(s, m)
    requires HolderOk(s.ledger, s.wire, p)
    ensures Safe(t)
  {
    NextFits(s, m, p);
    if Fits(m, p) {
      match m
      case ReserveCall(_, _, _, _) => ReserveSafe(s, m, p.call, t);
      case HandOver(i) => HandedOverSafe(s, i, p.call, p.row, t);
      case RecordCall(_, _) => RecordSafe(s, m, p.row, p.ok, p.Cancelling?, t);
      case SealCall(i, fate) => SealSafe(s, i, fate, p.row, t);
    }
  }

  lemma {:induction false} MovesSafe(s: System, ms: seq<Move>, t: System)
    requires Safe(s) && t == Moves(s, ms)
    ensures Safe(t)
    decreases |ms|
  {
    if ms != [] {
      var before := Moves(s, ms[..|ms|-1]);
      MovesSafe(s, ms[..|ms|-1], before);
      NextSafe(before, ms[|ms|-1], t);
    }
  }
}
