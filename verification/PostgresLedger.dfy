/** The ledger over its tables: each method is one transaction whose commit may be lost, seen,
    or happen unseen. */
module PostgresLedger {
  import opened Basics
  import opened EgressContracts
  import opened Accounts
  import opened OrderIndependence
  import opened ScopeInvariants
  import opened Snapshots
  import opened AccountUpdates
  import opened Enforcer
  import opened Ledger
  import opened LedgerInvariants
  import opened LedgerRuns
  import opened LedgerProperties
  import opened LedgerTables
  import Maps

  /** How a transaction that would commit ends: seen by the caller; committed or rolled back
      with the connection lost; refused by the database; or never connected. */
  datatype Fate = Delivered | CommittedUnseen | LostBefore | DatabaseError | Unreachable

  datatype LedgerError = Ambiguous | Unavailable

  datatype Answer =
    | Reservation(id: Id, replayed: bool, state: ReservationState, usage: UsageSnapshot, corpus: CorpusUsage)
    | Refused(code: Code)
    | Sealed
    | Failed(error: LedgerError)

  predicate Commits(fate: Fate) {
    fate == Delivered || fate == CommittedUnseen
  }

  /** What a caller is told of a transaction it did not see through. */
  function Lost(fate: Fate): LedgerError {
    if fate == CommittedUnseen || fate == LostBefore then Ambiguous else Unavailable
  }

  ghost predicate Answers(a: Answer, reply: Reply, b: Books) {
    match reply
    case Granted(row) =>
      a.Reservation? && a.id == row.id && !a.replayed && a.state == Reserved
      && RootRepresents(a.usage, Post(b, row.entry).root) && CorpusRepresents(a.corpus, Post(b, row.entry).corpus)
    case Replayed(row) =>
      a.Reservation? && a.id == row.id && a.replayed && RootRepresents(a.usage, b.root) && CorpusRepresents(a.corpus, b.corpus)
    case Violation(code) => a == Refused(code)
    case RunSealed => a == Sealed
    case Collision => a == Failed(Unavailable)
  }

  /** The enforcer's answer on the books under lock. */
  method Enforce(c: Call, usage: Option<UsageSnapshot>, corpus: CorpusUsage, ghost l: Ledger, ghost decision: Option<Code>)
    returns (r: Result<Enforcer.Outcome>)
    requires Sound(l) && Decided(l, c, decision)
    requires usage.None? <==> c.Root() !in l.roots
    requires usage.Some? ==> RootRepresents(usage.value, RootFor(l, c))
    requires CorpusRepresents(corpus, CorpusFor(l, c))
    ensures AccountUpdates.Outcome(r) == decision
    ensures r.Ok? ==> RootRepresents(r.value.usage, PostRoot(RootFor(l, c), c.Entry()))
    ensures r.Ok? ==> CorpusRepresents(r.value.corpus, PostCorpus(CorpusFor(l, c), c.Entry()))
  {
    NestedFound(l, c);
    r := ApplyReservation(usage, Some(corpus), c.p, c.policy, c.counter, c.authorized, BooksFor(l, c));
    DecidedMeans(l, c, decision);
  }

  lemma NestedFound(l: Ledger, c: Call)
    requires Sound(l)
    ensures Nested(RootFor(l, c).accounts)
  {
    SoundMeans(l);
    FoundSound(l, c);
    assert Maps.Unfold(0);
  }

  ghost function AfterReply(l: Ledger, c: Call, reply: Reply): Ledger {
    if reply.Granted? then Write(l, reply.row, CorpusFor(l, c), Post(BooksFor(l, c), reply.row.entry)) else l
  }

  lemma GivenSound(l: Ledger, c: Call, freshEpoch: Id, freshId: Id, decision: Option<Code>)
    requires Sound(l) && Decided(l, c, decision)
    ensures Sound(AfterReply(l, c, ReplyGiven(l, c, freshEpoch, freshId, decision)))
  {
    SoundMeans(l);
    GivenKeepsInv(l, c, freshEpoch, freshId, decision);
  }

  class Database {
    var tables: Tables
    ghost var state: Ledger

    ghost predicate Valid() reads this {
      Mirrors(tables, state)
    }

    constructor ()
      ensures Valid() && state == EMPTY
    {
      tables := Tables(map[], map[], map[], map[], {}, []);
      state := EMPTY;
      new;
    }

    /** The head and its epoch under lock; a first call for a corpus starts an empty epoch. */
    method LockCorpus(c: Call, freshEpoch: Id) returns (collision: bool, id: Id, usage: CorpusUsage)
      requires Valid()
      ensures collision <==> c.Corpus() !in state.heads && freshEpoch in state.epochs
      ensures id == EpochFor(state, c, freshEpoch)
      ensures CorpusRepresents(usage, CorpusFor(state, c))
    {
      MirrorsMeans(tables, state);
      if c.Corpus() in tables.heads {
        id := tables.heads[c.Corpus()].value;
        HeadEpochs(state, c.Corpus());
        ReconciledAlways(tables, state, id, c.Corpus());
        var reconciled := Reconciled(c.Corpus(), tables.epochs[id]);
        collision, usage := false, reconciled.value;
      } else {
        id, collision := freshEpoch, freshEpoch in tables.epochs;
        usage := CorpusUsage(c.Corpus(), c.policy, NOTHING, []);
      }
    }

    /** The root's snapshot under lock; refused when the root is bound to another epoch. */
    method LockRoot(c: Call, epoch: Id) returns (mismatch: bool, usage: Option<UsageSnapshot>)
      requires Valid()
      ensures mismatch <==> c.Root() in state.roots && state.roots[c.Root()].epoch != epoch
      ensures !mismatch ==> (usage.None? <==> c.Root() !in state.roots)
      ensures usage.Some? ==> RootRepresents(usage.value, RootFor(state, c))
    {
      MirrorsMeans(tables, state);
      if c.Root() !in tables.roots {
        return false, None;
      }
      RootHeld(tables, state, c.Root());
      if tables.roots[c.Root()].epoch != epoch {
        return true, None;
      }
      return false, tables.roots[c.Root()].usage;
    }

    method FindReplay(key: Key) returns (r: Option<Id>)
      requires Valid()
      ensures r.Some? <==> RowWith(state.log, key).Some?
      ensures r.Some? ==> r.value in tables.reservations && RowWith(state.log, key).value.id == r.value
    {
      MirrorsMeans(tables, state);
      SoundMeans(state);
      if exists id :: id in tables.reservations && tables.reservations[id].key == key {
        var id :| id in tables.reservations && tables.reservations[id].key == key;
        KeyInTable(tables.reservations, state.log, state.states, key, id);
        return Some(id);
      }
      KeyNotInTable(tables.reservations, state.log, state.states, key);
      return None;
    }

    /** The body of one transaction: its answer, and the tables it would commit. */
    method Transact(c: Call, freshEpoch: Id, freshId: Id, ghost decision: Option<Code>)
      returns (a: Answer, after: Tables, ghost reply: Reply)
      requires Valid() && Decided(state, c, decision)
      ensures reply == ReplyGiven(state, c, freshEpoch, freshId, decision)
      ensures Answers(a, reply, BooksFor(state, c))
      ensures a.Reservation? && a.replayed ==> a.id in state.states && a.state == state.states[a.id]
      ensures Mirrors(after, AfterReply(state, c, reply))
    {
      MirrorsMeans(tables, state);
      reply := ReplyGiven(state, c, freshEpoch, freshId, decision);
      after := tables;
      var collision, epoch, corpus := LockCorpus(c, freshEpoch);
      if collision {
        return Failed(Unavailable), after, reply;
      }
      var mismatch, usage := LockRoot(c, epoch);
      if mismatch {
        return Refused(PolicyMismatch), after, reply;
      }
      if (c.Root(), c.p.request.run) in tables.seals {
        return Sealed, after, reply;
      }
      var replay := FindReplay(c.KeyOf());
      if replay.Some? {
        ReplayAgrees(tables, state, c, freshEpoch);
        return Reservation(replay.value, true, tables.reservations[replay.value].state, usage.value, corpus), after, reply;
      }
      var outcome := Enforce(c, usage, corpus, state, decision);
      if outcome.Err? {
        return Refused(outcome.code), after, reply;
      }
      if freshId in tables.reservations {
        return Failed(Unavailable), after, reply;
      }
      var row := Row(freshId, c.KeyOf(), c.Corpus(), epoch, c.Entry());
      after := TableWrite(tables, row, c, outcome.value.usage, outcome.value.corpus);
      a := Reservation(freshId, false, Reserved, outcome.value.usage, outcome.value.corpus);
      WrittenMirrors(c, freshEpoch, freshId, decision, row, outcome.value);
    }

    lemma WrittenMirrors(c: Call, freshEpoch: Id, freshId: Id, decision: Option<Code>, row: Row, o: Enforcer.Outcome)
      requires Valid() && Decided(state, c, decision) && ReplyGiven(state, c, freshEpoch, freshId, decision) == Granted(row)
      requires RootRepresents(o.usage, PostRoot(RootFor(state, c), c.Entry()))
      requires CorpusRepresents(o.corpus, PostCorpus(CorpusFor(state, c), c.Entry()))
      ensures Mirrors(TableWrite(tables, row, c, o.usage, o.corpus), AfterReply(state, c, Granted(row)))
    {
      var b := BooksFor(state, c);
      MirrorsMeans(tables, state);
      GrantedMeans(state, c, freshEpoch, freshId, decision);
      SoundWrite(state, row, b, Post(b, row.entry));
      WriteMatches(tables, state, row, c, b.corpus, Post(b, row.entry), o.usage, o.corpus,
                   Write(state, row, b.corpus, Post(b, row.entry)), TableWrite(tables, row, c, o.usage, o.corpus));
      GivenSound(state, c, freshEpoch, freshId, decision);
    }

    /** check_and_reserve: exactly the abstract step when it commits, nothing otherwise; a
        caller that lost the connection is told only that the outcome is unknown. */
    method CheckAndReserve(c: Call, freshEpoch: Id, freshId: Id, fate: Fate) returns (a: Answer)
      requires Valid()
      modifies this
      ensures Valid()
      ensures state == if Commits(fate) then Reserve(old(state), c, freshEpoch, freshId) else old(state)
      ensures fate == Delivered ==> Answers(a, ReserveReply(old(state), c, freshEpoch, freshId), BooksFor(old(state), c))
      ensures a.Reservation? && a.replayed ==> a.id in old(state).states && a.state == old(state).states[a.id]
      ensures fate != Delivered ==> a == Failed(Lost(fate))
    {
      if fate == Unreachable || fate == DatabaseError {
        return Failed(Unavailable);
      }
      var after: Tables;
      ghost var reply;
      a, after, reply := Transact(c, freshEpoch, freshId, DecisionOn(state, c));
      if fate == Delivered || fate == CommittedUnseen {
        tables := after;
        state := Reserve(state, c, freshEpoch, freshId);
      }
      if fate != Delivered {
        return Failed(Ambiguous);
      }
    }

    /** rebind_policy: the head moves to a successor that inherits its usage, once. */
    method RebindPolicy(r: Rebinding, next: Id, fate: Fate) returns (a: RebindAnswer)
      requires Valid()
      modifies this
      ensures Valid()
      ensures state == if Commits(fate) then Rebind(old(state), r, next) else old(state)
      ensures fate == Delivered ==> RebindAnswers(a, RebindReplyOf(old(state), r, next))
      ensures fate != Delivered ==> a == RebindFailed(Lost(fate))
    {
      if fate == Unreachable || fate == DatabaseError {
        return RebindFailed(Unavailable);
      }
      a := RebindAnswerOf(r, next);
      if fate == Delivered || fate == CommittedUnseen {
        if a.BoundTo? && a.rebound {
          RebindTables(r, next);
          tables := TableRebind(tables, r.corpus, r.expectedId, next, SuccessorUsage(tables.epochs[r.expectedId].usage, r.policy));
        }
        state := Rebind(state, r, next);
      }
      if fate != Delivered {
        return RebindFailed(Ambiguous);
      }
    }

    /** What a rebind answers under its locks, before anything is written. */
    method RebindAnswerOf(r: Rebinding, next: Id) returns (a: RebindAnswer)
      requires Valid()
      ensures RebindAnswers(a, RebindReplyOf(state, r, next))
    {
      MirrorsMeans(tables, state);
      if r.corpus !in tables.heads {
        return RebindConflict;
      }
      var head := tables.heads[r.corpus].value;
      HeadEpochs(state, r.corpus);
      ReconciledAlways(tables, state, head, r.corpus);
      EpochHeld(tables, state, head);
      var usage := Reconciled(r.corpus, tables.epochs[head]).value;
      TotalsHeld(usage, state.epochs[head].book);
      var policy := tables.epochs[head].policy;
      if head == r.expectedId && policy == r.expectedPolicy == r.policy {
        return BoundTo(head, head, policy, policy, |usage.unique.ids|, usage.unique.tokens, usage.unique.bytes, false);
      }
      if head != r.expectedId {
        if policy != r.policy || tables.epochs[head].predecessor != Some(r.expectedId) || r.expectedId !in tables.epochs {
          return RebindConflict;
        }
        ReconciledAlways(tables, state, r.expectedId, r.corpus);
        var inherited := Reconciled(r.corpus, tables.epochs[r.expectedId]).value;
        TotalsHeld(inherited, state.epochs[r.expectedId].book);
        if inherited.policy != r.expectedPolicy {
          return RebindConflict;
        }
        return BoundTo(r.expectedId, head, r.expectedPolicy, policy, |inherited.unique.ids|, inherited.unique.tokens, inherited.unique.bytes, false);
      }
      if policy != r.expectedPolicy {
        return RebindConflict;
      }
      if next in tables.epochs {
        return RebindFailed(Unavailable);
      }
      return BoundTo(head, next, policy, r.policy, |usage.unique.ids|, usage.unique.tokens, usage.unique.bytes, true);
    }

    lemma RebindTables(r: Rebinding, next: Id)
      requires Valid() && RebindReplyOf(state, r, next).Bound? && RebindReplyOf(state, r, next).rebound
      ensures r.expectedId in tables.epochs
      ensures Mirrors(TableRebind(tables, r.corpus, r.expectedId, next, SuccessorUsage(tables.epochs[r.expectedId].usage, r.policy)),
                      Rebind(state, r, next))
    {
      MirrorsMeans(tables, state);
      SoundRebind(state, r, next);
      ReboundMeans(state, r, next);
      SoundChain(state, r.corpus);
      EpochHeld(tables, state, r.expectedId);
      RebindMatches(tables, state, r.corpus, r.expectedId, next, r.policy, Rebind(state, r, next));
    }

    /** record_attempt: refused when its reservation does not exist. */
    method RecordAttempt(attempt: Attempt, fate: Fate) returns (error: Option<LedgerError>)
      requires Valid()
      modifies this
      ensures Valid()
      ensures state == if Commits(fate) then Record(old(state), attempt) else old(state)
      ensures error == if fate == Delivered && attempt.reservation in old(state).states then None else Some(Lost(fate))
    {
      if fate == Unreachable || fate == DatabaseError {
        return Some(Unavailable);
      }
      RecordMirrors(tables, state, attempt, TableRecord(tables, attempt), Record(state, attempt));
      var missing := attempt.reservation !in tables.reservations;
      if fate == Delivered || fate == CommittedUnseen {
        tables := TableRecord(tables, attempt);
        state := Record(state, attempt);
      }
      return if fate != Delivered then Some(Ambiguous) else if missing then Some(Unavailable) else None;
    }

    /** seal_run: sealing twice is sealing once; any failure is reported as unavailable. */
    method SealRun(root: Id, run: Id, fate: Fate) returns (error: Option<LedgerError>)
      requires Valid()
      modifies this
      ensures Valid()
      ensures state == if Commits(fate) then Seal(old(state), root, run) else old(state)
      ensures error == if fate == Delivered then None else Some(Unavailable)
    {
      if fate == Delivered || fate == CommittedUnseen {
        tables := tables.(seals := tables.seals + {(root, run)});
        state := Seal(state, root, run);
      }
      return if fate == Delivered then None else Some(Unavailable);
    }
  }

  datatype RebindAnswer =
    | RebindConflict
    | RebindFailed(error: LedgerError)
    | BoundTo(predecessor: Id, successor: Id, oldPolicy: Policy, newPolicy: Policy,
              excerpts: nat, tokens: nat, bytes: nat, rebound: bool)

  ghost predicate RebindAnswers(a: RebindAnswer, reply: RebindReply) {
    match reply
    case Conflict => a == RebindConflict
    case RebindCollision => a == RebindFailed(Unavailable)
    case Bound(predecessor, successor, oldPolicy, newPolicy, inherited, rebound) =>
      a == BoundTo(predecessor, successor, oldPolicy, newPolicy, |inherited|, UniqueTokens(inherited), UniqueBytes(inherited), rebound)
  }

  lemma SoundRebind(l: Ledger, r: Rebinding, next: Id)
    requires Sound(l)
    ensures Sound(Rebind(l, r, next))
  {
    StepSound(l, DoRebind(r, next));
  }
}
