/** What a reservation's state says about the attempts recorded for it. */
module LedgerStates {
  import opened Basics
  import opened EgressContracts
  import opened Ledger

  /** The last attempt recorded for a reservation. */
  function LastAttempt(attempts: seq<Attempt>, id: Id): Option<Attempt> {
    if attempts == [] then None else
      var n := |attempts| - 1;
      if attempts[n].reservation == id then Some(attempts[n]) else LastAttempt(attempts[..n], id)
  }

  function StateAfter(last: Option<Attempt>): ReservationState {
    match last
    case None => Reserved
    case Some(a) => if a.succeeded then Succeeded else FailedKnown
  }

  /** A reservation is reserved until an attempt is recorded, and then as its last attempt
      ended; and no attempt is recorded for a reservation that was not committed. */
  ghost predicate StatesOk(l: Ledger) {
    && (forall id <- l.states :: l.states[id] == StateAfter(LastAttempt(l.attempts, id)))
    && (forall a <- l.attempts :: a.reservation in l.states)
  }

  lemma {:induction false} NoAttempt(attempts: seq<Attempt>, id: Id)
    requires forall a <- attempts :: a.reservation != id
    ensures LastAttempt(attempts, id) == None
  {
    if attempts != [] {
      NoAttempt(attempts[..|attempts|-1], id);
    }
  }

  lemma ReserveKeepsStates(l: Ledger, reply: Reply, after: Ledger)
    requires StatesOk(l)
    requires after.attempts == l.attempts
    requires after.states == if reply.Granted? then l.states[reply.row.id := Reserved] else l.states
    requires reply.Granted? ==> reply.row.id !in l.states
    ensures StatesOk(after)
  {
    if reply.Granted? {
      NoAttempt(l.attempts, reply.row.id);
    }
  }

  lemma ReserveMoves(l: Ledger, c: Call, freshEpoch: Id, freshId: Id, decision: Option<Code>)
    ensures var reply := ReplyGiven(l, c, freshEpoch, freshId, decision); reply.Granted? ==> reply.row.id !in l.states
  {
  }

  lemma ReserveStepKeepsStates(l: Ledger, c: Call, freshEpoch: Id, freshId: Id)
    requires StatesOk(l)
    ensures StatesOk(Reserve(l, c, freshEpoch, freshId))
  {
    ReserveMoves(l, c, freshEpoch, freshId, DecisionOn(l, c));
    ReserveKeepsStates(l, ReserveReply(l, c, freshEpoch, freshId), Reserve(l, c, freshEpoch, freshId));
  }

  lemma SameStates(l: Ledger, m: Ledger)
    requires StatesOk(l) && m.states == l.states && m.attempts == l.attempts
    ensures StatesOk(m)
  {
  }

  lemma RecordKeepsStates(l: Ledger, a: Attempt)
    requires StatesOk(l)
    ensures StatesOk(Record(l, a))
  {
    if a.reservation in l.states {
      var after := Record(l, a);
      assert after.attempts[..|l.attempts|] == l.attempts;
    }
  }

  lemma StepKeepsStates(l: Ledger, a: Action)
    requires StatesOk(l)
    ensures StatesOk(Step(l, a))
  {
    match a
    case DoReserve(c, freshEpoch, freshId) => ReserveStepKeepsStates(l, c, freshEpoch, freshId);
    case DoRecord(attempt) => RecordKeepsStates(l, attempt);
    case DoRebind(r, next) => SameStates(l, Rebind(l, r, next));
    case DoSeal(root, run) => SameStates(l, Seal(l, root, run));
    case Rollback =>
  }

  /** In every reachable ledger the state of each reservation is the outcome of its last
      attempt, and reserved means that no attempt was recorded. */
  lemma {:induction false} StatesTellAttempts(actions: seq<Action>)
    ensures StatesOk(Steps(EMPTY, actions))
  {
    if actions != [] {
      StatesTellAttempts(actions[..|actions|-1]);
      StepKeepsStates(Steps(EMPTY, actions[..|actions|-1]), actions[|actions|-1]);
    }
  }
}
