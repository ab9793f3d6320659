/** The rows of one run: its lease, its checkpoint, its attempts; and every transaction over
    them as one atomic step. */
module CheckpointStore {
  import opened Basics
  import opened Checkpoints

  datatype Status = Queued | Running | Interrupted | Finished(outcome: Id)
  datatype Reason = LeaseExpired | QueueDeliveryFailed | Other(code: Id)

  /** `binding` is None for a run that has no L2 bindings. */
  datatype RunRow = RunRow(
    id: Id, session: Id, query: Id, binding: Option<Binding>, status: Status, reason: Option<Reason>,
    owner: Option<Id>, expires: nat, started: Option<nat>, completed: Option<nat>)

  datatype AttemptRow = AttemptRow(number: nat, key: Option<Id>, started: nat, ended: Option<nat>, reason: Option<Reason>)

  /** A reservation as the egress tables know it; `settled` once succeeded or known failed. */
  datatype ReservationRef = ReservationRef(root: Id, run: Id, settled: bool)

  /** `history` lists the stored checkpoints since the first write after the last deletion. */
  datatype Rows = Rows(
    run: RunRow, checkpoint: Option<Checkpoint>, attempts: seq<AttemptRow>,
    history: seq<Checkpoint>, deletions: nat)

  datatype Disposition =
    | Acquired | Replay | NotOwner | NotInterrupted | QueryMismatch | BindingMismatch
    | CheckpointMissing | CheckpointInvalid | Leased
  datatype Reply =
    | Written(checkpoint: Checkpoint) | ValidationError | IntegrityError
    | Resume(disposition: Disposition, attempt: Option<nat>)
    | Changed(yes: bool)

  predicate Active(r: RunRow) {
    r.status == Queued || r.status == Running
  }

  predicate LiveLease(r: RunRow, owner: Id, now: nat) {
    r.owner == Some(owner) && now < r.expires
  }

  predicate BindingsMatch(r: RunRow, c: Checkpoint) {
    r.id == c.run && r.query == c.binding.query && r.binding == Some(c.binding)
  }

  predicate Reserved(c: Checkpoint, refs: map<Id, ReservationRef>) {
    forall id <- c.reservations :: id in refs && refs[id].root == c.binding.root && refs[id].run == c.run
  }

  predicate Settled(c: Checkpoint, refs: map<Id, ReservationRef>) {
    forall id <- c.reservations :: id in refs && refs[id].root == c.binding.root && refs[id].run == c.run && refs[id].settled
  }

  function Latest(attempts: seq<AttemptRow>): Option<AttemptRow> {
    if attempts == [] then None else
      var n := |attempts| - 1;
      match Latest(attempts[..n])
      case None => Some(attempts[n])
      case Some(best) => Some(if best.number < attempts[n].number then attempts[n] else best)
  }

  function WithKey(attempts: seq<AttemptRow>, key: Id): Option<AttemptRow> {
    if attempts == [] then None else
      var n := |attempts| - 1;
      if attempts[n].key == Some(key) then Some(attempts[n]) else WithKey(attempts[..n], key)
  }

  predicate Numbered(attempts: seq<AttemptRow>, number: nat) {
    exists a <- attempts :: a.number == number
  }

  // ----- write -----

  function FirstAttempt(r: RunRow, now: nat): AttemptRow {
    var started := if r.started.Some? then r.started.value else if r.completed.Some? then r.completed.value else now;
    var ended := if r.status == Interrupted then r.completed else None;
    AttemptRow(1, None, started, ended, if ended.Some? then r.reason else None)
  }

  function WriteReply(s: Rows, previous: Option<nat>, c: Checkpoint, refs: map<Id, ReservationRef>, now: nat): Reply {
    var current := if s.checkpoint.Some? then Some(s.checkpoint.value.version) else None;
    if !BindingsMatch(s.run, c) || !Reserved(c, refs) then ValidationError
    else if current != previous then ValidationError
    else if c.version != (if previous.Some? then previous.value else 0) + 1 then ValidationError
    else if s.checkpoint.None? && (c.stage != Planned || c.attempt != 1) then ValidationError
    else if s.checkpoint.Some? && !ValidTransition(s.checkpoint.value, c.(accessed := now)) then IntegrityError
    else Written(c.(accessed := now))
  }

  function Write(s: Rows, previous: Option<nat>, c: Checkpoint, refs: map<Id, ReservationRef>, now: nat): Rows {
    match WriteReply(s, previous, c, refs, now)
    case Written(stored) =>
      s.(checkpoint := Some(stored), history := s.history + [stored],
         attempts := if s.checkpoint.None? && !Numbered(s.attempts, 1) then s.attempts + [FirstAttempt(s.run, now)] else s.attempts)
    case _ => s
  }

  // ----- resume -----

  datatype ResumeCall = ResumeCall(
    session: Id, query: Id, key: Id, owner: Id, seconds: nat, deployment: Option<Deployment>, refs: map<Id, ReservationRef>)

  function Resumable(r: RunRow): bool {
    r.status == Interrupted && r.reason == Some(LeaseExpired)
  }

  /** A key that already has an attempt is answered from the stored rows alone. */
  function ReplayReply(r: RunRow, replay: AttemptRow, latest: AttemptRow, c: Checkpoint): Reply {
    if replay.number != c.attempt then Resume(CheckpointInvalid, None)
    else if Active(r) then
      if latest.ended.Some? then Resume(CheckpointInvalid, None) else Resume(Replay, Some(replay.number))
    else if latest.ended.None? || latest.reason != r.reason then Resume(CheckpointInvalid, None)
    else Resume(Replay, Some(replay.number))
  }

  function ResumeReply(s: Rows, call: ResumeCall): Reply {
    var replay := WithKey(s.attempts, call.key);
    var latest := Latest(s.attempts);
    if call.seconds == 0 then ValidationError
    else if s.run.session != call.session then Resume(NotOwner, None)
    else if s.run.query != call.query then Resume(QueryMismatch, None)
    else if replay.None? && Active(s.run) then Resume(Leased, None)
    else if replay.None? && !Resumable(s.run) then Resume(NotInterrupted, None)
    else if s.checkpoint.None? then Resume(CheckpointMissing, None)
    else
      var c := s.checkpoint.value;
      if !BindingsMatch(s.run, c) then Resume(BindingMismatch, None)
      else if call.deployment.Some? && c.binding.deployment != call.deployment.value then Resume(BindingMismatch, None)
      else if latest.None? || latest.value.number != c.attempt then Resume(CheckpointInvalid, None)
      else if replay.Some? then ReplayReply(s.run, replay.value, latest.value, c)
      else if latest.value.ended.None? || latest.value.reason != Some(LeaseExpired) then Resume(CheckpointInvalid, None)
      else if !Settled(c, call.refs) then Resume(CheckpointInvalid, None)
      else Resume(Acquired, Some(latest.value.number + 1))
  }

  function BeginResume(s: Rows, call: ResumeCall, now: nat): Rows {
    var reply := ResumeReply(s, call);
    if reply.Resume? && reply.disposition == Acquired && s.checkpoint.Some? && reply.attempt.Some? then
      var c := Resumed(s.checkpoint.value, now).(attempt := reply.attempt.value);
      s.(run := s.run.(status := Running, reason := None, completed := None,
                       started := if s.run.started.Some? then s.run.started else Some(now),
                       owner := Some(call.owner), expires := now + call.seconds),
         attempts := s.attempts + [AttemptRow(reply.attempt.value, Some(call.key), now, None, None)],
         checkpoint := Some(c), history := s.history + [c])
    else s
  }

  // ----- the other transactions -----

  function Ended(a: AttemptRow, now: nat, reason: Reason): AttemptRow {
    a.(ended := Some(now), reason := Some(reason))
  }

  function EndOpen(attempts: seq<AttemptRow>, now: nat, reason: Reason): seq<AttemptRow> {
    seq(|attempts|, i requires 0 <= i < |attempts| =>
      if attempts[i].ended.None? then Ended(attempts[i], now, reason) else attempts[i])
  }

  function EndNumbered(attempts: seq<AttemptRow>, number: nat, now: nat, reason: Reason): seq<AttemptRow> {
    seq(|attempts|, i requires 0 <= i < |attempts| =>
      if attempts[i].number == number && attempts[i].ended.None? then Ended(attempts[i], now, reason) else attempts[i])
  }

  function Stopped(r: RunRow, status: Status, reason: Option<Reason>, now: nat): RunRow {
    r.(status := status, reason := reason, completed := Some(now), owner := None)
  }

  /** The attempt named must be the checkpoint's and still open, under the caller's live lease. */
  predicate DeliveryFails(s: Rows, attempt: nat, owner: Id, now: nat) {
    && s.run.status == Running && LiveLease(s.run, owner, now)
    && s.checkpoint.Some? && s.checkpoint.value.attempt == attempt
    && exists a <- s.attempts :: a.number == attempt && a.ended.None?
  }

  function FailReply(s: Rows, attempt: nat, owner: Id, now: nat): Reply {
    if attempt < 2 then ValidationError else Changed(DeliveryFails(s, attempt, owner, now))
  }

  function FailDelivery(s: Rows, attempt: nat, owner: Id, now: nat): Rows {
    if FailReply(s, attempt, owner, now) == Changed(true) then
      s.(run := Stopped(s.run, Interrupted, Some(QueueDeliveryFailed), now),
         attempts := EndNumbered(s.attempts, attempt, now, QueueDeliveryFailed))
    else s
  }

  function Compact(s: Rows, now: nat): Rows {
    if s.checkpoint.Some? && s.checkpoint.value.stage == Completed then
      var c := Compacted(s.checkpoint.value, now);
      s.(checkpoint := Some(c), history := s.history + [c])
    else s
  }

  predicate Expired(s: Rows, before: nat) {
    s.checkpoint.Some? && s.checkpoint.value.stage != Completed && s.checkpoint.value.accessed < before && !Active(s.run)
  }

  function DeleteExpired(s: Rows, before: nat): Rows {
    if Expired(s, before) then s.(checkpoint := None, history := [], deletions := s.deletions + 1) else s
  }

  /** The run store's own transactions: a worker claims, beats, completes; expiry interrupts. */
  function Claim(s: Rows, owner: Id, seconds: nat, now: nat): Rows {
    if s.run.status == Queued && now < s.run.expires
    then s.(run := s.run.(status := Running, started := Some(now), owner := Some(owner), expires := now + seconds)) else s
  }

  function Heartbeat(s: Rows, owner: Id, seconds: nat, now: nat): Rows {
    if s.run.status == Running && LiveLease(s.run, owner, now)
    then s.(run := s.run.(expires := if s.run.expires < now + seconds then now + seconds else s.run.expires)) else s
  }

  function Complete(s: Rows, owner: Id, status: Status, reason: Option<Reason>, now: nat): Rows {
    if Active(s.run) && LiveLease(s.run, owner, now) && (status == Interrupted || status.Finished?)
    then s.(run := Stopped(s.run, status, reason, now)) else s
  }

  function Reconcile(s: Rows, now: nat): Rows {
    if Active(s.run) && s.run.expires <= now
    then s.(run := Stopped(s.run, Interrupted, Some(LeaseExpired), now), attempts := EndOpen(s.attempts, now, LeaseExpired)) else s
  }

  // ----- runs -----

  datatype Action =
    | DoWrite(previous: Option<nat>, checkpoint: Checkpoint, refs: map<Id, ReservationRef>, now: nat)
    | DoResume(call: ResumeCall, now: nat)
    | DoFail(attempt: nat, owner: Id, now: nat)
    | DoCompact(now: nat)
    | DoDelete(before: nat)
    | DoClaim(owner: Id, seconds: nat, now: nat)
    | DoHeartbeat(owner: Id, seconds: nat, now: nat)
    | DoComplete(owner: Id, status: Status, reason: Option<Reason>, now: nat)
    | DoReconcile(now: nat)

  function Step(s: Rows, a: Action): Rows {
    match a
    case DoWrite(previous, c, refs, now) => Write(s, previous, c, refs, now)
    case DoResume(call, now) => BeginResume(s, call, now)
    case DoFail(attempt, owner, now) => FailDelivery(s, attempt, owner, now)
    case DoCompact(now) => Compact(s, now)
    case DoDelete(before) => DeleteExpired(s, before)
    case DoClaim(owner, seconds, now) => Claim(s, owner, seconds, now)
    case DoHeartbeat(owner, seconds, now) => Heartbeat(s, owner, seconds, now)
    case DoComplete(owner, status, reason, now) => Complete(s, owner, status, reason, now)
    case DoReconcile(now) => Reconcile(s, now)
  }

  function Steps(s: Rows, actions: seq<Action>): Rows {
    if actions == [] then s else Step(Steps(s, actions[..|actions|-1]), actions[|actions|-1])
  }
}
