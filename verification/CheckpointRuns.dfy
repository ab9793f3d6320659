/** What every run of the checkpoint transactions keeps: numbered attempts, one attempt per
    resume key, a fenced checkpoint and a lawful history. */
module CheckpointRuns {
  import opened Basics
  import opened Checkpoints
  import opened CheckpointStore

  // ----- the invariant -----

  /** Attempts are 1..n and only the last may be open. */
  predicate AttemptsOk(attempts: seq<AttemptRow>) {
    && (forall i :: 0 <= i < |attempts| ==> attempts[i].number == i + 1)
    && (forall i :: 0 <= i < |attempts| - 1 ==> attempts[i].ended.Some?)
  }

  predicate KeysOk(attempts: seq<AttemptRow>) {
    forall i, j :: 0 <= i < |attempts| && i < j < |attempts| && attempts[i].key.Some? ==> attempts[i].key != attempts[j].key
  }

  /** The stored checkpoint is the last of its history and belongs to a recorded attempt; until
      a deletion that attempt is the latest one. */
  predicate CheckpointOk(s: Rows) {
    && (s.checkpoint.None? <==> s.history == [])
    && (s.checkpoint.Some? ==>
          && s.checkpoint.value == s.history[|s.history|-1]
          && BindingsMatch(s.run, s.checkpoint.value)
          && s.checkpoint.value.attempt <= |s.attempts|
          && (s.deletions == 0 ==> s.checkpoint.value.attempt == |s.attempts|))
    && (s.checkpoint.None? && s.deletions == 0 ==> s.attempts == [])
  }

  predicate Inv(s: Rows) {
    AttemptsOk(s.attempts) && KeysOk(s.attempts) && CheckpointOk(s) && History(s.history)
  }

  lemma {:induction false} LatestIsLast(attempts: seq<AttemptRow>)
    requires AttemptsOk(attempts)
    ensures Latest(attempts) == if attempts == [] then None else Some(attempts[|attempts|-1])
  {
    if attempts != [] {
      LatestIsLast(attempts[..|attempts|-1]);
    }
  }

  /** The latest attempt is one of the attempts, and none has a greater number. */
  lemma {:induction false} LatestIsGreatest(attempts: seq<AttemptRow>)
    ensures Latest(attempts).None? <==> attempts == []
    ensures Latest(attempts).Some? ==> Latest(attempts).value in attempts && forall a <- attempts :: a.number <= Latest(attempts).value.number
  {
    if attempts != [] {
      var n := |attempts| - 1;
      LatestIsGreatest(attempts[..n]);
      assert attempts == attempts[..n] + [attempts[n]];
    }
  }

  lemma {:induction false} WithKeyFinds(attempts: seq<AttemptRow>, key: Id)
    ensures WithKey(attempts, key).Some? ==> WithKey(attempts, key).value in attempts && WithKey(attempts, key).value.key == Some(key)
    ensures WithKey(attempts, key).None? ==> forall a <- attempts :: a.key != Some(key)
  {
    if attempts != [] {
      WithKeyFinds(attempts[..|attempts|-1], key);
    }
  }

  lemma HistoryGrows(h: seq<Checkpoint>, c: Checkpoint)
    requires History(h)
    requires if h == [] then c.stage == Planned && c.attempt == 1 && c.version == 1 else Follows(h[|h|-1], c)
    ensures History(h + [c])
  {
  }

  lemma WriteKeepsInv(s: Rows, previous: Option<nat>, c: Checkpoint, refs: map<Id, ReservationRef>, now: nat)
    requires Inv(s)
    ensures Inv(Write(s, previous, c, refs, now))
  {
    var reply := WriteReply(s, previous, c, refs, now);
    if reply.Written? {
      HistoryGrows(s.history, reply.checkpoint);
      if s.attempts != [] {
        assert s.attempts[0].number == 1 && s.attempts[0] in s.attempts;
      }
    }
  }

  /** What an acquisition found: the latest attempt is the checkpoint's, closed by expiry, and
      no attempt carries the key. */
  lemma AcquiredMeans(s: Rows, call: ResumeCall)
    requires Inv(s) && ResumeReply(s, call).Resume? && ResumeReply(s, call).disposition == Acquired
    ensures s.checkpoint.Some? && s.checkpoint.value.attempt == |s.attempts|
    ensures ResumeReply(s, call).attempt == Some(|s.attempts| + 1)
    ensures s.attempts != [] && s.attempts[|s.attempts|-1].ended.Some?
    ensures forall a <- s.attempts :: a.key != Some(call.key)
    ensures Resumable(s.run)
  {
    LatestIsLast(s.attempts);
    WithKeyFinds(s.attempts, call.key);
  }

  lemma ResumeKeepsInv(s: Rows, call: ResumeCall, now: nat)
    requires Inv(s)
    ensures Inv(BeginResume(s, call, now))
  {
    var reply := ResumeReply(s, call);
    if reply.Resume? && reply.disposition == Acquired {
      AcquiredMeans(s, call);
      var c := Resumed(s.checkpoint.value, now);
      HistoryGrows(s.history, c);
    }
  }

  lemma {:induction false} CompactKeepsInv(s: Rows, now: nat)
    requires Inv(s)
    ensures Inv(Compact(s, now))
  {
    if s.checkpoint.Some? && s.checkpoint.value.stage == Completed {
      HistoryGrows(s.history, Compacted(s.checkpoint.value, now));
    }
  }

  /** Ending attempts changes neither their numbers nor their keys. */
  predicate OnlyEnds(a: seq<AttemptRow>, b: seq<AttemptRow>) {
    |a| == |b| && forall i :: 0 <= i < |a| ==> b[i].number == a[i].number && b[i].key == a[i].key && (a[i].ended.Some? ==> b[i].ended.Some?)
  }

  lemma {:induction false} EndsKeepInv(s: Rows, t: Rows)
    requires Inv(s) && OnlyEnds(s.attempts, t.attempts)
    requires t.history == s.history && t.checkpoint == s.checkpoint && t.deletions == s.deletions
    requires t.run.id == s.run.id && t.run.query == s.run.query && t.run.binding == s.run.binding
    ensures Inv(t)
  {
  }

  lemma {:induction false} FailKeepsInv(s: Rows, attempt: nat, owner: Id, now: nat)
    requires Inv(s)
    ensures Inv(FailDelivery(s, attempt, owner, now))
  {
    EndsKeepInv(s, FailDelivery(s, attempt, owner, now));
  }

  lemma {:induction false} ReconcileKeepsInv(s: Rows, now: nat)
    requires Inv(s)
    ensures Inv(Reconcile(s, now))
  {
    EndsKeepInv(s, Reconcile(s, now));
  }

  lemma {:induction false} RunKeepsInv(s: Rows, a: Action)
    requires Inv(s) && (a.DoClaim? || a.DoHeartbeat? || a.DoComplete?)
    ensures Inv(Step(s, a))
  {
    EndsKeepInv(s, Step(s, a));
  }

  lemma StepKeepsInv(s: Rows, a: Action)
    requires Inv(s)
    ensures Inv(Step(s, a))
  {
    match a
    case DoWrite(previous, c, refs, now) => WriteKeepsInv(s, previous, c, refs, now);
    case DoResume(call, now) => ResumeKeepsInv(s, call, now);
    case DoFail(attempt, owner, now) => FailKeepsInv(s, attempt, owner, now);
    case DoCompact(now) => CompactKeepsInv(s, now);
    case DoReconcile(now) => ReconcileKeepsInv(s, now);
    case DoDelete(_) =>
    case _ => RunKeepsInv(s, a);
  }

  // ----- what later states keep -----

  predicate SameAttempts(a: seq<AttemptRow>, b: seq<AttemptRow>) {
    |a| <= |b| && forall i :: 0 <= i < |a| ==> a[i].number == b[i].number && a[i].key == b[i].key
  }

  predicate Later(s: Rows, t: Rows) {
    && SameAttempts(s.attempts, t.attempts)
    && s.deletions <= t.deletions
    && s.run.id == t.run.id && s.run.session == t.run.session && s.run.query == t.run.query && s.run.binding == t.run.binding
    && (s.deletions == t.deletions ==> s.history <= t.history)
  }

  lemma {:induction false} StepLater(s: Rows, a: Action)
    ensures Later(s, Step(s, a))
  {
  }

  lemma LaterTransitive(s: Rows, t: Rows, u: Rows)
    requires Later(s, t) && Later(t, u)
    ensures Later(s, u)
  {
  }

  /** Every run keeps the invariant and only extends attempts and history. */
  lemma {:induction false} StepsKeepInv(s: Rows, actions: seq<Action>)
    requires Inv(s)
    ensures Inv(Steps(s, actions)) && Later(s, Steps(s, actions))
  {
    if actions != [] {
      var t := Steps(s, actions[..|actions|-1]);
      StepsKeepInv(s, actions[..|actions|-1]);
      StepKeepsInv(t, actions[|actions|-1]);
      StepLater(t, actions[|actions|-1]);
      LaterTransitive(s, t, Step(t, actions[|actions|-1]));
    }
  }

  // ----- resume keys -----

  lemma {:induction false} WithKeyIs(attempts: seq<AttemptRow>, key: Id, k: nat)
    requires KeysOk(attempts) && k < |attempts| && attempts[k].key == Some(key)
    ensures WithKey(attempts, key) == Some(attempts[k])
  {
    var n := |attempts| - 1;
    if k < n {
      assert attempts[k].key != attempts[n].key;
      WithKeyIs(attempts[..n], key, k);
    }
  }

  /** A resume key acquires one attempt: after that, in every later state, it is answered with
      the same number or refused, and moves nothing. */
  lemma {:induction false} KeyAcquiresOnce(s: Rows, call: ResumeCall, now: nat, actions: seq<Action>, again: ResumeCall)
    requires Inv(s) && ResumeReply(s, call).Resume? && ResumeReply(s, call).disposition == Acquired && again.key == call.key
    ensures var t := Steps(BeginResume(s, call, now), actions);
            var reply := ResumeReply(t, again);
            && (reply.Resume? && reply.attempt.Some? ==> reply == Resume(Replay, ResumeReply(s, call).attempt))
            && forall later :: BeginResume(t, again, later) == t
  {
    AcquiredMeans(s, call);
    var first := BeginResume(s, call, now);
    StepKeepsInv(s, DoResume(call, now));
    StepsKeepInv(first, actions);
    var t := Steps(first, actions);
    WithKeyIs(t.attempts, call.key, |s.attempts|);
    assert t.attempts[|s.attempts|].number == |s.attempts| + 1;
  }

  // ----- fencing -----

  lemma LastAttempt(s: Rows, t: Rows)
    requires Inv(s) && Inv(t) && Later(s, t) && s.deletions == t.deletions && s.checkpoint.Some?
    ensures t.checkpoint.Some? && s.checkpoint.value.attempt <= t.checkpoint.value.attempt
  {
    var i := |s.history| - 1;
    assert t.history[i] == s.history[i];
    HistoryIsBound(t.history, i, |t.history| - 1);
  }

  /** The write is for this run under its binding, and its reservations were made for it. */
  predicate NamesRun(r: RunRow, c: Checkpoint, refs: map<Id, ReservationRef>) {
    && c.run == r.id && c.binding.query == r.query && r.binding == Some(c.binding)
    && forall id <- c.reservations :: id in refs && refs[id].root == c.binding.root && refs[id].run == c.run
  }

  /** A write is accepted exactly when it names the run and either begins it, where nothing is
      stored, or follows on what is stored; it is answered with what it stores. Only a write in
      turn that follows on nothing lawful breaks the integrity rule. */
  lemma WriteExactly(s: Rows, previous: Option<nat>, c: Checkpoint, refs: map<Id, ReservationRef>, now: nat)
    ensures var reply := WriteReply(s, previous, c, refs, now);
            && (reply.Written? || reply == ValidationError || reply == IntegrityError)
            && (reply.Written? ==> reply.checkpoint == c.(accessed := now))
            && match s.checkpoint
               case None => reply.Written? <==> NamesRun(s.run, c, refs) && previous == None && c.version == 1 && c.stage == Planned && c.attempt == 1
               case Some(a) =>
                 && (reply.Written? <==> NamesRun(s.run, c, refs) && previous == Some(a.version) && FollowsOn(a, c))
                 && (reply == IntegrityError <==>
                       NamesRun(s.run, c, refs) && previous == Some(a.version) && c.version == a.version + 1 && !FollowsOn(a, c))
  {
    if s.checkpoint.Some? {
      TransitionExactly(s.checkpoint.value, c.(accessed := now));
    }
  }

  /** An accepted write is stored; the first one opens attempt 1 with what the run row tells of
      it, unless it is recorded already. */
  lemma WriteStores(s: Rows, previous: Option<nat>, c: Checkpoint, refs: map<Id, ReservationRef>, now: nat)
    requires Inv(s)
    ensures var t := Write(s, previous, c, refs, now);
            && t.run == s.run && t.deletions == s.deletions
            && (!WriteReply(s, previous, c, refs, now).Written? ==> t == s)
            && (WriteReply(s, previous, c, refs, now).Written? ==>
                  && t.checkpoint == Some(c.(accessed := now)) && t.history == s.history + [c.(accessed := now)]
                  && (s.attempts != [] ==> t.attempts == s.attempts)
                  && (s.attempts == [] ==>
                        && |t.attempts| == 1 && t.attempts[0].number == 1 && t.attempts[0].key == None
                        && Opened(t.attempts[0], s.run, now)))
  {
    if s.attempts != [] {
      assert s.attempts[0].number == 1 && s.attempts[0] in s.attempts;
    }
    if WriteReply(s, previous, c, refs, now).Written? && s.attempts == [] {
      OpenedFirst(s.run, now);
    }
  }

  predicate Opened(a: AttemptRow, r: RunRow, now: nat) {
    && (match r.started case Some(at) => a.started == at case None => a.started == (match r.completed case Some(at) => at case None => now))
    && (r.status != Interrupted ==> a.ended == None)
    && (r.status == Interrupted ==> a.ended == r.completed)
    && (a.ended == None ==> a.reason == None)
    && (a.ended != None ==> a.reason == r.reason)
  }

  lemma OpenedFirst(r: RunRow, now: nat)
    ensures Opened(FirstAttempt(r, now), r, now)
  {
  }

  /** From a stored checkpoint of any stage a write that only moves to another stage is accepted
      exactly along a road, so every edge of the graph is taken. */
  lemma RoadsAreTaken(s: Rows, to: Stage, refs: map<Id, ReservationRef>, now: nat)
    requires Inv(s) && s.checkpoint.Some?
    requires forall id <- s.checkpoint.value.reservations ::
               id in refs && refs[id].root == s.checkpoint.value.binding.root && refs[id].run == s.checkpoint.value.run
    ensures var c := s.checkpoint.value;
            WriteReply(s, Some(c.version), Advance(c, to), refs, now).Written? <==> Road(c.stage, to)
  {
    var c := s.checkpoint.value;
    WriteExactly(s, Some(c.version), Advance(c, to), refs, now);
  }

  /** Once attempt n is acquired, and until the checkpoint is deleted, a write is accepted exactly
      when it names the run and follows on the checkpoint stored by then, and then it carries no
      smaller attempt, whoever sends it. */
  lemma {:induction false} StaleWritesAreFenced(s: Rows, call: ResumeCall, now: nat, actions: seq<Action>,
                             previous: Option<nat>, c: Checkpoint, refs: map<Id, ReservationRef>, later: nat)
    requires Inv(s) && ResumeReply(s, call).Resume? && ResumeReply(s, call).disposition == Acquired
    requires Steps(BeginResume(s, call, now), actions).deletions == s.deletions
    ensures var t := Steps(BeginResume(s, call, now), actions);
            && t.checkpoint.Some?
            && (WriteReply(t, previous, c, refs, later).Written? <==>
                  NamesRun(t.run, c, refs) && previous == Some(t.checkpoint.value.version) && FollowsOn(t.checkpoint.value, c))
            && (WriteReply(t, previous, c, refs, later).Written? ==> c.attempt > |s.attempts|)
  {
    AcquiredMeans(s, call);
    var first := BeginResume(s, call, now);
    StepKeepsInv(s, DoResume(call, now));
    StepsKeepInv(first, actions);
    LastAttempt(first, Steps(first, actions));
    WriteExactly(Steps(first, actions), previous, c, refs, later);
  }

  /** The rows a fresh run starts from, and whole runs of it. */
  lemma FreshRun(run: RunRow, actions: seq<Action>)
    ensures var s := Steps(Rows(run, None, [], [], 0), actions);
            && Inv(s)
            && (s.deletions == 0 ==> s.checkpoint.Some? ==> s.checkpoint.value.attempt == |s.attempts|)
  {
    StepsKeepInv(Rows(run, None, [], [], 0), actions);
  }

  /** Between deletions the whole stored history is lawful, so its budget only grew and its
      bindings are the run's. */
  lemma StoredHistory(s: Rows, i: nat, j: nat)
    requires Inv(s) && i < j < |s.history|
    ensures s.history[i].binding == s.history[j].binding && s.run.binding == Some(s.history[j].binding)
    ensures s.history[j - 1].stage != Completed ==>
              && s.history[i].toolAttempts <= s.history[j].toolAttempts && s.history[i].candidates <= s.history[j].candidates
              && (forall r <- s.history[i].reservations :: r in s.history[j].reservations)
              && (forall g <- s.history[i].generations :: g in s.history[j].generations)
              && (s.history[i].recoveryAttempted ==> s.history[j].recoveryAttempted)
  {
    HistoryIsBound(s.history, i, j);
    HistoryIsBound(s.history, j, |s.history| - 1);
    if s.history[j - 1].stage != Completed {
      BudgetNeverShrinks(s.history, i, j);
    }
  }

  // ----- after a deletion -----

  /** The latest attempt ended by expiry and is the checkpoint's, so it can be resumed. */
  predicate Waiting(run: RunRow, attempts: seq<AttemptRow>, attempt: nat) {
    && Resumable(run) && attempts != [] && attempt == |attempts|
    && attempts[|attempts|-1].ended.Some? && attempts[|attempts|-1].reason == Some(LeaseExpired)
  }

  /** A checkpoint no resume can acquire: it is behind the latest attempt, or its run is idle and
      not waiting. */
  predicate Stranded(s: Rows) {
    && s.checkpoint.Some?
    && (s.checkpoint.value.attempt < |s.attempts| || (!Active(s.run) && !Waiting(s.run, s.attempts, s.checkpoint.value.attempt)))
  }

  lemma StrandedIsRefused(s: Rows, call: ResumeCall)
    requires Inv(s) && Stranded(s)
    ensures ResumeReply(s, call).Resume? ==> ResumeReply(s, call).disposition != Acquired
  {
    LatestIsLast(s.attempts);
  }

  lemma StepStrands(s: Rows, a: Action)
    requires Inv(s) && Stranded(s) && Step(s, a).deletions == s.deletions
    ensures Stranded(Step(s, a))
  {
    if a.DoResume? {
      StrandedIsRefused(s, a.call);
    }
  }

  /** A stranded run stays so, and its resumes are refused, until its checkpoint is deleted. */
  lemma {:induction false} StrandedForGood(s: Rows, actions: seq<Action>, call: ResumeCall)
    requires Inv(s) && Stranded(s) && Steps(s, actions).deletions == s.deletions
    ensures Stranded(Steps(s, actions))
    ensures ResumeReply(Steps(s, actions), call).Resume? ==> ResumeReply(Steps(s, actions), call).disposition != Acquired
  {
    if actions != [] {
      var before := actions[..|actions|-1];
      StepsKeepInv(s, before);
      StepsKeepInv(s, actions);
      StepLater(Steps(s, before), actions[|actions|-1]);
      StrandedForGood(s, before, call);
      StepStrands(Steps(s, before), actions[|actions|-1]);
    }
    StepsKeepInv(s, actions);
    StrandedIsRefused(Steps(s, actions), call);
  }

  /** What a first write on an idle run needs of the rows for the run to be resumable again: no
      attempt, and a run stopped by expiry; or one attempt, ended by expiry. */
  predicate Restartable(s: Rows) {
    && Resumable(s.run)
    && (if s.attempts == [] then s.run.completed.Some?
        else |s.attempts| == 1 && s.attempts[0].ended.Some? && s.attempts[0].reason == Some(LeaseExpired))
  }

  predicate Sound(call: ResumeCall, run: RunRow, c: Checkpoint) {
    && call.seconds > 0 && call.session == run.session && call.query == run.query
    && (call.deployment.Some? ==> call.deployment.value == c.binding.deployment) && Settled(c, call.refs)
  }

  /** After a deletion the run is idle and the attempts are still there. A first write starts at
      attempt 1 again, and the run can be resumed, at once or later, exactly when the rows were
      restartable: with two attempts, or with one that was left open or failed otherwise, every
      resume is refused until the next deletion. */
  lemma FirstWriteAfterDeletion(s: Rows, c: Checkpoint, refs: map<Id, ReservationRef>, now: nat, call: ResumeCall, actions: seq<Action>)
    requires Inv(s) && s.checkpoint.None? && !Active(s.run) && WriteReply(s, None, c, refs, now).Written?
    ensures var t := Write(s, None, c, refs, now);
            && (Restartable(s) && Sound(call, s.run, c) && WithKey(t.attempts, call.key).None? ==>
                  ResumeReply(t, call) == Resume(Acquired, Some(2)))
            && (!Restartable(s) && Steps(t, actions).deletions == t.deletions ==>
                  ResumeReply(Steps(t, actions), call).Resume? ==> ResumeReply(Steps(t, actions), call).disposition != Acquired)
  {
    var t := Write(s, None, c, refs, now);
    WriteKeepsInv(s, None, c, refs, now);
    LatestIsLast(t.attempts);
    FirstWriteAttempts(s, c, refs, now);
    if !Restartable(s) && Steps(t, actions).deletions == t.deletions {
      StrandedForGood(t, actions, call);
    }
  }

  lemma FirstWriteAttempts(s: Rows, c: Checkpoint, refs: map<Id, ReservationRef>, now: nat)
    requires Inv(s) && s.checkpoint.None? && !Active(s.run) && WriteReply(s, None, c, refs, now).Written?
    ensures var t := Write(s, None, c, refs, now);
            && t.checkpoint == Some(c.(accessed := now)) && t.run == s.run && c.attempt == 1
            && t.attempts == (if s.attempts == [] then [FirstAttempt(s.run, now)] else s.attempts)
            && (Restartable(s) <==> Waiting(t.run, t.attempts, 1))
  {
    if s.attempts != [] {
      assert s.attempts[0].number == 1 && s.attempts[0] in s.attempts;
    }
  }

  // ----- a run that is never resumed again -----

  function FreshRow(): RunRow {
    RunRow(0, 3, 0, Some(BLANK.binding), Running, None, Some(1), 10, Some(0), None)
  }

  const OPENING := Rows(FreshRow(), None, [], [], 0)
  const RESUME := ResumeCall(3, 0, 5, 1, 10, None, map[])

  /** Written, expired, resumed once, expired again, deleted, and written anew. */
  function RestartedRun(): seq<Action> {
    [DoWrite(None, BLANK, map[], 1), DoReconcile(10), DoResume(RESUME, 11), DoReconcile(30), DoDelete(100), DoWrite(None, BLANK, map[], 101)]
  }

  function Lapsed(at: nat): RunRow {
    FreshRow().(status := Interrupted, reason := Some(LeaseExpired), completed := Some(at), owner := None, expires := if at < 30 then 10 else 21)
  }

  /** The rows after the first expiry and after the second. */
  function ExpiredRows(): Rows {
    Rows(Lapsed(10), Some(BLANK.(accessed := 1)), [AttemptRow(1, None, 0, Some(10), Some(LeaseExpired))], [BLANK.(accessed := 1)], 0)
  }

  function ExpiredAgain(): Rows {
    var resumed := BLANK.(attempt := 2, version := 2, accessed := 11);
    Rows(Lapsed(30), Some(resumed),
         [AttemptRow(1, None, 0, Some(10), Some(LeaseExpired)), AttemptRow(2, Some(5), 11, Some(30), Some(LeaseExpired))],
         [BLANK.(accessed := 1), resumed], 0)
  }

  lemma FirstExpiry()
    ensures Step(Step(OPENING, DoWrite(None, BLANK, map[], 1)), DoReconcile(10)) == ExpiredRows()
  {
    var written := Step(OPENING, DoWrite(None, BLANK, map[], 1));
    assert written.checkpoint == Some(BLANK.(accessed := 1)) && written.attempts == [AttemptRow(1, None, 0, None, None)];
  }

  lemma SecondExpiry()
    ensures Step(Step(ExpiredRows(), DoResume(RESUME, 11)), DoReconcile(30)) == ExpiredAgain()
  {
    var attempts := ExpiredRows().attempts;
    assert WithKey(attempts, 5).None? && Latest(attempts) == Some(attempts[0]) by {
      assert attempts[..0] == [];
    }
    assert ResumeReply(ExpiredRows(), RESUME) == Resume(Acquired, Some(2));
    var resumed := Step(ExpiredRows(), DoResume(RESUME, 11));
    assert resumed.attempts == [attempts[0], AttemptRow(2, Some(5), 11, None, None)] && resumed.run.expires == 21;
  }

  lemma WrittenAnew()
    ensures var s := Step(Step(ExpiredAgain(), DoDelete(100)), DoWrite(None, BLANK, map[], 101));
            |s.attempts| == 2 && s.deletions == 1 && s.checkpoint == Some(BLANK.(accessed := 101)) && !Active(s.run)
  {
    var deleted := Step(ExpiredAgain(), DoDelete(100));
    assert deleted == ExpiredAgain().(checkpoint := None, history := [], deletions := 1);
    assert deleted.attempts[0] in deleted.attempts;
    assert Numbered(deleted.attempts, 1);
  }

  lemma {:induction false} TwoSteps(s: Rows, actions: seq<Action>, n: nat, t: Rows)
    requires n + 2 <= |actions| && t == Steps(s, actions[..n])
    ensures Steps(s, actions[..n + 2]) == Step(Step(t, actions[n]), actions[n + 1])
  {
    assert actions[..n + 2][..n + 1] == actions[..n + 1] && actions[..n + 1][..n] == actions[..n];
  }

  /** From a fresh row this run has two attempts and an accepted first write, and whatever follows
      no resume is acquired until the next deletion. */
  lemma RestartedIsNeverResumed(actions: seq<Action>, call: ResumeCall)
    ensures var s := Steps(OPENING, RestartedRun());
            && |s.attempts| == 2 && s.deletions == 1 && s.checkpoint == Some(BLANK.(accessed := 101))
            && (Steps(s, actions).deletions == 1 ==>
                  ResumeReply(Steps(s, actions), call).Resume? ==> ResumeReply(Steps(s, actions), call).disposition != Acquired)
  {
    var run := RestartedRun();
    var s := Steps(OPENING, run);
    RestartedRows();
    StepsKeepInv(OPENING, run);
    if Steps(s, actions).deletions == 1 {
      StrandedForGood(s, actions, call);
    }
  }

  lemma {:induction false} FirstRows()
    ensures Steps(OPENING, RestartedRun()[..2]) == ExpiredRows()
  {
    var run := RestartedRun();
    assert run[..0] == [];
    TwoSteps(OPENING, run, 0, OPENING);
    FirstExpiry();
  }

  lemma {:induction false} SecondRows()
    ensures Steps(OPENING, RestartedRun()[..4]) == ExpiredAgain()
  {
    FirstRows();
    TwoSteps(OPENING, RestartedRun(), 2, ExpiredRows());
    SecondExpiry();
  }

  lemma {:induction false} RestartedRows()
    ensures var s := Steps(OPENING, RestartedRun());
            |s.attempts| == 2 && s.deletions == 1 && s.checkpoint == Some(BLANK.(accessed := 101)) && !Active(s.run)
  {
    SecondRows();
    TwoSteps(OPENING, RestartedRun(), 4, ExpiredAgain());
    assert RestartedRun()[..6] == RestartedRun();
    WrittenAnew();
  }
}
