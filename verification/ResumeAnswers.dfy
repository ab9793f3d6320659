/** What resumes, failed deliveries, deletions and leases are answered and change, told over the
    rows of a run. */
module ResumeAnswers {
  import opened Basics
  import opened Checkpoints
  import opened CheckpointStore
  import opened CheckpointRuns

  /** The call is well formed and comes from the run's session with the run's question. */
  predicate ForRun(s: Rows, call: ResumeCall) {
    call.seconds > 0 && call.session == s.run.session && call.query == s.run.query
  }

  predicate KeyUnused(attempts: seq<AttemptRow>, key: Id) {
    forall i :: 0 <= i < |attempts| ==> attempts[i].key != Some(key)
  }

  predicate Working(r: RunRow) {
    match r.status
    case Queued => true
    case Running => true
    case _ => false
  }

  predicate Lapsed(r: RunRow) {
    r.status == Interrupted && r.reason == Some(LeaseExpired)
  }

  /** The deployment asked about, if one is, is the stored checkpoint's. */
  predicate DeploymentHolds(call: ResumeCall, c: Checkpoint) {
    call.deployment.Some? ==> call.deployment.value == c.binding.deployment
  }

  predicate EverySendSettled(call: ResumeCall, c: Checkpoint) {
    forall id <- c.reservations ::
      id in call.refs && call.refs[id].root == c.binding.root && call.refs[id].run == c.run && call.refs[id].settled
  }

  lemma KeyLookup(attempts: seq<AttemptRow>, key: Id)
    ensures WithKey(attempts, key).None? <==> KeyUnused(attempts, key)
  {
    WithKeyFinds(attempts, key);
    if WithKey(attempts, key).None? {
      forall i | 0 <= i < |attempts| ensures attempts[i].key != Some(key) {
        assert attempts[i] in attempts;
      }
    }
  }

  /** An attempt is acquired exactly when the run stopped by expiry, the key is unused, the stored
      checkpoint is that of the last attempt, which expired too, the deployment is the same and
      every send of the checkpoint is settled. */
  lemma AcquiredExactly(s: Rows, call: ResumeCall)
    requires Inv(s)
    ensures ResumeReply(s, call).Resume? && ResumeReply(s, call).disposition == Acquired <==>
            && ForRun(s, call) && Lapsed(s.run) && KeyUnused(s.attempts, call.key)
            && s.checkpoint.Some? && DeploymentHolds(call, s.checkpoint.value)
            && s.checkpoint.value.attempt == |s.attempts|
            && s.attempts[|s.attempts|-1].ended.Some? && s.attempts[|s.attempts|-1].reason == Some(LeaseExpired)
            && EverySendSettled(call, s.checkpoint.value)
  {
    LatestIsLast(s.attempts);
    KeyLookup(s.attempts, call.key);
  }

  /** An attempt is answered again exactly when it carries the key, is the checkpoint's and the
      last one, and is open while the run works, or ended as the run did. */
  lemma ReplayedExactly(s: Rows, call: ResumeCall, number: nat)
    requires Inv(s)
    ensures ResumeReply(s, call) == Resume(Replay, Some(number)) <==>
            && ForRun(s, call) && s.checkpoint.Some? && DeploymentHolds(call, s.checkpoint.value)
            && s.checkpoint.value.attempt == |s.attempts| == number
            && var last := s.attempts[number - 1];
               last.key == Some(call.key)
               && (if Working(s.run) then last.ended.None? else last.ended.Some? && last.reason == s.run.reason)
  {
    LatestIsLast(s.attempts);
    KeyLookup(s.attempts, call.key);
    WithKeyFinds(s.attempts, call.key);
    if 0 < number <= |s.attempts| && s.attempts[number - 1].key == Some(call.key) {
      WithKeyIs(s.attempts, call.key, number - 1);
    }
  }

  /** Every other answer is the first complaint that applies. */
  lemma RefusedFor(s: Rows, call: ResumeCall)
    requires Inv(s)
    ensures var reply, unused := ResumeReply(s, call), KeyUnused(s.attempts, call.key);
            var looksOn := ForRun(s, call) && (unused ==> Lapsed(s.run));
            && (reply == ValidationError <==> call.seconds == 0)
            && (reply == Resume(NotOwner, None) <==> call.seconds > 0 && call.session != s.run.session)
            && (reply == Resume(QueryMismatch, None) <==> call.seconds > 0 && call.session == s.run.session && call.query != s.run.query)
            && (reply == Resume(Leased, None) <==> ForRun(s, call) && unused && Working(s.run))
            && (reply == Resume(NotInterrupted, None) <==> ForRun(s, call) && unused && !Working(s.run) && !Lapsed(s.run))
            && (reply == Resume(CheckpointMissing, None) <==> looksOn && s.checkpoint.None?)
            && (reply == Resume(BindingMismatch, None) <==> looksOn && s.checkpoint.Some? && !DeploymentHolds(call, s.checkpoint.value))
            && (looksOn && s.checkpoint.Some? && DeploymentHolds(call, s.checkpoint.value) ==>
                  reply.Resume? && reply.disposition in {Acquired, Replay, CheckpointInvalid})
  {
    LatestIsLast(s.attempts);
    KeyLookup(s.attempts, call.key);
  }

  /** An acquisition moves the run, its attempts and its checkpoint together: the run works again
      under the caller's lease, one open attempt is added under the key, and the checkpoint is
      handed to it unchanged but for attempt, version and access. Any other answer moves nothing. */
  lemma AcquiredMoves(s: Rows, call: ResumeCall, now: nat)
    requires Inv(s)
    ensures var t := BeginResume(s, call, now);
            var n := |s.attempts| + 1;
            if ResumeReply(s, call).Resume? && ResumeReply(s, call).disposition == Acquired then
              && ResumeReply(s, call).attempt == Some(n)
              && t.run.status == Running && t.run.owner == Some(call.owner) && t.run.expires == now + call.seconds
              && t.run.reason == None && t.run.completed == None
              && t.run.started == (match s.run.started case Some(at) => Some(at) case None => Some(now))
              && (t.run.id, t.run.session, t.run.query, t.run.binding) == (s.run.id, s.run.session, s.run.query, s.run.binding)
              && t.attempts == s.attempts + [AttemptRow(n, Some(call.key), now, None, None)]
              && t.checkpoint.Some? && t.history == s.history + [t.checkpoint.value] && t.deletions == s.deletions
              && var c, d := s.checkpoint.value, t.checkpoint.value;
                 && d.attempt == n && d.version == c.version + 1 && d.accessed == now
                 && d.(attempt := c.attempt, version := c.version, accessed := c.accessed) == c
            else t == s
  {
    if ResumeReply(s, call).Resume? && ResumeReply(s, call).disposition == Acquired {
      AcquiredMeans(s, call);
    }
  }

  // ----- a resume that is not delivered -----

  /** A failed delivery is taken exactly from the owner of a live lease, for the open attempt the
      checkpoint is in; it ends that attempt and the run, and touches no other attempt. */
  lemma FailedExactly(s: Rows, attempt: nat, owner: Id, now: nat)
    requires Inv(s)
    ensures FailReply(s, attempt, owner, now) == Changed(true) <==>
            && 2 <= attempt <= |s.attempts| && s.attempts[attempt - 1].ended.None?
            && s.run.status == Running && s.run.owner == Some(owner) && now < s.run.expires
            && s.checkpoint.Some? && s.checkpoint.value.attempt == attempt
    ensures FailReply(s, attempt, owner, now) == ValidationError <==> attempt < 2
    ensures FailReply(s, attempt, owner, now) != Changed(true) ==> FailDelivery(s, attempt, owner, now) == s
    ensures FailReply(s, attempt, owner, now) == Changed(true) ==>
              var t := FailDelivery(s, attempt, owner, now);
              && t.run == s.run.(status := Interrupted, reason := Some(QueueDeliveryFailed), completed := Some(now), owner := None)
              && t.attempts == s.attempts[attempt - 1 := s.attempts[attempt - 1].(ended := Some(now), reason := Some(QueueDeliveryFailed))]
              && t.checkpoint == s.checkpoint && t.history == s.history && t.deletions == s.deletions
  {
    if 2 <= attempt <= |s.attempts| {
      assert s.attempts[attempt - 1] in s.attempts;
    }
  }

  /** The run whose resume was not delivered is not resumed again until its checkpoint is gone. */
  lemma UndeliveredIsSealed(s: Rows, attempt: nat, owner: Id, now: nat, actions: seq<Action>, call: ResumeCall)
    requires Inv(s) && FailReply(s, attempt, owner, now) == Changed(true)
    requires Steps(FailDelivery(s, attempt, owner, now), actions).deletions == s.deletions
    ensures var reply := ResumeReply(Steps(FailDelivery(s, attempt, owner, now), actions), call);
            reply.Resume? ==> reply.disposition != Acquired
  {
    FailKeepsInv(s, attempt, owner, now);
    StrandedForGood(FailDelivery(s, attempt, owner, now), actions, call);
  }

  // ----- leases -----

  /** Before its expiry a worked run is left alone; from then on it is interrupted, and every open
      attempt ends by expiry. */
  lemma ReconciledExactly(s: Rows, now: nat)
    ensures var t := Reconcile(s, now);
            && (t != s ==> Working(s.run) && s.run.expires <= now)
            && (Working(s.run) && s.run.expires <= now ==>
                  && Lapsed(t.run) && t.run.completed == Some(now) && t.run.owner == None
                  && (t.run.id, t.run.session, t.run.query, t.run.binding, t.run.started)
                     == (s.run.id, s.run.session, s.run.query, s.run.binding, s.run.started)
                  && |t.attempts| == |s.attempts|
                  && forall i :: 0 <= i < |s.attempts| ==>
                       t.attempts[i] == if s.attempts[i].ended.Some? then s.attempts[i]
                                        else s.attempts[i].(ended := Some(now), reason := Some(LeaseExpired)))
            && (t.checkpoint, t.history, t.deletions) == (s.checkpoint, s.history, s.deletions)
  {
  }

  /** An acquired attempt that expires leaves the run as resumable as before: another unused key
      acquires the next attempt. Before the lease is over the expiry finds nothing to do. */
  lemma ExpiryReopens(s: Rows, call: ResumeCall, now: nat, later: nat, again: ResumeCall)
    requires Inv(s) && ResumeReply(s, call).Resume? && ResumeReply(s, call).disposition == Acquired
    ensures later < now + call.seconds ==> Reconcile(BeginResume(s, call, now), later) == BeginResume(s, call, now)
    ensures var t := Reconcile(BeginResume(s, call, now), later);
            && now + call.seconds <= later && ForRun(s, again) && again.key != call.key && KeyUnused(s.attempts, again.key)
            && DeploymentHolds(again, s.checkpoint.value) && EverySendSettled(again, s.checkpoint.value)
            ==> ResumeReply(t, again) == Resume(Acquired, Some(|s.attempts| + 2))
  {
    AcquiredMoves(s, call, now);
    AcquiredExactly(s, call);
    var first := BeginResume(s, call, now);
    ResumeKeepsInv(s, call, now);
    ReconciledExactly(first, later);
    if now + call.seconds <= later && ForRun(s, again) && again.key != call.key && KeyUnused(s.attempts, again.key)
       && DeploymentHolds(again, s.checkpoint.value) && EverySendSettled(again, s.checkpoint.value) {
      var t := Reconcile(first, later);
      ReconcileKeepsInv(first, later);
      OnlyKeysMatter(first.attempts, t.attempts, again.key);
      AcquiredExactly(t, again);
      AcquiredMeans(t, again);
    }
  }

  lemma OnlyKeysMatter(a: seq<AttemptRow>, b: seq<AttemptRow>, key: Id)
    requires |a| == |b| && (forall i :: 0 <= i < |a| ==> b[i].key == a[i].key) && KeyUnused(a, key)
    ensures KeyUnused(b, key)
  {
  }

  /** A worker claims a queued run before its expiry; the owner of a live lease alone prolongs it,
      never shortening it, and ends the run; nothing else of the rows is touched. */
  lemma LeaseSteps(s: Rows, owner: Id, seconds: nat, status: Status, reason: Option<Reason>, now: nat)
    ensures Claim(s, owner, seconds, now) ==
            (if s.run.status == Queued && now < s.run.expires
             then s.(run := s.run.(status := Running, started := Some(now), owner := Some(owner), expires := now + seconds)) else s)
    ensures Heartbeat(s, owner, seconds, now).(run := s.run) == s
    ensures var r := Heartbeat(s, owner, seconds, now).run;
            && r.(expires := s.run.expires) == s.run && r.expires >= s.run.expires
            && (r.expires != s.run.expires ==> s.run.status == Running && s.run.owner == Some(owner) && now < s.run.expires && r.expires == now + seconds)
            && (s.run.status == Running && s.run.owner == Some(owner) && now < s.run.expires ==> r.expires >= now + seconds)
    ensures Complete(s, owner, status, reason, now).(run := s.run) == s
    ensures var r := Complete(s, owner, status, reason, now).run;
            if Working(s.run) && s.run.owner == Some(owner) && now < s.run.expires && !status.Queued? && !status.Running?
            then r == s.run.(status := status, reason := reason, completed := Some(now), owner := None) else r == s.run
  {
  }

  // ----- deletion -----

  /** A checkpoint is deleted exactly when its run is idle, it is not completed, and it was last
      touched before the given time; with it goes its history, and the attempts stay. */
  lemma DeletedExactly(s: Rows, before: nat)
    ensures var t := DeleteExpired(s, before);
            && (t.deletions == s.deletions + 1 || t == s)
            && (t.deletions == s.deletions + 1 <==>
                  s.checkpoint.Some? && s.checkpoint.value.stage != Completed && s.checkpoint.value.accessed < before && !Working(s.run))
            && (t != s ==> t.checkpoint == None && t.history == [] && t.run == s.run && t.attempts == s.attempts)
  {
  }
}
