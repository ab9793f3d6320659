/** The checkpoint transactions over the rows of one run, statement by statement. */
module PostgresCheckpoints {
  import opened Basics
  import opened Checkpoints
  import opened CheckpointStore
  import opened CheckpointRuns

  class RunRows {
    var run: RunRow
    var checkpoint: Option<Checkpoint>
    var attempts: seq<AttemptRow>
    ghost var history: seq<Checkpoint>
    ghost var deletions: nat

    ghost function View(): Rows reads this {
      Rows(run, checkpoint, attempts, history, deletions)
    }

    ghost predicate Valid() reads this {
      Inv(View())
    }

    constructor (run: RunRow)
      ensures Valid() && View() == Rows(run, None, [], [], 0)
    {
      this.run, checkpoint, attempts, history, deletions := run, None, [], [], 0;
    }

    /** ORDER BY attempt DESC LIMIT 1. */
    method LatestAttempt() returns (r: Option<AttemptRow>)
      ensures r == Latest(attempts)
      ensures r.None? <==> attempts == []
      ensures r.Some? ==> r.value in attempts && forall a <- attempts :: a.number <= r.value.number
    {
      LatestIsGreatest(attempts);
      r := None;
      for n := 0 to |attempts|
        invariant r == Latest(attempts[..n])
      {
        assert attempts[..n+1][..n] == attempts[..n];
        if r.None? || r.value.number < attempts[n].number {
          r := Some(attempts[n]);
        }
      }
      assert attempts[..|attempts|] == attempts;
    }

    method AttemptWithKey(key: Id) returns (r: Option<AttemptRow>)
      requires KeysOk(attempts)
      ensures r == WithKey(attempts, key)
    {
      for n := 0 to |attempts|
        invariant forall i :: 0 <= i < n ==> attempts[i].key != Some(key)
      {
        if attempts[n].key == Some(key) {
          WithKeyIs(attempts, key, n);
          return Some(attempts[n]);
        }
      }
      WithKeyFinds(attempts, key);
      return None;
    }

    /** Compare-and-swap one checkpoint; the first one also opens attempt 1. */
    method Write(previous: Option<nat>, c: Checkpoint, refs: map<Id, ReservationRef>, now: nat) returns (r: Reply)
      requires Valid()
      modifies this
      ensures Valid() && r == WriteReply(old(View()), previous, c, refs, now)
      ensures View() == CheckpointStore.Write(old(View()), previous, c, refs, now)
    {
      WriteKeepsInv(View(), previous, c, refs, now);
      if !BindingsMatch(run, c) || !Reserved(c, refs) {
        return ValidationError;
      }
      var current := if checkpoint.Some? then Some(checkpoint.value.version) else None;
      if current != previous {
        return ValidationError;
      }
      if c.version != (if previous.Some? then previous.value else 0) + 1 {
        return ValidationError;
      }
      var stored: Checkpoint := c.(accessed := now);
      if checkpoint.None? {
        if c.stage != Planned || c.attempt != 1 {
          return ValidationError;
        }
        if !Numbered(attempts, 1) {
          attempts := attempts + [FirstAttempt(run, now)];
        }
      } else if !ValidTransition(checkpoint.value, stored) {
        return IntegrityError;
      }
      checkpoint := Some(stored);
      history := history + [stored];
      return Written(stored);
    }

    /** Replay or acquire one attempt for a resume key. */
    method BeginResume(call: ResumeCall, now: nat) returns (r: Reply)
      requires Valid()
      modifies this
      ensures Valid() && r == ResumeReply(old(View()), call)
      ensures View() == CheckpointStore.BeginResume(old(View()), call, now)
    {
      ResumeKeepsInv(View(), call, now);
      r := Judge(call);
      if r.Resume? && r.disposition == Acquired {
        AcquiredMeans(View(), call);
        var number := r.attempt.value;
        run := run.(status := Running, reason := None, completed := None,
                    started := if run.started.Some? then run.started else Some(now),
                    owner := Some(call.owner), expires := now + call.seconds);
        attempts := attempts + [AttemptRow(number, Some(call.key), now, None, None)];
        var c := Resumed(checkpoint.value, now);
        checkpoint := Some(c);
        history := history + [c];
      }
    }

    /** The checks of a resume, in the order they refuse. */
    method Judge(call: ResumeCall) returns (r: Reply)
      requires Valid()
      ensures r == ResumeReply(View(), call)
    {
      if call.seconds == 0 {
        return ValidationError;
      }
      if run.session != call.session {
        return Resume(NotOwner, None);
      }
      if run.query != call.query {
        return Resume(QueryMismatch, None);
      }
      var replay := AttemptWithKey(call.key);
      if replay.None? && Active(run) {
        return Resume(Leased, None);
      }
      if replay.None? && !Resumable(run) {
        return Resume(NotInterrupted, None);
      }
      if checkpoint.None? {
        return Resume(CheckpointMissing, None);
      }
      var c := checkpoint.value;
      if !BindingsMatch(run, c) || (call.deployment.Some? && c.binding.deployment != call.deployment.value) {
        return Resume(BindingMismatch, None);
      }
      var latest := LatestAttempt();
      if latest.None? || latest.value.number != c.attempt {
        return Resume(CheckpointInvalid, None);
      }
      if replay.Some? {
        return ReplayReply(run, replay.value, latest.value, c);
      }
      if latest.value.ended.None? || latest.value.reason != Some(LeaseExpired) || !Settled(c, call.refs) {
        return Resume(CheckpointInvalid, None);
      }
      return Resume(Acquired, Some(latest.value.number + 1));
    }

    /** Close a resume whose job never reached the queue. */
    method FailResumeDelivery(attempt: nat, owner: Id, now: nat) returns (r: Reply)
      requires Valid()
      modifies this
      ensures Valid() && r == FailReply(old(View()), attempt, owner, now)
      ensures View() == FailDelivery(old(View()), attempt, owner, now)
    {
      FailKeepsInv(View(), attempt, owner, now);
      if attempt < 2 {
        return ValidationError;
      }
      if run.status != Running || !LiveLease(run, owner, now) || checkpoint.None? || checkpoint.value.attempt != attempt
         || !(exists a :: a in attempts && a.number == attempt && a.ended.None?) {
        return Changed(false);
      }
      attempts := EndNumbered(attempts, attempt, now, QueueDeliveryFailed);
      run := Stopped(run, Interrupted, Some(QueueDeliveryFailed), now);
      return Changed(true);
    }

    method Compact(now: nat) returns (yes: bool)
      requires Valid()
      modifies this
      ensures Valid() && View() == CheckpointStore.Compact(old(View()), now)
      ensures yes <==> old(checkpoint).Some? && old(checkpoint).value.stage == Completed
    {
      CompactKeepsInv(View(), now);
      if checkpoint.None? || checkpoint.value.stage != Completed {
        return false;
      }
      var c := Compacted(checkpoint.value, now);
      checkpoint := Some(c);
      history := history + [c];
      return true;
    }

    method DeleteExpired(before: nat) returns (deleted: nat)
      requires Valid()
      modifies this
      ensures Valid() && View() == CheckpointStore.DeleteExpired(old(View()), before)
      ensures deleted == if Expired(old(View()), before) then 1 else 0
    {
      StepKeepsInv(View(), DoDelete(before));
      if checkpoint.None? || checkpoint.value.stage == Completed || checkpoint.value.accessed >= before || Active(run) {
        return 0;
      }
      checkpoint := None;
      history, deletions := [], deletions + 1;
      return 1;
    }
  }
}
