/** What a reservation call is answered, told by the calls and seals that came before it. */
module LedgerCalls {
  import opened Basics
  import opened EgressContracts
  import opened Accounts
  import opened Enforcer
  import opened Ledger
  import opened LedgerInvariants
  import opened LedgerRuns
  import opened LedgerProperties
  import Maps

  /** The idempotency key of a call, as its caller sees it. */
  predicate Under(c: Call, root: Id, run: Id, policy: Policy, token: Id) {
    c.p.request.root == root && c.p.request.run == run && c.policy == policy && c.token == token
  }

  /** The call is granted in this ledger, kept folded: the decision behind it is large. */
  ghost predicate Grants(l: Ledger, c: Call, freshEpoch: Id, freshId: Id) {
    forall n: nat {:trigger Maps.Unfold(n)} :: Maps.Unfold(n) ==> ReserveReply(l, c, freshEpoch, freshId).Granted?
  }

  lemma GrantsMeans(l: Ledger, c: Call, freshEpoch: Id, freshId: Id)
    ensures Grants(l, c, freshEpoch, freshId) <==> ReserveReply(l, c, freshEpoch, freshId).Granted?
  {
    assert Maps.Unfold(0);
  }

  ghost predicate GrantedAt(actions: seq<Action>, k: nat, root: Id, run: Id, policy: Policy, token: Id) {
    && k < |actions| && actions[k].DoReserve? && Under(actions[k].call, root, run, policy, token)
    && Grants(Steps(EMPTY, actions[..k]), actions[k].call, actions[k].freshEpoch, actions[k].freshId)
  }

  ghost predicate GrantedBefore(actions: seq<Action>, root: Id, run: Id, policy: Policy, token: Id) {
    exists k :: GrantedAt(actions, k, root, run, policy, token)
  }

  predicate SealedBefore(actions: seq<Action>, root: Id, run: Id) {
    exists k :: 0 <= k < |actions| && actions[k].DoSeal? && actions[k].root == root && actions[k].run == run
  }

  predicate KeyLogged(log: seq<Row>, root: Id, run: Id, policy: Policy, token: Id) {
    exists k :: 0 <= k < |log| && log[k].key.root == root && log[k].key.run == run && log[k].key.policy == policy && log[k].key.token == token
  }

  lemma GrantedSnoc(actions: seq<Action>, a: Action, root: Id, run: Id, policy: Policy, token: Id)
    ensures GrantedBefore(actions + [a], root, run, policy, token) <==>
            || GrantedBefore(actions, root, run, policy, token)
            || (a.DoReserve? && Under(a.call, root, run, policy, token)
                && Grants(Steps(EMPTY, actions), a.call, a.freshEpoch, a.freshId))
  {
    var more := actions + [a];
    assert more[..|actions|] == actions;
    if GrantedBefore(actions, root, run, policy, token) {
      var k: nat :| GrantedAt(actions, k, root, run, policy, token);
      assert more[..k] == actions[..k];
      assert GrantedAt(more, k, root, run, policy, token);
    }
    if GrantedBefore(more, root, run, policy, token) {
      var k: nat :| GrantedAt(more, k, root, run, policy, token);
      if k < |actions| {
        assert more[..k] == actions[..k];
        assert GrantedAt(actions, k, root, run, policy, token);
      }
    }
    if a.DoReserve? && Under(a.call, root, run, policy, token) && Grants(Steps(EMPTY, actions), a.call, a.freshEpoch, a.freshId) {
      assert GrantedAt(more, |actions|, root, run, policy, token);
    }
  }

  lemma LoggedSnoc(log: seq<Row>, row: Row, root: Id, run: Id, policy: Policy, token: Id)
    ensures KeyLogged(log + [row], root, run, policy, token) <==>
            KeyLogged(log, root, run, policy, token)
            || (row.key.root == root && row.key.run == run && row.key.policy == policy && row.key.token == token)
  {
    var more := log + [row];
    if KeyLogged(log, root, run, policy, token) {
      var k :| 0 <= k < |log| && log[k].key.root == root && log[k].key.run == run && log[k].key.policy == policy && log[k].key.token == token;
      assert more[k] == log[k];
    }
    assert more[|log|] == row;
  }

  lemma SealedSnoc(actions: seq<Action>, a: Action, root: Id, run: Id)
    ensures SealedBefore(actions + [a], root, run) <==>
            SealedBefore(actions, root, run) || (a.DoSeal? && a.root == root && a.run == run)
  {
    var more := actions + [a];
    assert more[|actions|] == a;
    if SealedBefore(actions, root, run) {
      var k :| 0 <= k < |actions| && actions[k].DoSeal? && actions[k].root == root && actions[k].run == run;
      assert more[k] == actions[k];
    }
  }

  /** What one action does to the log and the seals. */
  lemma StepLogs(l: Ledger, a: Action, m: Ledger)
    requires m == Step(l, a)
    ensures m.seals == l.seals + if a.DoSeal? then {(a.root, a.run)} else {}
    ensures if a.DoReserve? && ReserveReply(l, a.call, a.freshEpoch, a.freshId).Granted?
            then m.log == l.log + [ReserveReply(l, a.call, a.freshEpoch, a.freshId).row] else m.log == l.log
  {
  }

  lemma GrantedKey(l: Ledger, c: Call, freshEpoch: Id, freshId: Id, decision: Option<Code>)
    requires ReplyGiven(l, c, freshEpoch, freshId, decision).Granted?
    ensures var row := ReplyGiven(l, c, freshEpoch, freshId, decision).row;
            && row.key.root == c.p.request.root && row.key.run == c.p.request.run && row.key.policy == c.policy && row.key.token == c.token
            && row.corpus == c.p.request.version.corpus && row.id == freshId && row.entry == EntryOf(c.p.request, c.p.disclosures)
  {
  }

  /** The log holds a key exactly when a call under it was granted, and the seals are the runs
      that were sealed. */
  lemma {:induction false} HistoryTold(actions: seq<Action>, root: Id, run: Id, policy: Policy, token: Id, l: Ledger)
    requires l == Steps(EMPTY, actions)
    ensures KeyLogged(l.log, root, run, policy, token) <==> GrantedBefore(actions, root, run, policy, token)
    ensures (root, run) in l.seals <==> SealedBefore(actions, root, run)
  {
    if actions != [] {
      var n := |actions| - 1;
      var before, a := actions[..n], actions[n];
      var mid := Steps(EMPTY, before);
      assert actions == before + [a];
      HistoryTold(before, root, run, policy, token, mid);
      StepLogs(mid, a, l);
      GrantedSnoc(before, a, root, run, policy, token);
      SealedSnoc(before, a, root, run);
      if a.DoReserve? {
        GrantsMeans(mid, a.call, a.freshEpoch, a.freshId);
      }
      if a.DoReserve? && ReserveReply(mid, a.call, a.freshEpoch, a.freshId).Granted? {
        var row := ReserveReply(mid, a.call, a.freshEpoch, a.freshId).row;
        GrantedKey(mid, a.call, a.freshEpoch, a.freshId, DecisionOn(mid, a.call));
        LoggedSnoc(mid.log, row, root, run, policy, token);
      }
    }
  }

  /** The epoch a call is held against: its corpus's head, or a fresh one. */
  function ActiveEpoch(l: Ledger, c: Call, freshEpoch: Id): Id {
    var corpus := c.p.request.version.corpus;
    if corpus in l.heads then l.heads[corpus] else freshEpoch
  }

  /** The call finds its epoch and is not bound to another one. */
  predicate WellPlaced(l: Ledger, c: Call, freshEpoch: Id) {
    && (c.p.request.version.corpus !in l.heads ==> freshEpoch !in l.epochs)
    && (c.p.request.root in l.roots ==> l.roots[c.p.request.root].epoch == ActiveEpoch(l, c, freshEpoch))
  }

  lemma LookedUp(log: seq<Row>, c: Call)
    ensures RowWith(log, c.KeyOf()).Some? <==> KeyLogged(log, c.p.request.root, c.p.request.run, c.policy, c.token)
    ensures RowWith(log, c.KeyOf()).Some? ==> RowWith(log, c.KeyOf()).value in log
  {
    RowWithFinds(log, c.KeyOf());
    if RowWith(log, c.KeyOf()).Some? {
      var row := RowWith(log, c.KeyOf()).value;
      var k :| 0 <= k < |log| && log[k] == row;
    }
  }

  /** A call is answered in this order: refused for its epoch, refused because its run was sealed,
      replayed exactly when a call under the same root, run, policy and token was granted, refused
      by the enforcer, and otherwise granted a new row of its own. */
  lemma {:induction false} AnsweredByHistory(actions: seq<Action>, l: Ledger, c: Call, freshEpoch: Id, freshId: Id, reply: Reply)
    requires l == Steps(EMPTY, actions) && reply == ReserveReply(l, c, freshEpoch, freshId)
    ensures !WellPlaced(l, c, freshEpoch) ==> reply in {Collision, Violation(PolicyMismatch)}
    ensures WellPlaced(l, c, freshEpoch) ==>
      var q := c.p.request;
      var sealed, granted := SealedBefore(actions, q.root, q.run), GrantedBefore(actions, q.root, q.run, c.policy, c.token);
      && (reply == RunSealed <==> sealed)
      && (reply.Replayed? <==> !sealed && granted)
      && (reply.Replayed? ==> reply.row in l.log && reply.row.key == Key(q.root, q.run, c.policy, c.token))
      && (!sealed && !granted ==>
            match DecisionOn(l, c)
            case Some(code) => reply == Violation(code)
            case None =>
              if freshId in l.states then reply == Collision
              else reply == Granted(Row(freshId, Key(q.root, q.run, c.policy, c.token), q.version.corpus, ActiveEpoch(l, c, freshEpoch), EntryOf(q, c.p.disclosures))))
  {
    HistoryTold(actions, c.p.request.root, c.p.request.run, c.policy, c.token, l);
    LookedUp(l.log, c);
    RowWithFinds(l.log, c.KeyOf());
    AnsweredInOrder(l, c, freshEpoch, freshId, DecisionOn(l, c));
  }

  lemma AnsweredInOrder(l: Ledger, c: Call, freshEpoch: Id, freshId: Id, decision: Option<Code>)
    ensures var reply := ReplyGiven(l, c, freshEpoch, freshId, decision);
            var q := c.p.request;
            if !WellPlaced(l, c, freshEpoch) then reply in {Collision, Violation(PolicyMismatch)}
            else if (q.root, q.run) in l.seals then reply == RunSealed
            else if RowWith(l.log, c.KeyOf()).Some? then reply == Replayed(RowWith(l.log, c.KeyOf()).value)
            else if decision.Some? then reply == Violation(decision.value)
            else if freshId in l.states then reply == Collision
            else reply == Granted(Row(freshId, Key(q.root, q.run, c.policy, c.token), q.version.corpus, ActiveEpoch(l, c, freshEpoch), EntryOf(q, c.p.disclosures)))
  {
  }

  // ----- the books a call finds -----

  /** A call is decided on the stored books of its root and of its corpus's head; a first call
      for either is decided on one that has charged nothing, at the call's own level and policy. */
  lemma FoundBooks(l: Ledger, c: Call)
    requires Sound(l)
    ensures var b, q := BooksFor(l, c), c.p.request;
            && (q.root in l.roots ==> b.root == l.roots[q.root].book)
            && (q.root !in l.roots ==>
                  && b.root.id == q.root && b.root.level == q.level && b.root.policy == c.policy
                  && (forall k <- b.root.accounts :: b.root.accounts[k] == map[]) && b.root.counters == map[])
            && (q.version.corpus in l.heads ==> l.heads[q.version.corpus] in l.epochs && b.corpus == l.epochs[l.heads[q.version.corpus]].book)
            && (q.version.corpus !in l.heads ==>
                  && b.corpus.id == q.version.corpus && b.corpus.policy == c.policy
                  && forall k <- b.corpus.accounts :: b.corpus.accounts[k] == map[])
  {
    if c.p.request.version.corpus in l.heads {
      SoundChain(l, c.p.request.version.corpus);
    }
  }

  // ----- rebinds -----

  lemma PredecessorHeld(l: Ledger, corpus: Id)
    requires Sound(l) && corpus in l.heads
    ensures l.heads[corpus] in l.epochs
    ensures l.epochs[l.heads[corpus]].predecessor.Some? ==> l.epochs[l.heads[corpus]].predecessor.value in l.epochs
  {
    SoundChain(l, corpus);
    var chain := l.chains[corpus];
    if |chain| > 1 {
      var n := |chain| - 1;
      assert Succeeds(l.epochs[chain[n]], chain[n - 1], l.epochs[chain[n - 1]]);
    }
  }

  /** When a rebind makes a new epoch: it expects the head under its own policy and asks for
      another one, and the id is free. When it finds its work done: the head is what it expects
      and asks for, or the head's predecessor is. Otherwise it conflicts. */
  lemma ReboundExactly(l: Ledger, r: Rebinding, next: Id)
    requires Sound(l)
    ensures var reply := RebindReplyOf(l, r, next);
            if r.corpus !in l.heads then reply == Conflict
            else
              && l.heads[r.corpus] in l.epochs
              && var head := l.heads[r.corpus];
                 var active := l.epochs[head];
                 var expected := head == r.expectedId && active.book.policy == r.expectedPolicy;
                 var done := head != r.expectedId && active.predecessor == Some(r.expectedId) && active.book.policy == r.policy;
                 && (done ==> r.expectedId in l.epochs)
                 && (reply.Bound? && reply.rebound <==> expected && r.policy != r.expectedPolicy && next !in l.epochs)
                 && (reply == RebindCollision <==> expected && r.policy != r.expectedPolicy && next in l.epochs)
                 && (reply.Bound? && !reply.rebound <==>
                       (expected && r.policy == r.expectedPolicy) || (done && l.epochs[r.expectedId].book.policy == r.expectedPolicy))
                 && (reply.Bound? ==>
                       && r.expectedId in l.epochs && reply.predecessor == r.expectedId
                       && reply.oldPolicy == r.expectedPolicy && reply.newPolicy == r.policy
                       && reply.successor == (if reply.rebound then next else head)
                       && var accounts := l.epochs[r.expectedId].book.accounts;
                          reply.inherited == if Whole in accounts then accounts[Whole] else map[])
  {
    if r.corpus in l.heads {
      SoundChain(l, r.corpus);
      PredecessorHeld(l, r.corpus);
    }
  }

  /** A new epoch takes over everything its predecessor has charged, under the new policy, and
      becomes the head; what was there stays as it was. Any other rebind changes nothing. */
  lemma ReboundChanges(l: Ledger, r: Rebinding, next: Id)
    requires Sound(l)
    ensures var reply, m := RebindReplyOf(l, r, next), Rebind(l, r, next);
            if reply.Bound? && reply.rebound then
              && r.expectedId in l.epochs && next !in l.epochs
              && m == l.(heads := m.heads, chains := m.chains, epochs := m.epochs)
              && m.heads.Keys == l.heads.Keys && m.heads[r.corpus] == next && (forall c <- l.heads :: c != r.corpus ==> m.heads[c] == l.heads[c])
              && m.epochs.Keys == l.epochs.Keys + {next} && (forall e <- l.epochs :: m.epochs[e] == l.epochs[e])
              && var was, now := l.epochs[r.expectedId].book, m.epochs[next];
                 now.predecessor == Some(r.expectedId) && now.book.policy == r.policy
                 && now.book.id == was.id && now.book.accounts == was.accounts && now.inherited == now.book
            else m == l
  {
    if RebindReplyOf(l, r, next).Bound? && RebindReplyOf(l, r, next).rebound {
      ReboundMeans(l, r, next);
      SoundChain(l, r.corpus);
    }
  }
}
