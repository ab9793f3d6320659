/** The promises of the ledger over whole runs. */
module LedgerProperties {
  import opened Basics
  import opened EgressContracts
  import opened Accounts
  import opened Acceptance
  import opened OrderIndependence
  import opened ScopeInvariants
  import opened CorpusInvariants
  import opened Enforcer
  import opened Ledger
  import opened LedgerInvariants
  import opened LedgerRuns
  import Maps

  // ----- idempotency -----

  lemma {:induction false} RowWithAt(log: seq<Row>, row: Row)
    requires row in log && forall i, j :: 0 <= i < j < |log| ==> log[i].key != log[j].key
    ensures RowWith(log, row.key) == Some(row)
  {
    var n := |log| - 1;
    if log[n] != row {
      assert row in log[..n];
      RowWithAt(log[..n], row);
    }
  }

  lemma SoundLog(l: Ledger)
    requires Sound(l)
    ensures LogOk(l.log, l.states)
  {
    SoundMeans(l);
  }

  lemma RowStays(l: Ledger, c: Call, freshEpoch: Id, freshId: Id, decision: Option<Code>, row: Row, m: Ledger, actions: seq<Action>, n: Ledger)
    requires Sound(l) && ReplyGiven(l, c, freshEpoch, freshId, decision) == Granted(row)
    requires Sound(m) && m.log == l.log + [row] && n == Steps(m, actions)
    ensures RowWith(n.log, c.KeyOf()) == Some(row)
  {
    GrantedUnfolds(l, c, freshEpoch, freshId, decision);
    StepsLater(m, actions, n);
    SoundLog(n);
    assert row in m.log;
    RowWithAt(n.log, row);
  }

  lemma GrantedLog(l: Ledger, c: Call, freshEpoch: Id, freshId: Id, row: Row, m: Ledger)
    requires ReserveReply(l, c, freshEpoch, freshId) == Granted(row) && m == Reserve(l, c, freshEpoch, freshId)
    ensures m.log == l.log + [row]
  {
  }

  /** A key that was granted, that is a root, run, policy and token, is never granted again,
      whatever is sent under it later: it is answered with the same stored reservation or refused,
      and no later call under it moves anything. */
  lemma GrantedOnce(l: Ledger, c: Call, freshEpoch: Id, freshId: Id, row: Row, m: Ledger, actions: seq<Action>, n: Ledger,
                    again: Call, freshEpoch': Id, freshId': Id)
    requires Sound(l) && ReserveReply(l, c, freshEpoch, freshId) == Granted(row)
    requires m == Reserve(l, c, freshEpoch, freshId) && n == Steps(m, actions)
    requires again.p.request.root == c.p.request.root && again.p.request.run == c.p.request.run
    requires again.policy == c.policy && again.token == c.token
    ensures ReserveReply(n, again, freshEpoch', freshId') in {Replayed(row), Violation(PolicyMismatch), RunSealed, Collision}
    ensures Reserve(n, again, freshEpoch', freshId') == n
  {
    StepSound(l, DoReserve(c, freshEpoch, freshId));
    GrantedLog(l, c, freshEpoch, freshId, row, m);
    RowStays(l, c, freshEpoch, freshId, DecisionOn(l, c), row, m, actions, n);
  }

  /** A sealed run is never granted anything again. */
  lemma SealedForever(l: Ledger, root: Id, run: Id, actions: seq<Action>, m: Ledger, c: Call, freshEpoch: Id, freshId: Id)
    requires Sound(l) && m == Steps(Seal(l, root, run), actions)
    requires c.Root() == root && c.p.request.run == run
    ensures !ReserveReply(m, c, freshEpoch, freshId).Granted? && Reserve(m, c, freshEpoch, freshId) == m
  {
    StepSound(l, DoSeal(root, run));
    StepsLater(Seal(l, root, run), actions, m);
    assert (root, run) in m.seals;
  }

  // ----- policy epochs -----

  lemma ChainPosition(epochs: map<Id, Epoch>, corpus: Id, chain: seq<Id>, i: nat)
    requires ChainOf(epochs, corpus, chain) && i + 1 < |chain|
    ensures chain[|chain|-1] != chain[i]
    ensures epochs[chain[|chain|-1]].predecessor == Some(chain[i]) <==> i + 2 == |chain|
  {
    var n := |chain| - 1;
    assert Succeeds(epochs[chain[n]], chain[n-1], epochs[chain[n-1]]);
  }

  /** The answer to a rebind depends on the expected id's place in the corpus's chain: before
      the head's predecessor it conflicts whatever hashes it names, also when the policies
      went from A to B and back to A. */
  lemma AnswerByPosition(l: Ledger, r: Rebinding, next: Id, i: nat)
    requires Sound(l) && r.corpus in l.heads && r.corpus in l.chains
    requires i + 1 < |l.chains[r.corpus]| && l.chains[r.corpus][i] == r.expectedId
    ensures i + 2 < |l.chains[r.corpus]| ==> RebindReplyOf(l, r, next) == Conflict && Rebind(l, r, next) == l
    ensures i + 2 == |l.chains[r.corpus]| && r.expectedId in l.epochs && l.heads[r.corpus] in l.epochs && r.policy == l.epochs[l.heads[r.corpus]].book.policy
            && r.expectedPolicy == l.epochs[r.expectedId].book.policy ==>
            RebindReplyOf(l, r, next) == Bound(r.expectedId, l.heads[r.corpus], r.expectedPolicy, r.policy,
                                               At(l.epochs[r.expectedId].book.accounts, Whole), false)
  {
    SoundChain(l, r.corpus);
    ChainPosition(l.epochs, r.corpus, l.chains[r.corpus], i);
  }

  /** Once an epoch has two successors, an id that expects it conflicts for ever. */
  lemma StaleForever(l: Ledger, corpus: Id, i: nat, actions: seq<Action>, m: Ledger, r: Rebinding, next: Id)
    requires Sound(l) && corpus in l.heads && corpus in l.chains && i + 2 < |l.chains[corpus]|
    requires m == Steps(l, actions) && r.corpus == corpus && r.expectedId == l.chains[corpus][i]
    ensures RebindReplyOf(m, r, next) == Conflict && Rebind(m, r, next) == m
  {
    StepsLater(l, actions, m);
    KeptHead(m, corpus);
    AnswerByPosition(m, r, next, i);
  }

  lemma KeptHead(l: Ledger, corpus: Id)
    requires Sound(l) && corpus in l.chains
    ensures corpus in l.heads
  {
    SoundMeans(l);
  }

  lemma ReboundState(l: Ledger, r: Rebinding, next: Id, m: Ledger)
    requires Sound(l) && RebindReplyOf(l, r, next).Bound? && RebindReplyOf(l, r, next).rebound && m == Rebind(l, r, next)
    ensures Sound(m) && r.corpus in m.heads && r.corpus in m.chains && m.heads[r.corpus] == next
    ensures RebindReplyOf(l, r, next) ==
            Bound(r.expectedId, next, r.expectedPolicy, r.policy, At(l.epochs[r.expectedId].book.accounts, Whole), true)
    ensures r.expectedId in m.epochs && m.epochs[r.expectedId] == l.epochs[r.expectedId]
    ensures next in m.epochs && m.epochs[next].book.policy == r.policy
    ensures r.expectedPolicy == l.epochs[r.expectedId].book.policy && l.epochs[r.expectedId].book.id == r.corpus
    ensures var chain := m.chains[r.corpus]; |chain| >= 2 && chain[|chain|-2] == r.expectedId && chain[|chain|-1] == next
  {
    ReboundMeans(l, r, next);
    SoundChain(l, r.corpus);
    StepSound(l, DoRebind(r, next));
  }

  /** A rebind retried after any run gives the same ids and the same inherited totals, however
      much the successor has spent since; unless the head moved on, and then it conflicts. */
  lemma RetryAnswersTheSame(l: Ledger, r: Rebinding, next: Id, m: Ledger, actions: seq<Action>, n: Ledger, next': Id)
    requires Sound(l) && RebindReplyOf(l, r, next).Bound? && RebindReplyOf(l, r, next).rebound
    requires m == Rebind(l, r, next) && n == Steps(m, actions)
    ensures r.corpus in n.heads
    ensures RebindReplyOf(n, r, next') ==
            if n.heads[r.corpus] == next then RebindReplyOf(l, r, next).(rebound := false) else Conflict
    ensures Rebind(n, r, next') == n
  {
    ReboundState(l, r, next, m);
    StepsLater(m, actions, n);
    KeptHead(n, r.corpus);
    SoundChain(n, r.corpus);
    var i := |m.chains[r.corpus]| - 2;
    assert n.chains[r.corpus][i] == r.expectedId && n.chains[r.corpus][i + 1] == next;
    assert n.epochs[r.expectedId] == m.epochs[r.expectedId];
    AnswerByPosition(n, r, next', i);
  }

  lemma {:induction false} FoldCorpusGrows(c: CorpusBook, es: seq<Entry>)
    ensures AccountsGrow(c.accounts, FoldCorpus(c, es).accounts)
  {
    if es != [] {
      FoldCorpusGrows(c, es[..|es|-1]);
      GrowTransitive(c.accounts, FoldCorpus(c, es[..|es|-1]).accounts, FoldCorpus(c, es).accounts);
    }
  }

  lemma EpochGrewFromInherited(l: Ledger, id: Id)
    requires Sound(l) && id in l.epochs
    ensures AccountsGrow(l.epochs[id].inherited.accounts, l.epochs[id].book.accounts)
  {
    SoundMeans(l);
    assert EpochOk(l.epochs[id], EntriesIn(l.log, id));
    FoldCorpusGrows(l.epochs[id].inherited, EntriesIn(l.log, id));
  }

  /** Usage only grows along the chain of a corpus. */
  lemma {:induction false} UsageGrowsAlongChain(l: Ledger, corpus: Id, i: nat, j: nat)
    requires Sound(l) && corpus in l.heads && corpus in l.chains && i <= j < |l.chains[corpus]|
    ensures l.chains[corpus][i] in l.epochs && l.chains[corpus][j] in l.epochs
    ensures AccountsGrow(l.epochs[l.chains[corpus][i]].book.accounts, l.epochs[l.chains[corpus][j]].book.accounts)
    decreases j - i
  {
    SoundChain(l, corpus);
    if i < j {
      UsageGrowsAlongChain(l, corpus, i, j - 1);
      var before, after := l.chains[corpus][j - 1], l.chains[corpus][j];
      assert Succeeds(l.epochs[after], before, l.epochs[before]);
      EpochGrewFromInherited(l, after);
      GrowTransitive(l.epochs[l.chains[corpus][i]].book.accounts, l.epochs[before].book.accounts, l.epochs[after].book.accounts);
    }
  }

  // ----- what a root has sent -----

  lemma {:induction false} RunIsFold(b: Books, es: seq<Entry>)
    ensures Run(b, es).root == FoldRoot(b.root, es)
  {
    if es != [] {
      RunIsFold(b, es[..|es|-1]);
    }
  }

  /** A root's transmitted totals are exactly what its committed reservations disclose with
      repetition, and they are within the root's caps. */
  lemma RootAccounted(l: Ledger, root: Id)
    requires Sound(l) && root in l.roots
    ensures var book := l.roots[root].book;
            && Accounted(book, EntriesOf(l.log, root))
            && BatchTokens(EntriesOf(l.log, root)) <= SenderCap(book.policy, book.level, FromRoot).value.tokens
            && BatchBytes(EntriesOf(l.log, root)) <= SenderCap(book.policy, book.level, FromRoot).value.bytes
  {
    SoundMeans(l);
    var book, es := l.roots[root].book, EntriesOf(l.log, root);
    assert RootOk(root, book, es);
    var start := Books(EmptyRoot(root, book.level, book.policy), EmptyCorpus(0, book.policy));
    RunIsFold(start, es);
    AccountedFromEmpty(start, es);
    assert Maps.Unfold(0);
    SentUnderCap(book);
  }
}
