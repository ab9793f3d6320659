/** What whole runs of the ledger keep: history only grows, old epochs are frozen, a root stays
    bound, a key is granted once, and a rebind retried later answers the same. */
module LedgerRuns {
  import opened Basics
  import opened EgressContracts
  import opened Accounts
  import opened OrderIndependence
  import opened Enforcer
  import opened Ledger
  import opened LedgerInvariants
  import Maps

  predicate AccountsGrow<K>(a: map<K, Priced>, b: map<K, Priced>) {
    forall k <- a :: k in b && SubMap(a[k], b[k])
  }

  predicate EpochGrows(e: Epoch, f: Epoch) {
    SameHeader(e, f) && AccountsGrow(e.book.accounts, f.book.accounts)
  }

  predicate RootGrows(r: RootRow, s: RootRow) {
    r.epoch == s.epoch && r.book.level == s.book.level && r.book.policy == s.book.policy
    && AccountsGrow(r.book.accounts, s.book.accounts)
  }

  predicate EpochsGrow(a: map<Id, Epoch>, b: map<Id, Epoch>) {
    forall id <- a :: id in b && EpochGrows(a[id], b[id])
  }

  predicate RootsGrow(a: map<Id, RootRow>, b: map<Id, RootRow>) {
    forall root <- a :: root in b && RootGrows(a[root], b[root])
  }

  predicate ChainsGrow(a: map<Id, seq<Id>>, b: map<Id, seq<Id>>) {
    forall c <- a :: c in b && a[c] <= b[c]
  }

  /** An epoch that is not its corpus's head has not moved. */
  predicate Frozen(l: Ledger, m: Ledger) {
    forall id <- l.epochs :: id in m.epochs &&
      (l.epochs[id].book.id in l.heads && l.heads[l.epochs[id].book.id] != id ==> m.epochs[id] == l.epochs[id])
  }

  predicate Later(l: Ledger, m: Ledger) {
    && ChainsGrow(l.chains, m.chains)
    && EpochsGrow(l.epochs, m.epochs)
    && Frozen(l, m)
    && RootsGrow(l.roots, m.roots)
    && l.log <= m.log && l.states.Keys <= m.states.Keys && l.seals <= m.seals && l.attempts <= m.attempts
  }

  lemma LaterItself(l: Ledger)
    ensures Later(l, l)
  {
  }

  lemma PostedGrows(b: Books, e: Entry)
    ensures AccountsGrow(b.root.accounts, Post(b, e).root.accounts)
    ensures AccountsGrow(b.corpus.accounts, Post(b, e).corpus.accounts)
  {
  }

  lemma EpochsWritten(heads: map<Id, Id>, epochs: map<Id, Epoch>, row: Row, found: CorpusBook, book: CorpusBook)
    requires row.epoch in epochs ==>
      && epochs[row.epoch].book == found && found.id in heads && heads[found.id] == row.epoch
      && book.id == found.id && book.policy == found.policy && AccountsGrow(found.accounts, book.accounts)
    ensures var after := Written(epochs, row, found, book);
            && EpochsGrow(epochs, after)
            && forall id <- epochs :: epochs[id].book.id in heads && heads[epochs[id].book.id] != id ==> after[id] == epochs[id]
  {
  }

  lemma WriteLater(l: Ledger, row: Row, b: Books, after: Books, m: Ledger)
    requires Sound(l) && Placed(l, row, b) && after == Post(b, row.entry)
    requires m == Write(l, row, b.corpus, after)
    ensures Later(l, m)
  {
    SoundWrite(l, row, b, after);
    PostedGrows(b, row.entry);
    EpochsWritten(l.heads, l.epochs, row, b.corpus, after.corpus);
    WriteRoot(l.roots, row, b.root, after.root);
    ChainsBegun(l.chains, row.corpus, row.epoch, m.chains);
  }

  lemma ChainsBegun(chains: map<Id, seq<Id>>, corpus: Id, epoch: Id, after: map<Id, seq<Id>>)
    requires after == chains || (corpus !in chains && after == chains[corpus := [epoch]])
    ensures ChainsGrow(chains, after)
  {
  }

  lemma WriteRoot(roots: map<Id, RootRow>, row: Row, found: RootBook, book: RootBook)
    requires row.key.root in roots ==> roots[row.key.root] == RootRow(row.epoch, found)
    requires book.level == found.level && book.policy == found.policy && AccountsGrow(found.accounts, book.accounts)
    ensures RootsGrow(roots, roots[row.key.root := RootRow(row.epoch, book)])
  {
  }

  lemma ReserveLater(l: Ledger, c: Call, freshEpoch: Id, freshId: Id, m: Ledger)
    requires Sound(l) && m == Reserve(l, c, freshEpoch, freshId)
    ensures Later(l, m)
  {
    GivenLater(l, c, freshEpoch, freshId, DecisionOn(l, c), m);
  }

  lemma GivenLater(l: Ledger, c: Call, freshEpoch: Id, freshId: Id, decision: Option<Code>, m: Ledger)
    requires Sound(l) && Decided(l, c, decision)
    requires var reply := ReplyGiven(l, c, freshEpoch, freshId, decision);
             m == if reply.Granted? then Write(l, reply.row, CorpusFor(l, c), Post(BooksFor(l, c), reply.row.entry)) else l
    ensures Later(l, m)
  {
    var reply := ReplyGiven(l, c, freshEpoch, freshId, decision);
    if reply.Granted? {
      GrantedMeans(l, c, freshEpoch, freshId, decision);
      WriteLater(l, reply.row, BooksFor(l, c), Post(BooksFor(l, c), reply.row.entry), m);
    } else {
      LaterItself(l);
    }
  }

  lemma RebindLater(l: Ledger, r: Rebinding, next: Id, m: Ledger)
    requires m == Rebind(l, r, next)
    ensures Later(l, m)
  {
    if m != l {
      ReboundMeans(l, r, next);
      assert EpochsGrow(l.epochs, m.epochs);
    }
  }

  lemma RecordLater(l: Ledger, a: Attempt, m: Ledger)
    requires m == Record(l, a)
    ensures Later(l, m)
  {
  }

  lemma SealLater(l: Ledger, root: Id, run: Id, m: Ledger)
    requires m == Seal(l, root, run)
    ensures Later(l, m)
  {
  }

  lemma StepLater(l: Ledger, a: Action, m: Ledger)
    requires Sound(l) && m == Step(l, a)
    ensures Later(l, m)
  {
    match a
    case DoReserve(c, freshEpoch, freshId) => ReserveLater(l, c, freshEpoch, freshId, m);
    case DoRebind(r, next) => RebindLater(l, r, next, m);
    case DoRecord(attempt) => RecordLater(l, attempt, m);
    case DoSeal(root, run) => SealLater(l, root, run, m);
    case Rollback => LaterItself(l);
  }

  lemma StepSound(l: Ledger, a: Action)
    requires Sound(l)
    ensures Sound(Step(l, a))
  {
    SoundMeans(l);
    StepKeepsInv(l, a);
  }

  lemma GrowTransitive<K>(a: map<K, Priced>, b: map<K, Priced>, c: map<K, Priced>)
    requires AccountsGrow(a, b) && AccountsGrow(b, c)
    ensures AccountsGrow(a, c)
  {
  }

  lemma NotLast(epochs: map<Id, Epoch>, corpus: Id, before: seq<Id>, chain: seq<Id>, i: nat)
    requires ChainOf(epochs, corpus, chain) && before <= chain && i < |before| && before[|before|-1] != before[i]
    ensures chain[|chain|-1] != before[i] && chain[i] == before[i]
  {
  }

  lemma HeadStaysBehind(l: Ledger, m: Ledger, id: Id)
    requires Sound(l) && Sound(m) && id in l.epochs && id in m.epochs
    requires ChainsGrow(l.chains, m.chains) && SameHeader(l.epochs[id], m.epochs[id])
    requires l.epochs[id].book.id in l.heads && l.heads[l.epochs[id].book.id] != id
    ensures m.epochs[id].book.id in m.heads && m.heads[m.epochs[id].book.id] != id
  {
    var c := l.epochs[id].book.id;
    SoundEpoch(l, id);
    SoundEpoch(m, id);
    SoundChain(l, c);
    SoundChain(m, c);
    var i :| 0 <= i < |l.chains[c]| && l.chains[c][i] == id;
    NotLast(m.epochs, c, l.chains[c], m.chains[c], i);
  }

  lemma FrozenTransitive(l: Ledger, m: Ledger, n: Ledger)
    requires Sound(l) && Sound(m) && Later(l, m) && Frozen(m, n)
    ensures Frozen(l, n)
  {
    forall id <- l.epochs ensures id in n.epochs {
    }
    forall id <- l.epochs | l.epochs[id].book.id in l.heads && l.heads[l.epochs[id].book.id] != id
      ensures n.epochs[id] == l.epochs[id] {
      HeadStaysBehind(l, m, id);
    }
  }

  lemma LaterTransitive(l: Ledger, m: Ledger, n: Ledger)
    requires Sound(l) && Sound(m) && Later(l, m) && Later(m, n)
    ensures Later(l, n)
  {
    FrozenTransitive(l, m, n);
    forall id <- l.epochs ensures id in n.epochs && EpochGrows(l.epochs[id], n.epochs[id]) {
      GrowTransitive(l.epochs[id].book.accounts, m.epochs[id].book.accounts, n.epochs[id].book.accounts);
    }
    forall root <- l.roots ensures root in n.roots && RootGrows(l.roots[root], n.roots[root]) {
      GrowTransitive(l.roots[root].book.accounts, m.roots[root].book.accounts, n.roots[root].book.accounts);
    }
  }

  /** Every run only extends history. */
  lemma {:induction false} StepsLater(l: Ledger, actions: seq<Action>, m: Ledger)
    requires Sound(l) && m == Steps(l, actions)
    ensures Later(l, m) && Sound(m)
    decreases |actions|
  {
    if actions == [] {
      LaterItself(l);
    } else {
      var before := Steps(l, actions[..|actions|-1]);
      StepsLater(l, actions[..|actions|-1], before);
      StepLater(before, actions[|actions|-1], m);
      StepSound(before, actions[|actions|-1]);
      LaterTransitive(l, before, m);
    }
  }
}
