/** What every reachable ledger keeps: the durable rows are folds of the pure enforcer, and the
    epochs of a corpus form one chain whose head is the last. */
module LedgerInvariants {
  import opened Basics
  import opened EgressContracts
  import opened Accounts
  import opened Acceptance
  import opened OrderIndependence
  import opened ScopeInvariants
  import opened CorpusInvariants
  import opened Enforcer
  import opened Ledger
  import Maps

  // ----- folds over the log -----

  function EntriesOf(log: seq<Row>, root: Id): seq<Entry> {
    if log == [] then [] else
      var n := |log| - 1;
      if log[n].key.root == root then EntriesOf(log[..n], root) + [log[n].entry] else EntriesOf(log[..n], root)
  }

  function EntriesIn(log: seq<Row>, epoch: Id): seq<Entry> {
    if log == [] then [] else
      var n := |log| - 1;
      if log[n].epoch == epoch then EntriesIn(log[..n], epoch) + [log[n].entry] else EntriesIn(log[..n], epoch)
  }

  function FoldRoot(b: RootBook, es: seq<Entry>): RootBook {
    if es == [] then b else PostRoot(FoldRoot(b, es[..|es|-1]), es[|es|-1])
  }

  function FoldCorpus(c: CorpusBook, es: seq<Entry>): CorpusBook {
    if es == [] then c else PostCorpus(FoldCorpus(c, es[..|es|-1]), es[|es|-1])
  }

  lemma FoldRootSnoc(b: RootBook, es: seq<Entry>, e: Entry)
    ensures FoldRoot(b, es + [e]) == PostRoot(FoldRoot(b, es), e)
  {
    assert (es + [e])[..|es|] == es;
  }

  lemma FoldCorpusSnoc(c: CorpusBook, es: seq<Entry>, e: Entry)
    ensures FoldCorpus(c, es + [e]) == PostCorpus(FoldCorpus(c, es), e)
  {
    assert (es + [e])[..|es|] == es;
  }

  lemma EntriesSnoc(log: seq<Row>, row: Row, id: Id)
    ensures EntriesOf(log + [row], id) == if row.key.root == id then EntriesOf(log, id) + [row.entry] else EntriesOf(log, id)
    ensures EntriesIn(log + [row], id) == if row.epoch == id then EntriesIn(log, id) + [row.entry] else EntriesIn(log, id)
  {
    assert (log + [row])[..|log|] == log;
  }

  lemma {:induction false} NoEntries(log: seq<Row>, id: Id)
    ensures (forall row <- log :: row.key.root != id) ==> EntriesOf(log, id) == []
    ensures (forall row <- log :: row.epoch != id) ==> EntriesIn(log, id) == []
  {
    if log != [] {
      NoEntries(log[..|log|-1], id);
    }
  }

  // ----- the invariant -----

  /** A corpus's epochs from its first to its head: each inherits its predecessor's book under
      another policy, and only the first inherits nothing. */
  ghost predicate ChainOf(epochs: map<Id, Epoch>, corpus: Id, chain: seq<Id>) {
    && chain != []
    && (forall i :: 0 <= i < |chain| ==> chain[i] in epochs && epochs[chain[i]].book.id == corpus)
    && (forall i, j :: 0 <= i < j < |chain| ==> chain[i] != chain[j])
    && epochs[chain[0]].predecessor == None
    && epochs[chain[0]].inherited == EmptyCorpus(corpus, epochs[chain[0]].book.policy)
    && (forall i, j :: 0 <= i < j < |chain| && j == i + 1 ==> Succeeds(epochs[chain[j]], chain[i], epochs[chain[i]]))
  }

  predicate Succeeds(e: Epoch, id: Id, before: Epoch) {
    && e.predecessor == Some(id)
    && e.book.policy != before.book.policy
    && e.inherited == Inherit(before.book, e.book.policy)
  }

  predicate HeadsOk(heads: map<Id, Id>, chains: map<Id, seq<Id>>) {
    chains.Keys == heads.Keys && forall c <- chains :: chains[c] != [] && heads[c] == chains[c][|chains[c]|-1]
  }

  ghost predicate LinksOk(chains: map<Id, seq<Id>>, epochs: map<Id, Epoch>) {
    forall c <- chains :: ChainOf(epochs, c, chains[c])
  }

  /** Every epoch lies on its corpus's chain. */
  predicate ListedOk(chains: map<Id, seq<Id>>, epochs: map<Id, Epoch>) {
    forall id <- epochs :: epochs[id].book.id in chains && id in chains[epochs[id].book.id]
  }

  ghost predicate ChainsOk(heads: map<Id, Id>, chains: map<Id, seq<Id>>, epochs: map<Id, Epoch>) {
    HeadsOk(heads, chains) && LinksOk(chains, epochs) && ListedOk(chains, epochs)
  }

  /** The scope invariants, kept folded. */
  ghost predicate SoundCorpus(c: CorpusBook) {
    forall n: nat {:trigger Maps.Unfold(n)} :: Maps.Unfold(n) ==> CorpusInvariant(c)
  }

  ghost predicate SoundRoot(b: RootBook) {
    forall n: nat {:trigger Maps.Unfold(n)} :: Maps.Unfold(n) ==> RootInvariant(b)
  }

  ghost predicate EpochOk(e: Epoch, es: seq<Entry>) {
    e.book == FoldCorpus(e.inherited, es) && SoundCorpus(e.book)
  }

  ghost predicate RootOk(root: Id, book: RootBook, es: seq<Entry>) {
    && book.id == root
    && book == FoldRoot(EmptyRoot(root, book.level, book.policy), es)
    && SoundRoot(book)
  }

  ghost predicate EpochsOk(epochs: map<Id, Epoch>, log: seq<Row>) {
    forall id <- epochs :: EpochOk(epochs[id], EntriesIn(log, id))
  }

  ghost predicate RootsOk(roots: map<Id, RootRow>, log: seq<Row>) {
    forall root <- roots :: RootOk(root, roots[root].book, EntriesOf(log, root))
  }

  /** A root is bound to one epoch, under that epoch's policy. */
  predicate BoundOk(roots: map<Id, RootRow>, epochs: map<Id, Epoch>) {
    forall root <- roots ::
      roots[root].epoch in epochs && epochs[roots[root].epoch].book.policy == roots[root].book.policy
  }

  predicate RowOk(row: Row, states: map<Id, ReservationState>, roots: map<Id, RootRow>, epochs: map<Id, Epoch>) {
    && row.id in states
    && row.key.root in roots && roots[row.key.root].epoch == row.epoch
    && row.key.policy == roots[row.key.root].book.policy
    && row.entry.root == row.key.root && row.entry.run == row.key.run && row.entry.corpus == row.corpus
    && row.epoch in epochs && epochs[row.epoch].book.id == row.corpus
  }

  ghost predicate LogOk(log: seq<Row>, states: map<Id, ReservationState>) {
    && (forall i, j :: 0 <= i < j < |log| ==> log[i].id != log[j].id && log[i].key != log[j].key)
    && (forall id <- states :: exists row :: row in log && row.id == id)
  }

  ghost predicate RowsOk(log: seq<Row>, states: map<Id, ReservationState>, roots: map<Id, RootRow>, epochs: map<Id, Epoch>) {
    forall row <- log :: RowOk(row, states, roots, epochs)
  }

  ghost predicate Inv(l: Ledger) {
    && ChainsOk(l.heads, l.chains, l.epochs)
    && EpochsOk(l.epochs, l.log)
    && RootsOk(l.roots, l.log)
    && BoundOk(l.roots, l.epochs)
    && RowsOk(l.log, l.states, l.roots, l.epochs)
    && LogOk(l.log, l.states)
  }

  // ----- the fold keeps what posting keeps -----

  lemma {:induction false} RowWithFinds(log: seq<Row>, key: Key)
    ensures RowWith(log, key).Some? ==> RowWith(log, key).value in log && RowWith(log, key).value.key == key
    ensures RowWith(log, key).None? ==> forall row <- log :: row.key != key
  {
    if log != [] {
      RowWithFinds(log[..|log|-1], key);
    }
  }

  lemma DecisionMeans(b: Books, c: Call)
    requires Decision(b, c.p, c.policy, c.counter, c.authorized).None?
    ensures WellFormed(c.Entry()) && Verdict(b, c.Entry(), c.policy).None?
  {
    DerivedIsEntry(c.p.request, c.policy, c.counter, c.authorized);
  }

  lemma AcceptedUnder(b: Books, e: Entry, policy: Policy)
    requires WellFormed(e) && Verdict(b, e, policy).None?
    ensures b.root.policy == policy && b.corpus.policy == policy && b.root.id == e.root && b.corpus.id == e.corpus
    ensures Accepts(b, e)
  {
    VerdictIsConjunction(b, e, policy);
    AcceptsMeans(b, e);
  }

  lemma GrantedUnfolds(l: Ledger, c: Call, freshEpoch: Id, freshId: Id, decision: Option<Code>)
    requires ReplyGiven(l, c, freshEpoch, freshId, decision).Granted?
    ensures decision.None?
    ensures ReplyGiven(l, c, freshEpoch, freshId, decision).row == Row(freshId, c.KeyOf(), c.Corpus(), EpochFor(l, c, freshEpoch), c.Entry())
    ensures freshId !in l.states && RowWith(l.log, c.KeyOf()).None?
    ensures c.Corpus() !in l.heads ==> freshEpoch !in l.epochs
    ensures c.Root() in l.roots ==> l.roots[c.Root()].epoch == EpochFor(l, c, freshEpoch)
  {
  }

  /** What a granted row is, given the books its call found. */
  predicate Placed(l: Ledger, row: Row, b: Books) {
    && row.id !in l.states && RowWith(l.log, row.key).None?
    && row.entry.root == row.key.root && row.entry.run == row.key.run && row.entry.corpus == row.corpus
    && (if row.corpus in l.heads then row.epoch == l.heads[row.corpus] else row.epoch !in l.epochs)
    && (row.corpus in l.heads && row.epoch in l.epochs ==> b.corpus == l.epochs[row.epoch].book)
    && (row.corpus !in l.heads ==> b.corpus == EmptyCorpus(row.corpus, row.key.policy))
    && (if row.key.root in l.roots then l.roots[row.key.root] == RootRow(row.epoch, b.root)
        else b.root == EmptyRoot(row.key.root, b.root.level, row.key.policy))
    && b.root.policy == row.key.policy && b.root.id == row.key.root
    && b.corpus.policy == row.key.policy && b.corpus.id == row.corpus
  }

  /** The enforcer's decision on a call, kept folded. */
  ghost predicate Decided(l: Ledger, c: Call, decision: Option<Code>) {
    forall n: nat {:trigger Maps.Unfold(n)} :: Maps.Unfold(n) ==> decision == DecisionOn(l, c)
  }

  lemma DecidedMeans(l: Ledger, c: Call, decision: Option<Code>)
    requires Decided(l, c, decision)
    ensures decision == Decision(BooksFor(l, c), c.p, c.policy, c.counter, c.authorized)
  {
    assert Maps.Unfold(0);
  }

  lemma AcceptedCall(l: Ledger, c: Call)
    requires Decided(l, c, None)
    ensures Accepts(BooksFor(l, c), c.Entry())
    ensures RootFor(l, c).policy == c.policy && CorpusFor(l, c).policy == c.policy
    ensures RootFor(l, c).id == c.Root() && CorpusFor(l, c).id == c.Corpus()
  {
    DecidedMeans(l, c, None);
    DecisionMeans(BooksFor(l, c), c);
    AcceptedUnder(BooksFor(l, c), c.Entry(), c.policy);
  }

  lemma GrantedMeans(l: Ledger, c: Call, freshEpoch: Id, freshId: Id, decision: Option<Code>)
    requires Decided(l, c, decision) && ReplyGiven(l, c, freshEpoch, freshId, decision).Granted?
    ensures var row := ReplyGiven(l, c, freshEpoch, freshId, decision).row;
            Placed(l, row, BooksFor(l, c)) && row.entry == c.Entry()
  {
    GrantedUnfolds(l, c, freshEpoch, freshId, decision);
    AcceptedCall(l, c);
  }

  // ----- a committed reservation -----

  predicate SameHeader(e: Epoch, f: Epoch) {
    e.predecessor == f.predecessor && e.inherited == f.inherited && e.book.id == f.book.id && e.book.policy == f.book.policy
  }

  /** A chain survives when only the book of its last epoch moves. */
  lemma ChainKept(before: map<Id, Epoch>, after: map<Id, Epoch>, corpus: Id, chain: seq<Id>)
    requires ChainOf(before, corpus, chain)
    requires forall i :: 0 <= i < |chain| ==> chain[i] in after && SameHeader(before[chain[i]], after[chain[i]])
    requires forall i :: 0 <= i < |chain| - 1 ==> after[chain[i]] == before[chain[i]]
    ensures ChainOf(after, corpus, chain)
  {
  }

  lemma ChainMoved(epochs: map<Id, Epoch>, corpus: Id, chain: seq<Id>, id: Id, e: Epoch)
    requires ChainOf(epochs, corpus, chain) && id in epochs && SameHeader(epochs[id], e)
    requires id in chain ==> id == chain[|chain|-1]
    ensures ChainOf(epochs[id := e], corpus, chain)
  {
    ChainKept(epochs, epochs[id := e], corpus, chain);
  }

  lemma BookMoved(heads: map<Id, Id>, chains: map<Id, seq<Id>>, epochs: map<Id, Epoch>, id: Id, book: CorpusBook)
    requires ChainsOk(heads, chains, epochs) && id in epochs
    requires book.id == epochs[id].book.id && book.policy == epochs[id].book.policy
    requires book.id in heads && heads[book.id] == id
    ensures ChainsOk(heads, chains, epochs[id := epochs[id].(book := book)])
  {
    var e := epochs[id].(book := book);
    forall k <- chains ensures ChainOf(epochs[id := e], k, chains[k]) {
      assert ChainOf(epochs, k, chains[k]);
      ChainMoved(epochs, k, chains[k], id, e);
    }
  }

  lemma ChainBeside(epochs: map<Id, Epoch>, corpus: Id, chain: seq<Id>, id: Id, e: Epoch)
    requires ChainOf(epochs, corpus, chain) && id !in epochs
    ensures ChainOf(epochs[id := e], corpus, chain)
  {
    ChainKept(epochs, epochs[id := e], corpus, chain);
  }

  lemma LinksBeside(chains: map<Id, seq<Id>>, epochs: map<Id, Epoch>, corpus: Id, chain: seq<Id>, id: Id, e: Epoch)
    requires LinksOk(chains, epochs) && id !in epochs && ChainOf(epochs[id := e], corpus, chain)
    ensures LinksOk(chains[corpus := chain], epochs[id := e])
  {
    forall k <- chains | k != corpus ensures ChainOf(epochs[id := e], k, chains[k]) {
      ChainBeside(epochs, k, chains[k], id, e);
    }
  }

  lemma ListedBeside(chains: map<Id, seq<Id>>, epochs: map<Id, Epoch>, corpus: Id, chain: seq<Id>, id: Id, e: Epoch)
    requires ListedOk(chains, epochs) && e.book.id == corpus && id in chain && (corpus in chains ==> chains[corpus] <= chain)
    ensures ListedOk(chains[corpus := chain], epochs[id := e])
  {
    forall k <- epochs | epochs[k].book.id == corpus ensures k in chain {
      assert k in chains[corpus];
    }
  }

  /** A fresh epoch beside the others, its corpus's chain now ending in it. */
  lemma EpochAdded(chains: map<Id, seq<Id>>, epochs: map<Id, Epoch>, corpus: Id, chain: seq<Id>, id: Id, e: Epoch,
                   chains': map<Id, seq<Id>>, epochs': map<Id, Epoch>)
    requires LinksOk(chains, epochs) && ListedOk(chains, epochs)
    requires id !in epochs && e.book.id == corpus && ChainOf(epochs', corpus, chain)
    requires id in chain && (corpus in chains ==> chains[corpus] <= chain)
    requires chains' == chains[corpus := chain] && epochs' == epochs[id := e]
    ensures LinksOk(chains', epochs') && ListedOk(chains', epochs')
  {
    LinksBeside(chains, epochs, corpus, chain, id, e);
    ListedBeside(chains, epochs, corpus, chain, id, e);
  }

  lemma ChainStarted(heads: map<Id, Id>, chains: map<Id, seq<Id>>, epochs: map<Id, Epoch>, corpus: Id, id: Id, e: Epoch)
    requires ChainsOk(heads, chains, epochs) && id !in epochs && corpus !in heads
    requires e.predecessor == None && e.book.id == corpus && e.inherited == EmptyCorpus(corpus, e.book.policy)
    ensures ChainsOk(heads[corpus := id], chains[corpus := [id]], epochs[id := e])
  {
    EpochAdded(chains, epochs, corpus, [id], id, e, chains[corpus := [id]], epochs[id := e]);
  }

  lemma EpochMoved(found: CorpusBook, inherited: CorpusBook, before: seq<Entry>, es: seq<Entry>, e: Entry)
    requires found == FoldCorpus(inherited, before) && es == before + [e]
    ensures PostCorpus(found, e) == FoldCorpus(inherited, es)
  {
    FoldCorpusSnoc(inherited, before, e);
  }

  lemma EpochsMoved(epochs: map<Id, Epoch>, log: seq<Row>, row: Row, e: Epoch, found: CorpusBook)
    requires EpochsOk(epochs, log)
    requires if row.epoch in epochs then epochs[row.epoch].book == found && e.inherited == epochs[row.epoch].inherited
             else (forall r <- log :: r.epoch != row.epoch) && e.inherited == found
    requires e.book == PostCorpus(found, row.entry) && SoundCorpus(e.book)
    ensures EpochsOk(epochs[row.epoch := e], log + [row])
  {
    var after := epochs[row.epoch := e];
    forall id <- after ensures EpochOk(after[id], EntriesIn(log + [row], id)) {
      EntriesSnoc(log, row, id);
      if id != row.epoch {
        assert EpochOk(epochs[id], EntriesIn(log, id));
      } else {
        NoEntries(log, id);
        assert found == FoldCorpus(e.inherited, EntriesIn(log, id));
        EpochMoved(found, e.inherited, EntriesIn(log, id), EntriesIn(log + [row], id), row.entry);
      }
    }
  }

  lemma RootMoved(found: RootBook, start: RootBook, before: seq<Entry>, es: seq<Entry>, e: Entry)
    requires found == FoldRoot(start, before) && es == before + [e]
    ensures PostRoot(found, e) == FoldRoot(start, es)
  {
    FoldRootSnoc(start, before, e);
  }

  lemma RootsMoved(roots: map<Id, RootRow>, log: seq<Row>, row: Row, r: RootRow, found: RootBook)
    requires RootsOk(roots, log)
    requires if row.key.root in roots then roots[row.key.root].book == found
             else (forall x <- log :: x.key.root != row.key.root) && found == EmptyRoot(row.key.root, found.level, found.policy)
    requires r.book == PostRoot(found, row.entry) && SoundRoot(r.book)
    ensures RootsOk(roots[row.key.root := r], log + [row])
  {
    var after := roots[row.key.root := r];
    forall root <- after ensures RootOk(root, after[root].book, EntriesOf(log + [row], root)) {
      EntriesSnoc(log, row, root);
      if root != row.key.root {
        assert RootOk(root, roots[root].book, EntriesOf(log, root));
      } else {
        NoEntries(log, root);
        var start := EmptyRoot(root, found.level, found.policy);
        assert found == FoldRoot(start, EntriesOf(log, root));
        RootMoved(found, start, EntriesOf(log, root), EntriesOf(log + [row], root), row.entry);
      }
    }
  }

  lemma LogGrown(log: seq<Row>, states: map<Id, ReservationState>, row: Row, roots: map<Id, RootRow>, epochs: map<Id, Epoch>, state: ReservationState)
    requires LogOk(log, states) && RowsOk(log, states, roots, epochs)
    requires row.id !in states && RowWith(log, row.key).None?
    ensures LogOk(log + [row], states[row.id := state])
  {
    RowWithFinds(log, row.key);
    forall r <- log ensures r.id != row.id && r.key != row.key {
      assert RowOk(r, states, roots, epochs);
    }
    var after := states[row.id := state];
    forall id <- after ensures exists r :: r in log + [row] && r.id == id {
      if id == row.id {
        assert row in log + [row];
      } else {
        var r :| r in log && r.id == id;
        assert r in log + [row];
      }
    }
  }

  /** Rows stay well bound when roots and epochs only gain entries or move their books. */
  lemma RowsKept(log: seq<Row>, states: map<Id, ReservationState>, roots: map<Id, RootRow>, epochs: map<Id, Epoch>,
                 states': map<Id, ReservationState>, roots': map<Id, RootRow>, epochs': map<Id, Epoch>)
    requires RowsOk(log, states, roots, epochs)
    requires states.Keys <= states'.Keys
    requires forall r <- roots :: r in roots' && roots'[r].epoch == roots[r].epoch && roots'[r].book.policy == roots[r].book.policy
    requires forall e <- epochs :: e in epochs' && epochs'[e].book.id == epochs[e].book.id
    ensures RowsOk(log, states', roots', epochs')
  {
    forall row <- log ensures RowOk(row, states', roots', epochs') {
      assert RowOk(row, states, roots, epochs);
    }
  }

  /** The row's place in the chains: the head's book moves, or a first epoch starts. */
  lemma WriteEpoch(l: Ledger, row: Row, b: Books, after: Books)
    requires Inv(l) && Placed(l, row, b)
    ensures row.corpus in l.heads ==> row.epoch in l.epochs && b.corpus == l.epochs[row.epoch].book
    ensures var w := Write(l, row, b.corpus, after);
            var e := if row.epoch in l.epochs then l.epochs[row.epoch].(book := after.corpus) else Epoch(None, b.corpus, after.corpus);
            && w.epochs == l.epochs[row.epoch := e]
            && w.heads == l.heads[row.corpus := row.epoch]
            && w.chains == (if row.corpus in l.heads then l.chains else l.chains[row.corpus := [row.epoch]])
            && w.roots == l.roots[row.key.root := RootRow(row.epoch, after.root)]
            && w.log == l.log + [row] && w.states == l.states[row.id := Reserved]
  {
    if row.corpus in l.heads {
      assert ChainOf(l.epochs, row.corpus, l.chains[row.corpus]);
    }
  }

  function Written(epochs: map<Id, Epoch>, row: Row, found: CorpusBook, book: CorpusBook): map<Id, Epoch> {
    epochs[row.epoch := if row.epoch in epochs then epochs[row.epoch].(book := book) else Epoch(None, found, book)]
  }

  /** The heads, chains and epochs after the write are sound again. */
  lemma ChainsWritten(heads: map<Id, Id>, chains: map<Id, seq<Id>>, epochs: map<Id, Epoch>, row: Row, found: CorpusBook, book: CorpusBook,
                      heads': map<Id, Id>, chains': map<Id, seq<Id>>, epochs': map<Id, Epoch>)
    requires ChainsOk(heads, chains, epochs)
    requires found.id == book.id == row.corpus && book.policy == found.policy
    requires if row.corpus in heads then row.epoch == heads[row.corpus] && row.epoch in epochs && epochs[row.epoch].book == found
             else row.epoch !in epochs && found == EmptyCorpus(row.corpus, found.policy)
    requires heads' == heads[row.corpus := row.epoch] && epochs' == Written(epochs, row, found, book)
    requires chains' == if row.corpus in heads then chains else chains[row.corpus := [row.epoch]]
    ensures ChainsOk(heads', chains', epochs')
  {
    if row.corpus in heads {
      assert heads' == heads && epochs' == epochs[row.epoch := epochs[row.epoch].(book := book)];
      BookMoved(heads, chains, epochs, row.epoch, book);
    } else {
      assert epochs' == epochs[row.epoch := Epoch(None, found, book)];
      ChainStarted(heads, chains, epochs, row.corpus, row.epoch, Epoch(None, found, book));
    }
  }

  lemma RowsWritten(log: seq<Row>, states: map<Id, ReservationState>, roots: map<Id, RootRow>, epochs: map<Id, Epoch>,
                    row: Row, found: CorpusBook, book: CorpusBook, root: RootBook)
    requires BoundOk(roots, epochs) && RowsOk(log, states, roots, epochs)
    requires row.entry.root == row.key.root && row.entry.run == row.key.run && row.entry.corpus == row.corpus
    requires row.epoch in epochs ==> epochs[row.epoch].book == found
    requires row.key.root in roots ==> roots[row.key.root].epoch == row.epoch && roots[row.key.root].book.policy == root.policy
    requires book.id == found.id == row.corpus && book.policy == found.policy == root.policy == row.key.policy
    ensures var roots', epochs' := roots[row.key.root := RootRow(row.epoch, root)], Written(epochs, row, found, book);
            BoundOk(roots', epochs') && RowsOk(log + [row], states[row.id := Reserved], roots', epochs')
  {
    var roots', epochs' := roots[row.key.root := RootRow(row.epoch, root)], Written(epochs, row, found, book);
    RowsKept(log, states, roots, epochs, states[row.id := Reserved], roots', epochs');
    assert RowOk(row, states[row.id := Reserved], roots', epochs');
  }

  lemma WriteFolds(l: Ledger, row: Row, b: Books, after: Books)
    requires Inv(l) && Placed(l, row, b)
    requires after == Post(b, row.entry) && SoundRoot(after.root) && SoundCorpus(after.corpus)
    ensures var w := Write(l, row, b.corpus, after); EpochsOk(w.epochs, w.log) && RootsOk(w.roots, w.log)
  {
    WriteEpoch(l, row, b, after);
    if row.epoch !in l.epochs {
      forall r <- l.log ensures r.epoch != row.epoch {
        assert RowOk(r, l.states, l.roots, l.epochs);
      }
    }
    if row.key.root !in l.roots {
      forall r <- l.log ensures r.key.root != row.key.root {
        assert RowOk(r, l.states, l.roots, l.epochs);
      }
    }
    EpochsMoved(l.epochs, l.log, row, Write(l, row, b.corpus, after).epochs[row.epoch], b.corpus);
    RootsMoved(l.roots, l.log, row, RootRow(row.epoch, after.root), b.root);
  }

  lemma PostedSound(b: Books, e: Entry)
    requires SoundRoot(b.root) && SoundCorpus(b.corpus) && Accepts(b, e)
    ensures SoundRoot(Post(b, e).root) && SoundCorpus(Post(b, e).corpus)
  {
    assert Maps.Unfold(0);
    RootInvariantByPost(b, e);
    CorpusInvariantByPost(b.corpus, e);
  }

  lemma FoundSound(l: Ledger, c: Call)
    requires Inv(l)
    ensures SoundRoot(RootFor(l, c)) && SoundCorpus(CorpusFor(l, c))
  {
    EmptyRootInvariant(c.Root(), c.p.request.level, c.policy);
    EmptyCorpusInvariant(c.Corpus(), c.policy);
    if c.Root() in l.roots {
      assert RootOk(c.Root(), l.roots[c.Root()].book, EntriesOf(l.log, c.Root()));
    }
    if c.Corpus() in l.heads && l.heads[c.Corpus()] in l.epochs {
      var id := l.heads[c.Corpus()];
      assert EpochOk(l.epochs[id], EntriesIn(l.log, id));
    }
  }

  lemma ReserveKeepsInv(l: Ledger, c: Call, freshEpoch: Id, freshId: Id)
    requires Inv(l)
    ensures Inv(Reserve(l, c, freshEpoch, freshId))
  {
    GivenKeepsInv(l, c, freshEpoch, freshId, DecisionOn(l, c));
  }

  lemma GivenKeepsInv(l: Ledger, c: Call, freshEpoch: Id, freshId: Id, decision: Option<Code>)
    requires Inv(l) && Decided(l, c, decision)
    ensures var reply := ReplyGiven(l, c, freshEpoch, freshId, decision);
            reply.Granted? ==> Inv(Write(l, reply.row, CorpusFor(l, c), Post(BooksFor(l, c), reply.row.entry)))
  {
    var reply := ReplyGiven(l, c, freshEpoch, freshId, decision);
    if reply.Granted? {
      var b := BooksFor(l, c);
      GrantedUnfolds(l, c, freshEpoch, freshId, decision);
      GrantedMeans(l, c, freshEpoch, freshId, decision);
      AcceptedCall(l, c);
      FoundSound(l, c);
      PostedSound(b, reply.row.entry);
      WriteKept(l, reply.row, b);
    }
  }

  lemma WriteKept(l: Ledger, row: Row, b: Books)
    requires Inv(l) && Placed(l, row, b)
    requires SoundRoot(Post(b, row.entry).root) && SoundCorpus(Post(b, row.entry).corpus)
    ensures Inv(Write(l, row, b.corpus, Post(b, row.entry)))
  {
    var after := Post(b, row.entry);
    WriteEpoch(l, row, b, after);
    WriteFolds(l, row, b, after);
    ChainsWritten(l.heads, l.chains, l.epochs, row, b.corpus, after.corpus,
                  Write(l, row, b.corpus, after).heads, Write(l, row, b.corpus, after).chains, Write(l, row, b.corpus, after).epochs);
    RowsWritten(l.log, l.states, l.roots, l.epochs, row, b.corpus, after.corpus, after.root);
    LogGrown(l.log, l.states, row, l.roots, l.epochs, Reserved);
  }

  // ----- a rebound policy -----

  lemma ChainExtended(epochs: map<Id, Epoch>, corpus: Id, chain: seq<Id>, id: Id, e: Epoch)
    requires ChainOf(epochs, corpus, chain) && id !in epochs && e.book.id == corpus
    requires Succeeds(e, chain[|chain|-1], epochs[chain[|chain|-1]])
    ensures ChainOf(epochs[id := e], corpus, chain + [id])
  {
    ChainBeside(epochs, corpus, chain, id, e);
    assert forall i :: 0 <= i < |chain| ==> (chain + [id])[i] == chain[i];
  }

  lemma HeadsExtended(heads: map<Id, Id>, chains: map<Id, seq<Id>>, corpus: Id, id: Id)
    requires HeadsOk(heads, chains) && corpus in heads
    ensures HeadsOk(heads[corpus := id], chains[corpus := chains[corpus] + [id]])
  {
  }

  lemma HeadMoved(heads: map<Id, Id>, chains: map<Id, seq<Id>>, epochs: map<Id, Epoch>, corpus: Id, id: Id, e: Epoch,
                  chains': map<Id, seq<Id>>, epochs': map<Id, Epoch>)
    requires ChainsOk(heads, chains, epochs) && corpus in heads && id !in epochs && e.book.id == corpus
    requires heads[corpus] in epochs && Succeeds(e, heads[corpus], epochs[heads[corpus]])
    requires chains' == chains[corpus := chains[corpus] + [id]] && epochs' == epochs[id := e]
    ensures ChainsOk(heads[corpus := id], chains', epochs')
  {
    HeadsExtended(heads, chains, corpus, id);
    assert ChainOf(epochs, corpus, chains[corpus]);
    ChainExtended(epochs, corpus, chains[corpus], id, e);
    EpochAdded(chains, epochs, corpus, chains[corpus] + [id], id, e, chains', epochs');
  }

  /** What a successor epoch is made of. */
  lemma ReboundMeans(l: Ledger, r: Rebinding, next: Id)
    requires RebindReplyOf(l, r, next).Bound? && RebindReplyOf(l, r, next).rebound
    ensures r.corpus in l.heads && l.heads[r.corpus] == r.expectedId && r.expectedId in l.epochs && next !in l.epochs
    ensures var active := l.epochs[r.expectedId];
            active.book.policy == r.expectedPolicy != r.policy &&
            RebindReplyOf(l, r, next) == Bound(r.expectedId, next, r.expectedPolicy, r.policy, At(active.book.accounts, Whole), true)
  {
  }

  lemma EpochsExtended(epochs: map<Id, Epoch>, log: seq<Row>, id: Id, e: Epoch)
    requires EpochsOk(epochs, log) && id !in epochs && e.book == e.inherited && SoundCorpus(e.book)
    requires forall row <- log :: row.epoch != id
    ensures EpochsOk(epochs[id := e], log)
  {
    NoEntries(log, id);
    forall k <- epochs[id := e] ensures EpochOk(epochs[id := e][k], EntriesIn(log, k)) {
      assert k != id ==> EpochOk(epochs[k], EntriesIn(log, k));
    }
  }

  lemma SharesByAccounts(c: CorpusBook, d: CorpusBook, m: Measure)
    requires c.accounts == d.accounts && Shares(c, m)
    ensures Shares(d, m)
  {
    assert DocumentTotals(d, m) == DocumentTotals(c, m);
  }

  lemma InheritSound(c: CorpusBook, policy: Policy)
    requires SoundCorpus(c)
    ensures SoundCorpus(Inherit(c, policy))
  {
    assert Maps.Unfold(0);
    SharesByAccounts(c, Inherit(c, policy), InTokens);
    SharesByAccounts(c, Inherit(c, policy), InBytes);
    assert Covered(Inherit(c, policy));
  }

  lemma RebindKeepsInv(l: Ledger, r: Rebinding, next: Id)
    requires Inv(l)
    ensures Inv(Rebind(l, r, next))
  {
    var reply := RebindReplyOf(l, r, next);
    if reply.Bound? && reply.rebound && r.corpus in l.chains {
      ReboundMeans(l, r, next);
      var active := l.epochs[r.expectedId];
      var e := Epoch(Some(r.expectedId), Inherit(active.book, r.policy), Inherit(active.book, r.policy));
      ReboundInv(l, r.corpus, next, e);
    }
  }

  lemma HeadSound(l: Ledger, corpus: Id)
    requires Inv(l) && corpus in l.heads && l.heads[corpus] in l.epochs
    ensures SoundCorpus(l.epochs[l.heads[corpus]].book) && l.epochs[l.heads[corpus]].book.id == corpus
  {
    var head := l.heads[corpus];
    assert ChainOf(l.epochs, corpus, l.chains[corpus]);
    assert EpochOk(l.epochs[head], EntriesIn(l.log, head));
  }

  lemma ReboundRows(log: seq<Row>, states: map<Id, ReservationState>, roots: map<Id, RootRow>, epochs: map<Id, Epoch>, next: Id, e: Epoch)
    requires BoundOk(roots, epochs) && RowsOk(log, states, roots, epochs) && EpochsOk(epochs, log) && next !in epochs
    requires e.book == e.inherited && SoundCorpus(e.book)
    ensures BoundOk(roots, epochs[next := e]) && RowsOk(log, states, roots, epochs[next := e]) && EpochsOk(epochs[next := e], log)
  {
    forall row <- log ensures row.epoch != next {
      assert RowOk(row, states, roots, epochs);
    }
    EpochsExtended(epochs, log, next, e);
    RowsKept(log, states, roots, epochs, states, roots, epochs[next := e]);
  }

  lemma ReboundInv(l: Ledger, corpus: Id, next: Id, e: Epoch)
    requires Inv(l) && corpus in l.heads && corpus in l.chains && next !in l.epochs
    requires l.heads[corpus] in l.epochs && e.predecessor == Some(l.heads[corpus]) && e.book == e.inherited
    requires e.book == Inherit(l.epochs[l.heads[corpus]].book, e.book.policy)
    requires e.book.policy != l.epochs[l.heads[corpus]].book.policy
    ensures Inv(l.(heads := l.heads[corpus := next], chains := l.chains[corpus := l.chains[corpus] + [next]],
                   epochs := l.epochs[next := e]))
  {
    HeadSound(l, corpus);
    InheritSound(l.epochs[l.heads[corpus]].book, e.book.policy);
    HeadMoved(l.heads, l.chains, l.epochs, corpus, next, e, l.chains[corpus := l.chains[corpus] + [next]], l.epochs[next := e]);
    ReboundRows(l.log, l.states, l.roots, l.epochs, next, e);
  }

  // ----- every reachable ledger -----

  /** The invariant, kept folded for proofs that read only a part of it. */
  ghost predicate Sound(l: Ledger) {
    forall n: nat {:trigger Maps.Unfold(n)} :: Maps.Unfold(n) ==> Inv(l)
  }

  lemma SoundMeans(l: Ledger)
    requires Sound(l)
    ensures Inv(l)
  {
    assert Maps.Unfold(0);
  }

  lemma SoundChain(l: Ledger, corpus: Id)
    requires Sound(l) && corpus in l.heads
    ensures corpus in l.chains && ChainOf(l.epochs, corpus, l.chains[corpus])
    ensures l.heads[corpus] == l.chains[corpus][|l.chains[corpus]|-1]
  {
    SoundMeans(l);
  }

  lemma SoundEpoch(l: Ledger, id: Id)
    requires Sound(l) && id in l.epochs
    ensures l.epochs[id].book.id in l.heads && l.epochs[id].book.id in l.chains && id in l.chains[l.epochs[id].book.id]
  {
    SoundMeans(l);
  }

  lemma SoundWrite(l: Ledger, row: Row, b: Books, after: Books)
    requires Sound(l) && Placed(l, row, b)
    ensures row.epoch in l.epochs ==> row.corpus in l.heads && l.heads[row.corpus] == row.epoch && b.corpus == l.epochs[row.epoch].book
    ensures Write(l, row, b.corpus, after) ==
            l.(heads := l.heads[row.corpus := row.epoch],
               chains := if row.corpus in l.heads then l.chains else l.chains[row.corpus := [row.epoch]],
               epochs := Written(l.epochs, row, b.corpus, after.corpus),
               roots := l.roots[row.key.root := RootRow(row.epoch, after.root)],
               log := l.log + [row], states := l.states[row.id := Reserved])
    ensures row.corpus in l.chains ==> row.corpus in l.heads
  {
    SoundMeans(l);
    WriteEpoch(l, row, b, after);
  }

  lemma RecordKeepsInv(l: Ledger, a: Attempt)
    requires Inv(l)
    ensures Inv(Record(l, a))
  {
    if a.reservation in l.states {
      var states := l.states[a.reservation := if a.succeeded then Succeeded else FailedKnown];
      RowsKept(l.log, l.states, l.roots, l.epochs, states, l.roots, l.epochs);
      forall id <- states ensures exists row :: row in l.log && row.id == id {
        assert id in l.states;
      }
    }
  }

  lemma StepKeepsInv(l: Ledger, a: Action)
    requires Inv(l)
    ensures Inv(Step(l, a))
  {
    match a
    case DoReserve(c, freshEpoch, freshId) => ReserveKeepsInv(l, c, freshEpoch, freshId);
    case DoRebind(r, next) => RebindKeepsInv(l, r, next);
    case DoRecord(attempt) => RecordKeepsInv(l, attempt);
    case DoSeal(_, _) =>
    case Rollback =>
  }

  lemma {:induction false} StepsKeepInv(l: Ledger, actions: seq<Action>)
    requires Inv(l)
    ensures Inv(Steps(l, actions))
  {
    if actions != [] {
      StepsKeepInv(l, actions[..|actions|-1]);
      StepKeepsInv(Steps(l, actions[..|actions|-1]), actions[|actions|-1]);
    }
  }

  /** The ledger refines the enforcer: in every reachable state each root is the fold of its own
      committed reservations in commit order from an empty book, each epoch is the fold of the
      reservations bound to it from what it inherited, and the scope invariants hold. */
  lemma ReachableInv(l: Ledger)
    requires Reachable(l)
    ensures Inv(l)
    ensures forall root <- l.roots :: RootInvariant(l.roots[root].book) &&
              l.roots[root].book == FoldRoot(EmptyRoot(root, l.roots[root].book.level, l.roots[root].book.policy), EntriesOf(l.log, root))
    ensures forall id <- l.epochs :: CorpusInvariant(l.epochs[id].book) &&
              l.epochs[id].book == FoldCorpus(l.epochs[id].inherited, EntriesIn(l.log, id))
  {
    var actions :| Steps(EMPTY, actions) == l;
    StepsKeepInv(EMPTY, actions);
    assert Maps.Unfold(0);
    forall root <- l.roots ensures RootOk(root, l.roots[root].book, EntriesOf(l.log, root)) && RootInvariant(l.roots[root].book) {
    }
    forall id <- l.epochs ensures EpochOk(l.epochs[id], EntriesIn(l.log, id)) && CorpusInvariant(l.epochs[id].book) {
    }
  }
}
