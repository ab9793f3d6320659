/** The tables of the ledger database, and what it means for them to hold an abstract ledger. */
module LedgerTables {
  import opened Basics
  import opened EgressContracts
  import opened Accounts
  import opened Snapshots
  import opened Enforcer
  import opened Ledger
  import opened LedgerInvariants
  import opened LedgerRuns
  import Maps

  /** The usage snapshot and the columns kept beside it. */
  datatype EpochRow = EpochRow(
    corpus: Id, policy: Policy, usage: CorpusUsage, excerpts: nat, tokens: nat, bytes: nat, predecessor: Option<Id>)
  datatype RootTableRow = RootTableRow(policy: Policy, level: TaskLevel, corpus: Id, epoch: Id, usage: Option<UsageSnapshot>)
  datatype ReservationRow = ReservationRow(
    key: Key, corpus: Id, epoch: Id, stage: Stage, route: Route, model: Id, state: ReservationState)

  datatype Tables = Tables(
    heads: map<Id, Option<Id>>, epochs: map<Id, EpochRow>, roots: map<Id, RootTableRow>,
    reservations: map<Id, ReservationRow>, seals: set<(Id, Id)>, attempts: seq<Attempt>)

  function EpochRowOf(u: CorpusUsage, predecessor: Option<Id>): EpochRow {
    EpochRow(u.corpus, u.policy, u, |u.unique.ids|, u.unique.tokens, u.unique.bytes, predecessor)
  }

  /** The snapshot of a row when it agrees with the requested corpus and with every column. */
  function Reconciled(corpus: Id, row: EpochRow): Option<CorpusUsage> {
    if row.corpus != corpus || row.usage.corpus != corpus || row.policy != row.usage.policy
       || row.excerpts != |row.usage.unique.ids| || row.tokens != row.usage.unique.tokens || row.bytes != row.usage.unique.bytes
    then None else Some(row.usage)
  }

  /** A row is taken exactly when its corpus, its policy and its three counts are those of its own
      snapshot, and the corpus is the one asked for. */
  lemma ReconciledExactly(corpus: Id, row: EpochRow)
    ensures Reconciled(corpus, row) == Some(row.usage) <==>
            row == EpochRow(corpus, row.usage.policy, row.usage, |row.usage.unique.ids|, row.usage.unique.tokens, row.usage.unique.bytes, row.predecessor)
            && row.usage.corpus == corpus
    ensures Reconciled(corpus, row).Some? ==> Reconciled(corpus, row).value == row.usage
    ensures EpochRowOf(row.usage, row.predecessor).usage == row.usage && EpochRowOf(row.usage, row.predecessor).predecessor == row.predecessor
    ensures Reconciled(row.usage.corpus, EpochRowOf(row.usage, row.predecessor)) == Some(row.usage)
  {
  }

  ghost predicate EpochMatches(row: EpochRow, e: Epoch) {
    row == EpochRowOf(row.usage, e.predecessor) && CorpusRepresents(row.usage, e.book)
  }

  ghost predicate RootMatches(row: RootTableRow, r: RootRow) {
    && row.policy == r.book.policy && row.level == r.book.level && row.epoch == r.epoch
    && row.usage.Some? && RootRepresents(row.usage.value, r.book)
  }

  ghost predicate HoldsEpoch(row: EpochRow, e: Epoch) {
    forall n: nat {:trigger Maps.Unfold(n)} :: Maps.Unfold(n) ==> EpochMatches(row, e)
  }

  ghost predicate HoldsRoot(row: RootTableRow, r: RootRow) {
    forall n: nat {:trigger Maps.Unfold(n)} :: Maps.Unfold(n) ==> RootMatches(row, r)
  }

  predicate HoldsRow(r: ReservationRow, row: Row, state: ReservationState) {
    r.key == row.key && r.corpus == row.corpus && r.epoch == row.epoch && r.state == state
    && r.stage == row.entry.stage && r.route == row.entry.route
  }

  predicate HeadsMatch(heads: map<Id, Option<Id>>, held: map<Id, Id>) {
    heads.Keys == held.Keys && forall c <- heads :: heads[c] == Some(held[c])
  }

  ghost predicate EpochsMatch(epochs: map<Id, EpochRow>, held: map<Id, Epoch>) {
    epochs.Keys == held.Keys && forall id <- epochs :: HoldsEpoch(epochs[id], held[id])
  }

  ghost predicate RootsMatch(roots: map<Id, RootTableRow>, held: map<Id, RootRow>) {
    roots.Keys == held.Keys && forall id <- roots :: HoldsRoot(roots[id], held[id])
  }

  predicate ReservationsMatch(reservations: map<Id, ReservationRow>, log: seq<Row>, states: map<Id, ReservationState>) {
    && reservations.Keys == states.Keys
    && forall row <- log :: row.id in reservations && HoldsRow(reservations[row.id], row, states[row.id])
  }

  ghost predicate Matches(t: Tables, l: Ledger) {
    && HeadsMatch(t.heads, l.heads)
    && EpochsMatch(t.epochs, l.epochs)
    && RootsMatch(t.roots, l.roots)
    && ReservationsMatch(t.reservations, l.log, l.states)
    && t.seals == l.seals && t.attempts == l.attempts
  }

  /** The tables hold a sound ledger, kept folded. */
  ghost predicate Mirrors(t: Tables, l: Ledger) {
    forall n: nat {:trigger Maps.Unfold(n)} :: Maps.Unfold(n) ==> Matches(t, l) && Sound(l)
  }

  lemma MirrorsMeans(t: Tables, l: Ledger)
    requires Mirrors(t, l)
    ensures Matches(t, l) && Sound(l)
  {
    assert Maps.Unfold(0);
  }

  lemma MatchesMirrors(t: Tables, l: Ledger)
    requires Matches(t, l) && Sound(l)
    ensures Mirrors(t, l)
  {
  }

  lemma EpochHeld(t: Tables, l: Ledger, id: Id)
    requires Matches(t, l) && id in l.epochs
    ensures id in t.epochs && CorpusRepresents(t.epochs[id].usage, l.epochs[id].book)
    ensures t.epochs[id] == EpochRowOf(t.epochs[id].usage, l.epochs[id].predecessor)
  {
    assert HoldsEpoch(t.epochs[id], l.epochs[id]);
    assert Maps.Unfold(0);
  }

  /** The integrity check passes on every epoch row the ledger wrote: its columns always agree
      with its snapshot, under the corpus it was written for and no other. */
  lemma ReconciledAlways(t: Tables, l: Ledger, id: Id, corpus: Id)
    requires Matches(t, l) && id in l.epochs
    ensures id in t.epochs && CorpusRepresents(t.epochs[id].usage, l.epochs[id].book)
    ensures Reconciled(corpus, t.epochs[id]) == if corpus == l.epochs[id].book.id then Some(t.epochs[id].usage) else None
  {
    EpochHeld(t, l, id);
  }

  /** A head and its predecessor are epochs of the head's own corpus. */
  lemma HeadEpochs(l: Ledger, corpus: Id)
    requires Sound(l) && corpus in l.heads
    ensures l.heads[corpus] in l.epochs && l.epochs[l.heads[corpus]].book.id == corpus
    ensures var p := l.epochs[l.heads[corpus]].predecessor;
            p.Some? ==> p.value in l.epochs && l.epochs[p.value].book.id == corpus
  {
    SoundChain(l, corpus);
    var chain := l.chains[corpus];
    if |chain| > 1 {
      assert Succeeds(l.epochs[chain[|chain| - 1]], chain[|chain| - 2], l.epochs[chain[|chain| - 2]]);
    }
  }

  lemma RootHeld(t: Tables, l: Ledger, root: Id)
    requires Matches(t, l) && root in l.roots
    ensures root in t.roots && t.roots[root].epoch == l.roots[root].epoch
    ensures t.roots[root].usage.Some? && RootRepresents(t.roots[root].usage.value, l.roots[root].book)
  {
    assert HoldsRoot(t.roots[root], l.roots[root]);
    assert Maps.Unfold(0);
  }

  lemma SameId(log: seq<Row>, states: map<Id, ReservationState>, a: Row, b: Row)
    requires LogOk(log, states) && a in log && b in log && (a.id == b.id || a.key == b.key)
    ensures a == b
  {
    var i :| 0 <= i < |log| && log[i] == a;
    var j :| 0 <= j < |log| && log[j] == b;
    assert i == j;
  }

  lemma KeyInTable(reservations: map<Id, ReservationRow>, log: seq<Row>, states: map<Id, ReservationState>, key: Key, id: Id)
    requires ReservationsMatch(reservations, log, states) && LogOk(log, states)
    requires id in reservations && reservations[id].key == key
    ensures RowWith(log, key).Some? && RowWith(log, key).value.id == id
  {
    var row :| row in log && row.id == id;
    RowWithFinds(log, key);
    SameId(log, states, row, RowWith(log, key).value);
  }

  lemma KeyNotInTable(reservations: map<Id, ReservationRow>, log: seq<Row>, states: map<Id, ReservationState>, key: Key)
    requires ReservationsMatch(reservations, log, states) && forall id <- reservations :: reservations[id].key != key
    ensures RowWith(log, key).None?
  {
    RowWithFinds(log, key);
  }

  /** A stored reservation found under the locks always belongs to the locked epoch and its
      corpus, and its root has a snapshot: the integrity check on replays passes. */
  lemma ReplayAgrees(t: Tables, l: Ledger, c: Call, freshEpoch: Id)
    requires Matches(t, l) && Sound(l) && RowWith(l.log, c.KeyOf()).Some?
    requires c.Root() in l.roots ==> l.roots[c.Root()].epoch == EpochFor(l, c, freshEpoch)
    requires c.Corpus() !in l.heads ==> freshEpoch !in l.epochs
    ensures c.Root() in l.roots
    ensures var row := RowWith(l.log, c.KeyOf()).value;
            && row.id in t.reservations && HoldsRow(t.reservations[row.id], row, l.states[row.id])
            && row.corpus == c.Corpus() && row.epoch == EpochFor(l, c, freshEpoch)
  {
    SoundMeans(l);
    RowWithFinds(l.log, c.KeyOf());
    var row := RowWith(l.log, c.KeyOf()).value;
    assert RowOk(row, l.states, l.roots, l.epochs);
    if c.Corpus() in l.heads {
      SoundChain(l, c.Corpus());
    }
  }

  // ----- the write of one granted reservation -----

  function TableWrite(t: Tables, row: Row, call: Call, u: UsageSnapshot, c: CorpusUsage): Tables {
    var predecessor := if row.epoch in t.epochs then t.epochs[row.epoch].predecessor else None;
    t.(heads := t.heads[row.corpus := Some(row.epoch)],
       epochs := t.epochs[row.epoch := EpochRowOf(c, predecessor)],
       roots := t.roots[row.key.root := RootTableRow(row.key.policy, u.level, row.corpus, row.epoch, Some(u))],
       reservations := t.reservations[row.id :=
         ReservationRow(row.key, row.corpus, row.epoch, call.p.request.stage, call.p.request.route, call.p.request.model, Reserved)])
  }

  lemma EpochWritten(epochs: map<Id, EpochRow>, before: map<Id, Epoch>, row: Row, found: CorpusBook, book: CorpusBook, c: CorpusUsage)
    requires EpochsMatch(epochs, before) && CorpusRepresents(c, book)
    ensures var predecessor := if row.epoch in epochs then epochs[row.epoch].predecessor else None;
            EpochsMatch(epochs[row.epoch := EpochRowOf(c, predecessor)], Written(before, row, found, book))
  {
    if row.epoch in epochs {
      assert HoldsEpoch(epochs[row.epoch], before[row.epoch]);
      SamePredecessor(epochs[row.epoch], before[row.epoch]);
    }
    var predecessor := if row.epoch in epochs then epochs[row.epoch].predecessor else None;
    assert HoldsEpoch(EpochRowOf(c, predecessor), Written(before, row, found, book)[row.epoch]);
  }

  lemma SamePredecessor(row: EpochRow, e: Epoch)
    requires HoldsEpoch(row, e)
    ensures row.predecessor == e.predecessor
  {
    assert Maps.Unfold(0);
  }

  lemma RootWritten(roots: map<Id, RootTableRow>, before: map<Id, RootRow>, row: Row, book: RootBook, u: UsageSnapshot)
    requires RootsMatch(roots, before) && RootRepresents(u, book) && row.key.policy == book.policy
    ensures RootsMatch(roots[row.key.root := RootTableRow(row.key.policy, u.level, row.corpus, row.epoch, Some(u))],
                       before[row.key.root := RootRow(row.epoch, book)])
  {
    assert HoldsRoot(RootTableRow(row.key.policy, u.level, row.corpus, row.epoch, Some(u)), RootRow(row.epoch, book));
  }

  lemma ReservationWritten(reservations: map<Id, ReservationRow>, log: seq<Row>, states: map<Id, ReservationState>, row: Row, r: ReservationRow)
    requires ReservationsMatch(reservations, log, states) && row.id !in states && HoldsRow(r, row, Reserved)
    ensures ReservationsMatch(reservations[row.id := r], log + [row], states[row.id := Reserved])
  {
  }

  lemma HeadWritten(heads: map<Id, Option<Id>>, held: map<Id, Id>, corpus: Id, epoch: Id)
    requires HeadsMatch(heads, held)
    ensures HeadsMatch(heads[corpus := Some(epoch)], held[corpus := epoch])
  {
  }

  lemma WriteMatches(t: Tables, l: Ledger, row: Row, call: Call, found: CorpusBook, after: Books,
                     u: UsageSnapshot, c: CorpusUsage, m: Ledger, t': Tables)
    requires Matches(t, l) && row.id !in l.states && after.root.policy == row.key.policy
    requires call.p.request.stage == row.entry.stage && call.p.request.route == row.entry.route
    requires m.heads == l.heads[row.corpus := row.epoch] && m.epochs == Written(l.epochs, row, found, after.corpus)
    requires m.roots == l.roots[row.key.root := RootRow(row.epoch, after.root)]
    requires m.log == l.log + [row] && m.states == l.states[row.id := Reserved]
    requires m.seals == l.seals && m.attempts == l.attempts
    requires RootRepresents(u, after.root) && CorpusRepresents(c, after.corpus) && t' == TableWrite(t, row, call, u, c)
    ensures Matches(t', m)
  {
    HeadWritten(t.heads, l.heads, row.corpus, row.epoch);
    EpochWritten(t.epochs, l.epochs, row, found, after.corpus, c);
    RootWritten(t.roots, l.roots, row, after.root, u);
    var r := ReservationRow(row.key, row.corpus, row.epoch, call.p.request.stage, call.p.request.route, call.p.request.model, Reserved);
    ReservationWritten(t.reservations, l.log, l.states, row, r);
  }

  // ----- a rebound head -----

  /** The usage an epoch row represents, from the head's chain position. */
  lemma TotalsHeld(u: CorpusUsage, c: CorpusBook)
    requires CorpusRepresents(u, c)
    ensures |u.unique.ids| == |At(c.accounts, Whole)| && u.unique.tokens == UniqueTokens(At(c.accounts, Whole))
    ensures u.unique.bytes == UniqueBytes(At(c.accounts, Whole))
  {
    DistinctCount(u.unique.ids, At(c.accounts, Whole));
  }

  function SuccessorUsage(u: CorpusUsage, policy: Policy): CorpusUsage {
    u.(policy := policy)
  }

  function TableRebind(t: Tables, corpus: Id, head: Id, next: Id, u: CorpusUsage): Tables {
    t.(heads := t.heads[corpus := Some(next)], epochs := t.epochs[next := EpochRowOf(u, Some(head))])
  }

  lemma RebindMatches(t: Tables, l: Ledger, corpus: Id, head: Id, next: Id, policy: Policy, m: Ledger)
    requires Matches(t, l) && head in l.epochs && head in t.epochs && next !in l.epochs
    requires var book := Inherit(l.epochs[head].book, policy);
             m == l.(heads := l.heads[corpus := next], chains := m.chains, epochs := l.epochs[next := Epoch(Some(head), book, book)])
    ensures Matches(TableRebind(t, corpus, head, next, SuccessorUsage(t.epochs[head].usage, policy)), m)
  {
    EpochHeld(t, l, head);
    var u := SuccessorUsage(t.epochs[head].usage, policy);
    Successor(t.epochs[head].usage, l.epochs[head].book, policy, head);
    assert HoldsEpoch(EpochRowOf(u, Some(head)), m.epochs[next]);
  }

  lemma Successor(u: CorpusUsage, c: CorpusBook, policy: Policy, head: Id)
    requires CorpusRepresents(u, c)
    ensures HoldsEpoch(EpochRowOf(SuccessorUsage(u, policy), Some(head)), Epoch(Some(head), Inherit(c, policy), Inherit(c, policy)))
  {
  }

  // ----- attempts -----

  function TableRecord(t: Tables, a: Attempt): Tables {
    if a.reservation !in t.reservations then t else
      var state := if a.succeeded then Succeeded else FailedKnown;
      t.(attempts := t.attempts + [a],
         reservations := t.reservations[a.reservation := t.reservations[a.reservation].(state := state)])
  }

  lemma RecordMatches(t: Tables, l: Ledger, a: Attempt, t': Tables, l': Ledger)
    requires Matches(t, l) && t' == TableRecord(t, a) && l' == Record(l, a)
    ensures Matches(t', l')
    ensures a.reservation in t.reservations <==> a.reservation in l.states
  {
    if a.reservation in l.states {
      ReservationMoved(t.reservations, l.log, l.states, a.reservation, if a.succeeded then Succeeded else FailedKnown);
    }
  }

  lemma RecordSound(l: Ledger, a: Attempt, l': Ledger)
    requires Sound(l) && l' == Record(l, a)
    ensures Sound(l')
  {
    SoundMeans(l);
    RecordKeepsInv(l, a);
  }

  lemma RecordMirrors(t: Tables, l: Ledger, a: Attempt, t': Tables, l': Ledger)
    requires Mirrors(t, l) && t' == TableRecord(t, a) && l' == Record(l, a)
    ensures Mirrors(t', l')
    ensures a.reservation in t.reservations <==> a.reservation in l.states
  {
    MirrorsMeans(t, l);
    RecordMatches(t, l, a, t', l');
    RecordSound(l, a, l');
    MatchesMirrors(t', l');
  }

  lemma ReservationMoved(reservations: map<Id, ReservationRow>, log: seq<Row>, states: map<Id, ReservationState>, id: Id, state: ReservationState)
    requires ReservationsMatch(reservations, log, states) && id in states
    ensures ReservationsMatch(reservations[id := reservations[id].(state := state)], log, states[id := state])
  {
  }
}
