/** The bound from the caller's payload to the wire: over every interleaving, what adapters are
    handed for a root was reserved for it, once, and so stays under the root's cap. */
module EndToEnd {
  import opened Basics
  import opened EgressContracts
  import opened Accounts
  import opened Acceptance
  import opened OrderIndependence
  import opened ScopeInvariants
  import opened CorpusInvariants
  import opened Enforcer
  import opened Ledger
  import opened LedgerInvariants
  import opened LedgerRuns
  import opened LedgerProperties
  import opened PostgresLedger
  import opened Transport
  import Maps

  // ----- what one payload discloses -----

  function Disclosed(xs: seq<Excerpt>, counter: Counter, m: Measure): int {
    if xs == [] then 0 else
      (if m == InTokens then counter.count(xs[0].quote) else xs[0].quoteBytes) + Disclosed(xs[1..], counter, m)
  }

  /** What an adapter gets with a payload, counted field by field. */
  function Handed(s: Sent, m: Measure): int {
    match s.call.p.request.payload
    case L1QueryPayload(_, _, excerpts) => Disclosed(excerpts, s.call.counter, m)
    case L1PlanPayload(_, _) => 0
    case L2DesignPayload(_, _, excerpts) => Disclosed(excerpts, s.call.counter, m)
    case L2ClaimPayload(_, _, _, excerpts) => Disclosed(excerpts, s.call.counter, m)
    case JudgePayload(gold) => Disclosed(gold, s.call.counter, m)
  }

  lemma {:induction false} DisclosedIsCharged(xs: seq<Excerpt>, facts: seq<Fact>, counter: Counter, cap: Cap, m: Measure)
    requires |xs| == |facts| && forall k :: 0 <= k < |xs| ==> PricedUnder(xs[k], facts[k], counter, cap)
    ensures Disclosed(xs, counter, m) == if m == InTokens then FactTokens(facts) else FactBytes(facts)
  {
    if xs != [] {
      assert PricedUnder(xs[0], facts[0], counter, cap);
      DisclosedIsCharged(xs[1..], facts[1..], counter, cap, m);
    }
  }

  lemma HandedIsCharged(s: Sent, m: Measure)
    requires Charged(s.call, s.row)
    ensures Handed(s, m) == Weight(s.row.entry, m)
  {
    var c := s.call;
    DerivedDiscloses(c.p.request, c.policy, c.counter, c.authorized);
    DerivedIsEntry(c.p.request, c.policy, c.counter, c.authorized);
    match c.p.request.payload
    case L1QueryPayload(_, _, excerpts) => DisclosedIsCharged(excerpts, c.p.disclosures, c.counter, c.policy.excerpt, m);
    case L1PlanPayload(_, _) =>
    case L2DesignPayload(_, _, excerpts) => DisclosedIsCharged(excerpts, c.p.disclosures, c.counter, c.policy.excerpt, m);
    case L2ClaimPayload(_, _, _, excerpts) => DisclosedIsCharged(excerpts, c.p.disclosures, c.counter, c.policy.excerpt, m);
    case JudgePayload(gold) => DisclosedIsCharged(gold, c.p.disclosures, c.counter, c.policy.excerpt, m);
  }

  // ----- sums over rows -----

  function HandedFor(wire: seq<Sent>, root: Id, m: Measure): int {
    if wire == [] then 0 else
      var n := |wire| - 1;
      HandedFor(wire[..n], root, m) + if wire[n].row.key.root == root then Handed(wire[n], m) else 0
  }

  function RowsOn(wire: seq<Sent>): seq<Row> {
    seq(|wire|, k requires 0 <= k < |wire| => wire[k].row)
  }

  function Weights(rows: seq<Row>, root: Id, m: Measure): map<Row, nat> {
    map row | row in rows && row.key.root == root :: Weight(row.entry, m)
  }

  ghost predicate AllDifferent(rows: seq<Row>) {
    forall i, j :: 0 <= i < j < |rows| ==> rows[i] != rows[j]
  }

  lemma WeightsSnoc(rows: seq<Row>, row: Row, root: Id, m: Measure)
    requires AllDifferent(rows + [row])
    ensures Maps.Sum(Weights(rows + [row], root, m)) ==
            Maps.Sum(Weights(rows, root, m)) + if row.key.root == root then Weight(row.entry, m) else 0
  {
    var more := rows + [row];
    assert forall r :: r in more <==> r in rows || r == row;
    forall r <- rows ensures r != row {
      var i :| 0 <= i < |rows| && rows[i] == r;
      assert more[i] != more[|rows|];
    }
    if row.key.root == root {
      assert Weights(more, root, m) == Weights(rows, root, m)[row := Weight(row.entry, m)];
      Maps.SumInsert(Weights(rows, root, m), row, Weight(row.entry, m));
    } else {
      assert Weights(more, root, m) == Weights(rows, root, m);
    }
  }

  function Batch(es: seq<Entry>, m: Measure): nat {
    if m == InTokens then BatchTokens(es) else BatchBytes(es)
  }

  lemma BatchSnoc(es: seq<Entry>, e: Entry, m: Measure)
    ensures Batch(es + [e], m) == Batch(es, m) + Weight(e, m)
  {
    assert (es + [e])[..|es|] == es;
  }

  lemma {:induction false} LogWeighs(log: seq<Row>, root: Id, m: Measure)
    requires AllDifferent(log)
    ensures Maps.Sum(Weights(log, root, m)) == Batch(EntriesOf(log, root), m)
  {
    if log == [] {
      assert Weights(log, root, m) == map[];
    } else {
      var n := |log| - 1;
      assert log == log[..n] + [log[n]];
      LogWeighs(log[..n], root, m);
      WeightsSnoc(log[..n], log[n], root, m);
      EntriesSnoc(log[..n], log[n], root);
      BatchSnoc(EntriesOf(log[..n], root), log[n].entry, m);
    }
  }

  lemma {:induction false} WireWeighs(wire: seq<Sent>, root: Id, m: Measure)
    requires forall k :: 0 <= k < |wire| ==> Charged(wire[k].call, wire[k].row)
    requires AllDifferent(RowsOn(wire))
    ensures Maps.Sum(Weights(RowsOn(wire), root, m)) == HandedFor(wire, root, m)
  {
    if wire == [] {
      assert Weights(RowsOn(wire), root, m) == map[];
    } else {
      var n := |wire| - 1;
      assert RowsOn(wire) == RowsOn(wire[..n]) + [wire[n].row];
      assert forall i :: 0 <= i < n ==> RowsOn(wire[..n])[i] == RowsOn(wire)[i];
      WireWeighs(wire[..n], root, m);
      WeightsSnoc(RowsOn(wire[..n]), wire[n].row, root, m);
      HandedIsCharged(wire[n], m);
    }
  }

  lemma WireInLog(l: Ledger, wire: seq<Sent>, root: Id, m: Measure)
    requires WireOk(l, wire) && AllDifferent(l.log)
    ensures HandedFor(wire, root, m) <= Batch(EntriesOf(l.log, root), m)
  {
    WireWeighs(wire, root, m);
    LogWeighs(l.log, root, m);
    Maps.SumMonotone(Weights(RowsOn(wire), root, m), Weights(l.log, root, m));
  }

  // ----- the theorem -----

  ghost predicate Occurs(s: System) {
    exists ms :: Moves(START, ms) == s
  }

  lemma StartSafe()
    ensures Safe(START)
  {
  }

  lemma RunSafe(s: System)
    requires Occurs(s)
    ensures Safe(s)
  {
    var ms :| Moves(START, ms) == s;
    StartSafe();
    MovesSafe(START, ms, s);
  }

  /** Each committed reservation is handed to an adapter at most once. */
  lemma SentOnce(s: System, i: nat, j: nat)
    requires Occurs(s) && i < |s.wire| && j < |s.wire| && s.wire[i].row.id == s.wire[j].row.id
    ensures i == j && s.wire[i].row in s.ledger.log
  {
    RunSafe(s);
    SoundLog(s.ledger);
    assert s.wire[i].row in s.ledger.log && s.wire[j].row in s.ledger.log;
    var a :| 0 <= a < |s.ledger.log| && s.ledger.log[a] == s.wire[i].row;
    var b :| 0 <= b < |s.ledger.log| && s.ledger.log[b] == s.wire[j].row;
    assert a == b;
  }

  /** What adapters were handed for a root, counted by each call's own counter and with
      repetition, is at most the root's committed transmitted totals, and those are at most
      its caps; a root nothing was reserved for was handed nothing. */
  lemma WireBound(s: System, root: Id)
    requires Occurs(s)
    ensures root !in s.ledger.roots ==> forall k :: 0 <= k < |s.wire| ==> s.wire[k].row.key.root != root
    ensures root in s.ledger.roots ==>
              var book := s.ledger.roots[root].book;
              var cap := if book.level == L1 then book.policy.l1RootTransmitted else book.policy.l2RootTransmitted;
              && HandedFor(s.wire, root, InTokens) <= Maps.Get(book.counters, SentTokens(FromRoot)) <= cap.tokens
              && HandedFor(s.wire, root, InBytes) <= Maps.Get(book.counters, SentBytes(FromRoot)) <= cap.bytes
  {
    RunSafe(s);
    SoundLog(s.ledger);
    WireInLog(s.ledger, s.wire, root, InTokens);
    WireInLog(s.ledger, s.wire, root, InBytes);
    if root in s.ledger.roots {
      RootAccounted(s.ledger, root);
    } else {
      forall k | 0 <= k < |s.wire| ensures s.wire[k].row.key.root != root {
        RowRooted(s.ledger, s.wire[k].row);
      }
    }
  }

  lemma RowRooted(l: Ledger, row: Row)
    requires Sound(l) && row in l.log
    ensures row.key.root in l.roots
  {
    SoundMeans(l);
    assert RowOk(row, l.states, l.roots, l.epochs);
  }

  /** A receipt means a succeeded attempt is recorded; any other exit after a hand-over has
      recorded a failed attempt or tried to seal the run; and an exit that claims nothing was
      sent is not a holder of any reservation on the wire. */
  lemma ExitsAccountedFor(s: System, client: Id)
    requires Occurs(s) && client in s.clients && s.clients[client].Done?
    ensures var p := s.clients[client];
            match p.result
            case Receipt => p.sent.Some? && OnWire(s.wire, p.sent.value) && Attempt(p.sent.value.id, true) in s.ledger.attempts
            case ProviderFailed => p.sent.Some? && OnWire(s.wire, p.sent.value) && Attempt(p.sent.value.id, false) in s.ledger.attempts
            case Raised => p.sent.Some? && (p.sent.value.key.root, p.sent.value.key.run) in s.sealTries
            case NotSent => p.sent.None?
  {
    RunSafe(s);
    ClientSafe(s, client);
    assert ExitOk(s.ledger, s.sealTries, s.clients[client]);
  }
}
