/** The nested usage snapshots the ledger stores, and what it means for one to represent
    the flat books. */
module Snapshots {
  import opened Basics
  import opened Sequences
  import opened EgressContracts
  import opened Accounts
  import opened OrderIndependence
  import opened ScopeInvariants
  import Maps

  datatype UniqueUsage = UniqueUsage(ids: seq<DisclosureId>, tokens: nat, bytes: nat)
  datatype RouteUsage = RouteUsage(route: Route, unique: UniqueUsage)
  datatype StageUsage = StageUsage(stage: Stage, tokens: nat, bytes: nat, transmissions: nat)
  datatype ClaimUsage = ClaimUsage(claim: Id, unique: UniqueUsage)
  datatype RunUsage = RunUsage(run: Id, unique: UniqueUsage, tokens: nat, bytes: nat, toc: nat, claims: seq<ClaimUsage>)
  datatype DocumentUsage = DocumentUsage(document: Id, unique: UniqueUsage)
  datatype CorpusUsage = CorpusUsage(corpus: Id, policy: Policy, unique: UniqueUsage, documents: seq<DocumentUsage>)
  datatype UsageSnapshot = UsageSnapshot(
    root: Id, level: TaskLevel, policy: Policy,
    disclosures: seq<Fact>, routes: seq<RouteUsage>, stages: seq<StageUsage>, runs: seq<RunUsage>,
    judge: UniqueUsage, judgeTokens: nat, judgeBytes: nat,
    uniqueTokens: nat, uniqueBytes: nat, sentTokens: nat, sentBytes: nat)

  const NOTHING := UniqueUsage([], 0, 0)

  ghost predicate SameIds(ids: seq<DisclosureId>, p: Priced) {
    Distinct(ids) && forall i :: i in ids <==> i in p
  }

  /** The stored account lists exactly the priced disclosures, once each, with their totals. */
  ghost predicate Holds(u: UniqueUsage, p: Priced) {
    SameIds(u.ids, p) && u.tokens == UniqueTokens(p) && u.bytes == UniqueBytes(p)
  }

  ghost predicate RoutesRepresent(us: seq<RouteUsage>, accounts: map<RootKey, Priced>) {
    && (forall i, j :: 0 <= i < j < |us| ==> us[i].route != us[j].route)
    && (forall u <- us :: RouteOf(u.route) in accounts && Holds(u.unique, At(accounts, RouteOf(u.route))))
    && (forall k <- accounts :: k.RouteOf? ==> exists u :: u in us && u.route == k.route)
  }

  ghost predicate ClaimsRepresent(us: seq<ClaimUsage>, run: Id, accounts: map<RootKey, Priced>) {
    && (forall i, j :: 0 <= i < j < |us| ==> us[i].claim != us[j].claim)
    && (forall u <- us :: ClaimOf(run, u.claim) in accounts && Holds(u.unique, At(accounts, ClaimOf(run, u.claim))))
    && (forall k <- accounts :: k.ClaimOf? && k.run == run ==> exists u :: u in us && u.claim == k.claim)
  }

  predicate StageRepresents(u: StageUsage, counters: map<CounterKey, nat>) {
    && u.tokens == Maps.Get(counters, SentTokens(FromStage(u.stage)))
    && u.bytes == Maps.Get(counters, SentBytes(FromStage(u.stage)))
    && u.transmissions == Maps.Get(counters, Sends(u.stage))
  }

  ghost predicate StagesRepresent(us: seq<StageUsage>, counters: map<CounterKey, nat>) {
    && (forall i, j :: 0 <= i < j < |us| ==> us[i].stage != us[j].stage)
    && (forall u <- us :: StageRepresents(u, counters))
    && (forall s: Stage :: (forall u <- us :: u.stage != s) ==>
          StageRepresents(StageUsage(s, 0, 0, 0), counters))
  }

  ghost predicate RunRepresents(u: RunUsage, b: RootBook) {
    && Holds(u.unique, At(b.accounts, RunOf(u.run)))
    && u.tokens == Maps.Get(b.counters, SentTokens(FromRun(u.run)))
    && u.bytes == Maps.Get(b.counters, SentBytes(FromRun(u.run)))
    && u.toc == Maps.Get(b.counters, TocNodes(u.run))
    && ClaimsRepresent(u.claims, u.run, b.accounts)
  }

  ghost predicate RunsRepresent(us: seq<RunUsage>, b: RootBook) {
    && (forall i, j :: 0 <= i < j < |us| ==> us[i].run != us[j].run)
    && (forall u <- us :: RunOf(u.run) in b.accounts && RunRepresents(u, b))
    && (forall run: Id :: (forall u <- us :: u.run != run) ==>
          RunOf(run) !in b.accounts && RunRepresents(RunUsage(run, NOTHING, 0, 0, 0, []), b))
  }

  function IdsOf(facts: seq<Fact>): seq<DisclosureId> {
    seq(|facts|, i requires 0 <= i < |facts| => facts[i].id)
  }

  ghost predicate JudgeRepresents(u: UsageSnapshot, b: RootBook) {
    && Holds(u.judge, At(b.accounts, Judge))
    && u.judgeTokens == Maps.Get(b.counters, SentTokens(FromJudge))
    && u.judgeBytes == Maps.Get(b.counters, SentBytes(FromJudge))
  }

  ghost predicate RootTotalsRepresent(u: UsageSnapshot, b: RootBook) {
    && Distinct(IdsOf(u.disclosures)) && Price(u.disclosures) == At(b.accounts, Root)
    && u.uniqueTokens == UniqueTokens(At(b.accounts, Root))
    && u.uniqueBytes == UniqueBytes(At(b.accounts, Root))
    && u.sentTokens == Maps.Get(b.counters, SentTokens(FromRoot))
    && u.sentBytes == Maps.Get(b.counters, SentBytes(FromRoot))
  }

  ghost predicate RootRepresents(u: UsageSnapshot, b: RootBook) {
    && u.root == b.id && u.level == b.level && u.policy == b.policy
    && RootTotalsRepresent(u, b)
    && RoutesRepresent(u.routes, b.accounts)
    && StagesRepresent(u.stages, b.counters)
    && RunsRepresent(u.runs, b)
    && JudgeRepresents(u, b)
  }

  ghost predicate DocumentsRepresent(us: seq<DocumentUsage>, accounts: map<CorpusKey, Priced>) {
    && (forall i, j :: 0 <= i < j < |us| ==> us[i].document < us[j].document)
    && (forall u <- us :: DocumentOf(u.document) in accounts && Holds(u.unique, At(accounts, DocumentOf(u.document))))
    && (forall k <- accounts :: k.DocumentOf? ==> exists u :: u in us && u.document == k.document)
  }

  ghost predicate CorpusRepresents(u: CorpusUsage, c: CorpusBook) {
    && u.corpus == c.id && u.policy == c.policy
    && Holds(u.unique, At(c.accounts, Whole))
    && DocumentsRepresent(u.documents, c.accounts)
  }

  // ----- counting distinct ids -----

  lemma DropLastId(ids: seq<DisclosureId>, p: Priced)
    requires SameIds(ids, p) && ids != []
    ensures var i := ids[|ids|-1]; i in p && SameIds(ids[..|ids|-1], p - {i}) && p == (p - {i})[i := p[i]]
  {
    var n := |ids| - 1;
    assert ids[n] in ids;
    forall i ensures i in ids[..n] <==> i in p - {ids[n]} {
      assert i in ids <==> i in ids[..n] || i == ids[n];
    }
  }

  lemma {:induction false} DistinctCount(ids: seq<DisclosureId>, p: Priced)
    requires SameIds(ids, p)
    ensures |ids| == |p|
    decreases |ids|
  {
    if ids == [] {
      assert p.Keys == {};
    } else {
      var n := |ids| - 1;
      DropLastId(ids, p);
      DistinctCount(ids[..n], p - {ids[n]});
      assert p.Keys == (p - {ids[n]}).Keys + {ids[n]};
    }
  }

  function SizeSums(ids: seq<DisclosureId>, sizes: Priced): (nat, nat)
    requires forall i <- ids :: i in sizes
  {
    if ids == [] then (0, 0) else
      var n := |ids| - 1;
      var rest := SizeSums(ids[..n], sizes);
      (rest.0 + sizes[ids[n]].tokens, rest.1 + sizes[ids[n]].bytes)
  }

  lemma AddOne(p: Priced, i: DisclosureId, s: Size)
    requires i !in p
    ensures UniqueTokens(p[i := s]) == UniqueTokens(p) + s.tokens
    ensures UniqueBytes(p[i := s]) == UniqueBytes(p) + s.bytes
  {
    Maps.SumInsert(TokenMap(p), i, s.tokens);
    Maps.SumInsert(ByteMap(p), i, s.bytes);
    assert TokenMap(p[i := s]) == TokenMap(p)[i := s.tokens as nat];
    assert ByteMap(p[i := s]) == ByteMap(p)[i := s.bytes as nat];
  }

  /** Adding up the sizes of a distinct list is the total of the account it lists. */
  lemma {:induction false} SizeSumsAreTotals(ids: seq<DisclosureId>, p: Priced, sizes: Priced)
    requires SameIds(ids, p) && SubMap(p, sizes)
    requires forall i <- ids :: i in sizes
    ensures SizeSums(ids, sizes).0 == UniqueTokens(p) && SizeSums(ids, sizes).1 == UniqueBytes(p)
    decreases |ids|
  {
    if ids == [] {
      assert p == map[];
      EmptySize();
    } else {
      var n := |ids| - 1;
      var i, q := ids[n], p - {ids[n]};
      DropLastId(ids, p);
      assert forall j <- ids[..n] :: j in sizes;
      SizeSumsAreTotals(ids[..n], q, sizes);
      AddOne(q, i, p[i]);
      assert q[i := p[i]] == p;
    }
  }

  // ----- charging adds the ids in order -----

  lemma {:induction false} PriceSnoc(xs: seq<Fact>, f: Fact)
    ensures Price(xs + [f]) == if f.id in Price(xs) then Price(xs) else Price(xs)[f.id := f.size]
  {
    if xs == [] {
      assert [f][1..] == [];
    } else {
      PriceSnoc(xs[1..], f);
      assert (xs + [f])[1..] == xs[1..] + [f];
    }
  }

  /** One more fact changes a charged account only if it was not there yet. */
  lemma OverlaySnoc(xs: seq<Fact>, f: Fact, p: Priced)
    ensures var sofar := Price(xs) + p;
            Price(xs + [f]) + p == if f.id in sofar then sofar else sofar[f.id := f.size]
  {
    PriceSnoc(xs, f);
  }

  /** Charging an account lists the union of the ids. */
  lemma UnionLists(ids: seq<DisclosureId>, p: Priced, facts: seq<Fact>)
    requires SameIds(ids, p)
    ensures SameIds(Union(ids, IdsOf(facts)), Price(facts) + p)
  {
    UnionProperties(ids, IdsOf(facts));
    PriceIsFirstSize(facts);
    forall i ensures i in IdsOf(facts) <==> i in Price(facts) {
      if i in IdsOf(facts) {
        var j :| 0 <= j < |facts| && facts[j].id == i;
        assert facts[j] in facts;
      }
      if i in Price(facts) {
        var f :| f in facts && f.id == i;
        var j :| 0 <= j < |facts| && facts[j] == f;
        assert IdsOf(facts)[j] == i;
      }
    }
  }
}
