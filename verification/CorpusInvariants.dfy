/** The corpus account against its documents, and whole reachable books. */
module CorpusInvariants {
  import opened Basics
  import opened EgressContracts
  import opened Accounts
  import opened Acceptance
  import opened OrderIndependence
  import opened ScopeInvariants
  import Maps

  ghost function Unique(p: Priced, m: Measure): nat {
    if m == InTokens then UniqueTokens(p) else UniqueBytes(p)
  }

  /** What an overlay adds is exactly the new disclosures at their own sizes. */
  lemma OverlaySplit(p: Priced, a: Priced, m: Measure)
    ensures Unique(p + a, m) == Unique(a, m) + Unique(p - a.Keys, m)
  {
    var added := p - a.Keys;
    if m == InTokens {
      SplitTokens(p, a);
      Maps.SumPlus(TokenMap(a), TokenMap(added));
    } else {
      SplitBytes(p, a);
      Maps.SumPlus(ByteMap(a), ByteMap(added));
    }
  }

  lemma SplitTokens(p: Priced, a: Priced)
    ensures TokenMap(p + a) == Maps.Plus(TokenMap(a), TokenMap(p - a.Keys))
  {
  }

  lemma SplitBytes(p: Priced, a: Priced)
    ensures ByteMap(p + a) == Maps.Plus(ByteMap(a), ByteMap(p - a.Keys))
  {
  }

  ghost function DocumentTotals(c: CorpusBook, m: Measure): map<CorpusKey, nat> {
    map k | k in c.accounts && k.DocumentOf? :: Unique(c.accounts[k], m)
  }

  predicate DisjointDocuments(c: CorpusBook) {
    forall j, k :: j in c.accounts && k in c.accounts && j.DocumentOf? && k.DocumentOf? && j != k ==>
      c.accounts[j].Keys !! c.accounts[k].Keys
  }

  /** The documents' ids are together the corpus ids. */
  predicate Covered(c: CorpusBook) {
    && Whole in c.accounts
    && (forall k <- c.accounts :: c.accounts[k].Keys <= c.accounts[Whole].Keys)
    && (forall i <- c.accounts[Whole] :: exists k :: k in c.accounts && k.DocumentOf? && i in c.accounts[k])
  }

  ghost predicate Shares(c: CorpusBook, m: Measure) {
    && Whole in c.accounts
    && Unique(c.accounts[Whole], m) <= Maps.Sum(DocumentTotals(c, m))
    && (DisjointDocuments(c) ==> Unique(c.accounts[Whole], m) == Maps.Sum(DocumentTotals(c, m)))
  }

  /** A document is charged for a disclosure it has not seen even when the corpus has, so
      the documents' totals reach at least the corpus total, and exactly it when no
      disclosure belongs to two documents. */
  ghost predicate CorpusInvariant(c: CorpusBook) {
    Covered(c) && Shares(c, InTokens) && Shares(c, InBytes)
  }

  lemma EmptyCorpusInvariant(id: Id, policy: Policy)
    ensures CorpusInvariant(EmptyCorpus(id, policy))
  {
    EmptySize();
    forall m: Measure ensures Shares(EmptyCorpus(id, policy), m) {
      assert DocumentTotals(EmptyCorpus(id, policy), m) == map[];
    }
  }

  lemma CoveredByPost(c: CorpusBook, e: Entry)
    requires Covered(c)
    ensures Covered(PostCorpus(c, e))
  {
    var after := PostCorpus(c, e);
    var p, t := Price(e.facts), CorpusTouch(e);
    forall k <- after.accounts ensures At(after.accounts, k).Keys <= At(after.accounts, Whole).Keys {
      ChargeAt(c.accounts, t, p, k);
      ChargeAt(c.accounts, t, p, Whole);
    }
    forall i <- after.accounts[Whole] ensures exists k :: k in after.accounts && k.DocumentOf? && i in after.accounts[k] {
      ChargeAt(c.accounts, t, p, Whole);
      var k := DocumentOf(e.document);
      if i !in p {
        k :| k in c.accounts && k.DocumentOf? && i in c.accounts[k];
      }
      ChargeAt(c.accounts, t, p, k);
      assert i in At(after.accounts, k);
    }
  }

  lemma DocumentTotalsByPost(c: CorpusBook, e: Entry, m: Measure)
    ensures var k := DocumentOf(e.document);
            DocumentTotals(PostCorpus(c, e), m) == DocumentTotals(c, m)[k := Unique(At(PostCorpus(c, e).accounts, k), m)]
  {
    var after := PostCorpus(c, e);
    forall k <- after.accounts ensures k != Whole && k != DocumentOf(e.document) ==> k in c.accounts && after.accounts[k] == c.accounts[k] {
    }
  }

  lemma GrowsByPost(c: CorpusBook, e: Entry, k: CorpusKey)
    requires k in c.accounts
    ensures k in PostCorpus(c, e).accounts && c.accounts[k].Keys <= PostCorpus(c, e).accounts[k].Keys
  {
    ChargeAt(c.accounts, CorpusTouch(e), Price(e.facts), k);
  }

  lemma DisjointBefore(c: CorpusBook, e: Entry)
    requires DisjointDocuments(PostCorpus(c, e))
    ensures DisjointDocuments(c)
  {
    forall j, k | j in c.accounts && k in c.accounts && j.DocumentOf? && k.DocumentOf? && j != k
      ensures c.accounts[j].Keys !! c.accounts[k].Keys {
      GrowsByPost(c, e, j);
      GrowsByPost(c, e, k);
    }
  }

  /** When documents stay disjoint, what is new to the corpus is what is new to the document. */
  lemma NewToBoth(c: CorpusBook, e: Entry, i: DisclosureId)
    requires Covered(c) && DisjointDocuments(PostCorpus(c, e))
    requires i in Price(e.facts) && i in c.accounts[Whole]
    ensures i in At(c.accounts, DocumentOf(e.document))
  {
    var own := DocumentOf(e.document);
    var k :| k in c.accounts && k.DocumentOf? && i in c.accounts[k];
    GrowsByPost(c, e, k);
    ChargeAt(c.accounts, CorpusTouch(e), Price(e.facts), own);
    assert i in At(PostCorpus(c, e).accounts, own);
  }

  function NewTo(c: CorpusBook, e: Entry, k: CorpusKey): Priced {
    Price(e.facts) - At(c.accounts, k).Keys
  }

  lemma GrowthOf(c: CorpusBook, e: Entry, k: CorpusKey, m: Measure)
    requires k in CorpusTouch(e)
    ensures Unique(At(PostCorpus(c, e).accounts, k), m) == Unique(At(c.accounts, k), m) + Unique(NewTo(c, e, k), m)
  {
    ChargeAt(c.accounts, CorpusTouch(e), Price(e.facts), k);
    OverlaySplit(Price(e.facts), At(c.accounts, k), m);
  }

  lemma DocumentsGrow(c: CorpusBook, e: Entry, m: Measure)
    ensures Maps.Sum(DocumentTotals(PostCorpus(c, e), m)) ==
            Maps.Sum(DocumentTotals(c, m)) + Unique(NewTo(c, e, DocumentOf(e.document)), m)
  {
    var own := DocumentOf(e.document);
    GrowthOf(c, e, own, m);
    DocumentTotalsByPost(c, e, m);
    Maps.SumUpdate(DocumentTotals(c, m), own, Unique(At(PostCorpus(c, e).accounts, own), m));
    EmptySize();
  }

  lemma NewToCorpusIsNewToDocument(c: CorpusBook, e: Entry)
    requires Covered(c) && DisjointDocuments(PostCorpus(c, e))
    ensures NewTo(c, e, Whole) == NewTo(c, e, DocumentOf(e.document))
  {
    forall i | i in Price(e.facts) && i in c.accounts[Whole] {
      NewToBoth(c, e, i);
    }
  }

  lemma SharesByPost(c: CorpusBook, e: Entry, m: Measure)
    requires Covered(c) && Shares(c, m)
    ensures Shares(PostCorpus(c, e), m)
  {
    GrowthOf(c, e, Whole, m);
    DocumentsGrow(c, e, m);
    SubMapSizes(NewTo(c, e, Whole), NewTo(c, e, DocumentOf(e.document)));
    if DisjointDocuments(PostCorpus(c, e)) {
      DisjointBefore(c, e);
      NewToCorpusIsNewToDocument(c, e);
    }
  }

  /** The corpus invariant survives every posting, accepted or not. */
  lemma CorpusInvariantByPost(c: CorpusBook, e: Entry)
    requires CorpusInvariant(c)
    ensures CorpusInvariant(PostCorpus(c, e))
  {
    CoveredByPost(c, e);
    SharesByPost(c, e, InTokens);
    SharesByPost(c, e, InBytes);
  }

  // ----- whole batches -----

  function BatchTokens(es: seq<Entry>): nat {
    if es == [] then 0 else BatchTokens(es[..|es|-1]) + FactTokens(es[|es|-1].facts)
  }

  function BatchBytes(es: seq<Entry>): nat {
    if es == [] then 0 else BatchBytes(es[..|es|-1]) + FactBytes(es[|es|-1].facts)
  }

  /** How many entries of the batch carry any excerpt. */
  function Carrying(es: seq<Entry>): nat {
    if es == [] then 0 else Carrying(es[..|es|-1]) + if es[|es|-1].facts == [] then 0 else 1
  }

  lemma {:induction false} CarryingWeighs(es: seq<Entry>)
    ensures Carrying(es) <= BatchTokens(es)
  {
    if es != [] {
      CarryingWeighs(es[..|es|-1]);
    }
  }

  lemma {:induction false} BatchCounters(b: Books, es: seq<Entry>)
    ensures var before, after := b.root.counters, Run(b, es).root.counters;
            && FamilySum(after, SendCounts) == FamilySum(before, SendCounts) + |es|
            && Maps.Get(after, SentTokens(FromRoot)) == Maps.Get(before, SentTokens(FromRoot)) + BatchTokens(es)
            && Maps.Get(after, SentBytes(FromRoot)) == Maps.Get(before, SentBytes(FromRoot)) + BatchBytes(es)
  {
    if es != [] {
      var n := |es| - 1;
      BatchCounters(b, es[..n]);
      var mid := Run(b, es[..n]).root.counters;
      IncrementSends(es[n]);
      FamilySumPlus(mid, Increments(es[n]), SendCounts);
      PlusAt(mid, Increments(es[n]), SentTokens(FromRoot));
      PlusAt(mid, Increments(es[n]), SentBytes(FromRoot));
    }
  }

  lemma {:induction false} AcceptedKeepsInvariants(b: Books, es: seq<Entry>)
    requires RootInvariant(b.root) && CorpusInvariant(b.corpus) && AllAccepted(b, es)
    ensures RootInvariant(Run(b, es).root) && CorpusInvariant(Run(b, es).corpus)
  {
    if es != [] {
      var n := |es| - 1;
      AcceptedKeepsInvariants(b, es[..n]);
      RunGrows(b, es[..n]);
      RootInvariantByPost(Run(b, es[..n]), es[n]);
      CorpusInvariantByPost(Run(b, es[..n]).corpus, es[n]);
    }
  }

  lemma SentUnderCap(b: RootBook)
    requires AllWithin(b)
    ensures Maps.Get(b.counters, SentTokens(FromRoot)) <= SenderCap(b.policy, b.level, FromRoot).value.tokens
    ensures Maps.Get(b.counters, SentBytes(FromRoot)) <= SenderCap(b.policy, b.level, FromRoot).value.bytes
  {
    assert SentTokens(FromRoot) in b.counters.Keys ==>
        Under(Maps.Get(b.counters, SentTokens(FromRoot)), CounterCap(b.policy, b.level, SentTokens(FromRoot)));
    assert SentBytes(FromRoot) in b.counters.Keys ==>
        Under(Maps.Get(b.counters, SentBytes(FromRoot)), CounterCap(b.policy, b.level, SentBytes(FromRoot)));
  }

  /** What a root's counters amount to after a batch that started it. */
  ghost predicate Accounted(end: RootBook, es: seq<Entry>) {
    && FamilySum(end.counters, SendCounts) == |es|
    && Maps.Get(end.counters, SentTokens(FromRoot)) == BatchTokens(es)
    && Maps.Get(end.counters, SentBytes(FromRoot)) == BatchBytes(es)
  }

  lemma AccountedFromEmpty(b: Books, es: seq<Entry>)
    requires b.root.counters == map[]
    ensures Accounted(Run(b, es).root, es)
  {
    BatchCounters(b, es);
    assert Slice(b.root.counters, SendCounts) == map[];
  }

  /** Everything a root can reach from its first reservation on: the scope invariant, the
      number of sends, and a bound on how many of them can carry any source text. */
  lemma ReachableRoot(id: Id, level: TaskLevel, policy: Policy, corpus: CorpusBook, es: seq<Entry>)
    requires CorpusInvariant(corpus) && AllAccepted(Books(EmptyRoot(id, level, policy), corpus), es)
    ensures var end := Run(Books(EmptyRoot(id, level, policy), corpus), es);
            RootInvariant(end.root) && CorpusInvariant(end.corpus) && Accounted(end.root, es)
    ensures BatchTokens(es) <= SenderCap(policy, level, FromRoot).value.tokens
    ensures BatchBytes(es) <= SenderCap(policy, level, FromRoot).value.bytes
    ensures Carrying(es) <= SenderCap(policy, level, FromRoot).value.tokens
  {
    var b := Books(EmptyRoot(id, level, policy), corpus);
    EmptyRootInvariant(id, level, policy);
    AcceptedKeepsInvariants(b, es);
    AccountedFromEmpty(b, es);
    RunGrows(b, es);
    CarryingWeighs(es);
    SentUnderCap(Run(b, es).root);
  }
}
