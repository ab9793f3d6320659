/** What holds of every book the enforcer can reach: nested accounts agree, every account
    is within its cap, and nothing transmitted is lost or counted twice. */
module ScopeInvariants {
  import opened Basics
  import opened EgressContracts
  import opened Accounts
  import opened Acceptance
  import opened OrderIndependence
  import Maps

  // ----- sizes of overlaid accounts -----

  lemma OverlaySizes(p: Priced, a: Priced)
    ensures UniqueTokens(p + a) <= UniqueTokens(p) + UniqueTokens(a)
    ensures UniqueBytes(p + a) <= UniqueBytes(p) + UniqueBytes(a)
  {
    Maps.SumPlus(TokenMap(p), TokenMap(a));
    Maps.SumMonotone(TokenMap(p + a), Maps.Plus(TokenMap(p), TokenMap(a)));
    Maps.SumPlus(ByteMap(p), ByteMap(a));
    Maps.SumMonotone(ByteMap(p + a), Maps.Plus(ByteMap(p), ByteMap(a)));
  }

  lemma SingleSize(i: DisclosureId, s: Size)
    ensures UniqueTokens(map[i := s]) == s.tokens && UniqueBytes(map[i := s]) == s.bytes
  {
    Maps.SumRemove(TokenMap(map[i := s]), i);
    Maps.SumRemove(ByteMap(map[i := s]), i);
    assert TokenMap(map[i := s]) - {i} == map[] && ByteMap(map[i := s]) - {i} == map[];
  }

  lemma EmptySize()
    ensures UniqueTokens(map[]) == 0 && UniqueBytes(map[]) == 0
  {
    assert TokenMap(map[]) == map[] && ByteMap(map[]) == map[];
  }

  /** Distinct disclosures never weigh more than the request that names them. */
  lemma {:induction false} PriceAtMostSent(facts: seq<Fact>)
    ensures UniqueTokens(Price(facts)) <= FactTokens(facts)
    ensures UniqueBytes(Price(facts)) <= FactBytes(facts)
  {
    if facts != [] {
      PriceAtMostSent(facts[1..]);
      var one := map[facts[0].id := facts[0].size];
      SingleSize(facts[0].id, facts[0].size);
      OverlaySizes(Price(facts[1..]), one);
      assert Price(facts) == Price(facts[1..]) + one;
    }
  }

  // ----- families of counters -----

  datatype Measure = InTokens | InBytes
  datatype Family = OfStages(measure: Measure) | OfRuns(measure: Measure) | SendCounts | Other

  function FamilyOf(k: CounterKey): Family {
    match k
    case SentTokens(FromStage(_)) => OfStages(InTokens)
    case SentBytes(FromStage(_)) => OfStages(InBytes)
    case SentTokens(FromRun(_)) => OfRuns(InTokens)
    case SentBytes(FromRun(_)) => OfRuns(InBytes)
    case Sends(_) => SendCounts
    case _ => Other
  }

  function SentKey(s: Sender, m: Measure): CounterKey {
    if m == InTokens then SentTokens(s) else SentBytes(s)
  }

  function Weight(e: Entry, m: Measure): nat {
    if m == InTokens then FactTokens(e.facts) else FactBytes(e.facts)
  }

  function Slice(counters: map<CounterKey, nat>, family: Family): map<CounterKey, nat> {
    map k | k in counters && FamilyOf(k) == family :: counters[k]
  }

  ghost function FamilySum(counters: map<CounterKey, nat>, family: Family): nat {
    Maps.Sum(Slice(counters, family))
  }

  lemma SlicePlus(a: map<CounterKey, nat>, b: map<CounterKey, nat>, family: Family)
    ensures Slice(Maps.Plus(a, b), family) == Maps.Plus(Slice(a, family), Slice(b, family))
  {
    var left, right := Slice(Maps.Plus(a, b), family), Maps.Plus(Slice(a, family), Slice(b, family));
    assert left.Keys == right.Keys;
    forall k | k in left ensures left[k] == right[k] {
    }
  }

  lemma FamilySumPlus(a: map<CounterKey, nat>, b: map<CounterKey, nat>, family: Family)
    ensures FamilySum(Maps.Plus(a, b), family) == FamilySum(a, family) + FamilySum(b, family)
  {
    SlicePlus(a, b, family);
    Maps.SumPlus(Slice(a, family), Slice(b, family));
  }

  lemma FamilyOfOne(m: map<CounterKey, nat>, family: Family, k: CounterKey)
    requires k in m && FamilyOf(k) == family
    requires forall j <- m :: FamilyOf(j) == family ==> j == k
    ensures FamilySum(m, family) == m[k]
  {
    Maps.SumRemove(Slice(m, family), k);
    assert Slice(m, family) - {k} == map[];
  }

  /** One reservation counts once among the stages' sends. */
  lemma IncrementSends(e: Entry)
    ensures FamilySum(Increments(e), SendCounts) == 1
  {
    FamilyOfOne(Increments(e), SendCounts, Sends(e.stage));
  }

  /** One reservation adds its weight once to the stages. */
  lemma IncrementStages(e: Entry, m: Measure)
    ensures FamilySum(Increments(e), OfStages(m)) == Weight(e, m)
  {
    FamilyOfOne(Increments(e), OfStages(m), SentKey(FromStage(e.stage), m));
  }

  /** One reservation adds its weight once to the runs, unless it is the judge's. */
  lemma IncrementRuns(e: Entry, m: Measure)
    ensures FamilySum(Increments(e), OfRuns(m)) == if e.stage == JudgeStage then 0 else Weight(e, m)
  {
    if e.stage == JudgeStage {
      assert Slice(Increments(e), OfRuns(m)) == map[];
    } else {
      FamilyOfOne(Increments(e), OfRuns(m), SentKey(FromRun(e.run), m));
    }
  }

  ghost predicate ConservedIn(counters: map<CounterKey, nat>, m: Measure) {
    && Maps.Get(counters, SentKey(FromRoot, m)) == FamilySum(counters, OfStages(m))
    && Maps.Get(counters, SentKey(FromRoot, m)) == Maps.Get(counters, SentKey(FromJudge, m)) + FamilySum(counters, OfRuns(m))
  }

  /** The root's transmissions are the sum over stages, and the judge's plus the sum over runs. */
  ghost predicate Conserved(counters: map<CounterKey, nat>) {
    ConservedIn(counters, InTokens) && ConservedIn(counters, InBytes)
  }

  lemma ConservedByPlus(counters: map<CounterKey, nat>, inc: map<CounterKey, nat>, m: Measure)
    requires ConservedIn(counters, m) && ConservedIn(inc, m)
    ensures ConservedIn(Maps.Plus(counters, inc), m)
  {
    FamilySumPlus(counters, inc, OfStages(m));
    FamilySumPlus(counters, inc, OfRuns(m));
    PlusAt(counters, inc, SentKey(FromRoot, m));
    PlusAt(counters, inc, SentKey(FromJudge, m));
  }

  lemma IncrementConserved(e: Entry, m: Measure)
    ensures ConservedIn(Increments(e), m)
  {
    IncrementStages(e, m);
    IncrementRuns(e, m);
  }

  lemma ConservedByPost(counters: map<CounterKey, nat>, e: Entry)
    requires Conserved(counters)
    ensures Conserved(Maps.Plus(counters, Increments(e)))
  {
    IncrementConserved(e, InTokens);
    IncrementConserved(e, InBytes);
    ConservedByPlus(counters, Increments(e), InTokens);
    ConservedByPlus(counters, Increments(e), InBytes);
  }

  // ----- nesting -----

  /** The sender whose transmissions an account's unique total is compared with. */
  function SenderOfAccount(k: RootKey): Option<Sender> {
    match k
    case Root => Some(FromRoot)
    case Judge => Some(FromJudge)
    case RunOf(run) => Some(FromRun(run))
    case _ => None
  }

  predicate Nested(accounts: map<RootKey, Priced>) {
    && Root in accounts && Judge in accounts
    && (forall k <- accounts :: SubMap(accounts[k], accounts[Root]))
    && (forall i <- accounts[Root] :: exists k :: k in accounts && k.RouteOf? && i in accounts[k])
    && (forall i <- accounts[Root] :: exists k :: k in accounts && (k.Judge? || k.RunOf?) && i in accounts[k])
    && (forall k <- accounts :: k.ClaimOf? ==> RunOf(k.run) in accounts && SubMap(accounts[k], accounts[RunOf(k.run)]))
  }

  ghost predicate UniqueAtMostSent(b: RootBook) {
    forall k <- b.accounts :: SenderOfAccount(k).Some? ==>
      var s := SenderOfAccount(k).value;
      && UniqueTokens(b.accounts[k]) <= Maps.Get(b.counters, SentTokens(s))
      && UniqueBytes(b.accounts[k]) <= Maps.Get(b.counters, SentBytes(s))
  }

  ghost predicate AllWithin(b: RootBook) {
    && RootWithin(b, b.accounts.Keys, b.policy)
    && CountersUnder(b, b.counters.Keys, b.policy)
    && forall run :: |ClaimsOf(b.accounts, run)| <= b.policy.maxClaimsPerRun
  }

  ghost predicate RootInvariant(b: RootBook) {
    Nested(b.accounts) && Conserved(b.counters) && UniqueAtMostSent(b) && AllWithin(b)
  }

  lemma NothingConserved(counters: map<CounterKey, nat>)
    requires counters == map[]
    ensures Conserved(counters)
  {
    forall f: Family ensures FamilySum(counters, f) == 0 {
      assert Slice(counters, f) == map[];
    }
  }

  lemma EmptyWithin(b: RootBook, id: Id, level: TaskLevel, policy: Policy)
    requires b == EmptyRoot(id, level, policy)
    ensures AllWithin(b)
  {
    EmptySize();
    forall run ensures |ClaimsOf(b.accounts, run)| <= policy.maxClaimsPerRun {
      assert ClaimsOf(b.accounts, run) == {};
    }
  }

  lemma EmptyNested(accounts: map<RootKey, Priced>)
    requires accounts == map[Root := map[], Judge := map[]]
    ensures Nested(accounts)
  {
  }

  lemma EmptyUnique(b: RootBook)
    requires b.accounts == map[Root := map[], Judge := map[]]
    ensures UniqueAtMostSent(b)
  {
    EmptySize();
  }

  lemma EmptyRootInvariant(id: Id, level: TaskLevel, policy: Policy)
    ensures RootInvariant(EmptyRoot(id, level, policy))
  {
    var b := EmptyRoot(id, level, policy);
    NothingConserved(b.counters);
    EmptyNested(b.accounts);
    EmptyUnique(b);
    EmptyWithin(b, id, level, policy);
  }

  predicate Agree(p: Priced, q: Priced) {
    forall i <- p :: i in q ==> p[i] == q[i]
  }

  lemma ConsistentAgrees(b: RootBook, e: Entry, k: RootKey)
    requires Nested(b.accounts) && Consistent(At(b.accounts, Root), e.facts)
    ensures Agree(Price(e.facts), At(b.accounts, k))
  {
    PriceIsFirstSize(e.facts);
  }

  /** An account inside another stays inside it when both, or only the outer, are charged. */
  lemma InsideByCharge<K>(m: map<K, Priced>, t: set<K>, p: Priced, inner: K, outer: K)
    requires SubMap(At(m, inner), At(m, outer)) && (inner in t ==> outer in t)
    requires Agree(p, At(m, outer))
    ensures SubMap(At(Charge(m, t, p), inner), At(Charge(m, t, p), outer))
  {
    ChargeAt(m, t, p, inner);
    ChargeAt(m, t, p, outer);
  }

  lemma SubMapsByPost(b: RootBook, e: Entry)
    requires Nested(b.accounts)
    requires Consistent(At(b.accounts, Root), e.facts)
    ensures var after := PostRoot(b, e).accounts; forall k <- after :: SubMap(after[k], after[Root])
  {
    var after := PostRoot(b, e).accounts;
    forall k <- after ensures SubMap(At(after, k), At(after, Root)) {
      ConsistentAgrees(b, e, Root);
      InsideByCharge(b.accounts, RootTouch(e), Price(e.facts), k, Root);
    }
  }

  lemma ClaimsNestByPost(b: RootBook, e: Entry, k: RootKey)
    requires Nested(b.accounts) && k in PostRoot(b, e).accounts && k.ClaimOf?
    requires Consistent(At(b.accounts, Root), e.facts)
    ensures var after := PostRoot(b, e).accounts; RunOf(k.run) in after && SubMap(At(after, k), At(after, RunOf(k.run)))
  {
    ConsistentAgrees(b, e, RunOf(k.run));
    InsideByCharge(b.accounts, RootTouch(e), Price(e.facts), k, RunOf(k.run));
  }

  lemma CoverByPost(b: RootBook, e: Entry, i: DisclosureId)
    requires Nested(b.accounts) && i in PostRoot(b, e).accounts[Root]
    ensures var after := PostRoot(b, e).accounts;
            && (exists k :: k in after && k.RouteOf? && i in after[k])
            && (exists k :: k in after && (k.Judge? || k.RunOf?) && i in after[k])
  {
    var after := PostRoot(b, e).accounts;
    ChargeAt(b.accounts, RootTouch(e), Price(e.facts), Root);
    var route, holder: RootKey;
    if i in Price(e.facts) {
      route, holder := RouteOf(e.route), if e.stage == JudgeStage then Judge else RunOf(e.run);
    } else {
      route :| route in b.accounts && route.RouteOf? && i in b.accounts[route];
      holder :| holder in b.accounts && (holder.Judge? || holder.RunOf?) && i in b.accounts[holder];
    }
    ChargeAt(b.accounts, RootTouch(e), Price(e.facts), route);
    ChargeAt(b.accounts, RootTouch(e), Price(e.facts), holder);
    assert i in At(after, route) && i in At(after, holder);
  }

  lemma NestedByPost(b: RootBook, e: Entry)
    requires Nested(b.accounts)
    requires Consistent(At(b.accounts, Root), e.facts)
    ensures Nested(PostRoot(b, e).accounts)
  {
    SubMapsByPost(b, e);
    forall k <- PostRoot(b, e).accounts | k.ClaimOf? {
      ClaimsNestByPost(b, e, k);
    }
    forall i <- PostRoot(b, e).accounts[Root] {
      CoverByPost(b, e, i);
    }
  }

  lemma UniqueByPost(b: RootBook, e: Entry, k: RootKey, s: Sender)
    requires SenderOfAccount(k) == Some(s)
    requires UniqueTokens(At(b.accounts, k)) <= Maps.Get(b.counters, SentTokens(s))
    requires UniqueBytes(At(b.accounts, k)) <= Maps.Get(b.counters, SentBytes(s))
    ensures UniqueTokens(At(PostRoot(b, e).accounts, k)) <= Maps.Get(PostRoot(b, e).counters, SentTokens(s))
    ensures UniqueBytes(At(PostRoot(b, e).accounts, k)) <= Maps.Get(PostRoot(b, e).counters, SentBytes(s))
  {
    ChargeAt(b.accounts, RootTouch(e), Price(e.facts), k);
    PlusAt(b.counters, Increments(e), SentTokens(s));
    PlusAt(b.counters, Increments(e), SentBytes(s));
    if k in RootTouch(e) {
      assert SentTokens(s) in CounterTouch(e) && SentBytes(s) in CounterTouch(e);
      OverlaySizes(Price(e.facts), At(b.accounts, k));
      PriceAtMostSent(e.facts);
    }
  }

  lemma AllUniqueByPost(b: RootBook, e: Entry)
    requires UniqueAtMostSent(b)
    ensures UniqueAtMostSent(PostRoot(b, e))
  {
    var after := PostRoot(b, e);
    EmptySize();
    forall k <- after.accounts | SenderOfAccount(k).Some?
      ensures UniqueTokens(At(after.accounts, k)) <= Maps.Get(after.counters, SentTokens(SenderOfAccount(k).value)) &&
              UniqueBytes(At(after.accounts, k)) <= Maps.Get(after.counters, SentBytes(SenderOfAccount(k).value))
    {
      UniqueByPost(b, e, k, SenderOfAccount(k).value);
    }
  }

  lemma RootWithinByPost(b: RootBook, e: Entry)
    requires RootWithin(b, b.accounts.Keys, b.policy) && RootWithin(PostRoot(b, e), RootTouch(e), b.policy)
    ensures RootWithin(PostRoot(b, e), PostRoot(b, e).accounts.Keys, b.policy)
  {
    var after := PostRoot(b, e);
    forall k <- after.accounts.Keys ensures Within(At(after.accounts, k), RootCap(b.policy, after.level, k)) {
      ChargeAt(b.accounts, RootTouch(e), Price(e.facts), k);
      assert k in b.accounts.Keys || k in RootTouch(e);
    }
  }

  lemma CountersByPost(b: RootBook, e: Entry)
    requires CountersUnder(b, b.counters.Keys, b.policy) && CountersUnder(PostRoot(b, e), CounterTouch(e), b.policy)
    ensures CountersUnder(PostRoot(b, e), PostRoot(b, e).counters.Keys, b.policy)
  {
    var after := PostRoot(b, e);
    forall k <- after.counters.Keys ensures Under(Maps.Get(after.counters, k), CounterCap(b.policy, after.level, k)) {
      PlusAt(b.counters, Increments(e), k);
      assert k in b.counters.Keys || k in CounterTouch(e);
    }
  }

  lemma ClaimsByPost(b: RootBook, e: Entry, run: Id)
    requires |ClaimsOf(b.accounts, run)| <= b.policy.maxClaimsPerRun && ClaimsUnder(PostRoot(b, e), e, b.policy)
    ensures |ClaimsOf(PostRoot(b, e).accounts, run)| <= b.policy.maxClaimsPerRun
  {
    if !(e.stage != JudgeStage && e.claim.Some? && e.run == run) {
      assert ClaimsOf(PostRoot(b, e).accounts, run) == ClaimsOf(b.accounts, run);
    }
  }

  lemma WithinByPost(b: RootBook, e: Entry)
    requires AllWithin(b) && RootFitsIn(PostRoot(b, e), e, b.policy)
    ensures AllWithin(PostRoot(b, e))
  {
    RootWithinByPost(b, e);
    CountersByPost(b, e);
    forall run {
      ClaimsByPost(b, e, run);
    }
  }

  /** The scope invariant survives every accepted reservation. */
  lemma RootInvariantByPost(b: Books, e: Entry)
    requires RootInvariant(b.root) && Accepts(b, e)
    ensures RootInvariant(Post(b, e).root)
  {
    AcceptsMeans(b, e);
    VerdictIsConjunction(b, e, b.root.policy);
    NestedByPost(b.root, e);
    ConservedByPost(b.root.counters, e);
    AllUniqueByPost(b.root, e);
    WithinByPost(b.root, e);
  }
}
