/** The enforcer: a request is priced by the server's own counter, compared with what the
    caller declared, and moved through both budget scopes at once. */
module Enforcer {
  import opened Basics
  import opened EgressContracts
  import opened Accounts
  import opened Acceptance
  import opened ScopeInvariants
  import opened Snapshots
  import opened AccountUpdates
  import opened RootUpdates
  import opened CorpusUpdates

  // ----- pricing -----

  function IdOf(x: Excerpt): DisclosureId {
    DisclosureId(x.corpus, x.content, x.quote, x.span)
  }

  function PricedExcerpt(x: Excerpt, counter: Counter, cap: Cap): Result<Fact> {
    var tokens := counter.count(x.quote);
    if tokens <= 0 then Err(TokenAccountingUnavailable)
    else if tokens > cap.tokens then Err(ExcerptTokensExceeded)
    else if x.quoteBytes > cap.bytes then Err(ExcerptBytesExceeded)
    else Ok(Fact(IdOf(x), Size(tokens, x.quoteBytes)))
  }

  /** The facts of a payload in excerpt order, or the first failure. */
  function PricedExcerpts(xs: seq<Excerpt>, counter: Counter, cap: Cap): Result<seq<Fact>> {
    if xs == [] then Ok([]) else
      var n := |xs| - 1;
      match PricedExcerpts(xs[..n], counter, cap)
      case Err(code) => Err(code)
      case Ok(facts) =>
        match PricedExcerpt(xs[n], counter, cap)
        case Err(code) => Err(code)
        case Ok(fact) => Ok(facts + [fact])
  }

  function UseOf(payload: Payload): Use {
    if payload.JudgePayload? then OfflineJudge else OnlineMain
  }

  predicate Allowed(policy: Policy, stage: Stage, kind: Kind) {
    stage in policy.allowlist && kind in policy.allowlist[stage]
  }

  /** Everything refused before the policy is consulted for caps. `authorized` stands for the
      store, the compliance record and the clock. */
  function BindingFault(q: EgressRequest, policy: Policy, counter: Counter, authorized: bool): Option<Code> {
    if q.payload.Level().Some? && q.payload.Level().value != q.level then Some(TaskLevelMismatch)
    else if !Allowed(policy, q.stage, q.payload.KindOf()) then Some(StagePayloadMismatch)
    else if q.route.use != UseOf(q.payload) then Some(StageRouteMismatch)
    else if !q.version.bound then Some(VersionUnbound)
    else if exists x <- q.payload.Excerpts() :: x.corpus != q.version.corpus then Some(CorpusManifestMismatch)
    else if !authorized then Some(RouteUnauthorized)
    else if counter.provider != q.route.provider || counter.model != q.model then Some(CounterIncompatible)
    else None
  }

  function TextFault(q: EgressRequest, counter: Counter, caps: CapSnapshot): Option<Code> {
    match (q.payload.ProjectedText(), caps.projectedText)
    case (Some(text), Some(cap)) =>
      if counter.count(text) <= 0 then Some(TokenAccountingUnavailable)
      else Fault(counter.count(text) > cap, ProjectedTextExceeded)
    case _ => None
  }

  function EntryOf(q: EgressRequest, facts: seq<Fact>): Entry {
    Entry(q.root, q.run, q.level, q.stage, q.route, q.payload.KindOf(), q.version.corpus, q.version.document,
          q.payload.Claim(), facts, q.payload.TocCount())
  }

  function Derived(q: EgressRequest, policy: Policy, counter: Counter, authorized: bool): Result<Entry> {
    var binding := BindingFault(q, policy, counter, authorized);
    if binding.Some? then Err(binding.value) else
      match Snapshot(policy, q.level, q.payload.KindOf(), q.version.document)
      case None => Err(DocumentCapMissing)
      case Some(caps) =>
        var text := TextFault(q, counter, caps);
        if text.Some? then Err(text.value) else
          match PricedExcerpts(q.payload.Excerpts(), counter, caps.excerpt)
          case Err(code) => Err(code)
          case Ok(facts) =>
            if q.payload.TocCount() > caps.tocPerCall then Err(TocCallExceeded) else Ok(EntryOf(q, facts))
  }

  /** Each excerpt is priced alone, by the server's counter, under the per-excerpt cap. */
  predicate PricedUnder(x: Excerpt, f: Fact, counter: Counter, cap: Cap) {
    && f.id == DisclosureId(x.corpus, x.content, x.quote, x.span)
    && f.size.tokens == counter.count(x.quote) && f.size.bytes == x.quoteBytes
    && f.size.tokens <= cap.tokens && f.size.bytes <= cap.bytes
  }

  lemma {:induction false} FirstFailureStops(xs: seq<Excerpt>, n: nat, counter: Counter, cap: Cap)
    requires n <= |xs| && PricedExcerpts(xs[..n], counter, cap).Err?
    ensures PricedExcerpts(xs, counter, cap) == PricedExcerpts(xs[..n], counter, cap)
    decreases |xs|
  {
    if n < |xs| {
      assert xs[..|xs|-1][..n] == xs[..n];
      FirstFailureStops(xs[..|xs|-1], n, counter, cap);
    } else {
      assert xs[..n] == xs;
    }
  }

  /** Pricing succeeds exactly when every excerpt alone does, and then fact k prices excerpt k. */
  lemma {:induction false} PricedOneByOne(xs: seq<Excerpt>, counter: Counter, cap: Cap)
    ensures var r := PricedExcerpts(xs, counter, cap);
            && (r.Ok? <==> forall x <- xs :: 0 < counter.count(x.quote) <= cap.tokens && x.quoteBytes <= cap.bytes)
            && (r.Ok? ==> |r.value| == |xs| && forall k :: 0 <= k < |xs| ==> PricedUnder(xs[k], r.value[k], counter, cap))
  {
    if xs != [] {
      var n := |xs| - 1;
      PricedOneByOne(xs[..n], counter, cap);
      assert forall x :: x in xs <==> x in xs[..n] || x == xs[n];
    }
  }

  lemma {:induction false} FactTokensAt(facts: seq<Fact>, tokens: nat, bytes: nat)
    requires forall f <- facts :: f.size.tokens <= tokens && f.size.bytes <= bytes
    ensures FactTokens(facts) <= |facts| * tokens && FactBytes(facts) <= |facts| * bytes
  {
    if facts != [] {
      FactTokensAt(facts[1..], tokens, bytes);
      var n := |facts| - 1;
      assert FactTokens(facts[1..]) <= n * tokens && FactBytes(facts[1..]) <= n * bytes;
      assert facts[0] in facts;
      assert (n + 1) * tokens == n * tokens + tokens;
      assert (n + 1) * bytes == n * bytes + bytes;
    }
  }

  /** A payload rebuilt from what is read of it: nothing it carries goes unread. */
  predicate Describes(p: Payload, kind: Kind, xs: seq<Excerpt>, toc: nat, text: Option<Id>, claim: Option<Id>) {
    match kind
    case L1Query => text.Some? && claim.None? && p == L1QueryPayload(text.value, toc, xs)
    case L1Plan => text.Some? && claim.None? && xs == [] && toc == 0 && p.L1PlanPayload? && p.query == text.value
    case L2Design => text.Some? && claim.None? && p == L2DesignPayload(text.value, toc, xs)
    case L2Claim => text.Some? && claim.Some? && p == L2ClaimPayload(claim.value, text.value, toc, xs)
    case JudgeKind => text.None? && claim.None? && toc == 0 && p == JudgePayload(xs)
  }

  lemma PayloadDescribed(p: Payload)
    ensures Describes(p, p.KindOf(), p.Excerpts(), p.TocCount(), p.ProjectedText(), p.Claim())
  {
  }

  /** The level a payload may be sent at. */
  predicate OwnLevel(p: Payload, level: TaskLevel) {
    match p
    case L1QueryPayload(_, _, _) => level == L1
    case L1PlanPayload(_, calls) => level == if calls == 6 then L1 else L2
    case L2DesignPayload(_, _, _) => level == L2
    case L2ClaimPayload(_, _, _, _) => level == L2
    case JudgePayload(_) => true
  }

  predicate TextFits(text: Id, counter: Counter, cap: nat) {
    0 < counter.count(text) <= cap
  }

  predicate TextUnder(p: Payload, counter: Counter, policy: Policy) {
    match p
    case L1QueryPayload(query, _, _) => TextFits(query, counter, policy.l1QueryTokens)
    case L1PlanPayload(query, _) => TextFits(query, counter, policy.l1PlanTokens)
    case L2DesignPayload(design, _, _) => TextFits(design, counter, policy.l2DesignTokens)
    case L2ClaimPayload(_, text, _, _) => TextFits(text, counter, policy.l2DesignTokens)
    case JudgePayload(_) => true
  }

  predicate ExcerptUnder(x: Excerpt, counter: Counter, cap: Cap) {
    0 < counter.count(x.quote) <= cap.tokens && x.quoteBytes <= cap.bytes
  }

  /** Exactly when a request is derived, in terms of what its payload carries. */
  lemma DerivedExactly(q: EgressRequest, policy: Policy, counter: Counter, authorized: bool,
                       kind: Kind, xs: seq<Excerpt>, toc: nat, text: Option<Id>, claim: Option<Id>)
    requires Describes(q.payload, kind, xs, toc, text, claim)
    ensures Derived(q, policy, counter, authorized).Ok? <==>
            && OwnLevel(q.payload, q.level)
            && q.stage in policy.allowlist && kind in policy.allowlist[q.stage]
            && (q.route.use == OfflineJudge <==> q.payload.JudgePayload?)
            && q.version.bound && (forall x <- xs :: x.corpus == q.version.corpus)
            && authorized && counter.provider == q.route.provider && counter.model == q.model
            && q.version.document in policy.corpusDocumentUnique
            && TextUnder(q.payload, counter, policy)
            && (forall x <- xs :: ExcerptUnder(x, counter, policy.excerpt))
            && toc <= policy.tocPerCall
  {
    PayloadDescribed(q.payload);
    PricedOneByOne(xs, counter, policy.excerpt);
  }

  /** A refusal names a condition that is not met. */
  predicate Blames(code: Code, q: EgressRequest, policy: Policy, counter: Counter, authorized: bool, kind: Kind, xs: seq<Excerpt>, toc: nat) {
    match code
    case TaskLevelMismatch => !OwnLevel(q.payload, q.level)
    case StagePayloadMismatch => q.stage !in policy.allowlist || kind !in policy.allowlist[q.stage]
    case StageRouteMismatch => (q.route.use == OfflineJudge) != q.payload.JudgePayload?
    case VersionUnbound => !q.version.bound
    case CorpusManifestMismatch => exists x <- xs :: x.corpus != q.version.corpus
    case RouteUnauthorized => !authorized
    case CounterIncompatible => counter.provider != q.route.provider || counter.model != q.model
    case DocumentCapMissing => q.version.document !in policy.corpusDocumentUnique
    case ProjectedTextExceeded => !TextUnder(q.payload, counter, policy)
    case TokenAccountingUnavailable => !TextUnder(q.payload, counter, policy) || exists x <- xs :: counter.count(x.quote) <= 0
    case ExcerptTokensExceeded => exists x <- xs :: counter.count(x.quote) > policy.excerpt.tokens
    case ExcerptBytesExceeded => exists x <- xs :: x.quoteBytes > policy.excerpt.bytes
    case TocCallExceeded => toc > policy.tocPerCall
    case _ => false
  }

  lemma {:induction false} PricingBlames(xs: seq<Excerpt>, counter: Counter, cap: Cap)
    requires PricedExcerpts(xs, counter, cap).Err?
    ensures match PricedExcerpts(xs, counter, cap).code
            case TokenAccountingUnavailable => exists x <- xs :: counter.count(x.quote) <= 0
            case ExcerptTokensExceeded => exists x <- xs :: counter.count(x.quote) > cap.tokens
            case ExcerptBytesExceeded => exists x <- xs :: x.quoteBytes > cap.bytes
            case _ => false
  {
    var n := |xs| - 1;
    if PricedExcerpts(xs[..n], counter, cap).Err? {
      PricingBlames(xs[..n], counter, cap);
      assert forall x <- xs[..n] :: x in xs;
    } else {
      assert xs[n] in xs;
    }
  }

  lemma RefusalBlames(q: EgressRequest, policy: Policy, counter: Counter, authorized: bool,
                      kind: Kind, xs: seq<Excerpt>, toc: nat, text: Option<Id>, claim: Option<Id>)
    requires Describes(q.payload, kind, xs, toc, text, claim) && Derived(q, policy, counter, authorized).Err?
    ensures Blames(Derived(q, policy, counter, authorized).code, q, policy, counter, authorized, kind, xs, toc)
  {
    PayloadDescribed(q.payload);
    if PricedExcerpts(xs, counter, policy.excerpt).Err? {
      PricingBlames(xs, counter, policy.excerpt);
    }
  }

  /** One fact per excerpt, in order, with its own id, count and bytes. */
  predicate PricesEach(xs: seq<Excerpt>, facts: seq<Fact>, counter: Counter, cap: Cap) {
    |facts| == |xs| && forall k :: 0 <= k < |xs| ==> PricedUnder(xs[k], facts[k], counter, cap)
  }

  /** What a derived reservation discloses, kind by kind: every excerpt the payload carries, and
      nothing only for a plan. */
  lemma DerivedDiscloses(q: EgressRequest, policy: Policy, counter: Counter, authorized: bool)
    requires Derived(q, policy, counter, authorized).Ok?
    ensures var e := Derived(q, policy, counter, authorized).value;
            match q.payload
            case L1QueryPayload(_, toc, excerpts) => PricesEach(excerpts, e.facts, counter, policy.excerpt) && e.toc == toc && e.claim.None?
            case L1PlanPayload(_, _) => e.facts == [] && e.toc == 0 && e.claim.None?
            case L2DesignPayload(_, toc, excerpts) => PricesEach(excerpts, e.facts, counter, policy.excerpt) && e.toc == toc && e.claim.None?
            case L2ClaimPayload(claim, _, toc, excerpts) =>
              PricesEach(excerpts, e.facts, counter, policy.excerpt) && e.toc == toc && e.claim == Some(claim)
            case JudgePayload(gold) => PricesEach(gold, e.facts, counter, policy.excerpt) && e.toc == 0 && e.claim.None?
  {
    PricedOneByOne(q.payload.Excerpts(), counter, policy.excerpt);
  }

  /** What a derived reservation is worth: it is bound to the request's root, run, corpus and
      stage, describes its payload, discloses only its own corpus, and stays under the per-call
      caps. */
  lemma DerivedMeaning(q: EgressRequest, policy: Policy, counter: Counter, authorized: bool)
    requires Derived(q, policy, counter, authorized).Ok?
    ensures var e := Derived(q, policy, counter, authorized).value;
            && e.root == q.root && e.run == q.run && e.level == q.level && e.stage == q.stage && e.route == q.route
            && e.corpus == q.version.corpus && e.document == q.version.document
            && WellFormed(e) && authorized && q.version.bound && Allowed(policy, e.stage, e.kind)
            && (e.kind == JudgeKind <==> q.route.use == OfflineJudge)
            && e.document in policy.corpusDocumentUnique && e.toc <= policy.tocPerCall
            && (exists xs, text :: Describes(q.payload, e.kind, xs, e.toc, text, e.claim) && PricesEach(xs, e.facts, counter, policy.excerpt))
            && (forall f <- e.facts :: f.id.corpus == e.corpus)
            && FactTokens(e.facts) <= |e.facts| * policy.excerpt.tokens
            && FactBytes(e.facts) <= |e.facts| * policy.excerpt.bytes
  {
    var e := Derived(q, policy, counter, authorized).value;
    var xs := q.payload.Excerpts();
    PricedOneByOne(xs, counter, policy.excerpt);
    PayloadDescribed(q.payload);
    assert Describes(q.payload, e.kind, xs, e.toc, q.payload.ProjectedText(), e.claim) && PricesEach(xs, e.facts, counter, policy.excerpt);
    forall f <- e.facts ensures f.id.corpus == e.corpus && f.size.tokens <= policy.excerpt.tokens && f.size.bytes <= policy.excerpt.bytes {
      var k :| 0 <= k < |e.facts| && e.facts[k] == f;
      assert PricedUnder(xs[k], f, counter, policy.excerpt) && xs[k] in xs;
    }
    FactTokensAt(e.facts, policy.excerpt.tokens, policy.excerpt.bytes);
  }

  method Derive(q: EgressRequest, policy: Policy, counter: Counter, authorized: bool) returns (r: Result<Entry>)
    ensures r == Derived(q, policy, counter, authorized)
  {
    var binding := BindingFault(q, policy, counter, authorized);
    if binding.Some? {
      return Err(binding.value);
    }
    var snapshot := Snapshot(policy, q.level, q.payload.KindOf(), q.version.document);
    if snapshot.None? {
      return Err(DocumentCapMissing);
    }
    var caps := snapshot.value;
    var text := TextFault(q, counter, caps);
    if text.Some? {
      return Err(text.value);
    }
    var xs := q.payload.Excerpts();
    var facts: seq<Fact> := [];
    for n := 0 to |xs|
      invariant PricedExcerpts(xs[..n], counter, caps.excerpt) == Ok(facts)
    {
      assert xs[..n+1][..n] == xs[..n];
      var priced := PricedExcerpt(xs[n], counter, caps.excerpt);
      if priced.Err? {
        FirstFailureStops(xs, n + 1, counter, caps.excerpt);
        return Err(priced.code);
      }
      facts := facts + [priced.value];
    }
    assert xs[..|xs|] == xs;
    if q.payload.TocCount() > caps.tocPerCall {
      return Err(TocCallExceeded);
    }
    r := Ok(EntryOf(q, facts));
  }

  method Prepare(q: EgressRequest, policy: Policy, counter: Counter, authorized: bool) returns (r: Result<ReservationRequest>)
    ensures r == Prepared(q, policy, counter, authorized)
  {
    var derived := Derive(q, policy, counter, authorized);
    r := if derived.Err? then Err(derived.code) else Ok(ReservationRequest(q, derived.value.facts));
  }

  function Prepared(q: EgressRequest, policy: Policy, counter: Counter, authorized: bool): Result<ReservationRequest> {
    match Derived(q, policy, counter, authorized)
    case Err(code) => Err(code)
    case Ok(e) => Ok(ReservationRequest(q, e.facts))
  }

  // ----- the decision about one reservation -----

  /** The entry a reservation posts, with the facts the caller declares checked against the
      server's own derivation. */
  function Canonical(p: ReservationRequest, policy: Policy, counter: Counter, authorized: bool): Result<Entry> {
    match Derived(p.request, policy, counter, authorized)
    case Err(code) => Err(code)
    case Ok(e) => if p.disclosures != e.facts then Err(AccountingMismatch) else Ok(e)
  }

  ghost function Decision(b: Books, p: ReservationRequest, policy: Policy, counter: Counter, authorized: bool): Option<Code> {
    match Canonical(p, policy, counter, authorized)
    case Err(code) => Some(code)
    case Ok(e) => Verdict(b, e, policy)
  }

  /** A caller cannot change what is charged: the only reservation that can be accepted for a
      request is the one the enforcer itself prepares. */
  lemma OnlyPreparedIsAccepted(b: Books, p: ReservationRequest, policy: Policy, counter: Counter, authorized: bool)
    ensures Canonical(p, policy, counter, authorized).Ok? <==> Prepared(p.request, policy, counter, authorized) == Ok(p)
    ensures Decision(b, p, policy, counter, authorized).None? ==> Prepared(p.request, policy, counter, authorized) == Ok(p)
  {
  }

  datatype Outcome = Applied(usage: UsageSnapshot, corpus: CorpusUsage)

  ghost predicate Represents(existing: Option<UsageSnapshot>, corpus: Option<CorpusUsage>, e: Entry, policy: Policy, b: Books) {
    && (existing.None? ==> b.root == EmptyRoot(e.root, e.level, policy))
    && (existing.Some? ==> RootRepresents(existing.value, b.root))
    && (corpus.None? ==> b.corpus == EmptyCorpus(e.corpus, policy))
    && (corpus.Some? ==> CorpusRepresents(corpus.value, b.corpus))
  }

  method ApplyBoth(existing: Option<UsageSnapshot>, corpus: Option<CorpusUsage>, e: Entry, policy: Policy, ghost b: Books)
    returns (r: Result<Outcome>)
    requires Represents(existing, corpus, e, policy, b) && Nested(b.root.accounts)
    ensures AccountUpdates.Outcome(r) == Verdict(b, e, policy)
    ensures r.Ok? ==> RootRepresents(r.value.usage, Post(b, e).root) && CorpusRepresents(r.value.corpus, Post(b, e).corpus)
  {
    var snapshot := Snapshot(policy, e.level, e.kind, e.document);
    if snapshot.None? {
      return Err(DocumentCapMissing);
    }
    var usage := ApplyUsage(existing, e, policy, snapshot.value, b.root);
    if usage.Err? {
      return Err(usage.code);
    }
    var charged := ApplyCorpusUsage(corpus, e, policy, snapshot.value, b.corpus);
    if charged.Err? {
      return Err(charged.code);
    }
    r := Ok(Applied(usage.value, charged.value));
  }

  /** The whole step: refused with exactly the decision's code, or both snapshots represent
      the posted books. */
  method ApplyReservation(existing: Option<UsageSnapshot>, corpus: Option<CorpusUsage>, p: ReservationRequest,
                          policy: Policy, counter: Counter, authorized: bool, ghost b: Books)
    returns (r: Result<Outcome>)
    requires Represents(existing, corpus, EntryOf(p.request, []), policy, b) && Nested(b.root.accounts)
    ensures AccountUpdates.Outcome(r) == Decision(b, p, policy, counter, authorized)
    ensures r.Ok? ==>
      var e := EntryOf(p.request, p.disclosures);
      RootRepresents(r.value.usage, Post(b, e).root) && CorpusRepresents(r.value.corpus, Post(b, e).corpus)
  {
    var derived := Derive(p.request, policy, counter, authorized);
    if derived.Err? {
      return Err(derived.code);
    }
    if p.disclosures != derived.value.facts {
      return Err(AccountingMismatch);
    }
    DerivedIsEntry(p.request, policy, counter, authorized);
    r := ApplyBoth(existing, corpus, derived.value, policy, b);
  }

  lemma DerivedIsEntry(q: EgressRequest, policy: Policy, counter: Counter, authorized: bool)
    requires Derived(q, policy, counter, authorized).Ok?
    ensures var e := Derived(q, policy, counter, authorized).value; e == EntryOf(q, e.facts)
  {
  }
}
