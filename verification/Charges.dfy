/** Where one accepted reservation is charged, under which of the policy's caps, and what a
    rejection says: the decision read account by account. */
module Charges {
  import opened Basics
  import opened EgressContracts
  import opened Accounts
  import opened Acceptance
  import opened OrderIndependence
  import Maps

  // ----- the accounts -----

  /** An account after it counted the facts: what it held stays, and each new disclosure is
      there at a size the request names. */
  predicate Counted(before: Priced, after: Priced, facts: seq<Fact>) {
    && (forall i <- before :: i in after && after[i] == before[i])
    && (forall f <- facts :: f.id in after)
    && (forall i <- after :: i in before || Fact(i, after[i]) in facts)
  }

  lemma CountedByPrice(before: Priced, facts: seq<Fact>)
    ensures Counted(before, Price(facts) + before, facts)
  {
    PriceIsFirstSize(facts);
  }

  predicate RootCharged(e: Entry, k: RootKey) {
    match k
    case Root => true
    case RouteOf(route) => route == e.route
    case Judge => e.stage == JudgeStage
    case RunOf(run) => e.stage != JudgeStage && run == e.run
    case ClaimOf(run, claim) => e.stage != JudgeStage && run == e.run && e.claim == Some(claim)
  }

  /** Exactly the root, the route, the judge or the run, and the claim named count a reservation
      in a root; every other account keeps what it held. */
  lemma RootChargedWhere(b: RootBook, e: Entry, k: RootKey)
    ensures RootCharged(e, k) ==> k in PostRoot(b, e).accounts && Counted(At(b.accounts, k), At(PostRoot(b, e).accounts, k), e.facts)
    ensures !RootCharged(e, k) ==> At(PostRoot(b, e).accounts, k) == At(b.accounts, k)
  {
    ChargeAt(b.accounts, RootTouch(e), Price(e.facts), k);
    CountedByPrice(At(b.accounts, k), e.facts);
  }

  /** Exactly the corpus and the document named count it there. */
  lemma CorpusChargedWhere(c: CorpusBook, e: Entry, k: CorpusKey)
    ensures k == Whole || k == DocumentOf(e.document) ==>
            k in PostCorpus(c, e).accounts && Counted(At(c.accounts, k), At(PostCorpus(c, e).accounts, k), e.facts)
    ensures !(k == Whole || k == DocumentOf(e.document)) ==> At(PostCorpus(c, e).accounts, k) == At(c.accounts, k)
  {
    ChargeAt(c.accounts, CorpusTouch(e), Price(e.facts), k);
    CountedByPrice(At(c.accounts, k), e.facts);
  }

  // ----- the counters -----

  predicate Sends(e: Entry, s: Sender) {
    match s
    case FromRoot => true
    case FromStage(stage) => stage == e.stage
    case FromJudge => e.stage == JudgeStage
    case FromRun(run) => e.stage != JudgeStage && run == e.run
  }

  function Delta(b: RootBook, e: Entry, k: CounterKey): int {
    Maps.Get(PostRoot(b, e).counters, k) - Maps.Get(b.counters, k)
  }

  /** Repetition counts at the root, the stage, and the judge or the run. */
  lemma SentCharged(b: RootBook, e: Entry, s: Sender)
    ensures Delta(b, e, SentTokens(s)) == if Sends(e, s) then FactTokens(e.facts) else 0
    ensures Delta(b, e, SentBytes(s)) == if Sends(e, s) then FactBytes(e.facts) else 0
  {
    PlusAt(b.counters, Increments(e), SentTokens(s));
    PlusAt(b.counters, Increments(e), SentBytes(s));
    assert SentTokens(s) in CounterTouch(e) <==> Sends(e, s);
    assert SentBytes(s) in CounterTouch(e) <==> Sends(e, s);
  }

  /** One transmission at the stage, and the contents nodes at the run. */
  lemma StageAndNodesCharged(b: RootBook, e: Entry, stage: Stage, run: Id)
    ensures Delta(b, e, CounterKey.Sends(stage)) == if stage == e.stage then 1 else 0
    ensures Delta(b, e, TocNodes(run)) == if e.stage != JudgeStage && run == e.run then e.toc else 0
  {
    PlusAt(b.counters, Increments(e), CounterKey.Sends(stage));
    PlusAt(b.counters, Increments(e), TocNodes(run));
  }

  // ----- the caps -----

  ghost predicate Inside(p: Priced, cap: Cap) {
    |p| <= cap.excerpts && UniqueTokens(p) <= cap.tokens && UniqueBytes(p) <= cap.bytes
  }

  predicate SentInside(counters: map<CounterKey, nat>, s: Sender, cap: Cap) {
    Maps.Get(counters, SentTokens(s)) <= cap.tokens && Maps.Get(counters, SentBytes(s)) <= cap.bytes
  }

  /** The caps of the policy that an accepted reservation was checked against, by level. */
  ghost predicate AccountsUnder(b: RootBook, e: Entry, policy: Policy, l1: bool) {
    && Inside(At(b.accounts, Root), if l1 then policy.l1RootUnique else policy.l2RootUnique)
    && (e.stage == JudgeStage ==> Inside(At(b.accounts, Judge), policy.judgeUnique))
    && (e.stage != JudgeStage ==>
          && Inside(At(b.accounts, RunOf(e.run)), if l1 then policy.l1OnlineUnique else policy.l2OnlineUnique)
          && (e.claim.Some? ==> Inside(At(b.accounts, ClaimOf(e.run, e.claim.value)), policy.l2ClaimUnique)))
  }

  predicate SentUnder(b: RootBook, e: Entry, policy: Policy, l1: bool) {
    && SentInside(b.counters, FromRoot, if l1 then policy.l1RootTransmitted else policy.l2RootTransmitted)
    && (e.stage == JudgeStage ==> SentInside(b.counters, FromJudge, policy.judgeTransmitted))
    && (e.stage != JudgeStage ==>
          && SentInside(b.counters, FromRun(e.run), if l1 then policy.l1OnlineTransmitted else policy.l2OnlineTransmitted)
          && Maps.Get(b.counters, TocNodes(e.run)) <= policy.tocPerRun)
  }

  ghost predicate CorpusUnder(c: CorpusBook, e: Entry, policy: Policy) {
    && e.document in policy.corpusDocumentUnique
    && Inside(At(c.accounts, Whole), policy.corpusUnique)
    && Inside(At(c.accounts, DocumentOf(e.document)), policy.corpusDocumentUnique[e.document])
  }

  ghost predicate UnderPolicy(after: Books, e: Entry, policy: Policy) {
    && AccountsUnder(after.root, e, policy, e.level == L1) && SentUnder(after.root, e, policy, e.level == L1)
    && (e.stage != JudgeStage && e.claim.Some? ==> |ClaimsOf(after.root.accounts, e.run)| <= policy.maxClaimsPerRun)
    && CorpusUnder(after.corpus, e, policy)
  }

  /** Exactly when a reservation is accepted: its bindings and sizes agree with the books, its
      stage takes its kind, and everything it is charged to stays under the policy. */
  lemma AcceptedExactly(b: Books, e: Entry, policy: Policy)
    requires WellFormed(e)
    ensures Verdict(b, e, policy).None? <==>
            && b.root.id == e.root && b.root.level == e.level && b.root.policy == policy
            && b.corpus.id == e.corpus && b.corpus.policy == policy
            && (e.stage != JudgeStage ==> e.kind != JudgeKind)
            && (forall f <- e.facts :: f.id in At(b.root.accounts, Root) ==> At(b.root.accounts, Root)[f.id] == f.size)
            && (forall f, g :: f in e.facts && g in e.facts && f.id == g.id ==> f.size == g.size)
            && UnderPolicy(Post(b, e), e, policy)
  {
    VerdictIsConjunction(b, e, policy);
    if b.root.level == e.level && e.document in policy.corpusDocumentUnique {
      FitsIsUnderPolicy(Post(b, e), e, policy);
    }
  }

  lemma FitsIsUnderPolicy(after: Books, e: Entry, policy: Policy)
    requires after.root.level == e.level && e.document in policy.corpusDocumentUnique
    ensures Fits(after, e, policy) <==> UnderPolicy(after, e, policy)
  {
    AccountsTouched(after.root, e, policy);
    CountersTouched(after.root, e, policy);
    CorpusTouched(after.corpus, e, policy);
  }

  lemma AccountsTouched(b: RootBook, e: Entry, policy: Policy)
    ensures RootWithin(b, RootTouch(e), policy) <==> AccountsUnder(b, e, policy, b.level == L1)
  {
    RootWithinTouched(b, e, policy);
  }

  lemma CountersTouched(b: RootBook, e: Entry, policy: Policy)
    ensures CountersUnder(b, CounterTouch(e), policy) <==> SentUnder(b, e, policy, b.level == L1)
  {
    assert forall k <- CounterTouch(e) :: CounterCap(policy, b.level, k).Some? ==>
      k in {SentTokens(FromRoot), SentBytes(FromRoot), SentTokens(SenderOf(e)), SentBytes(SenderOf(e)), TocNodes(e.run)};
  }

  lemma CorpusTouched(c: CorpusBook, e: Entry, policy: Policy)
    requires e.document in policy.corpusDocumentUnique
    ensures CorpusWithin(c, CorpusTouch(e), policy) <==> CorpusUnder(c, e, policy)
  {
    assert Whole in CorpusTouch(e) && DocumentOf(e.document) in CorpusTouch(e);
    assert CorpusCap(policy, Whole) == Some(policy.corpusUnique);
    assert CorpusCap(policy, DocumentOf(e.document)) == Some(policy.corpusDocumentUnique[e.document]);
  }

  // ----- what a rejection says -----

  ghost predicate Exceeds(p: Priced, cap: Cap, d: Dimension) {
    match d
    case Excerpts => |p| > cap.excerpts
    case Tokens => UniqueTokens(p) > cap.tokens
    case Bytes => UniqueBytes(p) > cap.bytes
  }

  predicate SentExceeds(counters: map<CounterKey, nat>, s: Sender, cap: Cap, d: Dimension) {
    match d
    case Excerpts => false
    case Tokens => Maps.Get(counters, SentTokens(s)) > cap.tokens
    case Bytes => Maps.Get(counters, SentBytes(s)) > cap.bytes
  }

  lemma UniqueFaultBlames(p: Priced, cap: Cap, scope: Scope)
    ensures match UniqueFault(p, cap, scope)
            case None => Inside(p, cap)
            case Some(UniqueExceeded(s, d)) => s == scope && Exceeds(p, cap, d)
            case Some(_) => false
  {
  }

  lemma SenderFaultBlames(counters: map<CounterKey, nat>, sender: Sender, cap: Cap, scope: Scope)
    ensures match SenderFault(counters, sender, cap, scope)
            case None => SentInside(counters, sender, cap)
            case Some(TransmittedExceeded(s, d)) => s == scope && SentExceeds(counters, sender, cap, d)
            case Some(_) => false
  {
  }

  /** The limits of a root, its judge and its runs. */
  ghost predicate RootBlamed(after: RootBook, e: Entry, policy: Policy, code: Code) {
    var l1 := e.level == L1;
    match code
    case UniqueExceeded(scope, d) =>
      (match scope
       case RootAccount => Exceeds(At(after.accounts, Root), if l1 then policy.l1RootUnique else policy.l2RootUnique, d)
       case JudgeAccount => e.stage == JudgeStage && Exceeds(At(after.accounts, Judge), policy.judgeUnique, d)
       case RunAccount =>
         e.stage != JudgeStage && Exceeds(At(after.accounts, RunOf(e.run)), if l1 then policy.l1OnlineUnique else policy.l2OnlineUnique, d)
       case ClaimAccount =>
         e.stage != JudgeStage && e.claim.Some? && Exceeds(At(after.accounts, ClaimOf(e.run, e.claim.value)), policy.l2ClaimUnique, d)
       case _ => false)
    case TransmittedExceeded(scope, d) =>
      (match scope
       case RootAccount => SentExceeds(after.counters, FromRoot, if l1 then policy.l1RootTransmitted else policy.l2RootTransmitted, d)
       case JudgeAccount => e.stage == JudgeStage && SentExceeds(after.counters, FromJudge, policy.judgeTransmitted, d)
       case RunAccount =>
         e.stage != JudgeStage
         && SentExceeds(after.counters, FromRun(e.run), if l1 then policy.l1OnlineTransmitted else policy.l2OnlineTransmitted, d)
       case _ => false)
    case StagePayloadMismatch => e.stage != JudgeStage && e.kind == JudgeKind
    case ClaimCountExceeded => e.claim.Some? && |ClaimsOf(after.accounts, e.run)| > policy.maxClaimsPerRun
    case TocRunExceeded => e.stage != JudgeStage && Maps.Get(after.counters, TocNodes(e.run)) > policy.tocPerRun
    case _ => false
  }

  ghost predicate CorpusBlamed(after: CorpusBook, e: Entry, policy: Policy, code: Code) {
    match code
    case UniqueExceeded(CorpusAccount, d) => Exceeds(At(after.accounts, Whole), policy.corpusUnique, d)
    case UniqueExceeded(DocumentAccount, d) =>
      e.document in policy.corpusDocumentUnique
      && Exceeds(At(after.accounts, DocumentOf(e.document)), policy.corpusDocumentUnique[e.document], d)
    case _ => false
  }

  ghost predicate Contradicted(known: Priced, facts: seq<Fact>) {
    || (exists f <- facts :: f.id in known && known[f.id] != f.size)
    || (exists f, g :: f in facts && g in facts && f.id == g.id && f.size != g.size)
  }

  ghost predicate Blamed(b: Books, e: Entry, policy: Policy, code: Code) {
    match code
    case DocumentCapMissing => e.document !in policy.corpusDocumentUnique
    case RootMismatch => b.root.id != e.root
    case TaskLevelMismatch => b.root.level != e.level
    case PolicyMismatch => b.root.policy != policy || b.corpus.policy != policy
    case FactMismatch => Contradicted(At(b.root.accounts, Root), e.facts)
    case CorpusUsageMismatch => b.corpus.id != e.corpus
    case _ => RootBlamed(PostRoot(b.root, e), e, policy, code) || CorpusBlamed(PostCorpus(b.corpus, e), e, policy, code)
  }

  lemma ClaimBlames(after: RootBook, e: Entry, policy: Policy, caps: CapSnapshot)
    requires WellFormed(e) && Snapshot(policy, e.level, e.kind, e.document) == Some(caps) && e.stage != JudgeStage
    requires ClaimFault(after, e, caps).Some?
    ensures RootBlamed(after, e, policy, ClaimFault(after, e, caps).value)
  {
    UniqueFaultBlames(At(after.accounts, ClaimOf(e.run, e.claim.value)), policy.l2ClaimUnique, ClaimAccount);
  }

  lemma RunBlames(after: RootBook, e: Entry, policy: Policy, caps: CapSnapshot)
    requires WellFormed(e) && Snapshot(policy, e.level, e.kind, e.document) == Some(caps) && e.stage != JudgeStage
    requires RunFault(after, e, caps).Some?
    ensures RootBlamed(after, e, policy, RunFault(after, e, caps).value)
  {
    if ClaimFault(after, e, caps).Some? {
      ClaimBlames(after, e, policy, caps);
    } else if e.kind != JudgeKind {
      UniqueFaultBlames(At(after.accounts, RunOf(e.run)), caps.onlineUnique.value, RunAccount);
      SenderFaultBlames(after.counters, FromRun(e.run), caps.onlineTransmitted.value, RunAccount);
    }
  }

  lemma LimitsBlame(after: RootBook, e: Entry, policy: Policy, caps: CapSnapshot)
    requires WellFormed(e) && Snapshot(policy, e.level, e.kind, e.document) == Some(caps)
    requires RootLimits(after, e, caps).Some?
    ensures RootBlamed(after, e, policy, RootLimits(after, e, caps).value)
  {
    UniqueFaultBlames(At(after.accounts, Root), caps.rootUnique, RootAccount);
    SenderFaultBlames(after.counters, FromRoot, caps.rootTransmitted, RootAccount);
    if e.stage == JudgeStage {
      UniqueFaultBlames(At(after.accounts, Judge), caps.judgeUnique, JudgeAccount);
      SenderFaultBlames(after.counters, FromJudge, caps.judgeTransmitted, JudgeAccount);
    } else if RunFault(after, e, caps).Some? {
      RunBlames(after, e, policy, caps);
    }
  }

  lemma CorpusBlames(c: CorpusBook, after: CorpusBook, e: Entry, policy: Policy, caps: CapSnapshot)
    requires Snapshot(policy, e.level, e.kind, e.document) == Some(caps) && CorpusLimits(after, e, caps).Some?
    ensures CorpusBlamed(after, e, policy, CorpusLimits(after, e, caps).value)
  {
    UniqueFaultBlames(At(after.accounts, Whole), caps.corpusUnique, CorpusAccount);
    UniqueFaultBlames(At(after.accounts, DocumentOf(e.document)), caps.documentUnique, DocumentAccount);
  }

  lemma RootLimitCodes(after: RootBook, e: Entry, policy: Policy, code: Code)
    requires RootBlamed(after, e, policy, code)
    ensures code !in {DocumentCapMissing, RootMismatch, TaskLevelMismatch, PolicyMismatch, FactMismatch, CorpusUsageMismatch}
  {
  }

  lemma CorpusLimitCodes(after: CorpusBook, e: Entry, policy: Policy, code: Code)
    requires CorpusBlamed(after, e, policy, code)
    ensures code !in {DocumentCapMissing, RootMismatch, TaskLevelMismatch, PolicyMismatch, FactMismatch, CorpusUsageMismatch}
  {
  }

  /** What each ordered half of the decision can be rejected with. */
  lemma RootFaultCases(b: RootBook, e: Entry, policy: Policy, caps: CapSnapshot)
    requires RootFault(b, e, policy, caps).Some?
    ensures var code := RootFault(b, e, policy, caps).value;
            || (code == RootMismatch && b.id != e.root) || (code == TaskLevelMismatch && b.level != e.level)
            || (code == PolicyMismatch && b.policy != policy) || (code == FactMismatch && Contradicted(At(b.accounts, Root), e.facts))
            || RootLimits(PostRoot(b, e), e, caps) == Some(code)
  {
  }

  lemma CorpusFaultCases(c: CorpusBook, e: Entry, policy: Policy, caps: CapSnapshot)
    requires CorpusFault(c, e, policy, caps).Some?
    ensures var code := CorpusFault(c, e, policy, caps).value;
            || (code == CorpusUsageMismatch && c.id != e.corpus) || (code == PolicyMismatch && c.policy != policy)
            || CorpusLimits(PostCorpus(c, e), e, caps) == Some(code)
  {
  }

  lemma RootHalfBlames(b: Books, e: Entry, policy: Policy, caps: CapSnapshot)
    requires WellFormed(e) && Snapshot(policy, e.level, e.kind, e.document) == Some(caps) && RootFault(b.root, e, policy, caps).Some?
    ensures Blamed(b, e, policy, RootFault(b.root, e, policy, caps).value)
  {
    var code := RootFault(b.root, e, policy, caps).value;
    RootFaultCases(b.root, e, policy, caps);
    if RootLimits(PostRoot(b.root, e), e, caps) == Some(code) {
      LimitsBlame(PostRoot(b.root, e), e, policy, caps);
      RootLimitCodes(PostRoot(b.root, e), e, policy, code);
    }
  }

  lemma CorpusHalfBlames(b: Books, e: Entry, policy: Policy, caps: CapSnapshot)
    requires Snapshot(policy, e.level, e.kind, e.document) == Some(caps) && CorpusFault(b.corpus, e, policy, caps).Some?
    ensures Blamed(b, e, policy, CorpusFault(b.corpus, e, policy, caps).value)
  {
    var code := CorpusFault(b.corpus, e, policy, caps).value;
    CorpusFaultCases(b.corpus, e, policy, caps);
    if CorpusLimits(PostCorpus(b.corpus, e), e, caps) == Some(code) {
      CorpusBlames(b.corpus, PostCorpus(b.corpus, e), e, policy, caps);
      CorpusLimitCodes(PostCorpus(b.corpus, e), e, policy, code);
    }
  }

  /** A rejection names a binding that differs, a size that contradicts, or an account and a
      dimension that the policy's own cap would be exceeded in. */
  lemma RejectionBlames(b: Books, e: Entry, policy: Policy)
    requires WellFormed(e) && Verdict(b, e, policy).Some?
    ensures Blamed(b, e, policy, Verdict(b, e, policy).value)
  {
    var snapshot := Snapshot(policy, e.level, e.kind, e.document);
    if snapshot.Some? {
      if RootFault(b.root, e, policy, snapshot.value).Some? {
        RootHalfBlames(b, e, policy, snapshot.value);
      } else {
        CorpusHalfBlames(b, e, policy, snapshot.value);
      }
    }
  }
}
