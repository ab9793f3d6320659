/** The ordered rejections of one reservation as a single conjunction over the accounts it
    touches, each against a cap that belongs to the account and not to the call. */
module Acceptance {
  import opened Basics
  import opened EgressContracts
  import opened Accounts
  import Maps

  // ----- caps as properties of accounts, not of calls -----

  function RootCap(policy: Policy, level: TaskLevel, k: RootKey): Option<Cap> {
    match k
    case Root => Some(if level == L1 then policy.l1RootUnique else policy.l2RootUnique)
    case RouteOf(_) => None
    case Judge => Some(policy.judgeUnique)
    case RunOf(_) => Some(if level == L1 then policy.l1OnlineUnique else policy.l2OnlineUnique)
    case ClaimOf(_, _) => Some(policy.l2ClaimUnique)
  }

  function CorpusCap(policy: Policy, k: CorpusKey): Option<Cap> {
    match k
    case Whole => Some(policy.corpusUnique)
    case DocumentOf(d) =>
      if d in policy.corpusDocumentUnique then Some(policy.corpusDocumentUnique[d]) else None
  }

  function SenderCap(policy: Policy, level: TaskLevel, s: Sender): Option<Cap> {
    match s
    case FromRoot => Some(if level == L1 then policy.l1RootTransmitted else policy.l2RootTransmitted)
    case FromStage(_) => None
    case FromJudge => Some(policy.judgeTransmitted)
    case FromRun(_) => Some(if level == L1 then policy.l1OnlineTransmitted else policy.l2OnlineTransmitted)
  }

  function CounterCap(policy: Policy, level: TaskLevel, k: CounterKey): Option<nat> {
    match k
    case SentTokens(s) =>
      (match SenderCap(policy, level, s) case Some(cap) => Some(cap.tokens) case None => None)
    case SentBytes(s) =>
      (match SenderCap(policy, level, s) case Some(cap) => Some(cap.bytes) case None => None)
    case TocNodes(_) => Some(policy.tocPerRun)
    case Sends(_) => None
  }

  ghost predicate Within(p: Priced, cap: Option<Cap>) {
    cap.Some? ==> |p| <= cap.value.excerpts && UniqueTokens(p) <= cap.value.tokens && UniqueBytes(p) <= cap.value.bytes
  }

  predicate Under(n: nat, cap: Option<nat>) {
    cap.Some? ==> n <= cap.value
  }

  ghost predicate RootWithin(b: RootBook, keys: set<RootKey>, policy: Policy) {
    forall k <- keys :: Within(At(b.accounts, k), RootCap(policy, b.level, k))
  }

  ghost predicate CountersUnder(b: RootBook, keys: set<CounterKey>, policy: Policy) {
    forall k <- keys :: Under(Maps.Get(b.counters, k), CounterCap(policy, b.level, k))
  }

  ghost predicate CorpusWithin(c: CorpusBook, keys: set<CorpusKey>, policy: Policy) {
    forall k <- keys :: Within(At(c.accounts, k), CorpusCap(policy, k))
  }

  predicate ClaimsUnder(b: RootBook, e: Entry, policy: Policy) {
    e.stage != JudgeStage && e.claim.Some? ==> |ClaimsOf(b.accounts, e.run)| <= policy.maxClaimsPerRun
  }

  predicate WellFormed(e: Entry) {
    e.claim.Some? <==> e.kind == L2Claim
  }

  lemma CountersFit(b: RootBook, e: Entry, policy: Policy, caps: CapSnapshot)
    requires Snapshot(policy, b.level, e.kind, e.document) == Some(caps)
    requires e.stage != JudgeStage ==> e.kind != JudgeKind
    ensures CountersUnder(b, CounterTouch(e), policy) <==>
            && SenderFault(b.counters, FromRoot, caps.rootTransmitted, RootAccount).None?
            && (e.stage == JudgeStage ==> SenderFault(b.counters, FromJudge, caps.judgeTransmitted, JudgeAccount).None?)
            && (e.stage != JudgeStage ==>
                  && SenderFault(b.counters, FromRun(e.run), caps.onlineTransmitted.value, RunAccount).None?
                  && Maps.Get(b.counters, TocNodes(e.run)) <= caps.tocPerRun)
  {
  }

  lemma RunFits(after: RootBook, e: Entry, policy: Policy, caps: CapSnapshot)
    requires WellFormed(e) && Snapshot(policy, after.level, e.kind, e.document) == Some(caps)
    requires e.stage != JudgeStage
    ensures RunFault(after, e, caps).None? <==>
            && e.kind != JudgeKind
            && Within(At(after.accounts, RunOf(e.run)), RootCap(policy, after.level, RunOf(e.run)))
            && (e.claim.Some? ==>
                  var k := ClaimOf(e.run, e.claim.value);
                  Within(At(after.accounts, k), RootCap(policy, after.level, k)))
            && SenderFault(after.counters, FromRun(e.run), caps.onlineTransmitted.value, RunAccount).None?
            && Maps.Get(after.counters, TocNodes(e.run)) <= caps.tocPerRun
            && ClaimsUnder(after, e, policy)
  {
  }

  lemma RootWithinTouched(b: RootBook, e: Entry, policy: Policy)
    ensures RootWithin(b, RootTouch(e), policy) <==>
            && Within(At(b.accounts, Root), RootCap(policy, b.level, Root))
            && (e.stage == JudgeStage ==> Within(At(b.accounts, Judge), RootCap(policy, b.level, Judge)))
            && (e.stage != JudgeStage ==> Within(At(b.accounts, RunOf(e.run)), RootCap(policy, b.level, RunOf(e.run))))
            && (e.stage != JudgeStage && e.claim.Some? ==>
                  var k := ClaimOf(e.run, e.claim.value);
                  Within(At(b.accounts, k), RootCap(policy, b.level, k)))
  {
  }

  lemma JudgeFits(after: RootBook, policy: Policy, kind: Kind, document: Id, caps: CapSnapshot)
    requires Snapshot(policy, after.level, kind, document) == Some(caps)
    ensures JudgeFault(after, caps).None? <==>
            && Within(At(after.accounts, Judge), RootCap(policy, after.level, Judge))
            && SenderFault(after.counters, FromJudge, caps.judgeTransmitted, JudgeAccount).None?
  {
  }

  lemma RootFits(after: RootBook, e: Entry, policy: Policy, caps: CapSnapshot)
    requires WellFormed(e) && Snapshot(policy, after.level, e.kind, e.document) == Some(caps)
    ensures RootLimits(after, e, caps).None? <==>
            && (e.stage != JudgeStage ==> e.kind != JudgeKind)
            && RootWithin(after, RootTouch(e), policy)
            && CountersUnder(after, CounterTouch(e), policy)
            && ClaimsUnder(after, e, policy)
  {
    RootWithinTouched(after, e, policy);
    if e.stage == JudgeStage {
      CountersFit(after, e, policy, caps);
      JudgeFits(after, policy, e.kind, e.document, caps);
    } else {
      RunFits(after, e, policy, caps);
      if e.kind != JudgeKind {
        CountersFit(after, e, policy, caps);
      }
    }
  }

  lemma CorpusFits(after: CorpusBook, e: Entry, policy: Policy, caps: CapSnapshot)
    requires exists level :: Snapshot(policy, level, e.kind, e.document) == Some(caps)
    ensures CorpusLimits(after, e, caps).None? <==> CorpusWithin(after, CorpusTouch(e), policy)
  {
  }

  predicate RootHeader(b: RootBook, e: Entry, policy: Policy) {
    && b.id == e.root && b.level == e.level && b.policy == policy
    && (e.stage != JudgeStage ==> e.kind != JudgeKind)
  }

  predicate CorpusHeader(c: CorpusBook, e: Entry, policy: Policy) {
    c.id == e.corpus && c.policy == policy && e.document in policy.corpusDocumentUnique
  }

  ghost predicate RootFitsIn(b: RootBook, e: Entry, policy: Policy) {
    RootWithin(b, RootTouch(e), policy) && CountersUnder(b, CounterTouch(e), policy) && ClaimsUnder(b, e, policy)
  }

  lemma RootVerdict(b: RootBook, e: Entry, policy: Policy, caps: CapSnapshot)
    requires WellFormed(e) && Snapshot(policy, e.level, e.kind, e.document) == Some(caps)
    ensures RootFault(b, e, policy, caps).None? <==>
            RootHeader(b, e, policy) && Consistent(At(b.accounts, Root), e.facts) && RootFitsIn(PostRoot(b, e), e, policy)
  {
    if b.id == e.root && b.level == e.level && b.policy == policy && Consistent(At(b.accounts, Root), e.facts) {
      RootFits(PostRoot(b, e), e, policy, caps);
    }
  }

  lemma CorpusVerdict(c: CorpusBook, e: Entry, policy: Policy, caps: CapSnapshot)
    requires Snapshot(policy, e.level, e.kind, e.document) == Some(caps)
    ensures CorpusFault(c, e, policy, caps).None? <==>
            CorpusHeader(c, e, policy) && CorpusWithin(PostCorpus(c, e), CorpusTouch(e), policy)
  {
    CorpusFits(PostCorpus(c, e), e, policy, caps);
  }

  /** Every account the entry touches is within its cap in `b`. */
  ghost predicate Fits(b: Books, e: Entry, policy: Policy) {
    RootFitsIn(b.root, e, policy) && CorpusWithin(b.corpus, CorpusTouch(e), policy)
  }

  /** What an acceptance needs of the entry and of the books' bindings alone. */
  predicate Admissible(b: Books, e: Entry, policy: Policy) {
    WellFormed(e) && RootHeader(b.root, e, policy) && CorpusHeader(b.corpus, e, policy)
  }

  /** The ordered decision is one conjunction: nothing is accepted for its order. */
  lemma VerdictIsConjunction(b: Books, e: Entry, policy: Policy)
    requires WellFormed(e)
    ensures Verdict(b, e, policy).None? <==>
            Admissible(b, e, policy) && Consistent(At(b.root.accounts, Root), e.facts) && Fits(Post(b, e), e, policy)
  {
    var snapshot := Snapshot(policy, e.level, e.kind, e.document);
    if snapshot.Some? {
      RootVerdict(b.root, e, policy, snapshot.value);
      CorpusVerdict(b.corpus, e, policy, snapshot.value);
    }
  }
}
