/** Values exchanged by the egress budget: requests, policies, caps and rejections.
    Opaque identifiers and hashes are natural numbers; a policy stands for its own
    content hash, because content addressing is injective. */
module EgressContracts {
  import opened Basics

  type Positive = n: int | 0 < n witness 1

  datatype Result<+T> = Ok(value: T) | Err(code: Code)

  datatype TaskLevel = L1 | L2
  datatype Stage = Planning | EvidenceStage | Compliance | Verifier | JudgeStage
  datatype Use = OnlineMain | OfflineJudge
  datatype Route = Route(provider: Id, purpose: Id, use: Use)
  datatype Kind = L1Query | L1Plan | L2Design | L2Claim | JudgeKind

  datatype Span = Span(paragraphStart: nat, paragraphEnd: nat, tokenStart: nat, tokenEnd: nat)

  /** The disclosure id is the tuple it hashes. */
  datatype DisclosureId = DisclosureId(corpus: Id, content: Id, quote: Id, span: Span)
  datatype Size = Size(tokens: Positive, bytes: Positive)
  datatype Fact = Fact(id: DisclosureId, size: Size)

  /** `quote` is the hash of the exact quote, `quoteBytes` its UTF-8 length. */
  datatype Excerpt = Excerpt(corpus: Id, content: Id, quote: Id, quoteBytes: Positive, span: Span)

  datatype Payload =
    | L1QueryPayload(query: Id, toc: nat, excerpts: seq<Excerpt>)
    | L1PlanPayload(query: Id, maxToolCalls: nat)
    | L2DesignPayload(description: Id, toc: nat, excerpts: seq<Excerpt>)
    | L2ClaimPayload(claim: Id, text: Id, toc: nat, excerpts: seq<Excerpt>)
    | JudgePayload(gold: seq<Excerpt>)
  {
    function KindOf(): Kind {
      match this
      case L1QueryPayload(_, _, _) => L1Query
      case L1PlanPayload(_, _) => L1Plan
      case L2DesignPayload(_, _, _) => L2Design
      case L2ClaimPayload(_, _, _, _) => L2Claim
      case JudgePayload(_) => JudgeKind
    }

    /** The judge payload carries no level of its own. */
    function Level(): Option<TaskLevel> {
      match this
      case L1QueryPayload(_, _, _) => Some(L1)
      case L1PlanPayload(_, calls) => if calls == 6 then Some(L1) else Some(L2)
      case JudgePayload(_) => None
      case _ => Some(L2)
    }

    function Excerpts(): seq<Excerpt> {
      match this
      case JudgePayload(gold) => gold
      case L1PlanPayload(_, _) => []
      case _ => excerpts
    }

    function TocCount(): nat {
      match this
      case JudgePayload(_) => 0
      case L1PlanPayload(_, _) => 0
      case _ => toc
    }

    function ProjectedText(): Option<Id> {
      match this
      case L1QueryPayload(query, _, _) => Some(query)
      case L1PlanPayload(query, _) => Some(query)
      case L2DesignPayload(description, _, _) => Some(description)
      case L2ClaimPayload(_, text, _, _) => Some(text)
      case JudgePayload(_) => None
    }

    function Claim(): Option<Id> {
      match this
      case L2ClaimPayload(claim, _, _, _) => Some(claim)
      case _ => None
    }
  }

  /** `bound` abstracts the comparison of version metadata with the source manifest. */
  datatype Version = Version(corpus: Id, document: Id, bound: bool)
  datatype EgressRequest = EgressRequest(
    root: Id, run: Id, level: TaskLevel, version: Version,
    stage: Stage, route: Route, model: Id, payload: Payload)
  datatype ReservationRequest = ReservationRequest(request: EgressRequest, disclosures: seq<Fact>)

  /** A model-compatible token counter; a count that is not positive stands for a failure. */
  datatype Counter = Counter(provider: Id, model: Id, count: Id -> int)

  datatype Cap = Cap(excerpts: nat, tokens: nat, bytes: nat)

  datatype Policy = Policy(
    allowlist: map<Stage, set<Kind>>,
    excerpt: Cap,
    l1OnlineUnique: Cap, l1OnlineTransmitted: Cap,
    l2OnlineUnique: Cap, l2ClaimUnique: Cap, l2OnlineTransmitted: Cap,
    judgeUnique: Cap, judgeTransmitted: Cap,
    l1RootUnique: Cap, l1RootTransmitted: Cap,
    l2RootUnique: Cap, l2RootTransmitted: Cap,
    corpusUnique: Cap, corpusDocumentUnique: map<Id, Cap>,
    tocPerCall: nat, tocPerRun: nat,
    l1QueryTokens: nat, l1PlanTokens: nat, l2DesignTokens: nat,
    maxClaimsPerRun: nat)

  datatype CapSnapshot = CapSnapshot(
    excerpt: Cap,
    onlineUnique: Option<Cap>, onlineTransmitted: Option<Cap>, claimUnique: Option<Cap>,
    judgeUnique: Cap, judgeTransmitted: Cap,
    rootUnique: Cap, rootTransmitted: Cap,
    corpusUnique: Cap, documentUnique: Cap,
    tocPerCall: nat, tocPerRun: nat, maxClaims: nat, projectedText: Option<nat>)

  /** The caps one call is checked against; None when the document is not priced. */
  function Snapshot(policy: Policy, level: TaskLevel, kind: Kind, document: Id): Option<CapSnapshot> {
    if document !in policy.corpusDocumentUnique then None else
      var judge := kind == JudgeKind;
      var l1 := level == L1;
      Some(CapSnapshot(
        policy.excerpt,
        if judge then None else Some(if l1 then policy.l1OnlineUnique else policy.l2OnlineUnique),
        if judge then None else Some(if l1 then policy.l1OnlineTransmitted else policy.l2OnlineTransmitted),
        if kind == L2Claim then Some(policy.l2ClaimUnique) else None,
        policy.judgeUnique, policy.judgeTransmitted,
        if l1 then policy.l1RootUnique else policy.l2RootUnique,
        if l1 then policy.l1RootTransmitted else policy.l2RootTransmitted,
        policy.corpusUnique, policy.corpusDocumentUnique[document],
        policy.tocPerCall, policy.tocPerRun, policy.maxClaimsPerRun,
        match kind
        case L1Query => Some(policy.l1QueryTokens)
        case L1Plan => Some(policy.l1PlanTokens)
        case JudgeKind => None
        case _ => Some(policy.l2DesignTokens)))
  }

  datatype Dimension = Excerpts | Tokens | Bytes
  datatype Scope = RootAccount | JudgeAccount | RunAccount | ClaimAccount | CorpusAccount | DocumentAccount

  datatype Code =
    | TaskLevelMismatch | StagePayloadMismatch | StageRouteMismatch
    | VersionUnbound | CorpusManifestMismatch | RouteUnauthorized
    | CounterIncompatible | TokenAccountingUnavailable
    | DocumentCapMissing | ProjectedTextExceeded
    | ExcerptTokensExceeded | ExcerptBytesExceeded | TocCallExceeded
    | AccountingMismatch
    | RootMismatch | CorpusUsageMismatch | PolicyMismatch | FactMismatch
    | UniqueExceeded(scope: Scope, dimension: Dimension)
    | TransmittedExceeded(scope: Scope, dimension: Dimension)
    | ClaimPayloadMismatch | ClaimCountExceeded | TocRunExceeded
}
