/** The budget as flat books: every account is the map from the disclosures it has
    counted to the sizes they were first counted at. This is the simple form the
    nested snapshots of the enforcer refine. */
module Accounts {
  import opened Basics
  import opened EgressContracts
  import Maps

  type Priced = map<DisclosureId, Size>

  function TokenMap(p: Priced): map<DisclosureId, nat> {
    map i | i in p :: p[i].tokens as nat
  }

  function ByteMap(p: Priced): map<DisclosureId, nat> {
    map i | i in p :: p[i].bytes as nat
  }

  ghost function UniqueTokens(p: Priced): nat {
    Maps.Sum(TokenMap(p))
  }

  ghost function UniqueBytes(p: Priced): nat {
    Maps.Sum(ByteMap(p))
  }

  datatype RootKey = Root | RouteOf(route: Route) | Judge | RunOf(run: Id) | ClaimOf(run: Id, claim: Id)
  datatype CorpusKey = Whole | DocumentOf(document: Id)
  datatype Sender = FromRoot | FromStage(stage: Stage) | FromJudge | FromRun(run: Id)
  datatype CounterKey = SentTokens(sender: Sender) | SentBytes(sender: Sender) | TocNodes(run: Id) | Sends(stage: Stage)

  datatype RootBook = RootBook(
    id: Id, level: TaskLevel, policy: Policy,
    accounts: map<RootKey, Priced>, counters: map<CounterKey, nat>)
  datatype CorpusBook = CorpusBook(id: Id, policy: Policy, accounts: map<CorpusKey, Priced>)
  datatype Books = Books(root: RootBook, corpus: CorpusBook)

  function EmptyRoot(id: Id, level: TaskLevel, policy: Policy): RootBook {
    RootBook(id, level, policy, map[Root := map[], Judge := map[]], map[])
  }

  function EmptyCorpus(id: Id, policy: Policy): CorpusBook {
    CorpusBook(id, policy, map[Whole := map[]])
  }

  function At<K>(accounts: map<K, Priced>, k: K): Priced {
    if k in accounts then accounts[k] else map[]
  }

  /** One priced reservation: what a request charges, with everything else forgotten. */
  datatype Entry = Entry(
    root: Id, run: Id, level: TaskLevel, stage: Stage, route: Route, kind: Kind,
    corpus: Id, document: Id, claim: Option<Id>, facts: seq<Fact>, toc: nat)

  function FactTokens(facts: seq<Fact>): nat {
    if facts == [] then 0 else facts[0].size.tokens + FactTokens(facts[1..])
  }

  function FactBytes(facts: seq<Fact>): nat {
    if facts == [] then 0 else facts[0].size.bytes + FactBytes(facts[1..])
  }

  /** The distinct disclosures of one request, each at its first size. */
  function Price(facts: seq<Fact>): Priced {
    if facts == [] then map[] else Price(facts[1..])[facts[0].id := facts[0].size]
  }

  /** No fact contradicts the known sizes or another fact of the same request. */
  predicate Consistent(known: Priced, facts: seq<Fact>) {
    && (forall f <- facts :: f.id in known ==> known[f.id] == f.size)
    && (forall f, g :: f in facts && g in facts && f.id == g.id ==> f.size == g.size)
  }

  /** Count `p` once in every touched account; what an account already holds stays. */
  function Charge<K>(accounts: map<K, Priced>, touched: set<K>, p: Priced): map<K, Priced> {
    map k | k in accounts.Keys + touched ::
      if k in touched then p + At(accounts, k) else accounts[k]
  }

  function RootTouch(e: Entry): set<RootKey> {
    {Root, RouteOf(e.route)} +
    if e.stage == JudgeStage then {Judge}
    else if e.claim.Some? then {RunOf(e.run), ClaimOf(e.run, e.claim.value)}
    else {RunOf(e.run)}
  }

  function CorpusTouch(e: Entry): set<CorpusKey> {
    {Whole, DocumentOf(e.document)}
  }

  function SenderOf(e: Entry): Sender {
    if e.stage == JudgeStage then FromJudge else FromRun(e.run)
  }

  function CounterTouch(e: Entry): set<CounterKey> {
    {SentTokens(FromRoot), SentBytes(FromRoot), SentTokens(FromStage(e.stage)), SentBytes(FromStage(e.stage)),
     Sends(e.stage), SentTokens(SenderOf(e)), SentBytes(SenderOf(e))} +
    if e.stage == JudgeStage then {} else {TocNodes(e.run)}
  }

  function Increment(e: Entry, k: CounterKey): nat {
    match k
    case SentTokens(_) => FactTokens(e.facts)
    case SentBytes(_) => FactBytes(e.facts)
    case TocNodes(_) => e.toc
    case Sends(_) => 1
  }

  function Increments(e: Entry): map<CounterKey, nat> {
    map k | k in CounterTouch(e) :: Increment(e, k)
  }

  function PostRoot(b: RootBook, e: Entry): RootBook {
    b.(accounts := Charge(b.accounts, RootTouch(e), Price(e.facts)),
       counters := Maps.Plus(b.counters, Increments(e)))
  }

  function PostCorpus(c: CorpusBook, e: Entry): CorpusBook {
    c.(accounts := Charge(c.accounts, CorpusTouch(e), Price(e.facts)))
  }

  function Post(b: Books, e: Entry): Books {
    Books(PostRoot(b.root, e), PostCorpus(b.corpus, e))
  }

  function ClaimsOf(accounts: map<RootKey, Priced>, run: Id): set<RootKey> {
    set k | k in accounts && k.ClaimOf? && k.run == run
  }

  // ----- the decision, in the order the enforcer takes it -----

  function Or(first: Option<Code>, second: Option<Code>): Option<Code> {
    if first.Some? then first else second
  }

  function Fault(bad: bool, code: Code): Option<Code> {
    if bad then Some(code) else None
  }

  ghost function UniqueFault(p: Priced, cap: Cap, scope: Scope): Option<Code> {
    if |p| > cap.excerpts then Some(UniqueExceeded(scope, Excerpts))
    else if UniqueTokens(p) > cap.tokens then Some(UniqueExceeded(scope, Tokens))
    else if UniqueBytes(p) > cap.bytes then Some(UniqueExceeded(scope, Bytes))
    else None
  }

  function SentFault(tokens: nat, bytes: nat, cap: Cap, scope: Scope): Option<Code> {
    if tokens > cap.tokens then Some(TransmittedExceeded(scope, Tokens))
    else if bytes > cap.bytes then Some(TransmittedExceeded(scope, Bytes))
    else None
  }

  function SenderFault(counters: map<CounterKey, nat>, sender: Sender, cap: Cap, scope: Scope): Option<Code> {
    SentFault(Maps.Get(counters, SentTokens(sender)), Maps.Get(counters, SentBytes(sender)), cap, scope)
  }

  ghost function ClaimFault(after: RootBook, e: Entry, caps: CapSnapshot): Option<Code> {
    if e.claim.None? then None
    else if caps.claimUnique.None? then Some(ClaimPayloadMismatch)
    else
      Or(UniqueFault(At(after.accounts, ClaimOf(e.run, e.claim.value)), caps.claimUnique.value, ClaimAccount),
         Fault(|ClaimsOf(after.accounts, e.run)| > caps.maxClaims, ClaimCountExceeded))
  }

  ghost function RunAccountFault(p: Priced, tokens: nat, bytes: nat, toc: nat, caps: CapSnapshot): Option<Code> {
    if caps.onlineUnique.None? || caps.onlineTransmitted.None? then Some(StagePayloadMismatch)
    else
      Or(UniqueFault(p, caps.onlineUnique.value, RunAccount),
      Or(SentFault(tokens, bytes, caps.onlineTransmitted.value, RunAccount),
         Fault(toc > caps.tocPerRun, TocRunExceeded)))
  }

  ghost function RunFault(after: RootBook, e: Entry, caps: CapSnapshot): Option<Code> {
    Or(ClaimFault(after, e, caps),
       RunAccountFault(At(after.accounts, RunOf(e.run)),
                       Maps.Get(after.counters, SentTokens(FromRun(e.run))), Maps.Get(after.counters, SentBytes(FromRun(e.run))),
                       Maps.Get(after.counters, TocNodes(e.run)), caps))
  }

  ghost function JudgeFault(after: RootBook, caps: CapSnapshot): Option<Code> {
    Or(UniqueFault(At(after.accounts, Judge), caps.judgeUnique, JudgeAccount),
       SenderFault(after.counters, FromJudge, caps.judgeTransmitted, JudgeAccount))
  }

  ghost function RootLimits(after: RootBook, e: Entry, caps: CapSnapshot): Option<Code> {
    Or(UniqueFault(At(after.accounts, Root), caps.rootUnique, RootAccount),
    Or(SenderFault(after.counters, FromRoot, caps.rootTransmitted, RootAccount),
       if e.stage == JudgeStage then JudgeFault(after, caps) else RunFault(after, e, caps)))
  }

  ghost function RootFault(b: RootBook, e: Entry, policy: Policy, caps: CapSnapshot): Option<Code> {
    if b.id != e.root then Some(RootMismatch)
    else if b.level != e.level then Some(TaskLevelMismatch)
    else if b.policy != policy then Some(PolicyMismatch)
    else if !Consistent(At(b.accounts, Root), e.facts) then Some(FactMismatch)
    else RootLimits(PostRoot(b, e), e, caps)
  }

  ghost function CorpusLimits(after: CorpusBook, e: Entry, caps: CapSnapshot): Option<Code> {
    Or(UniqueFault(At(after.accounts, Whole), caps.corpusUnique, CorpusAccount),
       UniqueFault(At(after.accounts, DocumentOf(e.document)), caps.documentUnique, DocumentAccount))
  }

  ghost function CorpusFault(c: CorpusBook, e: Entry, policy: Policy, caps: CapSnapshot): Option<Code> {
    if c.id != e.corpus then Some(CorpusUsageMismatch)
    else if c.policy != policy then Some(PolicyMismatch)
    else CorpusLimits(PostCorpus(c, e), e, caps)
  }

  /** None: the reservation is accepted; otherwise the code it is rejected with. */
  ghost function Verdict(b: Books, e: Entry, policy: Policy): Option<Code> {
    match Snapshot(policy, e.level, e.kind, e.document)
    case None => Some(DocumentCapMissing)
    case Some(caps) => Or(RootFault(b.root, e, policy, caps), CorpusFault(b.corpus, e, policy, caps))
  }
}
