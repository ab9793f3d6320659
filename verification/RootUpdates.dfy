/** One reservation applied to a root snapshot: the order of the checks, and the new snapshot
    against the posted book. */
module RootUpdates {
  import opened Basics
  import opened Sequences
  import opened EgressContracts
  import opened Accounts
  import opened OrderIndependence
  import opened ScopeInvariants
  import opened Snapshots
  import opened AccountUpdates
  import opened ScopeUpdates
  import Maps

  // ----- the root's own totals -----

  ghost function TotalsFault(p: Priced, tokens: nat, bytes: nat, caps: CapSnapshot): Option<Code> {
    Or(UniqueFault(p, caps.rootUnique, RootAccount), SentFault(tokens, bytes, caps.rootTransmitted, RootAccount))
  }

  ghost predicate TotalsDecided(after: RootBook, caps: CapSnapshot, fault: Option<Code>) {
    forall n: nat {:trigger Maps.Unfold(n)} :: Maps.Unfold(n) ==>
      fault == TotalsFault(At(after.accounts, Root), Maps.Get(after.counters, SentTokens(FromRoot)),
                           Maps.Get(after.counters, SentBytes(FromRoot)), caps)
  }

  ghost predicate JudgeDecided(after: RootBook, caps: CapSnapshot, fault: Option<Code>) {
    forall n: nat {:trigger Maps.Unfold(n)} :: Maps.Unfold(n) ==> fault == JudgeFault(after, caps)
  }

  ghost predicate LimitsDecided(after: RootBook, e: Entry, caps: CapSnapshot, fault: Option<Code>) {
    forall n: nat {:trigger Maps.Unfold(n)} :: Maps.Unfold(n) ==> fault == RootLimits(after, e, caps)
  }

  lemma Listed(facts: seq<Fact>)
    requires Distinct(IdsOf(facts))
    ensures SameIds(IdsOf(facts), Price(facts))
  {
    forall i ensures i in IdsOf(facts) <==> i in Price(facts) {
      ListedIds(facts, i);
    }
  }

  lemma RootAccountAfter(b: RootBook, e: Entry, after: RootBook)
    requires Posted(b, e, after)
    ensures At(after.accounts, Root) == Price(e.facts) + At(b.accounts, Root)
    ensures Maps.Get(after.counters, SentTokens(FromRoot)) == Maps.Get(b.counters, SentTokens(FromRoot)) + FactTokens(e.facts)
    ensures Maps.Get(after.counters, SentBytes(FromRoot)) == Maps.Get(b.counters, SentBytes(FromRoot)) + FactBytes(e.facts)
  {
    AccountAfter(b, e, after, Root);
    CounterAfter(b, e, after, SentTokens(FromRoot));
    CounterAfter(b, e, after, SentBytes(FromRoot));
  }

  /** The merged facts of the root and its totals, checked before any other account. */
  method CheckedTotals(u: UsageSnapshot, added: seq<Fact>, tokens: nat, bytes: nat, caps: CapSnapshot, ghost p: Priced)
    returns (r: Result<UsageSnapshot>, merged: seq<Fact>)
    requires Distinct(IdsOf(u.disclosures)) && Distinct(IdsOf(added))
    requires p == Price(added) + Price(u.disclosures)
    ensures Outcome(r) == TotalsFault(p, u.sentTokens + tokens, u.sentBytes + bytes, caps)
    ensures Distinct(IdsOf(merged)) && Price(merged) == p
    ensures r.Ok? ==> r.value == u.(disclosures := merged, uniqueTokens := UniqueTokens(p), uniqueBytes := UniqueBytes(p),
                                    sentTokens := u.sentTokens + tokens, sentBytes := u.sentBytes + bytes)
  {
    merged := MergeFacts(u.disclosures, Price(u.disclosures), added);
    Listed(merged);
    var ids := IdsOf(merged);
    var sizes := Price(merged);
    assert forall i <- ids :: i in sizes;
    var sums := SizeSums(ids, sizes);
    SizeSumsAreTotals(ids, p, sizes);
    var unique := UniqueUsage(ids, sums.0, sums.1);
    CheckUniqueDecides(unique, p, caps.rootUnique, RootAccount);
    var fault := Or(CheckUnique(unique, caps.rootUnique, RootAccount),
                    SentFault(u.sentTokens + tokens, u.sentBytes + bytes, caps.rootTransmitted, RootAccount));
    r := if fault.Some? then Err(fault.value)
         else Ok(u.(disclosures := merged, uniqueTokens := sums.0, uniqueBytes := sums.1,
                    sentTokens := u.sentTokens + tokens, sentBytes := u.sentBytes + bytes));
  }

  method UpdatedTotals(u: UsageSnapshot, added: seq<Fact>, e: Entry, caps: CapSnapshot, ghost b: RootBook, ghost after: RootBook)
    returns (r: Result<UsageSnapshot>, merged: seq<Fact>)
    requires Posted(b, e, after) && RootTotalsRepresent(u, b)
    requires Distinct(IdsOf(added)) && Price(added) == Price(e.facts)
    ensures TotalsDecided(after, caps, Outcome(r))
    ensures Price(merged) == Price(e.facts) + At(b.accounts, Root)
    ensures r.Ok? ==> RootTotalsRepresent(r.value, after)
    ensures r.Ok? ==> r.value == u.(disclosures := r.value.disclosures,
                                    uniqueTokens := r.value.uniqueTokens, uniqueBytes := r.value.uniqueBytes,
                                    sentTokens := r.value.sentTokens, sentBytes := r.value.sentBytes)
  {
    RootAccountAfter(b, e, after);
    r, merged := CheckedTotals(u, added, FactTokens(e.facts), FactBytes(e.facts), caps, At(after.accounts, Root));
  }

  // ----- the judge -----

  lemma JudgeAfter(b: RootBook, e: Entry, after: RootBook)
    requires Posted(b, e, after) && e.stage == JudgeStage
    ensures At(after.accounts, Judge) == Price(e.facts) + At(b.accounts, Judge)
    ensures Maps.Get(after.counters, SentTokens(FromJudge)) == Maps.Get(b.counters, SentTokens(FromJudge)) + FactTokens(e.facts)
    ensures Maps.Get(after.counters, SentBytes(FromJudge)) == Maps.Get(b.counters, SentBytes(FromJudge)) + FactBytes(e.facts)
  {
    AccountAfter(b, e, after, Judge);
    CounterAfter(b, e, after, SentTokens(FromJudge));
    CounterAfter(b, e, after, SentBytes(FromJudge));
  }

  lemma JudgeKept(u: UsageSnapshot, b: RootBook, e: Entry, after: RootBook)
    requires Posted(b, e, after) && e.stage != JudgeStage && JudgeRepresents(u, b)
    ensures JudgeRepresents(u, after)
  {
    AccountAfter(b, e, after, Judge);
    CounterAfter(b, e, after, SentTokens(FromJudge));
    CounterAfter(b, e, after, SentBytes(FromJudge));
  }

  method UpdatedJudge(u: UsageSnapshot, e: Entry, caps: CapSnapshot, merged: Priced, ghost b: RootBook, ghost after: RootBook)
    returns (r: Result<UsageSnapshot>)
    requires Posted(b, e, after) && Merging(b, e, merged) && JudgeRepresents(u, b) && e.stage == JudgeStage
    ensures JudgeDecided(after, caps, Outcome(r))
    ensures r.Ok? ==> JudgeRepresents(r.value, after)
    ensures r.Ok? ==> r.value == u.(judge := r.value.judge, judgeTokens := r.value.judgeTokens, judgeBytes := r.value.judgeBytes)
  {
    MergedCovers(b, e, merged, Judge);
    JudgeAfter(b, e, after);
    var tokens, bytes := u.judgeTokens + FactTokens(e.facts), u.judgeBytes + FactBytes(e.facts);
    var unique := RecountWithin(u.judge, e.facts, merged, caps.judgeUnique, JudgeAccount, At(b.accounts, Judge));
    if unique.Err? {
      return Err(unique.code);
    }
    var sent := SentFault(tokens, bytes, caps.judgeTransmitted, JudgeAccount);
    if sent.Some? {
      return Err(sent.value);
    }
    r := Ok(u.(judge := unique.value, judgeTokens := tokens, judgeBytes := bytes));
  }

  // ----- all scopes of the root -----

  method UpdatedHolders(u: UsageSnapshot, e: Entry, caps: CapSnapshot, merged: Priced, ghost b: RootBook, ghost after: RootBook)
    returns (r: Result<UsageSnapshot>)
    requires Posted(b, e, after) && Merging(b, e, merged) && TotalsDecided(after, caps, None)
    requires JudgeRepresents(u, b) && RunsRepresent(u.runs, b)
    ensures LimitsDecided(after, e, caps, Outcome(r))
    ensures r.Ok? ==> JudgeRepresents(r.value, after) && RunsRepresent(r.value.runs, after)
    ensures r.Ok? ==> r.value == u.(judge := r.value.judge, judgeTokens := r.value.judgeTokens,
                                    judgeBytes := r.value.judgeBytes, runs := r.value.runs)
  {
    if e.stage == JudgeStage {
      r := UpdatedJudge(u, e, caps, merged, b, after);
      RunsKept(u.runs, b, e, after);
    } else {
      var runs := UpdatedRuns(u.runs, e, caps, merged, b, after);
      JudgeKept(u, b, e, after);
      r := if runs.Err? then Err(runs.code) else Ok(u.(runs := runs.value));
    }
  }

  lemma HeaderAfter(b: RootBook, e: Entry, after: RootBook)
    requires Posted(b, e, after)
    ensures after.id == b.id && after.level == b.level && after.policy == b.policy
  {
    assert Maps.Unfold(0);
  }

  method UpdatedScopes(u: UsageSnapshot, added: seq<Fact>, e: Entry, caps: CapSnapshot, ghost b: RootBook, ghost after: RootBook)
    returns (r: Result<UsageSnapshot>)
    requires Posted(b, e, after) && RootRepresents(u, b) && Nested(b.accounts) && Consistent(At(b.accounts, Root), e.facts)
    requires Distinct(IdsOf(added)) && Price(added) == Price(e.facts)
    ensures LimitsDecided(after, e, caps, Outcome(r))
    ensures r.Ok? ==> RootRepresents(r.value, after)
  {
    HeaderAfter(b, e, after);
    var totals, facts := UpdatedTotals(u, added, e, caps, b, after);
    if totals.Err? {
      return Err(totals.code);
    }
    var merged := Price(facts);
    var routes := UpdatedRoutes(u.routes, e, merged, b, after);
    var stages := UpdatedStages(u.stages, e, b, after);
    r := UpdatedHolders(totals.value.(routes := routes, stages := stages), e, caps, merged, b, after);
  }

  lemma LimitsOfPost(b: RootBook, e: Entry, caps: CapSnapshot, fault: Option<Code>)
    requires LimitsDecided(PostRoot(b, e), e, caps, fault)
    ensures fault == RootLimits(PostRoot(b, e), e, caps)
  {
    assert Maps.Unfold(0);
  }

  method EmptySnapshot(e: Entry, policy: Policy) returns (u: UsageSnapshot)
    ensures RootRepresents(u, EmptyRoot(e.root, e.level, policy))
  {
    EmptySize();
    u := UsageSnapshot(e.root, e.level, policy, [], [], [], [], NOTHING, 0, 0, 0, 0, 0, 0);
  }

  /** A root's snapshot moved by one reservation: refused with the code of the decision over
      the flat book, or moved to represent the posted book. */
  method ApplyUsage(existing: Option<UsageSnapshot>, e: Entry, policy: Policy, caps: CapSnapshot, ghost b: RootBook)
    returns (r: Result<UsageSnapshot>)
    requires existing.None? ==> b == EmptyRoot(e.root, e.level, policy)
    requires existing.Some? ==> RootRepresents(existing.value, b)
    requires Nested(b.accounts)
    ensures Outcome(r) == RootFault(b, e, policy, caps)
    ensures r.Ok? ==> RootRepresents(r.value, PostRoot(b, e))
  {
    var u: UsageSnapshot;
    if existing.None? {
      u := EmptySnapshot(e, policy);
    } else {
      u := existing.value;
    }
    if u.root != e.root {
      return Err(RootMismatch);
    }
    if u.level != e.level {
      return Err(TaskLevelMismatch);
    }
    if u.policy != policy {
      return Err(PolicyMismatch);
    }
    var added := CheckFacts(Price(u.disclosures), e.facts);
    if added.Err? {
      return Err(added.code);
    }
    Deduplicated(added.value, e.facts);
    r := UpdatedScopes(u, added.value, e, caps, b, PostRoot(b, e));
    LimitsOfPost(b, e, caps, Outcome(r));
  }

  lemma Deduplicated(added: seq<Fact>, facts: seq<Fact>)
    requires IdsOf(added) == Union([], IdsOf(facts))
    ensures Distinct(IdsOf(added))
  {
    UnionProperties([], IdsOf(facts));
  }
}
