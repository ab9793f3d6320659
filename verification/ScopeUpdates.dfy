/** The update-or-append loops over the account lists of a root snapshot and of a corpus. */
module ScopeUpdates {
  import opened Basics
  import opened Sequences
  import opened EgressContracts
  import opened Accounts
  import opened OrderIndependence
  import opened ScopeInvariants
  import opened Snapshots
  import opened AccountUpdates
  import Maps

  /** What every update of a root list may rely on: the request has passed the fact check
      and `merged` prices all facts of the root. */
  ghost predicate Merging(b: RootBook, e: Entry, merged: Priced) {
    Nested(b.accounts) && Consistent(At(b.accounts, Root), e.facts) && merged == Price(e.facts) + At(b.accounts, Root)
  }

  lemma MergedCovers(b: RootBook, e: Entry, merged: Priced, k: RootKey)
    requires Merging(b, e, merged)
    ensures SubMap(Price(e.facts) + At(b.accounts, k), merged)
  {
    ConsistentAgrees(b, e, Root);
    ConsistentAgrees(b, e, k);
  }

  /** `after` is the book after posting `e`. The equation is kept behind a trigger, so that
      proofs read the new book one account at a time through the two lemmas below. */
  ghost predicate Posted(b: RootBook, e: Entry, after: RootBook) {
    forall n: nat {:trigger Maps.Unfold(n)} :: Maps.Unfold(n) ==> after == PostRoot(b, e)
  }

  lemma AccountAfter(b: RootBook, e: Entry, after: RootBook, k: RootKey)
    requires Posted(b, e, after)
    ensures At(after.accounts, k) == if k in RootTouch(e) then Price(e.facts) + At(b.accounts, k) else At(b.accounts, k)
    ensures k in after.accounts <==> k in b.accounts || k in RootTouch(e)
  {
    assert Maps.Unfold(0);
    ChargeAt(b.accounts, RootTouch(e), Price(e.facts), k);
  }

  lemma CounterAfter(b: RootBook, e: Entry, after: RootBook, k: CounterKey)
    requires Posted(b, e, after)
    ensures Maps.Get(after.counters, k) ==
            Maps.Get(b.counters, k) + if k in CounterTouch(e) then Increment(e, k) else 0
  {
    assert Maps.Unfold(0);
    PlusAt(b.counters, Increments(e), k);
  }

  /** What the ordered decision says about a run and its claim, kept behind the trigger too. */
  ghost predicate ClaimDecided(after: RootBook, e: Entry, caps: CapSnapshot, fault: Option<Code>) {
    forall n: nat {:trigger Maps.Unfold(n)} :: Maps.Unfold(n) ==> fault == ClaimFault(after, e, caps)
  }

  ghost predicate AccountDecided(p: Priced, tokens: nat, bytes: nat, toc: nat, caps: CapSnapshot, fault: Option<Code>) {
    forall n: nat {:trigger Maps.Unfold(n)} :: Maps.Unfold(n) ==> fault == RunAccountFault(p, tokens, bytes, toc, caps)
  }

  ghost predicate RunDecided(after: RootBook, e: Entry, caps: CapSnapshot, fault: Option<Code>) {
    forall n: nat {:trigger Maps.Unfold(n)} :: Maps.Unfold(n) ==> fault == RunFault(after, e, caps)
  }

  /** The list after the entry at `i` was replaced, or appended when `i` is past the end. */
  function Upsert<T>(us: seq<T>, i: nat, u: T): seq<T>
    requires i <= |us|
  {
    if i < |us| then us[i := u] else us + [u]
  }

  // ----- routes -----

  lemma RouteHeld(us: seq<RouteUsage>, i: nat, accounts: map<RootKey, Priced>)
    requires RoutesRepresent(us, accounts) && i < |us|
    ensures Holds(us[i].unique, At(accounts, RouteOf(us[i].route)))
    ensures forall j :: 0 <= j < |us| ==> (us[j].route == us[i].route <==> j == i)
  {
    assert us[i] in us;
  }

  lemma RouteAbsent(us: seq<RouteUsage>, route: Route, accounts: map<RootKey, Priced>)
    requires RoutesRepresent(us, accounts) && forall j :: 0 <= j < |us| ==> us[j].route != route
    ensures Holds(NOTHING, At(accounts, RouteOf(route)))
  {
    assert RouteOf(route) !in accounts;
  }

  lemma RoutesUpserted(us: seq<RouteUsage>, i: nat, u: RouteUsage, b: RootBook, e: Entry, after: RootBook)
    requires Posted(b, e, after)
    requires RoutesRepresent(us, b.accounts) && i <= |us|
    requires forall j :: 0 <= j < |us| ==> (us[j].route == e.route <==> j == i)
    requires u.route == e.route && Holds(u.unique, At(after.accounts, RouteOf(e.route)))
    ensures RoutesRepresent(Upsert(us, i, u), after.accounts)
  {
    RoutesUpsertedHeld(us, i, u, b, e, after);
    RoutesUpsertedListed(us, i, u, b, e, after);
    RoutesDistinct(us, i, u);
  }

  lemma RoutesDistinct(us: seq<RouteUsage>, i: nat, u: RouteUsage)
    requires i <= |us| && forall j :: 0 <= j < |us| ==> (us[j].route == u.route <==> j == i)
    requires forall j, k :: 0 <= j < k < |us| ==> us[j].route != us[k].route
    ensures forall j, k :: 0 <= j < k < |Upsert(us, i, u)| ==> Upsert(us, i, u)[j].route != Upsert(us, i, u)[k].route
  {
  }

  lemma RoutesUpsertedHeld(us: seq<RouteUsage>, i: nat, u: RouteUsage, b: RootBook, e: Entry, after: RootBook)
    requires Posted(b, e, after)
    requires RoutesRepresent(us, b.accounts) && i <= |us|
    requires forall j :: 0 <= j < |us| ==> (us[j].route == e.route <==> j == i)
    requires u.route == e.route && Holds(u.unique, At(after.accounts, RouteOf(e.route)))
    ensures forall v <- Upsert(us, i, u) :: RouteOf(v.route) in after.accounts && Holds(v.unique, At(after.accounts, RouteOf(v.route)))
  {
    var vs := Upsert(us, i, u);
    forall v <- vs ensures RouteOf(v.route) in after.accounts && Holds(v.unique, At(after.accounts, RouteOf(v.route))) {
      AccountAfter(b, e, after, RouteOf(v.route));
      if v != u {
        var j :| 0 <= j < |vs| && vs[j] == v;
        RouteHeld(us, j, b.accounts);
      }
    }
  }

  lemma RoutesUpsertedListed(us: seq<RouteUsage>, i: nat, u: RouteUsage, b: RootBook, e: Entry, after: RootBook)
    requires Posted(b, e, after)
    requires RoutesRepresent(us, b.accounts) && i <= |us| && u.route == e.route
    requires forall j :: 0 <= j < |us| ==> (us[j].route == e.route <==> j == i)
    ensures forall k <- after.accounts :: k.RouteOf? ==> exists v :: v in Upsert(us, i, u) && v.route == k.route
  {
    var vs := Upsert(us, i, u);
    forall k <- after.accounts | k.RouteOf? ensures exists v :: v in vs && v.route == k.route {
      AccountAfter(b, e, after, k);
      if k.route == e.route {
        assert vs[i] == u;
      } else {
        var j :| 0 <= j < |us| && us[j].route == k.route;
        assert vs[j] == us[j];
      }
    }
  }

  lemma RouteCharged(b: RootBook, e: Entry, after: RootBook, merged: Priced)
    requires Posted(b, e, after) && Merging(b, e, merged)
    ensures At(after.accounts, RouteOf(e.route)) == Price(e.facts) + At(b.accounts, RouteOf(e.route))
    ensures SubMap(Price(e.facts) + At(b.accounts, RouteOf(e.route)), merged)
  {
    AccountAfter(b, e, after, RouteOf(e.route));
    MergedCovers(b, e, merged, RouteOf(e.route));
  }

  /** Kept folded, so that the loop does not unfold what it does not read. */
  ghost predicate RoutesHold(us: seq<RouteUsage>, accounts: map<RootKey, Priced>) {
    forall n: nat {:trigger Maps.Unfold(n)} :: Maps.Unfold(n) ==> RoutesRepresent(us, accounts)
  }

  method UpdatedRoute(us: seq<RouteUsage>, i: nat, e: Entry, merged: Priced, ghost b: RootBook, ghost after: RootBook) returns (updated: seq<RouteUsage>)
    requires Posted(b, e, after) && Merging(b, e, merged) && RoutesRepresent(us, b.accounts)
    requires i < |us| && us[i].route == e.route
    ensures RoutesHold(updated, after.accounts)
  {
    RouteCharged(b, e, after, merged);
    RouteHeld(us, i, b.accounts);
    var unique := Recount(us[i].unique, e.facts, merged, At(b.accounts, RouteOf(e.route)));
    updated := us[i := us[i].(unique := unique)];
    RoutesUpserted(us, i, updated[i], b, e, after);
  }

  method AppendedRoute(us: seq<RouteUsage>, e: Entry, merged: Priced, ghost b: RootBook, ghost after: RootBook) returns (updated: seq<RouteUsage>)
    requires Posted(b, e, after) && Merging(b, e, merged) && RoutesRepresent(us, b.accounts)
    requires forall j :: 0 <= j < |us| ==> us[j].route != e.route
    ensures RoutesHold(updated, after.accounts)
  {
    RouteCharged(b, e, after, merged);
    RouteAbsent(us, e.route, b.accounts);
    var unique := Recount(NOTHING, e.facts, merged, At(b.accounts, RouteOf(e.route)));
    updated := us + [RouteUsage(e.route, unique)];
    RoutesUpserted(us, |us|, RouteUsage(e.route, unique), b, e, after);
  }

  method UpdatedRoutes(us: seq<RouteUsage>, e: Entry, merged: Priced, ghost b: RootBook, ghost after: RootBook) returns (updated: seq<RouteUsage>)
    requires Posted(b, e, after)
    requires Merging(b, e, merged) && RoutesRepresent(us, b.accounts)
    ensures RoutesRepresent(updated, after.accounts)
  {
    for i := 0 to |us|
      invariant forall j :: 0 <= j < i ==> us[j].route != e.route
    {
      if us[i].route == e.route {
        updated := UpdatedRoute(us, i, e, merged, b, after);
        assert Maps.Unfold(0);
        return;
      }
    }
    updated := AppendedRoute(us, e, merged, b, after);
    assert Maps.Unfold(0);
  }

  // ----- stages -----

  lemma StageAfter(b: RootBook, e: Entry, after: RootBook, u: StageUsage)
    requires Posted(b, e, after)
    requires StageRepresents(u, b.counters)
    ensures StageRepresents(
              if u.stage == e.stage then
                StageUsage(u.stage, u.tokens + FactTokens(e.facts), u.bytes + FactBytes(e.facts), u.transmissions + 1)
              else u, after.counters)
  {
    CounterAfter(b, e, after, SentTokens(FromStage(u.stage)));
    CounterAfter(b, e, after, SentBytes(FromStage(u.stage)));
    CounterAfter(b, e, after, Sends(u.stage));
  }

  method UpdatedStages(us: seq<StageUsage>, e: Entry, ghost b: RootBook, ghost after: RootBook) returns (updated: seq<StageUsage>)
    requires Posted(b, e, after)
    requires StagesRepresent(us, b.counters)
    ensures StagesRepresent(updated, after.counters)
  {
    forall u: StageUsage | StageRepresents(u, b.counters) {
      StageAfter(b, e, after, u);
    }
    var tokens, bytes := FactTokens(e.facts), FactBytes(e.facts);
    for i := 0 to |us|
      invariant forall j :: 0 <= j < i ==> us[j].stage != e.stage
    {
      if us[i].stage == e.stage {
        var u := us[i];
        updated := us[i := StageUsage(u.stage, u.tokens + tokens, u.bytes + bytes, u.transmissions + 1)];
        StagesUpserted(us, i, updated[i], b, e, after);
        return;
      }
    }
    assert StageRepresents(StageUsage(e.stage, 0, 0, 0), b.counters);
    updated := us + [StageUsage(e.stage, tokens, bytes, 1)];
    StagesUpserted(us, |us|, updated[|us|], b, e, after);
  }

  lemma StagesUpserted(us: seq<StageUsage>, i: nat, u: StageUsage, b: RootBook, e: Entry, after: RootBook)
    requires Posted(b, e, after)
    requires StagesRepresent(us, b.counters) && i <= |us|
    requires forall j :: 0 <= j < |us| ==> (us[j].stage == e.stage <==> j == i)
    requires u.stage == e.stage && StageRepresents(u, after.counters)
    ensures StagesRepresent(Upsert(us, i, u), after.counters)
  {
    var vs := Upsert(us, i, u);
    forall v <- vs ensures StageRepresents(v, after.counters) {
      if v != u {
        assert v in us;
        StageAfter(b, e, after, v);
      }
    }
    forall s: Stage | forall v <- vs :: v.stage != s ensures StageRepresents(StageUsage(s, 0, 0, 0), after.counters) {
      assert vs[i] == u;
      forall j | 0 <= j < |us| ensures us[j].stage != s {
        assert j != i ==> vs[j] == us[j];
      }
      StageAfter(b, e, after, StageUsage(s, 0, 0, 0));
    }
  }

  // ----- claims -----

  lemma ClaimsUpserted(us: seq<ClaimUsage>, i: nat, u: ClaimUsage, b: RootBook, e: Entry, after: RootBook)
    requires Posted(b, e, after)
    requires ClaimsRepresent(us, e.run, b.accounts) && i <= |us|
    requires e.stage != JudgeStage && e.claim == Some(u.claim)
    requires forall j :: 0 <= j < |us| ==> (us[j].claim == u.claim <==> j == i)
    requires Holds(u.unique, At(after.accounts, ClaimOf(e.run, u.claim)))
    ensures ClaimsRepresent(Upsert(us, i, u), e.run, after.accounts)
  {
    ClaimsUpsertedHeld(us, i, u, b, e, after);
    ClaimsUpsertedListed(us, i, u, b, e, after);
  }

  lemma ClaimsUpsertedHeld(us: seq<ClaimUsage>, i: nat, u: ClaimUsage, b: RootBook, e: Entry, after: RootBook)
    requires Posted(b, e, after)
    requires ClaimsRepresent(us, e.run, b.accounts) && i <= |us|
    requires e.stage != JudgeStage && e.claim == Some(u.claim)
    requires forall j :: 0 <= j < |us| ==> (us[j].claim == u.claim <==> j == i)
    requires Holds(u.unique, At(after.accounts, ClaimOf(e.run, u.claim)))
    ensures forall v <- Upsert(us, i, u) ::
              var k := ClaimOf(e.run, v.claim);
              k in after.accounts && Holds(v.unique, At(after.accounts, k))
  {
    var vs := Upsert(us, i, u);
    forall v <- vs ensures ClaimOf(e.run, v.claim) in after.accounts && Holds(v.unique, At(after.accounts, ClaimOf(e.run, v.claim))) {
      AccountAfter(b, e, after, ClaimOf(e.run, v.claim));
      if v != u {
        var j :| 0 <= j < |vs| && vs[j] == v;
        assert us[j] in us;
      }
    }
  }

  lemma ClaimsUpsertedListed(us: seq<ClaimUsage>, i: nat, u: ClaimUsage, b: RootBook, e: Entry, after: RootBook)
    requires Posted(b, e, after)
    requires ClaimsRepresent(us, e.run, b.accounts) && i <= |us|
    requires e.stage != JudgeStage && e.claim == Some(u.claim)
    requires forall j :: 0 <= j < |us| ==> (us[j].claim == u.claim <==> j == i)
    ensures forall k <- after.accounts :: k.ClaimOf? && k.run == e.run ==>
              exists v :: v in Upsert(us, i, u) && v.claim == k.claim
  {
    var vs := Upsert(us, i, u);
    forall k <- after.accounts | k.ClaimOf? && k.run == e.run ensures exists v :: v in vs && v.claim == k.claim {
      AccountAfter(b, e, after, k);
      if k.claim == u.claim {
        assert vs[i] == u;
      } else {
        var j :| 0 <= j < |us| && us[j].claim == k.claim;
        assert vs[j] == us[j];
      }
    }
  }

  /** A run whose claims an entry does not name keeps them. */
  lemma ClaimsKept(us: seq<ClaimUsage>, run: Id, b: RootBook, e: Entry, after: RootBook)
    requires Posted(b, e, after)
    requires ClaimsRepresent(us, run, b.accounts)
    requires !(e.stage != JudgeStage && e.claim.Some? && e.run == run)
    ensures ClaimsRepresent(us, run, after.accounts)
  {
    forall u <- us ensures ClaimOf(run, u.claim) in after.accounts && Holds(u.unique, At(after.accounts, ClaimOf(run, u.claim))) {
      AccountAfter(b, e, after, ClaimOf(run, u.claim));
    }
    forall k <- after.accounts | k.ClaimOf? && k.run == run ensures exists u :: u in us && u.claim == k.claim {
      AccountAfter(b, e, after, k);
    }
  }

  lemma ClaimCount(us: seq<ClaimUsage>, run: Id, accounts: map<RootKey, Priced>)
    requires ClaimsRepresent(us, run, accounts)
    ensures |us| == |ClaimsOf(accounts, run)|
  {
    var keys := seq(|us|, i requires 0 <= i < |us| => ClaimOf(run, us[i].claim));
    forall k ensures k in keys <==> k in ClaimsOf(accounts, run) {
      if k in ClaimsOf(accounts, run) {
        var i :| 0 <= i < |us| && us[i].claim == k.claim;
        assert keys[i] == k;
      }
      if k in keys {
        var i :| 0 <= i < |us| && keys[i] == k;
        assert us[i] in us;
      }
    }
    DistinctSize(keys, ClaimsOf(accounts, run));
  }

  method FindClaim(us: seq<ClaimUsage>, claim: Id) returns (i: nat)
    ensures i <= |us| && (i < |us| ==> us[i].claim == claim)
    ensures forall j :: 0 <= j < i ==> us[j].claim != claim
  {
    i := 0;
    while i < |us| && us[i].claim != claim
      invariant i <= |us|
      invariant forall j :: 0 <= j < i ==> us[j].claim != claim
    {
      i := i + 1;
    }
  }

  lemma ClaimHeld(us: seq<ClaimUsage>, run: Id, accounts: map<RootKey, Priced>, claim: Id, i: nat)
    requires ClaimsRepresent(us, run, accounts) && i <= |us| && (i < |us| ==> us[i].claim == claim)
    requires forall j :: 0 <= j < i ==> us[j].claim != claim
    ensures Holds(if i < |us| then us[i].unique else NOTHING, At(accounts, ClaimOf(run, claim)))
    ensures forall j :: 0 <= j < |us| ==> (us[j].claim == claim <==> j == i)
  {
    if i < |us| {
      assert us[i] in us;
    } else {
      assert ClaimOf(run, claim) !in accounts;
    }
  }

  /** The list with the charged claim, or a list too long. */
  method ListClaim(us: seq<ClaimUsage>, i: nat, u: ClaimUsage, e: Entry, caps: CapSnapshot, ghost b: RootBook, ghost after: RootBook)
    returns (r: Result<seq<ClaimUsage>>)
    requires Posted(b, e, after) && ClaimsRepresent(us, e.run, b.accounts) && e.stage != JudgeStage && e.claim == Some(u.claim) && i <= |us|
    requires forall j :: 0 <= j < |us| ==> (us[j].claim == u.claim <==> j == i)
    requires Holds(u.unique, At(after.accounts, ClaimOf(e.run, u.claim)))
    ensures Outcome(r) == Fault(|ClaimsOf(after.accounts, e.run)| > caps.maxClaims, ClaimCountExceeded)
    ensures r.Ok? ==> ClaimsRepresent(r.value, e.run, after.accounts)
  {
    var updated := Upsert(us, i, u);
    ClaimsUpserted(us, i, u, b, e, after);
    ClaimCount(updated, e.run, after.accounts);
    if |updated| > caps.maxClaims {
      return Err(ClaimCountExceeded);
    }
    r := Ok(updated);
  }

  /** The claim an entry names, checked and counted; an entry without one leaves them alone. */
  method UpdatedClaims(us: seq<ClaimUsage>, e: Entry, caps: CapSnapshot, merged: Priced, ghost b: RootBook, ghost after: RootBook)
    returns (r: Result<seq<ClaimUsage>>)
    requires Posted(b, e, after)
    requires Merging(b, e, merged) && ClaimsRepresent(us, e.run, b.accounts) && e.stage != JudgeStage
    ensures ClaimDecided(after, e, caps, Outcome(r))
    ensures r.Ok? ==> ClaimsRepresent(r.value, e.run, after.accounts)
  {
    if e.claim.None? {
      ClaimsKept(us, e.run, b, e, after);
      return Ok(us);
    }
    if caps.claimUnique.None? {
      return Err(ClaimPayloadMismatch);
    }
    var claim := e.claim.value;
    ghost var k := ClaimOf(e.run, claim);
    AccountAfter(b, e, after, k);
    MergedCovers(b, e, merged, k);
    var i := FindClaim(us, claim);
    ClaimHeld(us, e.run, b.accounts, claim, i);
    var before := if i < |us| then us[i].unique else NOTHING;
    var charged := RecountWithin(before, e.facts, merged, caps.claimUnique.value, ClaimAccount, At(b.accounts, k));
    if charged.Err? {
      return Err(charged.code);
    }
    r := ListClaim(us, i, ClaimUsage(claim, charged.value), e, caps, b, after);
  }

  // ----- runs -----

  /** The run's own account, checked against the online caps. */
  method UpdatedRunAccount(u: RunUsage, facts: seq<Fact>, toc: nat, caps: CapSnapshot, merged: Priced, ghost p: Priced, ghost q: Priced)
    returns (r: Result<RunUsage>, ghost tokens: nat, ghost bytes: nat, ghost nodes: nat)
    requires Holds(u.unique, p) && SubMap(Price(facts) + p, merged) && q == Price(facts) + p
    ensures tokens == u.tokens + FactTokens(facts) && bytes == u.bytes + FactBytes(facts) && nodes == u.toc + toc
    ensures AccountDecided(q, tokens, bytes, nodes, caps, Outcome(r))
    ensures r.Ok? ==> Holds(r.value.unique, q)
    ensures r.Ok? ==> r.value == RunUsage(u.run, r.value.unique, tokens, bytes, nodes, u.claims)
  {
    tokens, bytes, nodes := u.tokens + FactTokens(facts), u.bytes + FactBytes(facts), u.toc + toc;
    if caps.onlineUnique.None? || caps.onlineTransmitted.None? {
      return Err(StagePayloadMismatch), tokens, bytes, nodes;
    }
    var charged := RecountWithin(u.unique, facts, merged, caps.onlineUnique.value, RunAccount, p);
    if charged.Err? {
      return Err(charged.code), tokens, bytes, nodes;
    }
    var sentTokens, sentBytes := u.tokens + FactTokens(facts), u.bytes + FactBytes(facts);
    var sent := SentFault(sentTokens, sentBytes, caps.onlineTransmitted.value, RunAccount);
    if sent.Some? {
      return Err(sent.value), tokens, bytes, nodes;
    }
    if u.toc + toc > caps.tocPerRun {
      return Err(TocRunExceeded), tokens, bytes, nodes;
    }
    r := Ok(RunUsage(u.run, charged.value, sentTokens, sentBytes, u.toc + toc, u.claims));
  }

  /** The decision about a run whose claim passed is the one about its own account. */
  lemma OwnAccountDecides(after: RootBook, e: Entry, caps: CapSnapshot, p: Priced, tokens: nat, bytes: nat, toc: nat, own: Option<Code>)
    requires ClaimDecided(after, e, caps, None) && AccountDecided(p, tokens, bytes, toc, caps, own)
    requires At(after.accounts, RunOf(e.run)) == p
    requires Maps.Get(after.counters, SentTokens(FromRun(e.run))) == tokens
    requires Maps.Get(after.counters, SentBytes(FromRun(e.run))) == bytes
    requires Maps.Get(after.counters, TocNodes(e.run)) == toc
    ensures RunDecided(after, e, caps, own)
  {
    assert Maps.Unfold(0);
  }

  lemma RunCounters(u: RunUsage, b: RootBook, e: Entry, after: RootBook)
    requires Posted(b, e, after)
    requires RunRepresents(u, b) && u.run == e.run && e.stage != JudgeStage
    ensures At(after.accounts, RunOf(e.run)) == Price(e.facts) + At(b.accounts, RunOf(e.run))
    ensures Maps.Get(after.counters, SentTokens(FromRun(e.run))) == u.tokens + FactTokens(e.facts)
    ensures Maps.Get(after.counters, SentBytes(FromRun(e.run))) == u.bytes + FactBytes(e.facts)
    ensures Maps.Get(after.counters, TocNodes(e.run)) == u.toc + e.toc
  {
    AccountAfter(b, e, after, RunOf(e.run));
    CounterAfter(b, e, after, SentTokens(FromRun(e.run)));
    CounterAfter(b, e, after, SentBytes(FromRun(e.run)));
    CounterAfter(b, e, after, TocNodes(e.run));
  }

  method RecountRun(u: RunUsage, claims: seq<ClaimUsage>, e: Entry, caps: CapSnapshot, merged: Priced, ghost b: RootBook, ghost after: RootBook)
    returns (r: Result<RunUsage>)
    requires Posted(b, e, after)
    requires Merging(b, e, merged) && RunRepresents(u, b) && u.run == e.run && e.stage != JudgeStage
    requires ClaimDecided(after, e, caps, None) && ClaimsRepresent(claims, e.run, after.accounts)
    ensures RunDecided(after, e, caps, Outcome(r))
    ensures r.Ok? ==> r.value.run == e.run && RunRepresents(r.value, after)
  {
    MergedCovers(b, e, merged, RunOf(e.run));
    RunCounters(u, b, e, after);
    ghost var p := At(after.accounts, RunOf(e.run));
    ghost var tokens, bytes, toc;
    r, tokens, bytes, toc := UpdatedRunAccount(u, e.facts, e.toc, caps, merged, At(b.accounts, RunOf(e.run)), p);
    OwnAccountDecides(after, e, caps, p, tokens, bytes, toc, Outcome(r));
    if r.Ok? {
      r := Ok(r.value.(claims := claims));
    }
  }

  method ApplyToRun(u: RunUsage, e: Entry, caps: CapSnapshot, merged: Priced, ghost b: RootBook, ghost after: RootBook)
    returns (r: Result<RunUsage>)
    requires Posted(b, e, after)
    requires Merging(b, e, merged) && RunRepresents(u, b) && u.run == e.run && e.stage != JudgeStage
    ensures RunDecided(after, e, caps, Outcome(r))
    ensures r.Ok? ==> r.value.run == e.run && RunRepresents(r.value, after)
  {
    var claims := UpdatedClaims(u.claims, e, caps, merged, b, after);
    if claims.Err? {
      return Err(claims.code);
    }
    r := RecountRun(u, claims.value, e, caps, merged, b, after);
  }

  /** Another run's account does not move. */
  lemma RunKept(u: RunUsage, b: RootBook, e: Entry, after: RootBook)
    requires Posted(b, e, after)
    requires RunRepresents(u, b) && (e.stage == JudgeStage || u.run != e.run)
    ensures RunRepresents(u, after)
    ensures RunOf(u.run) in after.accounts <==> RunOf(u.run) in b.accounts
  {
    AccountAfter(b, e, after, RunOf(u.run));
    CounterAfter(b, e, after, SentTokens(FromRun(u.run)));
    CounterAfter(b, e, after, SentBytes(FromRun(u.run)));
    CounterAfter(b, e, after, TocNodes(u.run));
    ClaimsKept(u.claims, u.run, b, e, after);
  }

  lemma RunsUpserted(us: seq<RunUsage>, i: nat, u: RunUsage, b: RootBook, e: Entry, after: RootBook)
    requires Posted(b, e, after)
    requires RunsRepresent(us, b) && i <= |us| && e.stage != JudgeStage
    requires forall j :: 0 <= j < |us| ==> (us[j].run == e.run <==> j == i)
    requires u.run == e.run && RunRepresents(u, after)
    ensures RunsRepresent(Upsert(us, i, u), after)
  {
    RunsUpsertedHeld(us, i, u, b, e, after);
    RunsUpsertedAbsent(us, i, u, b, e, after);
    UpsertDistinct(us, i, u);
  }

  lemma UpsertDistinct(us: seq<RunUsage>, i: nat, u: RunUsage)
    requires i <= |us| && forall j :: 0 <= j < |us| ==> (us[j].run == u.run <==> j == i)
    requires forall j, k :: 0 <= j < k < |us| ==> us[j].run != us[k].run
    ensures forall j, k :: 0 <= j < k < |Upsert(us, i, u)| ==> Upsert(us, i, u)[j].run != Upsert(us, i, u)[k].run
  {
  }

  lemma RunsUpsertedAbsent(us: seq<RunUsage>, i: nat, u: RunUsage, b: RootBook, e: Entry, after: RootBook)
    requires Posted(b, e, after)
    requires RunsRepresent(us, b) && i <= |us| && e.stage != JudgeStage && u.run == e.run
    requires forall j :: 0 <= j < |us| ==> (us[j].run == e.run <==> j == i)
    ensures forall run: Id :: (forall v <- Upsert(us, i, u) :: v.run != run) ==>
              RunOf(run) !in after.accounts && RunRepresents(RunUsage(run, NOTHING, 0, 0, 0, []), after)
  {
    var vs := Upsert(us, i, u);
    forall run: Id | forall v <- vs :: v.run != run
      ensures RunOf(run) !in after.accounts && RunRepresents(RunUsage(run, NOTHING, 0, 0, 0, []), after) {
      assert vs[i] == u;
      forall j | 0 <= j < |us| ensures us[j].run != run {
        assert j != i ==> vs[j] == us[j];
      }
      RunKept(RunUsage(run, NOTHING, 0, 0, 0, []), b, e, after);
    }
  }

  lemma RunsUpsertedHeld(us: seq<RunUsage>, i: nat, u: RunUsage, b: RootBook, e: Entry, after: RootBook)
    requires Posted(b, e, after)
    requires RunsRepresent(us, b) && i <= |us| && e.stage != JudgeStage
    requires forall j :: 0 <= j < |us| ==> (us[j].run == e.run <==> j == i)
    requires u.run == e.run && RunRepresents(u, after)
    ensures forall v <- Upsert(us, i, u) :: RunOf(v.run) in after.accounts && RunRepresents(v, after)
  {
    var vs := Upsert(us, i, u);
    AccountAfter(b, e, after, RunOf(e.run));
    forall v <- vs ensures RunOf(v.run) in after.accounts && RunRepresents(v, after) {
      if v != u {
        var j :| 0 <= j < |vs| && vs[j] == v;
        RunKept(us[j], b, e, after);
      }
    }
  }

  lemma RunsKept(us: seq<RunUsage>, b: RootBook, e: Entry, after: RootBook)
    requires Posted(b, e, after)
    requires RunsRepresent(us, b) && e.stage == JudgeStage
    ensures RunsRepresent(us, after)
  {
    forall u <- us ensures RunOf(u.run) in after.accounts && RunRepresents(u, after) {
      RunKept(u, b, e, after);
    }
    forall run: Id | forall u <- us :: u.run != run
      ensures RunOf(run) !in after.accounts && RunRepresents(RunUsage(run, NOTHING, 0, 0, 0, []), after) {
      RunKept(RunUsage(run, NOTHING, 0, 0, 0, []), b, e, after);
    }
  }

  method FindRun(us: seq<RunUsage>, run: Id) returns (i: nat)
    ensures i <= |us| && (i < |us| ==> us[i].run == run)
    ensures forall j :: 0 <= j < i ==> us[j].run != run
  {
    i := 0;
    while i < |us| && us[i].run != run
      invariant i <= |us|
      invariant forall j :: 0 <= j < i ==> us[j].run != run
    {
      i := i + 1;
    }
  }

  method UpdatedRuns(us: seq<RunUsage>, e: Entry, caps: CapSnapshot, merged: Priced, ghost b: RootBook, ghost after: RootBook)
    returns (r: Result<seq<RunUsage>>)
    requires Posted(b, e, after)
    requires Merging(b, e, merged) && RunsRepresent(us, b) && e.stage != JudgeStage
    ensures RunDecided(after, e, caps, Outcome(r))
    ensures r.Ok? ==> RunsRepresent(r.value, after)
  {
    var i := FindRun(us, e.run);
    var before := if i < |us| then us[i] else RunUsage(e.run, NOTHING, 0, 0, 0, []);
    var updated := ApplyToRun(before, e, caps, merged, b, after);
    if updated.Err? {
      return Err(updated.code);
    }
    r := Ok(Upsert(us, i, updated.value));
    RunsUpserted(us, i, updated.value, b, e, after);
  }
}
