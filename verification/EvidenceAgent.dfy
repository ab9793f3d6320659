/** Bounded execution of a model's tool plan: every call counts against one budget, each
    invocation is retried at most once, and the evidence that comes back is free of repeats. */
module EvidenceAgent {
  import opened Basics
  import opened Sequences
  import opened ToolPlans
  import Maps

  // ----- what was called -----

  datatype Call = Call(inv: Invocation, reply: Reply, retry: bool)
  datatype Error = Said(code: ToolError) | BudgetSpent
  datatype Summary = Summary(step: Id, count: nat, retries: nat, error: Option<Error>)
  datatype Fault = BudgetExceeded | InvalidPlan | InvalidScope | InvalidToolResult | InvalidResultScope
  datatype Outcome = Collected(evidence: seq<Evidence>, calls: seq<Summary>, attempts: nat) | Aborted(fault: Fault)

  function DecodedFrom(c: Call): Option<Decoded> {
    match c.reply
    case Structured(content) => Decode(c.inv, content)
    case Failure(_) => None
  }

  /** What a result that is not taken is refused with. */
  function Complaint(c: Call): Fault {
    if c.reply.Structured? && ResultOutOfScope(c.inv, c.reply.content) then InvalidResultScope else InvalidToolResult
  }

  predicate Yielded(c: Call) {
    DecodedFrom(c).Some?
  }

  /** A timeout of a first try is the one reply that is answered by another call. */
  predicate Retryable(c: Call) {
    !c.retry && c.reply == Failure(ToolTimeout)
  }

  /** After a retryable call its retry, after a yield the next invocation, after anything else
      nothing. */
  predicate Next(a: Call, b: Call) {
    if Retryable(a) then b.retry && b.inv == a.inv else Yielded(a) && !b.retry
  }

  /** The log is what the client was really asked, in order: reply k answers call k. */
  ghost predicate Trace(log: seq<Call>, used: nat, replies: nat -> Reply) {
    && (forall k :: 0 <= k < |log| ==> log[k].reply == replies(used + k))
    && (log != [] ==> !log[0].retry)
    && (forall j, k :: 0 <= j < k < |log| && k == j + 1 ==> Next(log[j], log[k]))
  }

  /** Every invocation so far has yielded. */
  predicate Settled(log: seq<Call>) {
    log != [] ==> Yielded(log[|log|-1])
  }

  function FirstTry(c: Call): seq<Invocation> {
    if c.retry then [] else [c.inv]
  }

  function FirstTries(log: seq<Call>): seq<Invocation> {
    Flat(log, FirstTry)
  }

  function Found(c: Call): seq<Evidence> {
    if Yielded(c) && DecodedFrom(c).value.evidence.Some? then [DecodedFrom(c).value.evidence.value] else []
  }

  function IdsFor(step: Id): Call -> seq<Id> {
    (c: Call) => if c.inv.step == step && Yielded(c) then DecodedFrom(c).value.ids else []
  }

  /** What a step's successful calls yielded, without repeats: the only thing later steps see. */
  function OutputOf(log: seq<Call>, step: Id): seq<Id> {
    Dedupe(Flat(log, IdsFor(step)))
  }

  function OutputsOf(log: seq<Call>, steps: seq<Step>): map<Id, seq<Id>> {
    map id | id in StepIds(steps) :: OutputOf(log, id)
  }

  // ----- what is reported -----

  function SummaryOf(c: Call, retries: nat): Summary {
    Summary(c.inv.step, if Yielded(c) then DecodedFrom(c).value.count else 0, retries,
            if c.reply.Failure? then Some(Said(c.reply.code)) else None)
  }

  /** One summary per invocation, telling its last call. */
  function Summaries(log: seq<Call>): seq<Summary> {
    if log == [] then [] else
      var n := |log| - 1;
      var earlier := Summaries(log[..n]);
      if log[n].retry && earlier != [] then earlier[..|earlier|-1] + [SummaryOf(log[n], 1)]
      else earlier + [SummaryOf(log[n], 0)]
  }

  /** What a run returns when it stops after these calls, with one more summary in `tail` if it
      stopped before a call. */
  function Result(log: seq<Call>, used: nat, tail: seq<Summary>): Outcome {
    if log != [] && log[|log|-1].reply.Structured? && !Yielded(log[|log|-1]) then Aborted(Complaint(log[|log|-1]))
    else Collected(Kept(Flat(log, Found)), Summaries(log) + tail, used + |log|)
  }

  predicate StuckAt(steps: seq<Step>, outputs: map<Id, seq<Id>>, done: seq<Invocation>, step: Id) {
    exists k :: 0 <= k < |steps| && steps[k].id == step && Invocations(steps[k], outputs).None? && done == PlanInvocations(steps[..k], outputs)
  }

  /** Why a run stops: its last call yielded nothing; or its plan is done; or the budget is spent
      before the next invocation of the plan; or the next step refers to nothing. */
  ghost predicate Stopped(steps: seq<Step>, log: seq<Call>, used: nat, budget: nat, tail: seq<Summary>) {
    var outputs := OutputsOf(log, steps);
    var plan := PlanInvocations(steps, outputs);
    var done := FirstTries(log);
    && done <= plan
    && (!Settled(log) ==> tail == [] && (Retryable(log[|log|-1]) ==> used + |log| == budget))
    && (Settled(log) && tail == [] ==> done == plan && Resolved(steps, outputs))
    && (tail != [] ==>
          && Settled(log) && |tail| == 1
          && (|| (tail[0] == Summary(tail[0].step, 0, 0, Some(BudgetSpent))
                  && used + |log| == budget && |done| < |plan| && plan[|done|].step == tail[0].step)
              || (tail[0] == Summary(tail[0].step, 0, 0, Some(Said(InvalidReference))) && StuckAt(steps, outputs, done, tail[0].step))))
  }

  /** A run of a plan: its calls follow the plan and its outcome tells how it stopped. */
  ghost predicate Ran(steps: seq<Step>, r: Outcome, log: seq<Call>, used: nat, budget: nat, replies: nat -> Reply) {
    && Trace(log, used, replies) && used + |log| <= budget
    && exists tail :: Stopped(steps, log, used, budget, tail) && r == Result(log, used, tail)
  }

  // ----- evidence without repeats -----

  predicate Fresh(seen: seq<Evidence>, e: Evidence) {
    forall s <- seen :: s.clause != e.clause && s.content != e.content
  }

  /** Keep an item exactly when no kept item shares its clause or its content. */
  function Kept(items: seq<Evidence>): seq<Evidence> {
    if items == [] then [] else
      var n := |items| - 1;
      var kept := Kept(items[..n]);
      if Fresh(kept, items[n]) then kept + [items[n]] else kept
  }

  ghost predicate NoRepeats(items: seq<Evidence>) {
    forall i, j :: 0 <= i < j < |items| ==> items[i].clause != items[j].clause && items[i].content != items[j].content
  }

  lemma {:induction false} KeptIsDistinct(items: seq<Evidence>)
    ensures NoRepeats(Kept(items))
    ensures forall e <- Kept(items) :: e in items
    ensures forall e <- items :: e in Kept(items) || exists k :: k in Kept(items) && (k.clause == e.clause || k.content == e.content)
  {
    if items != [] {
      var n := |items| - 1;
      KeptIsDistinct(items[..n]);
      assert items == items[..n] + [items[n]];
    }
  }

  predicate Shares(a: Evidence, b: Evidence) {
    a.clause == b.clause || a.content == b.content
  }

  /** An earlier item that is kept shares its clause or its content. */
  predicate Ousted(items: seq<Evidence>, kept: seq<Evidence>, n: nat)
    requires n < |items|
  {
    exists e :: 0 <= e < n && items[e] in kept && Shares(items[e], items[n])
  }

  lemma OustedIn(items: seq<Evidence>, before: seq<Evidence>, kept: seq<Evidence>, n: nat, m: nat)
    requires m < n <= |items| && before <= kept && (items[m] in before || Ousted(items[..n], before, m))
    ensures items[m] in kept || Ousted(items, kept, m)
  {
    if items[m] !in before {
      var e :| 0 <= e < m && items[..n][e] in before && Shares(items[..n][e], items[..n][m]);
      assert items[e] == items[..n][e] && items[e] in kept;
    }
  }

  /** Of items that share a clause or a content the earlier one is kept. */
  lemma {:induction false} KeptIsFirst(items: seq<Evidence>)
    ensures forall n :: 0 <= n < |items| ==> items[n] in Kept(items) || Ousted(items, Kept(items), n)
  {
    if items != [] {
      var n := |items| - 1;
      var before, kept := Kept(items[..n]), Kept(items);
      KeptIsFirst(items[..n]);
      KeptIsDistinct(items[..n]);
      forall m | 0 <= m < |items| ensures items[m] in kept || Ousted(items, kept, m) {
        if m < n {
          assert items[..n][m] == items[m];
          OustedIn(items, before, kept, n, m);
        } else if !Fresh(before, items[n]) {
          var s :| s in before && Shares(s, items[n]);
          var e :| 0 <= e < n && items[..n][e] == s;
          assert items[e] == s;
        }
      }
    }
  }

  lemma StillMetBefore(items: seq<Evidence>, n: nat, x: Evidence, y: Evidence)
    requires n <= |items| && MetBefore(items[..n], x, y)
    ensures MetBefore(items, x, y)
  {
    var p :| 0 <= p < n && items[..n][p] == x && y !in items[..n][..p + 1];
    assert items[..n][..p + 1] == items[..p + 1];
  }

  lemma MetBeforeNew(items: seq<Evidence>, n: nat, x: Evidence)
    requires n < |items| && x in Kept(items[..n]) && Fresh(Kept(items[..n]), items[n])
    ensures MetBefore(items, x, items[n])
  {
    KeptIsDistinct(items[..n]);
    var p :| 0 <= p < n && items[..n][p] == x;
    NewToKept(items[..n], items[n], items[..p + 1]);
  }

  /** What is kept keeps its order. */
  lemma {:induction false} KeptInOrder(items: seq<Evidence>, i: nat, j: nat)
    requires i < j < |Kept(items)|
    ensures MetBefore(items, Kept(items)[i], Kept(items)[j])
  {
    var n := |items| - 1;
    if j < |Kept(items[..n])| {
      KeptInOrder(items[..n], i, j);
      StillMetBefore(items, n, Kept(items)[i], Kept(items)[j]);
    } else {
      MetBeforeNew(items, n, Kept(items)[i]);
    }
  }

  lemma NewToKept(items: seq<Evidence>, e: Evidence, part: seq<Evidence>)
    requires Fresh(Kept(items), e) && forall x <- part :: x in items
    ensures e !in part
  {
    KeptIsDistinct(items);
  }

  method DedupeEvidence(items: seq<Evidence>) returns (unique: seq<Evidence>)
    ensures unique == Kept(items)
  {
    unique := [];
    var clauses: set<Id> := {};
    var contents: set<Id> := {};
    for n := 0 to |items|
      invariant unique == Kept(items[..n])
      invariant forall c :: c in clauses <==> exists u :: u in unique && u.clause == c
      invariant forall c :: c in contents <==> exists u :: u in unique && u.content == c
    {
      assert items[..n+1][..n] == items[..n];
      if items[n].clause !in clauses && items[n].content !in contents {
        clauses, contents := clauses + {items[n].clause}, contents + {items[n].content};
        unique := unique + [items[n]];
      }
    }
    assert items[..|items|] == items;
  }

  // ----- what every run keeps -----

  ghost predicate NoTimeout(log: seq<Call>) {
    forall c <- log :: c.reply != Failure(ToolTimeout)
  }

  function TotalRetries(calls: seq<Summary>): nat {
    if calls == [] then 0 else TotalRetries(calls[..|calls|-1]) + calls[|calls|-1].retries
  }

  lemma {:induction false} RetriesSnoc(calls: seq<Summary>, c: Summary)
    ensures TotalRetries(calls + [c]) == TotalRetries(calls) + c.retries
  {
    assert (calls + [c])[..|calls|] == calls;
  }

  /** Where the calls of the last invocation begin: before them everything had yielded, and of two
      calls the first timed out. */
  lemma {:induction false} LastInvocation(log: seq<Call>, used: nat, replies: nat -> Reply) returns (m: nat)
    requires Trace(log, used, replies) && log != []
    ensures m < |log| <= m + 2 && Trace(log[..m], used, replies) && Settled(log[..m])
    ensures Summaries(log) == Summaries(log[..m]) + [SummaryOf(log[|log|-1], |log| - 1 - m)]
    ensures FirstTries(log) == FirstTries(log[..m]) + [log[|log|-1].inv]
    ensures m + 2 == |log| ==> log[m].reply == Failure(ToolTimeout)
  {
    var n := |log| - 1;
    m := n;
    assert FirstTries(log) == FirstTries(log[..n]) + FirstTry(log[n]);
    if log[n].retry {
      m := n - 1;
      assert Next(log[m], log[n]);
      assert log[..n][..m] == log[..m];
      assert FirstTries(log[..n]) == FirstTries(log[..m]) + FirstTry(log[m]);
    }
    if m > 0 {
      assert Next(log[m - 1], log[m]);
    }
  }

  /** One summary per first try and one attempt more per retry. */
  lemma {:induction false} SummariesCount(log: seq<Call>, used: nat, replies: nat -> Reply)
    requires Trace(log, used, replies)
    ensures |Summaries(log)| == |FirstTries(log)|
    ensures forall i :: 0 <= i < |FirstTries(log)| ==> Summaries(log)[i].step == FirstTries(log)[i].step
    ensures |log| == |FirstTries(log)| + TotalRetries(Summaries(log))
    ensures forall s <- Summaries(log) :: s.retries <= 1
  {
    if log != [] {
      var m := LastInvocation(log, used, replies);
      SummariesCount(log[..m], used, replies);
      RetriesSnoc(Summaries(log[..m]), SummaryOf(log[|log|-1], |log| - 1 - m));
    }
  }

  /** Every summary but the last is of an invocation that yielded, and the last tells the last
      call. */
  lemma {:induction false} SummariesTell(log: seq<Call>, used: nat, replies: nat -> Reply)
    requires Trace(log, used, replies)
    ensures var all := Summaries(log);
            && (forall i :: 0 <= i < |all| - 1 ==> all[i].error.None?)
            && (Settled(log) ==> forall s <- all :: s.error.None?)
            && (log != [] ==>
                  var call := log[|log|-1];
                  && all != [] && all[|all|-1].step == call.inv.step
                  && all[|all|-1].error == (match call.reply case Failure(code) => Some(Said(code)) case Structured(_) => None)
                  && all[|all|-1].count == if Yielded(call) then DecodedFrom(call).value.count else 0)
  {
    if log != [] {
      var m := LastInvocation(log, used, replies);
      SummariesTell(log[..m], used, replies);
    }
  }

  /** Calls are at most twice the first tries, and equal to them when nothing timed out. */
  lemma {:induction false} FirstTriesBound(log: seq<Call>, used: nat, replies: nat -> Reply)
    requires Trace(log, used, replies)
    ensures |log| <= 2 * |FirstTries(log)| && (NoTimeout(log) ==> |log| == |FirstTries(log)|)
  {
    if log != [] {
      var m := LastInvocation(log, used, replies);
      FirstTriesBound(log[..m], used, replies);
      assert log[m] in log;
    }
  }

  /** The clause was asked for, in its document and corpus, and told as the local store has it. */
  predicate Confirms(c: Call, e: Evidence) {
    && c.inv.tool.GetClause? && c.inv.clause == Some(e.clause)
    && c.reply.Structured? && c.reply.content.ClauseText? && c.reply.content.clause == e.clause
    && c.reply.content.corpus == c.inv.corpus && c.inv.documents == [c.reply.content.told.document]
    && c.reply.content.local == Some(c.reply.content.told) && c.reply.content.told.hash == e.content
  }

  /** Evidence comes only from clauses the plan asked for and the store agreed with. */
  predicate Confirmed(log: seq<Call>, e: Evidence) {
    exists k :: 0 <= k < |log| && Confirms(log[k], e)
  }

  lemma ConfirmedStays(log: seq<Call>, made: seq<Call>, e: Evidence)
    requires Confirmed(log, e)
    ensures Confirmed(log + made, e)
  {
    var k :| 0 <= k < |log| && Confirms(log[k], e);
    assert (log + made)[k] == log[k];
  }

  lemma {:induction false} FoundIsAsked(log: seq<Call>)
    ensures forall e <- Flat(log, Found) :: Confirmed(log, e)
  {
    if log != [] {
      var n := |log| - 1;
      FoundIsAsked(log[..n]);
      forall e <- Flat(log, Found) ensures Confirmed(log, e) {
        if e in Flat(log[..n], Found) {
          ConfirmedStays(log[..n], [log[n]], e);
          assert log[..n] + [log[n]] == log;
        } else {
          assert e in Found(log[n]);
          FoundHere(log[n], e);
        }
      }
    }
  }

  lemma FoundHere(c: Call, e: Evidence)
    requires e in Found(c)
    ensures Confirms(c, e)
  {
  }

  /** Retries at most one per invocation and only of timeouts, errors only at the end. */
  predicate CallsOk(calls: seq<Summary>) {
    (forall c <- calls :: c.retries <= 1) && forall i :: 0 <= i < |calls| - 1 ==> calls[i].error.None?
  }

  /** What a run promises, whatever the client answers. */
  lemma {:induction false} RunPromises(steps: seq<Step>, evidence: seq<Evidence>, calls: seq<Summary>, attempts: nat,
                                       log: seq<Call>, used: nat, budget: nat, replies: nat -> Reply)
    requires Ran(steps, Collected(evidence, calls, attempts), log, used, budget, replies)
    ensures attempts == used + |log| <= budget && |log| == |FirstTries(log)| + TotalRetries(calls)
    ensures CallsOk(calls)
    ensures NoRepeats(evidence) && forall e <- evidence :: Confirmed(log, e)
  {
    var tail: seq<Summary> :| Stopped(steps, log, used, budget, tail) && Collected(evidence, calls, attempts) == Result(log, used, tail);
    SummariesCount(log, used, replies);
    SummariesTell(log, used, replies);
    KeptIsDistinct(Flat(log, Found));
    FoundIsAsked(log);
    if tail == [] {
      assert calls == Summaries(log);
    } else {
      assert tail == [tail[0]];
      RetriesSnoc(Summaries(log), tail[0]);
    }
  }

  /** A run follows its plan and ends as its last call was answered: aborted exactly on a result
      the local check does not take, otherwise with the error the tool gave. */
  lemma {:induction false} EndsAsAnswered(steps: seq<Step>, r: Outcome, log: seq<Call>, used: nat, budget: nat, replies: nat -> Reply)
    requires Ran(steps, r, log, used, budget, replies)
    ensures FirstTries(log) <= PlanInvocations(steps, OutputsOf(log, steps))
    ensures r.Aborted? <==> log != [] && log[|log|-1].reply.Structured? && !Yielded(log[|log|-1])
    ensures r.Aborted? ==> r.fault == if ResultOutOfScope(log[|log|-1].inv, log[|log|-1].reply.content) then InvalidResultScope else InvalidToolResult
    ensures log != [] && log[|log|-1].reply.Failure? ==>
            r.Collected? && r.calls != [] && r.calls[|r.calls|-1].error == Some(Said(log[|log|-1].reply.code))
  {
    var tail: seq<Summary> :| Stopped(steps, log, used, budget, tail) && r == Result(log, used, tail);
    SummariesTell(log, used, replies);
    if !Settled(log) {
      assert Summaries(log) + tail == Summaries(log);
    }
  }

  lemma {:induction false} GoesOnAfterYield(log: seq<Call>, used: nat, replies: nat -> Reply, k: nat)
    requires Trace(log, used, replies) && k < |log|
    ensures k + 1 < |log| ==> Retryable(log[k]) || Yielded(log[k])
  {
    if k + 1 < |log| {
      assert Next(log[k], log[k + 1]);
    }
  }

  /** A search that answers with a hit of another corpus, or of a document that was not asked for,
      is the last call of its run, and the run is given up for its scope. */
  lemma {:induction false} ForeignHitEndsRun(steps: seq<Step>, r: Outcome, log: seq<Call>, used: nat, budget: nat, replies: nat -> Reply, k: nat, h: Hit)
    requires Ran(steps, r, log, used, budget, replies) && k < |log|
    requires log[k].inv.tool.SearchClauses? && log[k].reply.Structured? && log[k].reply.content.Hits? && h in log[k].reply.content.hits
    requires h.corpus != log[k].inv.corpus || h.document !in log[k].inv.documents
    ensures k == |log| - 1 && r == Aborted(InvalidResultScope)
  {
    assert !HitsInScope(log[k].inv, log[k].reply.content.hits);
    GoesOnAfterYield(log, used, replies, k);
    EndsAsAnswered(steps, r, log, used, budget, replies);
  }

  /** A plan's own calls fit its cost, so only a timed-out call can make a run blame the budget. */
  lemma {:induction false} BudgetIsForTimeouts(steps: seq<Step>, r: Outcome, log: seq<Call>, used: nat, budget: nat, replies: nat -> Reply)
    requires Ran(steps, r, log, used, budget, replies) && used + BaseCallCost(steps) <= budget
    ensures |FirstTries(log)| <= BaseCallCost(steps) && |log| <= 2 * BaseCallCost(steps)
    ensures r.Collected? && (exists c <- r.calls :: c.error == Some(BudgetSpent)) ==> !NoTimeout(log)
  {
    var tail: seq<Summary> :| Stopped(steps, log, used, budget, tail) && r == Result(log, used, tail);
    FirstTriesBound(log, used, replies);
    WithinCost(steps, log, used, budget, tail);
    if r.Collected? {
      OnlyTailBlames(log, tail);
    }
  }

  lemma {:induction false} OnlyTailBlames(log: seq<Call>, tail: seq<Summary>)
    requires |tail| <= 1
    ensures (exists c <- Summaries(log) + tail :: c.error == Some(BudgetSpent)) ==> tail != [] && tail[0].error == Some(BudgetSpent)
  {
    SaidNotSpent(log);
  }

  lemma {:induction false} WithinCost(steps: seq<Step>, log: seq<Call>, used: nat, budget: nat, tail: seq<Summary>)
    requires Stopped(steps, log, used, budget, tail)
    ensures |FirstTries(log)| <= BaseCallCost(steps)
    ensures tail != [] && tail[0].error == Some(BudgetSpent) ==> used + |log| == budget && |FirstTries(log)| < BaseCallCost(steps)
  {
    PlanWithinCost(steps, OutputsOf(log, steps));
  }

  lemma {:induction false} SaidNotSpent(log: seq<Call>)
    ensures forall s <- Summaries(log) :: s.error != Some(BudgetSpent)
  {
    if log != [] {
      SaidNotSpent(log[..|log|-1]);
    }
  }

  /** A run without an error made exactly the plan's invocations, in order, and each yielded. */
  lemma {:induction false} CleanRunIsThePlan(steps: seq<Step>, r: Outcome, log: seq<Call>, used: nat, budget: nat, replies: nat -> Reply)
    requires Ran(steps, r, log, used, budget, replies) && r.Collected?
    ensures (forall c <- r.calls :: c.error.None?) <==>
            Settled(log) && FirstTries(log) == PlanInvocations(steps, OutputsOf(log, steps)) && Resolved(steps, OutputsOf(log, steps))
  {
    var tail: seq<Summary> :| Stopped(steps, log, used, budget, tail) && r == Result(log, used, tail);
    SummariesTell(log, used, replies);
    if tail != [] {
      assert tail[0] in r.calls;
      TailIsError(steps, log, used, budget, tail);
    } else {
      assert r.calls == Summaries(log);
      if !Settled(log) {
        var last := Summaries(log)[|Summaries(log)|-1];
        assert last in r.calls && last.error.Some?;
      }
    }
  }

  lemma {:induction false} TailIsError(steps: seq<Step>, log: seq<Call>, used: nat, budget: nat, tail: seq<Summary>)
    requires Stopped(steps, log, used, budget, tail) && tail != []
    ensures tail[0].error.Some?
    ensures !(FirstTries(log) == PlanInvocations(steps, OutputsOf(log, steps)) && Resolved(steps, OutputsOf(log, steps)))
  {
  }

  // ----- one invocation -----

  /** The calls of one invocation: none without budget, a second only after a timed-out first. */
  function Tries(inv: Invocation, budget: nat, attempts: nat, replies: nat -> Reply): seq<Call> {
    if budget <= attempts then [] else
      var first := Call(inv, replies(attempts), false);
      if first.reply == Failure(ToolTimeout) && attempts + 1 < budget then [first, Call(inv, replies(attempts + 1), true)]
      else [first]
  }

  /** What the loop knows of an invocation when it leaves it. */
  datatype Attempted = Attempted(decoded: Option<Decoded>, error: Option<Error>, retries: nat, malformed: bool)

  predicate Judges(r: Attempted, made: seq<Call>) {
    if made == [] then r == Attempted(None, Some(BudgetSpent), 0, false)
    else
      var last := made[|made|-1];
      && r.decoded == DecodedFrom(last) && r.retries == |made| - 1
      && (r.malformed <==> last.reply.Structured? && !Yielded(last))
      && (last.reply.Failure? ==> r.error == Some(Said(last.reply.code)))
  }

  /** The retry loop. A timeout is retried once, unless the budget ends there. */
  method CallWithRetry(inv: Invocation, budget: nat, attempts: nat, replies: nat -> Reply) returns (r: Attempted, made: seq<Call>)
    requires attempts <= budget
    ensures made == Tries(inv, budget, attempts, replies) && Judges(r, made)
  {
    made := [];
    var retries: nat := 0;
    var error := if attempts >= budget then Some(BudgetSpent) else None;
    while attempts + |made| < budget
      invariant attempts + |made| <= budget && |made| == retries <= 1
      invariant retries == 0 ==> error == if attempts >= budget then Some(BudgetSpent) else None
      invariant retries == 1 ==> made == [Call(inv, replies(attempts), false)] && made[0].reply == Failure(ToolTimeout)
                                 && attempts + 1 < budget
      decreases budget - attempts - |made|
    {
      var reply := replies(attempts + |made|);
      made := made + [Call(inv, reply, retries == 1)];
      match reply
      case Structured(content) =>
        var decoded := Decode(inv, content);
        return Attempted(decoded, error, retries, decoded.None?), made;
      case Failure(code) =>
        error := Some(Said(code));
        if code == ToolTimeout && retries == 0 && attempts + |made| < budget {
          retries := 1;
          continue;
        }
        return Attempted(None, error, retries, false), made;
    }
    r := Attempted(None, error, retries, false);
  }

  // ----- the log grows -----

  lemma {:induction false} TraceSnoc(log: seq<Call>, c: Call, used: nat, replies: nat -> Reply)
    requires Trace(log, used, replies) && c.reply == replies(used + |log|)
    requires if log == [] then !c.retry else Next(log[|log|-1], c)
    ensures Trace(log + [c], used, replies)
  {
  }

  lemma {:induction false} TriesExtend(log: seq<Call>, inv: Invocation, used: nat, budget: nat, replies: nat -> Reply, made: seq<Call>)
    requires Trace(log, used, replies) && Settled(log) && used + |log| <= budget && made == Tries(inv, budget, used + |log|, replies)
    ensures Trace(log + made, used, replies) && used + |log + made| <= budget
    ensures forall c <- made :: c.inv == inv
    ensures made != [] && Retryable(made[|made|-1]) ==> used + |log + made| == budget
  {
    if made == [] {
      assert log + made == log;
    } else {
      TraceSnoc(log, made[0], used, replies);
      if |made| == 1 {
        assert log + made == log + [made[0]];
      } else {
        TraceSnoc(log + [made[0]], made[1], used, replies);
        assert log + made == log + [made[0]] + [made[1]];
      }
    }
  }

  lemma {:induction false} SummarySnoc(log: seq<Call>, c: Call)
    ensures Summaries(log + [c]) ==
            if c.retry && Summaries(log) != [] then Summaries(log)[..|Summaries(log)|-1] + [SummaryOf(c, 1)]
            else Summaries(log) + [SummaryOf(c, 0)]
  {
    assert (log + [c])[..|log|] == log;
  }

  lemma {:induction false} TriesSummed(log: seq<Call>, inv: Invocation, budget: nat, attempts: nat, replies: nat -> Reply, made: seq<Call>)
    requires made == Tries(inv, budget, attempts, replies)
    ensures Summaries(log + made) == Summaries(log) + if made == [] then [] else [SummaryOf(made[|made|-1], |made| - 1)]
  {
    if made == [] {
      assert log + made == log;
    } else {
      SummarySnoc(log, made[0]);
      if |made| == 1 {
        assert log + made == log + [made[0]];
      } else {
        SummarySnoc(log + [made[0]], made[1]);
        assert log + made == log + [made[0]] + [made[1]];
      }
    }
  }

  /** What the calls of one invocation add to everything that is told of the log. */
  lemma {:induction false} TriesTold(log: seq<Call>, inv: Invocation, budget: nat, attempts: nat, replies: nat -> Reply, made: seq<Call>)
    requires made == Tries(inv, budget, attempts, replies)
    ensures FirstTries(log + made) == FirstTries(log) + if made == [] then [] else [inv]
    ensures Summaries(log + made) == Summaries(log) + if made == [] then [] else [SummaryOf(made[|made|-1], |made| - 1)]
    ensures Flat(log + made, Found) == Flat(log, Found) + if made == [] then [] else Found(made[|made|-1])
  {
    TriesSummed(log, inv, budget, attempts, replies, made);
    FlatAppend(log, made, FirstTry);
    FlatAppend(log, made, Found);
    FlatSmall(made, FirstTry);
    FlatSmall(made, Found);
  }

  // ----- between two invocations -----

  ghost predicate Going(log: seq<Call>, calls: seq<Summary>, items: seq<Evidence>, used: nat, budget: nat, replies: nat -> Reply) {
    && Trace(log, used, replies) && Settled(log) && used + |log| <= budget
    && calls == Summaries(log) && items == Flat(log, Found)
  }

  /** The same, kept folded. */
  ghost predicate Running(log: seq<Call>, calls: seq<Summary>, items: seq<Evidence>, used: nat, budget: nat, replies: nat -> Reply) {
    forall n: nat {:trigger Maps.Unfold(n)} :: Maps.Unfold(n) ==> Going(log, calls, items, used, budget, replies)
  }

  lemma {:induction false} RunningMeans(log: seq<Call>, calls: seq<Summary>, items: seq<Evidence>, used: nat, budget: nat, replies: nat -> Reply)
    requires Running(log, calls, items, used, budget, replies)
    ensures Going(log, calls, items, used, budget, replies)
  {
    assert Maps.Unfold(0);
  }

  /** A run that stops at an invocation: its last call yielded nothing, or there was no budget for
      a call, which `tail` then tells. */
  ghost predicate Halts(r: Outcome, log: seq<Call>, used: nat, budget: nat, replies: nat -> Reply, tail: seq<Summary>) {
    && Trace(log, used, replies) && used + |log| <= budget && r == Result(log, used, tail)
    && if tail == [] then !Settled(log) && (Retryable(log[|log|-1]) ==> used + |log| == budget)
       else Settled(log) && used + |log| == budget
  }

  ghost predicate Halted(r: Outcome, log: seq<Call>, used: nat, budget: nat, replies: nat -> Reply, tail: seq<Summary>) {
    forall n: nat {:trigger Maps.Unfold(n)} :: Maps.Unfold(n) ==> Halts(r, log, used, budget, replies, tail)
  }

  /** No budget for the invocation. */
  function SpentTail(inv: Invocation, made: seq<Call>): seq<Summary> {
    if made == [] then [Summary(inv.step, 0, 0, Some(BudgetSpent))] else []
  }

  lemma {:induction false} AfterFailure(log: seq<Call>, calls: seq<Summary>, items: seq<Evidence>, used: nat, budget: nat, replies: nat -> Reply,
                                        inv: Invocation, made: seq<Call>, r: Outcome)
    requires Running(log, calls, items, used, budget, replies) && made == Tries(inv, budget, used + |log|, replies)
    requires made != [] ==> !Yielded(made[|made|-1])
    requires r == if made != [] && made[|made|-1].reply.Structured? then Aborted(Complaint(made[|made|-1]))
                  else Collected(Kept(items), calls + [if made == [] then Summary(inv.step, 0, 0, Some(BudgetSpent)) else SummaryOf(made[|made|-1], |made| - 1)], used + |log + made|)
    ensures Halted(r, log + made, used, budget, replies, SpentTail(inv, made))
  {
    RunningMeans(log, calls, items, used, budget, replies);
    TriesExtend(log, inv, used, budget, replies, made);
    TriesTold(log, inv, budget, used + |log|, replies, made);
    if made == [] {
      assert log + made == log;
    } else {
      assert (log + made)[|log + made|-1] == made[|made|-1];
      assert Summaries(log + made) + [] == Summaries(log + made);
      if made[|made|-1].reply.Failure? {
        assert Found(made[|made|-1]) == [] && items + [] == items;
      }
    }
  }

  lemma {:induction false} AfterYield(log: seq<Call>, calls: seq<Summary>, items: seq<Evidence>, used: nat, budget: nat, replies: nat -> Reply,
                                      inv: Invocation, made: seq<Call>, calls': seq<Summary>, items': seq<Evidence>)
    requires Running(log, calls, items, used, budget, replies) && made == Tries(inv, budget, used + |log|, replies)
    requires made != [] && Yielded(made[|made|-1])
    requires calls' == calls + [SummaryOf(made[|made|-1], |made| - 1)] && items' == items + Found(made[|made|-1])
    ensures Running(log + made, calls', items', used, budget, replies)
  {
    RunningMeans(log, calls, items, used, budget, replies);
    TriesExtend(log, inv, used, budget, replies, made);
    TriesTold(log, inv, budget, used + |log|, replies, made);
    assert (log + made)[|log + made|-1] == made[|made|-1];
  }

  /** One invocation with its retry: it yields its ids and evidence, or ends the run. */
  method InvokeOnce(inv: Invocation, budget: nat, used: nat, replies: nat -> Reply, log: seq<Call>, calls: seq<Summary>, items: seq<Evidence>)
    returns (end: Option<Outcome>, ids: seq<Id>, made: seq<Call>, calls': seq<Summary>, items': seq<Evidence>)
    requires Running(log, calls, items, used, budget, replies)
    ensures made == Tries(inv, budget, used + |log|, replies)
    ensures end.None? <==> made != [] && Yielded(made[|made|-1])
    ensures end.None? ==> Running(log + made, calls', items', used, budget, replies) && ids == DecodedFrom(made[|made|-1]).value.ids
    ensures end.Some? ==> Halted(end.value, log + made, used, budget, replies, SpentTail(inv, made))
  {
    RunningMeans(log, calls, items, used, budget, replies);
    var r;
    r, made := CallWithRetry(inv, budget, used + |log|, replies);
    end, ids, calls', items' := None, [], calls, items;
    assert forall c <- made :: c.inv == inv;
    if r.malformed {
      end := Some(Aborted(Complaint(made[|made|-1])));
      AfterFailure(log, calls, items, used, budget, replies, inv, made, end.value);
      return;
    }
    var summary := Summary(inv.step, if r.decoded.Some? then r.decoded.value.count else 0,
                           r.retries, if r.decoded.Some? then None else r.error);
    calls' := calls + [summary];
    if r.decoded.None? {
      var unique := DedupeEvidence(items);
      end := Some(Collected(unique, calls', used + |log + made|));
      AfterFailure(log, calls, items, used, budget, replies, inv, made, end.value);
      return;
    }
    ids := r.decoded.value.ids;
    items' := items + if r.decoded.value.evidence.Some? then [r.decoded.value.evidence.value] else [];
    AfterYield(log, calls, items, used, budget, replies, inv, made, calls', items');
  }

  /** The calls `more` of a step have tried `done` of its invocations. */
  ghost predicate TriedUpTo(log: seq<Call>, more: seq<Call>, step: Id, invocations: seq<Invocation>, done: nat) {
    && done <= |invocations| && FirstTries(log + more) == FirstTries(log) + invocations[..done]
    && forall c <- more :: c.inv.step == step
  }

  /** The same, kept folded. */
  ghost predicate InStep(log: seq<Call>, more: seq<Call>, step: Id, invocations: seq<Invocation>, done: nat) {
    forall n: nat {:trigger Maps.Unfold(n)} :: Maps.Unfold(n) ==> TriedUpTo(log, more, step, invocations, done)
  }

  lemma {:induction false} InStepMeans(log: seq<Call>, more: seq<Call>, step: Id, invocations: seq<Invocation>, done: nat)
    requires InStep(log, more, step, invocations, done)
    ensures TriedUpTo(log, more, step, invocations, done)
  {
    assert Maps.Unfold(0);
  }

  lemma {:induction false} StepStarts(log: seq<Call>, step: Id, invocations: seq<Invocation>)
    ensures InStep(log, [], step, invocations, 0) && log + [] == log
  {
    assert log + [] == log;
  }

  lemma {:induction false} StepGoesOn(log: seq<Call>, more: seq<Call>, step: Id, invocations: seq<Invocation>, done: nat,
                                      budget: nat, attempts: nat, replies: nat -> Reply, made: seq<Call>)
    requires InStep(log, more, step, invocations, done) && done < |invocations| && invocations[done].step == step
    requires made == Tries(invocations[done], budget, attempts, replies)
    ensures InStep(log, more + made, step, invocations, if made == [] then done else done + 1)
    ensures log + (more + made) == (log + more) + made
  {
    InStepMeans(log, more, step, invocations, done);
    TriesTold(log + more, invocations[done], budget, attempts, replies, made);
    Regroup(log, more, made);
    if made == [] {
      assert more + made == more;
    } else {
      PrefixSnoc(invocations, done);
      Regroup(FirstTries(log), invocations[..done], [invocations[done]]);
    }
  }

  lemma {:induction false} StepYields(more: seq<Call>, inv: Invocation, budget: nat, attempts: nat, replies: nat -> Reply, made: seq<Call>)
    requires made == Tries(inv, budget, attempts, replies)
    ensures Flat(more + made, IdsFor(inv.step)) == Flat(more, IdsFor(inv.step)) +
            if made != [] && Yielded(made[|made|-1]) then DecodedFrom(made[|made|-1]).value.ids else []
  {
    FlatAppend(more, made, IdsFor(inv.step));
    FlatSmall(made, IdsFor(inv.step));
  }

  /** All invocations of one step, in order, until one ends the run. */
  method RunStep(step: Id, invocations: seq<Invocation>, budget: nat, used: nat, replies: nat -> Reply,
                 log: seq<Call>, calls: seq<Summary>, items: seq<Evidence>)
    returns (end: Option<Outcome>, ids: seq<Id>, more: seq<Call>, calls': seq<Summary>, items': seq<Evidence>,
             ghost done: nat, ghost tail: seq<Summary>)
    requires Running(log, calls, items, used, budget, replies)
    requires forall inv <- invocations :: inv.step == step
    ensures done <= |invocations| && InStep(log, more, step, invocations, done)
    ensures end.None? ==> done == |invocations| && Running(log + more, calls', items', used, budget, replies) && ids == Flat(more, IdsFor(step))
    ensures end.Some? ==> Halted(end.value, log + more, used, budget, replies, tail)
    ensures end.Some? ==> tail == [] || (done < |invocations| && tail == [Summary(step, 0, 0, Some(BudgetSpent))])
  {
    end, ids, more, calls', items', done, tail := None, [], [], calls, items, 0, [];
    StepStarts(log, step, invocations);
    for n := 0 to |invocations|
      invariant end.None? && done == n && InStep(log, more, step, invocations, n)
      invariant Running(log + more, calls', items', used, budget, replies) && ids == Flat(more, IdsFor(step))
    {
      var yielded, made;
      assert invocations[n] in invocations;
      end, yielded, made, calls', items' := InvokeOnce(invocations[n], budget, used, replies, log + more, calls', items');
      StepGoesOn(log, more, step, invocations, n, budget, used + |log + more|, replies, made);
      StepYields(more, invocations[n], budget, used + |log + more|, replies, made);
      more, ids, done := more + made, ids + yielded, if made == [] then n else n + 1;
      if end.Some? {
        tail := SpentTail(invocations[n], made);
        return;
      }
    }
  }

  // ----- the plan is executed as written -----

  /** The first tries so far are the plan's invocations so far, fed by what earlier steps yielded. */
  ghost predicate InOrder(steps: seq<Step>, log: seq<Call>, outputs: map<Id, seq<Id>>) {
    && FirstTries(log) == PlanInvocations(steps, outputs) && Resolved(steps, outputs)
    && outputs == OutputsOf(log, steps)
    && forall c <- log :: c.inv.step in StepIds(steps)
  }

  ghost predicate Executed(steps: seq<Step>, log: seq<Call>, outputs: map<Id, seq<Id>>) {
    forall n: nat {:trigger Maps.Unfold(n)} :: Maps.Unfold(n) ==> InOrder(steps, log, outputs)
  }

  lemma {:induction false} ExecutedMeans(steps: seq<Step>, log: seq<Call>, outputs: map<Id, seq<Id>>)
    requires Executed(steps, log, outputs)
    ensures InOrder(steps, log, outputs)
  {
    assert Maps.Unfold(0);
  }

  lemma {:induction false} Untouched(log: seq<Call>, more: seq<Call>, id: Id)
    requires forall c <- more :: c.inv.step != id
    ensures OutputOf(log + more, id) == OutputOf(log, id)
  {
    FlatAppend(log, more, IdsFor(id));
    FlatNothing(more, IdsFor(id));
    assert Flat(log, IdsFor(id)) + [] == Flat(log, IdsFor(id));
  }

  lemma {:induction false} NewOutput(log: seq<Call>, more: seq<Call>, id: Id)
    requires forall c <- log :: c.inv.step != id
    ensures OutputOf(log + more, id) == Dedupe(Flat(more, IdsFor(id)))
  {
    FlatAppend(log, more, IdsFor(id));
    FlatNothing(log, IdsFor(id));
    assert [] + Flat(more, IdsFor(id)) == Flat(more, IdsFor(id));
  }

  /** The calls of step k change nothing that steps up to k refer to. */
  lemma {:induction false} OutputsAgree(steps: seq<Step>, k: nat, log: seq<Call>, more: seq<Call>, outputs: map<Id, seq<Id>>, after: map<Id, seq<Id>>)
    requires ValidPlan(steps) && k < |steps| && outputs == OutputsOf(log, steps[..k])
    requires forall c <- more :: c.inv.step == steps[k].id
    requires exists n :: k <= n <= |steps| && after == OutputsOf(log + more, steps[..n])
    ensures Agree(steps[..k + 1], after, outputs)
  {
    EarlierSteps(steps, k);
    var n :| k <= n <= |steps| && after == OutputsOf(log + more, steps[..n]);
    forall j | 0 <= j < k ensures Yield(after, steps[j].id) == Yield(outputs, steps[j].id) {
      assert steps[j].id == StepIds(steps[..k])[j] == StepIds(steps[..n])[j];
      Untouched(log, more, steps[j].id);
    }
    forall j | 0 <= j <= k && ClausesOf(steps[j].tool).Some? && ClausesOf(steps[j].tool).value.FromStep?
      ensures Yield(after, ClausesOf(steps[j].tool).value.step) == Yield(outputs, ClausesOf(steps[j].tool).value.step) {
      assert ValidStep(steps[j], StepIds(steps)[..j]);
      var id := ClausesOf(steps[j].tool).value.step;
      assert id in StepIds(steps)[..j];
    }
  }

  lemma {:induction false} StepExecuted(steps: seq<Step>, k: nat, log: seq<Call>, more: seq<Call>, outputs: map<Id, seq<Id>>, invocations: seq<Invocation>, ids: seq<Id>)
    requires ValidPlan(steps) && k < |steps| && Executed(steps[..k], log, outputs)
    requires Invocations(steps[k], outputs) == Some(invocations)
    requires InStep(log, more, steps[k].id, invocations, |invocations|)
    requires ids == Flat(more, IdsFor(steps[k].id))
    ensures Executed(steps[..k + 1], log + more, outputs[steps[k].id := Dedupe(ids)])
  {
    ExecutedMeans(steps[..k], log, outputs);
    InStepMeans(log, more, steps[k].id, invocations, |invocations|);
    EarlierSteps(steps, k);
    var after := outputs[steps[k].id := Dedupe(ids)];
    OutputsGrow(log, more, steps, k, ids);
    OutputsAgree(steps, k, log, more, outputs, OutputsOf(log + more, steps[..k + 1]));
    SamePlan(steps[..k + 1], after, outputs);
    PlanSnoc(steps, k, outputs);
    assert invocations[..|invocations|] == invocations;
    PrefixSnoc(steps, k);
  }

  lemma {:induction false} OutputsGrow(log: seq<Call>, more: seq<Call>, steps: seq<Step>, k: nat, ids: seq<Id>)
    requires k < |steps| && steps[k].id !in StepIds(steps[..k])
    requires StepIds(steps[..k + 1]) == StepIds(steps[..k]) + [steps[k].id]
    requires ids == Flat(more, IdsFor(steps[k].id)) && forall c <- more :: c.inv.step == steps[k].id
    requires forall c <- log :: c.inv.step in StepIds(steps[..k])
    ensures OutputsOf(log + more, steps[..k + 1]) == OutputsOf(log, steps[..k])[steps[k].id := Dedupe(ids)]
  {
    forall id <- StepIds(steps[..k]) ensures OutputOf(log + more, id) == OutputOf(log, id) {
      Untouched(log, more, id);
    }
    NewOutput(log, more, steps[k].id);
  }

  // ----- how a run ends -----

  /** Up to step k the plan is the one the final outputs unfold to. */
  lemma {:induction false} PlanSoFar(steps: seq<Step>, k: nat, log: seq<Call>, more: seq<Call>, outputs: map<Id, seq<Id>>)
    requires ValidPlan(steps) && k < |steps| && Executed(steps[..k], log, outputs)
    requires forall c <- more :: c.inv.step == steps[k].id
    ensures var final := OutputsOf(log + more, steps);
            && Invocations(steps[k], final) == Invocations(steps[k], outputs)
            && PlanInvocations(steps[..k], final) == FirstTries(log)
            && (Invocations(steps[k], outputs).Some? ==>
                  FirstTries(log) + Invocations(steps[k], outputs).value <= PlanInvocations(steps, final))
  {
    ExecutedMeans(steps[..k], log, outputs);
    var final := OutputsOf(log + more, steps);
    assert steps[..|steps|] == steps;
    OutputsAgree(steps, k, log, more, outputs, final);
    PrefixSnoc(steps, k);
    assert steps[k] in steps[..k + 1];
    assert Agree([steps[k]], final, outputs) && Agree(steps[..k], final, outputs);
    SameInvocations(steps[k], final, outputs);
    SamePlan(steps[..k], final, outputs);
    if Invocations(steps[k], outputs).Some? {
      PlanSnoc(steps, k, final);
      PlanPrefix(steps, k + 1, final);
    }
  }

  lemma {:induction false} HaltsInStep(steps: seq<Step>, k: nat, log: seq<Call>, more: seq<Call>, outputs: map<Id, seq<Id>>, invocations: seq<Invocation>,
                                       done: nat, tail: seq<Summary>, r: Outcome, used: nat, budget: nat, replies: nat -> Reply)
    requires ValidPlan(steps) && k < |steps| && Executed(steps[..k], log, outputs) && Invocations(steps[k], outputs) == Some(invocations)
    requires InStep(log, more, steps[k].id, invocations, done) && Halted(r, log + more, used, budget, replies, tail)
    requires tail == [] || (done < |invocations| && tail == [Summary(steps[k].id, 0, 0, Some(BudgetSpent))])
    requires forall inv <- invocations :: inv.step == steps[k].id
    ensures Ran(steps, r, log + more, used, budget, replies)
  {
    InStepMeans(log, more, steps[k].id, invocations, done);
    PlanSoFar(steps, k, log, more, outputs);
    StopsInStep(steps, log + more, FirstTries(log), invocations, done, tail, used, budget, r, replies);
  }

  lemma {:induction false} StopsInStep(steps: seq<Step>, log: seq<Call>, before: seq<Invocation>, invocations: seq<Invocation>, done: nat,
                                       tail: seq<Summary>, used: nat, budget: nat, r: Outcome, replies: nat -> Reply)
    requires done <= |invocations| && FirstTries(log) == before + invocations[..done]
    requires before + invocations <= PlanInvocations(steps, OutputsOf(log, steps))
    requires Halted(r, log, used, budget, replies, tail)
    requires tail == [] || (done < |invocations| && tail == [Summary(invocations[done].step, 0, 0, Some(BudgetSpent))])
    ensures Ran(steps, r, log, used, budget, replies)
  {
    assert Maps.Unfold(0);
    var plan := PlanInvocations(steps, OutputsOf(log, steps));
    assert before + invocations[..done] <= before + invocations;
    if done < |invocations| {
      assert plan[|before| + done] == (before + invocations)[|before| + done];
    }
    assert Stopped(steps, log, used, budget, tail);
  }

  lemma {:induction false} HaltsAtStep(steps: seq<Step>, k: nat, log: seq<Call>, outputs: map<Id, seq<Id>>, calls: seq<Summary>, items: seq<Evidence>,
                                       r: Outcome, used: nat, budget: nat, replies: nat -> Reply)
    requires ValidPlan(steps) && k < |steps| && Executed(steps[..k], log, outputs) && Running(log, calls, items, used, budget, replies)
    requires Invocations(steps[k], outputs).None?
    requires r == Collected(Kept(items), calls + [Summary(steps[k].id, 0, 0, Some(Said(InvalidReference)))], used + |log|)
    ensures Ran(steps, r, log, used, budget, replies)
  {
    assert log + [] == log;
    PlanSoFar(steps, k, log, [], outputs);
    PlanPrefix(steps, k, OutputsOf(log, steps));
    StopsAtStep(steps, k, log, calls, items, r, used, budget, replies);
  }

  lemma {:induction false} StopsAtStep(steps: seq<Step>, k: nat, log: seq<Call>, calls: seq<Summary>, items: seq<Evidence>,
                                       r: Outcome, used: nat, budget: nat, replies: nat -> Reply)
    requires k < |steps| && Running(log, calls, items, used, budget, replies)
    requires Invocations(steps[k], OutputsOf(log, steps)).None?
    requires FirstTries(log) == PlanInvocations(steps[..k], OutputsOf(log, steps)) <= PlanInvocations(steps, OutputsOf(log, steps))
    requires r == Collected(Kept(items), calls + [Summary(steps[k].id, 0, 0, Some(Said(InvalidReference)))], used + |log|)
    ensures Ran(steps, r, log, used, budget, replies)
  {
    RunningMeans(log, calls, items, used, budget, replies);
    var tail := [Summary(steps[k].id, 0, 0, Some(Said(InvalidReference)))];
    assert StuckAt(steps, OutputsOf(log, steps), FirstTries(log), steps[k].id);
    assert Stopped(steps, log, used, budget, tail) && r == Result(log, used, tail);
  }

  lemma {:induction false} HaltsDone(steps: seq<Step>, log: seq<Call>, outputs: map<Id, seq<Id>>, calls: seq<Summary>, items: seq<Evidence>,
                                     r: Outcome, used: nat, budget: nat, replies: nat -> Reply)
    requires Executed(steps, log, outputs) && Running(log, calls, items, used, budget, replies)
    requires r == Collected(Kept(items), calls, used + |log|)
    ensures Ran(steps, r, log, used, budget, replies)
  {
    RunningMeans(log, calls, items, used, budget, replies);
    ExecutedMeans(steps, log, outputs);
    assert calls + [] == calls;
    assert Stopped(steps, log, used, budget, []) && r == Result(log, used, []);
  }

  /** The steps of a plan, in order, until one ends the run. */
  method Execute(steps: seq<Step>, budget: nat, used: nat, replies: nat -> Reply) returns (r: Outcome, log: seq<Call>)
    requires ValidPlan(steps) && used <= budget
    ensures Ran(steps, r, log, used, budget, replies)
  {
    log := [];
    var outputs: map<Id, seq<Id>> := map[];
    var items: seq<Evidence> := [];
    var calls: seq<Summary> := [];
    assert Running(log, calls, items, used, budget, replies);
    assert Executed(steps[..0], log, outputs);
    for k := 0 to |steps|
      invariant Running(log, calls, items, used, budget, replies)
      invariant Executed(steps[..k], log, outputs)
    {
      var invocations := Invocations(steps[k], outputs);
      if invocations.None? {
        var unique := DedupeEvidence(items);
        r := Collected(unique, calls + [Summary(steps[k].id, 0, 0, Some(Said(InvalidReference)))], used + |log|);
        HaltsAtStep(steps, k, log, outputs, calls, items, r, used, budget, replies);
        return;
      }
      InvocationsOfStep(steps[k], outputs);
      var end, ids, more;
      ghost var done, tail;
      end, ids, more, calls, items, done, tail := RunStep(steps[k].id, invocations.value, budget, used, replies, log, calls, items);
      if end.Some? {
        r := end.value;
        HaltsInStep(steps, k, log, more, outputs, invocations.value, done, tail, r, used, budget, replies);
        log := log + more;
        return;
      }
      StepExecuted(steps, k, log, more, outputs, invocations.value, ids);
      log, outputs := log + more, outputs[steps[k].id := Dedupe(ids)];
    }
    assert steps[..|steps|] == steps;
    var unique := DedupeEvidence(items);
    r := Collected(unique, calls, used + |log|);
    HaltsDone(steps, log, outputs, calls, items, r, used, budget, replies);
  }

  /** Run a plan under one budget. `replies(k)` is what the client would answer to attempt k. */
  method Collect(steps: seq<Step>, corpus: Id, budget: nat, used: nat, replies: nat -> Reply)
    returns (r: Outcome, log: seq<Call>)
    requires ValidPlan(steps)
    ensures r == Aborted(InvalidPlan) <==> used <= budget < BaseCallCost(steps)
    ensures r == Aborted(BudgetExceeded) <==> used > budget || BaseCallCost(steps) <= budget < used + BaseCallCost(steps)
    ensures r == Aborted(InvalidScope) <==> used + BaseCallCost(steps) <= budget && exists s <- steps :: s.corpus != corpus
    ensures if used + BaseCallCost(steps) <= budget && forall s <- steps :: s.corpus == corpus
            then Ran(steps, r, log, used, budget, replies) else log == []
  {
    log := [];
    if used > budget {
      return Aborted(BudgetExceeded), log;
    }
    if BaseCallCost(steps) > budget {
      return Aborted(InvalidPlan), log;
    }
    if BaseCallCost(steps) > budget - used {
      return Aborted(BudgetExceeded), log;
    }
    if exists s <- steps :: s.corpus != corpus {
      return Aborted(InvalidScope), log;
    }
    r, log := Execute(steps, budget, used, replies);
  }
}
