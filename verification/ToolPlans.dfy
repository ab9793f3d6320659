/** A model's tool plan: what it may hold, which invocations it unfolds to, what it costs, and how
    a tool's reply is read. */
module ToolPlans {
  import opened Basics
  import opened Sequences

  // ----- plans -----

  datatype Clauses = Direct(ids: seq<Id>) | FromStep(step: Id, take: nat)
  datatype Tool = SearchClauses | GetClause(clauses: Clauses) | GetToc | ExpandReferences(clauses: Clauses) | LookupTerm
  /** `documents` are those a search may answer from, or the one any other tool is asked about. */
  datatype Step = Step(id: Id, tool: Tool, corpus: Id, documents: seq<Id>, dependsOn: seq<Id>)

  function ClausesOf(tool: Tool): Option<Clauses> {
    match tool
    case GetClause(clauses) => Some(clauses)
    case ExpandReferences(clauses) => Some(clauses)
    case _ => None
  }

  function CallCost(step: Step): nat {
    match ClausesOf(step.tool)
    case None => 1
    case Some(Direct(ids)) => |ids|
    case Some(FromStep(_, take)) => take
  }

  function BaseCallCost(steps: seq<Step>): nat {
    if steps == [] then 0 else BaseCallCost(steps[..|steps|-1]) + CallCost(steps[|steps|-1])
  }

  function StepIds(steps: seq<Step>): seq<Id> {
    seq(|steps|, k requires 0 <= k < |steps| => steps[k].id)
  }

  /** Identifiers and sizes a plan may hold, and dependencies on earlier steps only. */
  predicate ValidStep(step: Step, earlier: seq<Id>) {
    && Distinct(step.dependsOn)
    && (forall d <- step.dependsOn :: d in earlier)
    && (if step.tool.SearchClauses? then 1 <= |step.documents| <= 12 else |step.documents| == 1)
    && match ClausesOf(step.tool)
       case None => true
       case Some(Direct(ids)) => 1 <= |ids| <= 3
       case Some(FromStep(id, take)) => 1 <= take <= 3 && id in step.dependsOn
  }

  predicate ValidPlan(steps: seq<Step>) {
    && 1 <= |steps| <= 4 && Distinct(StepIds(steps))
    && forall k :: 0 <= k < |steps| ==> ValidStep(steps[k], StepIds(steps)[..k])
  }

  // ----- invocations and replies -----

  datatype Invocation = Invocation(step: Id, tool: Tool, corpus: Id, documents: seq<Id>, clause: Option<Id>)

  function Take<T>(s: seq<T>, n: nat): seq<T> {
    if n <= |s| then s[..n] else s
  }

  function PerClause(step: Step, ids: seq<Id>): seq<Invocation> {
    seq(|ids|, k requires 0 <= k < |ids| => Invocation(step.id, step.tool, step.corpus, step.documents, Some(ids[k])))
  }

  /** What a step has yielded for later steps to refer to. */
  function Yield(outputs: map<Id, seq<Id>>, id: Id): seq<Id> {
    if id in outputs then outputs[id] else []
  }

  /** One call per clause; None when a referenced step yielded nothing. */
  function Invocations(step: Step, outputs: map<Id, seq<Id>>): Option<seq<Invocation>> {
    match ClausesOf(step.tool)
    case None => Some([Invocation(step.id, step.tool, step.corpus, step.documents, None)])
    case Some(Direct(ids)) => Some(PerClause(step, Dedupe(ids)))
    case Some(FromStep(id, take)) =>
      var ids := Take(Yield(outputs, id), take);
      if ids == [] then None else Some(PerClause(step, ids))
  }

  /** The invocations of a whole plan, in order. */
  function PlanInvocations(steps: seq<Step>, outputs: map<Id, seq<Id>>): seq<Invocation> {
    if steps == [] then [] else
      var n := |steps| - 1;
      var last := Invocations(steps[n], outputs);
      PlanInvocations(steps[..n], outputs) + if last.Some? then last.value else []
  }

  // ----- replies -----

  datatype ToolError = InvalidArgument | NotFound | InvalidReference | ToolTimeout | BackendUnavailable

  datatype Hit = Hit(corpus: Id, document: Id, clause: Id)

  /** A clause as told: its document, its section, its text and the hash of that. */
  datatype ClauseUnit = ClauseUnit(document: Id, section: Id, text: Id, hash: Id)

  /** `local` is what the local store holds for the clause named, if anything. */
  datatype Content =
    | Hits(hits: seq<Hit>)
    | ClauseText(corpus: Id, clause: Id, told: ClauseUnit, local: Option<ClauseUnit>)
    | ClauseIds(ids: seq<Id>)
    | TocNodes(count: nat)
    | Unreadable
  datatype Reply = Failure(code: ToolError) | Structured(content: Content)

  datatype Evidence = Evidence(clause: Id, content: Id)
  datatype Decoded = Decoded(ids: seq<Id>, count: nat, evidence: Option<Evidence>)

  function ClausesIn(hits: seq<Hit>): seq<Id> {
    seq(|hits|, k requires 0 <= k < |hits| => hits[k].clause)
  }

  /** Every hit is of the plan's corpus and of a document that was asked for. */
  predicate HitsInScope(inv: Invocation, hits: seq<Hit>) {
    forall h <- hits :: h.corpus == inv.corpus && h.document in inv.documents
  }

  predicate ClauseInScope(inv: Invocation, corpus: Id, clause: Id, told: ClauseUnit, local: Option<ClauseUnit>) {
    corpus == inv.corpus && inv.documents == [told.document] && inv.clause == Some(clause) && local.Some?
  }

  /** None stands for a result out of scope, contradicted by the local store, or unreadable. */
  function Decode(inv: Invocation, content: Content): Option<Decoded> {
    match (inv.tool, content)
    case (SearchClauses, Hits(hits)) =>
      if HitsInScope(inv, hits) then Some(Decoded(Dedupe(ClausesIn(hits)), |hits|, None)) else None
    case (ExpandReferences(_), ClauseIds(ids)) => Some(Decoded(Dedupe(ids), |ids|, None))
    case (LookupTerm, ClauseIds(ids)) => Some(Decoded(Dedupe(ids), |ids|, None))
    case (GetClause(_), ClauseText(corpus, clause, told, local)) =>
      if ClauseInScope(inv, corpus, clause, told, local) && local.value == told
      then Some(Decoded([clause], 1, Some(Evidence(clause, local.value.hash)))) else None
    case (GetToc, TocNodes(count)) => Some(Decoded([], count, None))
    case _ => None
  }

  /** The result is readable but speaks of something else than what was asked for. */
  predicate ResultOutOfScope(inv: Invocation, content: Content) {
    match (inv.tool, content)
    case (SearchClauses, Hits(hits)) => !HitsInScope(inv, hits)
    case (GetClause(_), ClauseText(corpus, clause, told, local)) => !ClauseInScope(inv, corpus, clause, told, local)
    case _ => false
  }

  /** The ids a list of ids yields: each once, in the order first met. */
  ghost predicate Once(ids: seq<Id>, all: seq<Id>) {
    && Distinct(ids) && (forall i :: i in ids <==> i in all)
    && forall i, j :: 0 <= i < j < |ids| ==> MetBefore(all, ids[i], ids[j])
  }

  lemma DedupeOnce(all: seq<Id>)
    ensures Once(Dedupe(all), all)
  {
    UnionProperties([], all);
    UnionOrder([], all);
  }

  /** How each tool's reply is read. A search is taken when each hit is of the corpus and of a
      document asked for, a clause when it is the one asked for and the local store has the very
      same; ids come once each in order, counts are of the whole reply, and evidence comes from
      clauses alone. A reply of another tool's shape is never taken. */
  lemma ReadExactly(inv: Invocation, content: Content)
    ensures var read := Decode(inv, content);
            match content
            case Hits(hits) =>
              && (read.Some? <==> inv.tool.SearchClauses? && forall k :: 0 <= k < |hits| ==> hits[k].corpus == inv.corpus && hits[k].document in inv.documents)
              && (read.Some? ==> Once(read.value.ids, seq(|hits|, k requires 0 <= k < |hits| => hits[k].clause)) && read.value.count == |hits| && read.value.evidence == None)
            case ClauseIds(ids) =>
              && (read.Some? <==> inv.tool.ExpandReferences? || inv.tool.LookupTerm?)
              && (read.Some? ==> Once(read.value.ids, ids) && read.value.count == |ids| && read.value.evidence == None)
            case ClauseText(corpus, clause, told, local) =>
              && (read.Some? <==> inv.tool.GetClause? && corpus == inv.corpus && inv.clause == Some(clause)
                                  && inv.documents == [told.document] && local == Some(told))
              && (read.Some? ==> read.value == Decoded([clause], 1, Some(Evidence(clause, told.hash))))
            case TocNodes(count) => read == if inv.tool.GetToc? then Some(Decoded([], count, None)) else None
            case Unreadable => read == None
  {
    match content
    case Hits(hits) =>
      DedupeOnce(ClausesIn(hits));
      if inv.tool.SearchClauses? {
        HitsByPlace(inv, hits);
      }
    case ClauseIds(ids) => DedupeOnce(ids);
    case _ =>
  }

  lemma HitsByPlace(inv: Invocation, hits: seq<Hit>)
    ensures HitsInScope(inv, hits) <==> forall k :: 0 <= k < |hits| ==> hits[k].corpus == inv.corpus && hits[k].document in inv.documents
  {
  }

  // ----- invocations stay within the plan's cost -----

  lemma {:induction false} UnionShort<T>(first: seq<T>, second: seq<T>)
    ensures |Union(first, second)| <= |first| + |second|
  {
    if second != [] {
      UnionShort(first, second[..|second|-1]);
    }
  }

  lemma InvocationsWithinCost(step: Step, outputs: map<Id, seq<Id>>)
    ensures Invocations(step, outputs).Some? ==> |Invocations(step, outputs).value| <= CallCost(step)
  {
    if ClausesOf(step.tool).Some? && ClausesOf(step.tool).value.Direct? {
      UnionShort([], ClausesOf(step.tool).value.ids);
    }
  }

  /** A plan never unfolds to more invocations than it costs. */
  lemma {:induction false} PlanWithinCost(steps: seq<Step>, outputs: map<Id, seq<Id>>)
    ensures |PlanInvocations(steps, outputs)| <= BaseCallCost(steps)
  {
    if steps != [] {
      var n := |steps| - 1;
      PlanWithinCost(steps[..n], outputs);
      InvocationsWithinCost(steps[n], outputs);
    }
  }

  /** The step's clauses are distinct, or an earlier step yielded as many as it takes. */
  predicate Saturated(step: Step, outputs: map<Id, seq<Id>>) {
    match step.tool
    case GetClause(Direct(ids)) => Distinct(ids)
    case ExpandReferences(Direct(ids)) => Distinct(ids)
    case GetClause(FromStep(from, take)) => from in outputs && 1 <= take <= |outputs[from]|
    case ExpandReferences(FromStep(from, take)) => from in outputs && 1 <= take <= |outputs[from]|
    case _ => true
  }

  lemma {:induction false} DistinctDedupe(s: seq<Id>)
    requires Distinct(s)
    ensures Dedupe(s) == s
  {
    if s != [] {
      var n := |s| - 1;
      DistinctDedupe(s[..n]);
      assert s == s[..n] + [s[n]];
    }
  }

  /** The cost of a plan is no more than needed: it makes that many invocations when no clause is
      named twice and every step referred to yields enough. */
  lemma {:induction false} CostIsMet(steps: seq<Step>, outputs: map<Id, seq<Id>>)
    requires forall s <- steps :: Saturated(s, outputs)
    ensures |PlanInvocations(steps, outputs)| == BaseCallCost(steps)
  {
    if steps != [] {
      var n := |steps| - 1;
      CostIsMet(steps[..n], outputs);
      assert steps[n] in steps;
      match ClausesOf(steps[n].tool)
      case Some(Direct(ids)) => DistinctDedupe(ids);
      case _ =>
    }
  }

  /** What a step invokes: its tool once when it names no clauses; otherwise its tool for each
      clause it names, once each, or for the first of those an earlier step yielded. It is
      unresolved exactly when that step yielded nothing. */
  lemma InvokedExactly(step: Step, outputs: map<Id, seq<Id>>)
    ensures Invocations(step, outputs).Some? ==> forall inv <- Invocations(step, outputs).value ::
              inv.step == step.id && inv.tool == step.tool && inv.corpus == step.corpus && inv.documents == step.documents
    ensures var clauses: Option<Clauses> := match step.tool case GetClause(c) => Some(c) case ExpandReferences(c) => Some(c) case _ => None;
            match clauses
            case None => Invocations(step, outputs).Some? && |Invocations(step, outputs).value| == 1 && Invocations(step, outputs).value[0].clause == None
            case Some(Direct(ids)) => Invocations(step, outputs).Some? && Once(Asked(Invocations(step, outputs).value), ids)
            case Some(FromStep(from, take)) =>
              && (Invocations(step, outputs).None? <==> take == 0 || from !in outputs || outputs[from] == [])
              && (Invocations(step, outputs).Some? ==>
                    Asked(Invocations(step, outputs).value) == outputs[from][..if take < |outputs[from]| then take else |outputs[from]|])
  {
    match ClausesOf(step.tool)
    case None =>
    case Some(Direct(ids)) =>
      DedupeOnce(ids);
      AskedEach(step, Dedupe(ids));
    case Some(FromStep(from, take)) => AskedEach(step, Take(Yield(outputs, from), take));
  }

  /** The clauses some invocations ask about. */
  function Asked(invocations: seq<Invocation>): seq<Id> {
    seq(|invocations|, k requires 0 <= k < |invocations| => if invocations[k].clause.Some? then invocations[k].clause.value else 0)
  }

  lemma AskedEach(step: Step, ids: seq<Id>)
    ensures Asked(PerClause(step, ids)) == ids
  {
  }

  lemma InvocationsOfStep(step: Step, outputs: map<Id, seq<Id>>)
    ensures Invocations(step, outputs).Some? ==> forall inv <- Invocations(step, outputs).value :: inv.step == step.id
  {
  }

  // ----- what an invocation list depends on -----

  predicate Refers(step: Step, id: Id) {
    match ClausesOf(step.tool)
    case Some(FromStep(from, _)) => from == id
    case _ => false
  }

  /** Two records of outputs agree on everything the steps refer to. */
  predicate Agree(steps: seq<Step>, a: map<Id, seq<Id>>, b: map<Id, seq<Id>>) {
    forall s <- steps :: ClausesOf(s.tool).Some? && ClausesOf(s.tool).value.FromStep? ==>
      Yield(a, ClausesOf(s.tool).value.step) == Yield(b, ClausesOf(s.tool).value.step)
  }

  lemma SameInvocations(step: Step, a: map<Id, seq<Id>>, b: map<Id, seq<Id>>)
    requires Agree([step], a, b)
    ensures Invocations(step, a) == Invocations(step, b)
  {
    assert step in [step];
  }

  lemma {:induction false} SamePlan(steps: seq<Step>, a: map<Id, seq<Id>>, b: map<Id, seq<Id>>)
    requires Agree(steps, a, b)
    ensures PlanInvocations(steps, a) == PlanInvocations(steps, b)
    ensures Resolved(steps, a) <==> Resolved(steps, b)
  {
    forall s <- steps ensures Invocations(s, a) == Invocations(s, b) {
      SameInvocations(s, a, b);
    }
    if steps != [] {
      SamePlan(steps[..|steps|-1], a, b);
    }
  }

  predicate Resolved(steps: seq<Step>, outputs: map<Id, seq<Id>>) {
    forall s <- steps :: Invocations(s, outputs).Some?
  }

  lemma PlanSnoc(steps: seq<Step>, k: nat, outputs: map<Id, seq<Id>>)
    requires k < |steps| && Invocations(steps[k], outputs).Some?
    ensures PlanInvocations(steps[..k + 1], outputs) == PlanInvocations(steps[..k], outputs) + Invocations(steps[k], outputs).value
  {
    assert steps[..k + 1][..k] == steps[..k];
  }

  lemma {:induction false} PlanPrefix(steps: seq<Step>, k: nat, outputs: map<Id, seq<Id>>)
    requires k <= |steps|
    ensures PlanInvocations(steps[..k], outputs) <= PlanInvocations(steps, outputs)
    decreases |steps|
  {
    if k < |steps| {
      var n := |steps| - 1;
      PlanPrefix(steps[..n], k, outputs);
      assert steps[..n][..k] == steps[..k];
    } else {
      assert steps[..k] == steps;
    }
  }

  /** A step refers to earlier steps only, and no two steps share an id. */
  lemma EarlierSteps(steps: seq<Step>, k: nat)
    requires ValidPlan(steps) && k < |steps|
    ensures steps[k].id !in StepIds(steps[..k])
    ensures forall s <- steps[..k + 1] :: !Refers(s, steps[k].id)
    ensures StepIds(steps[..k + 1]) == StepIds(steps[..k]) + [steps[k].id]
  {
    forall j | 0 <= j <= k ensures !Refers(steps[j], steps[k].id) {
      assert ValidStep(steps[j], StepIds(steps)[..j]);
      forall i | 0 <= i < j ensures StepIds(steps)[i] != steps[k].id {
        assert StepIds(steps)[i] != StepIds(steps)[k];
      }
    }
    forall i | 0 <= i < k ensures steps[i].id != steps[k].id {
      assert StepIds(steps)[i] != StepIds(steps)[k];
    }
  }
}
