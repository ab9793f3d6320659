/** Checkpoints of a resumable run: what one may hold, and which may follow which. */
module Checkpoints {
  import opened Basics
  import opened Sequences

  datatype Stage =
    | Planned | EvidenceCollected | CandidateBuilt | DeterministicVerified
    | RecoveryReserved | RecoveryCompleted | SemanticVerified | Completed

  function LegalTransitions(s: Stage): set<Stage> {
    match s
    case Planned => {Planned, EvidenceCollected}
    case EvidenceCollected => {EvidenceCollected, CandidateBuilt}
    case CandidateBuilt => {CandidateBuilt, DeterministicVerified, RecoveryReserved, RecoveryCompleted}
    case DeterministicVerified => {DeterministicVerified, SemanticVerified, RecoveryReserved, RecoveryCompleted}
    case RecoveryReserved => {RecoveryReserved, RecoveryCompleted, SemanticVerified}
    case RecoveryCompleted => {RecoveryCompleted, DeterministicVerified}
    case SemanticVerified => {SemanticVerified, DeterministicVerified, Completed}
    case Completed => {}
  }

  datatype Deployment = Deployment(
    source: Id, corpus: Id, policy: Id, configuration: Id,
    compliancePrompt: Id, verifierPrompt: Id, provider: Id, model: Id)
  datatype Binding = Binding(query: Id, root: Id, deployment: Deployment)

  /** A frozen excerpt identity; `rest` stands for the hashes and the ordered span. */
  datatype EvidenceRef = EvidenceRef(id: Id, rest: Id)
  datatype ModelStage = Planning | Compliance | Verifier
  datatype Generation = Generation(stage: ModelStage, claim: Option<Id>, recovery: bool, generation: nat)
  predicate ClaimNamed(g: Generation) {
    (g.stage == Planning ==> g.claim.None?) && (g.stage == Verifier ==> g.claim.Some?)
  }

  datatype ClaimResult = ClaimResult(claim: Id, outcome: Id)

  datatype Envelope = Envelope(
    run: Id, attempt: nat, version: nat, stage: Stage, binding: Binding,
    plan: Option<Id>, planHash: Option<Id>, evidence: seq<EvidenceRef>,
    toolAttempts: nat, reservations: seq<Id>, generations: seq<Generation>,
    recoveryAttempted: bool, recoveryReason: Option<Id>, recoveryClaim: Option<Id>,
    candidates: nat, completedClaims: seq<Id>, completedResults: seq<ClaimResult>, accessed: nat)

  predicate Sized(e: Envelope) {
    && 1 <= e.attempt && 1 <= e.version
    && |e.evidence| <= 12 && e.toolAttempts <= 8 && |e.reservations| <= 8 && |e.generations| <= 8
    && e.candidates <= 3 && |e.completedClaims| <= 3
  }

  predicate ResultsMatch(claims: seq<Id>, results: seq<ClaimResult>) {
    |claims| == |results| && forall i :: 0 <= i < |claims| ==> claims[i] == results[i].claim
  }

  predicate Consistent(e: Envelope) {
    && e.binding.deployment.compliancePrompt != e.binding.deployment.verifierPrompt
    && (e.plan.Some? <==> e.planHash.Some?)
    && (e.stage == RecoveryReserved || e.stage == RecoveryCompleted ==> e.recoveryAttempted)
    && (e.recoveryReason.Some? ==> e.recoveryAttempted)
    && (e.stage == RecoveryReserved <==> e.recoveryClaim.Some?)
    && Distinct(e.completedClaims) && ResultsMatch(e.completedClaims, e.completedResults)
    && |e.completedResults| <= e.candidates
    && Distinct(e.reservations) && Distinct(e.generations) && (forall g <- e.generations :: ClaimNamed(g))
    && Distinct(seq(|e.evidence|, i requires 0 <= i < |e.evidence| => e.evidence[i].id))
  }

  const BLANK := Envelope(
    0, 1, 1, Planned, Binding(0, 0, Deployment(0, 0, 0, 0, 0, 1, 0, 0)), None, None, [], 0, [], [],
    false, None, None, 0, [], [], 0)

  type Checkpoint = e: Envelope | Sized(e) && Consistent(e) witness BLANK

  predicate Subset<T(==)>(a: seq<T>, b: seq<T>) {
    forall x <- a :: x in b
  }

  /** Nothing a run has spent or learnt is taken back. */
  predicate Monotone(a: Checkpoint, b: Checkpoint) {
    && a.toolAttempts <= b.toolAttempts
    && Subset(a.reservations, b.reservations)
    && Subset(a.generations, b.generations)
    && (a.recoveryAttempted ==> b.recoveryAttempted)
    && a.candidates <= b.candidates
    && Subset(a.completedClaims, b.completedClaims)
  }

  /** The transition rule between two stored checkpoints. */
  predicate ValidTransition(a: Checkpoint, b: Checkpoint) {
    && a.run == b.run && a.attempt == b.attempt
    && b.version == a.version + 1
    && b.stage in LegalTransitions(a.stage)
    && a.binding == b.binding
    && Monotone(a, b)
    && (a.stage == RecoveryReserved && b.stage == RecoveryReserved ==> a.recoveryClaim == b.recoveryClaim)
  }

  function Resumed(c: Checkpoint, now: nat): Checkpoint {
    c.(attempt := c.attempt + 1, version := c.version + 1, accessed := now)
  }

  function Compacted(c: Checkpoint, now: nat): Checkpoint
    requires c.stage == Completed
  {
    c.(plan := None, planHash := None, evidence := [], toolAttempts := 0, reservations := [], generations := [],
       recoveryReason := None, recoveryClaim := None, accessed := now)
  }

  // ----- histories -----

  /** How a stored checkpoint may become the next one: a write, a resume, or a compaction. */
  predicate Follows(a: Checkpoint, b: Checkpoint) {
    || ValidTransition(a, b)
    || b == Resumed(a, b.accessed)
    || (a.stage == Completed && b == Compacted(a, b.accessed))
  }

  predicate History(h: seq<Checkpoint>) {
    && (h != [] ==> h[0].stage == Planned && h[0].attempt == 1 && h[0].version == 1)
    && forall i, j :: 0 <= i < |h| && i < j < |h| && j == i + 1 ==> Follows(h[i], h[j])
  }

  /** Bindings never change, versions and attempts never fall, and each entry moves the version
      by one or compacts a completed run in place. */
  lemma {:induction false} HistoryIsBound(h: seq<Checkpoint>, i: nat, j: nat)
    requires History(h) && i <= j < |h|
    ensures h[i].run == h[j].run && h[i].binding == h[j].binding
    ensures h[i].version <= h[j].version <= h[i].version + (j - i) && h[i].attempt <= h[j].attempt
    ensures h[j].stage != Completed ==> h[i].stage != Completed && h[j].version == h[i].version + (j - i)
    decreases j - i
  {
    if i < j {
      HistoryIsBound(h, i, j - 1);
      assert Follows(h[j - 1], h[j]);
    }
  }

  /** Until a run completes nothing it has spent or finished is taken back: no tool attempt,
      reservation, generation, recovery, candidate or claim. */
  lemma {:induction false} BudgetNeverShrinks(h: seq<Checkpoint>, i: nat, j: nat)
    requires History(h) && i < j < |h| && h[j - 1].stage != Completed
    ensures h[i].toolAttempts <= h[j].toolAttempts && h[i].candidates <= h[j].candidates
    ensures forall r <- h[i].reservations :: r in h[j].reservations
    ensures forall g <- h[i].generations :: g in h[j].generations
    ensures forall c <- h[i].completedClaims :: c in h[j].completedClaims
    ensures h[i].recoveryAttempted ==> h[j].recoveryAttempted
    decreases j - i
  {
    assert Follows(h[j - 1], h[j]);
    if i < j - 1 {
      HistoryIsBound(h, j - 2, j - 1);
      BudgetNeverShrinks(h, i, j - 1);
    }
  }

  /** COMPLETED is entered only from SEMANTIC_VERIFIED. */
  lemma CompletedAfterSemantic(h: seq<Checkpoint>, i: nat)
    requires History(h) && 0 < i < |h| && h[i].stage == Completed && h[i - 1].stage != Completed
    ensures h[i - 1].stage == SemanticVerified
  {
    assert Follows(h[i - 1], h[i]);
  }

  /** After a recovery nothing is semantically verified before a deterministic verification. */
  lemma {:induction false} RecoveryIsReverified(h: seq<Checkpoint>, i: nat, j: nat) returns (k: nat)
    requires History(h) && i < j < |h| && h[i].stage == RecoveryCompleted && h[j].stage == SemanticVerified
    ensures i < k < j && h[k].stage == DeterministicVerified
    decreases j - i
  {
    assert Follows(h[i], h[i + 1]);
    if h[i + 1].stage == DeterministicVerified {
      k := i + 1;
    } else {
      k := RecoveryIsReverified(h, i + 1, j);
    }
  }

  /** How far a run is: planned, with evidence, with a candidate, and being verified. */
  function Phase(s: Stage): nat {
    if s == Planned then 0 else if s == EvidenceCollected then 1 else if s == CandidateBuilt then 2 else 3
  }

  /** Phases never fall, and no entry of a history climbs more than one of them. */
  lemma {:induction false} PhasesClimb(h: seq<Checkpoint>, i: nat, j: nat)
    requires History(h) && i <= j < |h|
    ensures Phase(h[i].stage) <= Phase(h[j].stage) <= Phase(h[i].stage) + (j - i)
    ensures h[i].stage == Completed ==> h[j].stage == Completed
    decreases j - i
  {
    if i < j {
      PhasesClimb(h, i, j - 1);
      assert Follows(h[j - 1], h[j]);
    }
  }

  /** So between two entries every phase in between was stored. */
  lemma {:induction false} PhasesPassed(h: seq<Checkpoint>, i: nat, j: nat, phase: nat) returns (k: nat)
    requires History(h) && i <= j < |h| && Phase(h[i].stage) <= phase <= Phase(h[j].stage)
    ensures i <= k <= j && Phase(h[k].stage) == phase
    decreases j - i
  {
    if Phase(h[j].stage) == phase {
      k := j;
    } else {
      PhasesClimb(h, j - 1, j);
      k := PhasesPassed(h, i, j - 1, phase);
    }
  }

  /** A run is verified semantically only after a plan, evidence, a candidate, and since the
      candidate a deterministic verification or a reserved recovery. */
  lemma SemanticAfterCandidate(h: seq<Checkpoint>, j: nat) returns (evidence: nat, candidate: nat, k: nat)
    requires History(h) && j < |h| && h[j].stage == SemanticVerified
    ensures evidence < candidate < k < j
    ensures h[evidence].stage == EvidenceCollected && h[candidate].stage == CandidateBuilt
    ensures h[k].stage in {DeterministicVerified, RecoveryReserved}
  {
    evidence := PhasesPassed(h, 0, j, 1);
    candidate := PhasesPassed(h, evidence, j, 2);
    k := VerifiedBefore(h, candidate, j);
  }

  lemma {:induction false} VerifiedBefore(h: seq<Checkpoint>, i: nat, j: nat) returns (k: nat)
    requires History(h) && i < j < |h| && h[i].stage == CandidateBuilt && h[j].stage == SemanticVerified
    ensures i < k < j && h[k].stage in {DeterministicVerified, RecoveryReserved}
    decreases j - i
  {
    assert Follows(h[j - 1], h[j]);
    if h[j - 1].stage == SemanticVerified {
      k := VerifiedBefore(h, i, j - 1);
    } else {
      k := j - 1;
    }
  }

  /** Before the first evidence a run was only planned, and never after it. */
  lemma PlannedBeforeEvidence(h: seq<Checkpoint>, i: nat, j: nat)
    requires History(h) && i < j < |h|
    ensures (forall k :: 0 <= k < j ==> h[k].stage != EvidenceCollected) && h[j].stage == EvidenceCollected ==> h[i].stage == Planned
    ensures h[i].stage == EvidenceCollected ==> h[j].stage != Planned
  {
    PhasesClimb(h, i, j);
    if h[i].stage != Planned && h[j].stage == EvidenceCollected {
      var k := PhasesPassed(h, 0, i, 1);
    }
  }

  /** Which stages a changed stage was entered from. */
  lemma EnteredFrom(h: seq<Checkpoint>, i: nat)
    requires History(h) && 0 < i < |h| && h[i].stage != h[i - 1].stage
    ensures var from := h[i - 1].stage;
            match h[i].stage
            case Planned => false
            case EvidenceCollected => from == Planned
            case CandidateBuilt => from == EvidenceCollected
            case DeterministicVerified => from in {CandidateBuilt, RecoveryCompleted, SemanticVerified}
            case RecoveryReserved => from in {CandidateBuilt, DeterministicVerified}
            case RecoveryCompleted => from in {CandidateBuilt, DeterministicVerified, RecoveryReserved}
            case SemanticVerified => from in {DeterministicVerified, RecoveryReserved}
            case Completed => from == SemanticVerified
  {
    assert Follows(h[i - 1], h[i]);
  }

  /** The claim a recovery was reserved for stays the same for as long as it is reserved. */
  lemma {:induction false} ReservedClaimIsKept(h: seq<Checkpoint>, i: nat, j: nat)
    requires History(h) && i <= j < |h| && forall k :: i <= k <= j ==> h[k].stage == RecoveryReserved
    ensures h[i].recoveryClaim.Some? && h[j].recoveryClaim == h[i].recoveryClaim
    decreases j - i
  {
    if i < j {
      ReservedClaimIsKept(h, i, j - 1);
      assert Follows(h[j - 1], h[j]);
    }
  }

  // ----- the edges of the graph -----

  predicate Road(from: Stage, to: Stage) {
    || (from == to && from != Completed)
    || (from == Planned && to == EvidenceCollected)
    || (from == EvidenceCollected && to == CandidateBuilt)
    || (from == CandidateBuilt && to == DeterministicVerified)
    || (from == DeterministicVerified && to == SemanticVerified)
    || (from == SemanticVerified && to == Completed)
    || (from == SemanticVerified && to == DeterministicVerified)
    || (to == RecoveryReserved && (from == CandidateBuilt || from == DeterministicVerified))
    || (to == RecoveryCompleted && (from == CandidateBuilt || from == DeterministicVerified || from == RecoveryReserved))
    || (from == RecoveryReserved && to == SemanticVerified)
    || (from == RecoveryCompleted && to == DeterministicVerified)
  }

  /** The next checkpoint at a stage, with nothing else done. */
  function Advance(c: Checkpoint, to: Stage): Checkpoint {
    c.(version := c.version + 1, stage := to,
       recoveryAttempted := c.recoveryAttempted || to == RecoveryReserved || to == RecoveryCompleted,
       recoveryClaim := if to != RecoveryReserved then None else if c.recoveryClaim.Some? then c.recoveryClaim else Some(0))
  }

  /** One version further along a road, for the same run, attempt and binding, taking nothing back
      and keeping the claim of a reserved recovery. */
  predicate FollowsOn(a: Checkpoint, b: Checkpoint) {
    && b.run == a.run && b.attempt == a.attempt && b.version == a.version + 1 && b.binding == a.binding
    && Road(a.stage, b.stage)
    && a.toolAttempts <= b.toolAttempts && a.candidates <= b.candidates
    && (forall r <- a.reservations :: r in b.reservations)
    && (forall g <- a.generations :: g in b.generations)
    && (forall c <- a.completedClaims :: c in b.completedClaims)
    && (a.recoveryAttempted ==> b.recoveryAttempted)
    && (a.stage == RecoveryReserved && b.stage == RecoveryReserved ==> b.recoveryClaim == a.recoveryClaim)
  }

  lemma TransitionExactly(a: Checkpoint, b: Checkpoint)
    ensures ValidTransition(a, b) <==> FollowsOn(a, b)
  {
  }

  /** A resume changes nothing else than it says: with its three fields put back it is undone. */
  lemma ResumedKeeps(c: Checkpoint, now: nat)
    ensures var r := Resumed(c, now);
            && r.attempt == c.attempt + 1 && r.version == c.version + 1 && r.accessed == now
            && r.(attempt := c.attempt, version := c.version, accessed := c.accessed) == c
  {
  }

  /** A compaction clears the plan, the evidence and what the run has spent; everything else is
      kept, and a second one finds nothing more to clear. */
  lemma CompactedKeeps(c: Checkpoint, now: nat, later: nat)
    requires c.stage == Completed
    ensures var r := Compacted(c, now);
            && r.plan == None && r.planHash == None && r.evidence == [] && r.toolAttempts == 0
            && r.reservations == [] && r.generations == [] && r.recoveryReason == None && r.recoveryClaim == None
            && r.run == c.run && r.attempt == c.attempt && r.version == c.version && r.stage == Completed
            && r.binding == c.binding && r.recoveryAttempted == c.recoveryAttempted && r.candidates == c.candidates
            && r.completedClaims == c.completedClaims && r.completedResults == c.completedResults && r.accessed == now
            && Compacted(r, later) == r.(accessed := later)
  {
  }
}
