/** Annotation records: content addressed, amended by successors, never changed. */
module Annotations {
  import opened Basics
  import opened Sequences

  datatype Level = L1 | L2
  datatype Split = Dev | Locked

  /** `fixed` stands for the fields no amendment touches beyond those listed. */
  datatype Body = Body(
    item: Id, level: Level, split: Split, question: Id, refusal: bool, fixed: Id,
    gold: seq<Id>, paths: seq<Id>, origins: seq<Id>, overlap: Option<Id>,
    predecessor: Option<Id>, adjudications: seq<Id>)

  type Records = map<Id, Body>

  /** The content hash of a record, without collisions. */
  ghost predicate Injective(address: Body -> Id) {
    forall a, b :: address(a) == address(b) ==> a == b
  }

  /** An answerable item carries gold, an origin and its overlap figure; an unanswerable none. */
  predicate Answerable(b: Body) {
    if b.refusal then b.gold == [] && b.paths == [] && b.origins == [] && b.overlap.None?
    else b.gold != [] && b.origins != [] && b.overlap.Some?
  }

  datatype Fault =
    | ItemOwned | NotFound | GoldRemoval | OriginRequired | InvalidRecord
    | NotHead | AlreadyRetired | Cyclic | MissingPredecessor | MoreThanOneChain
  datatype Result<+T> = Ok(value: T) | Err(fault: Fault)

  datatype Amendment = Amendment(gold: seq<Id>, paths: seq<Id>, origins: seq<Id>, note: Id, overlap: Option<Id>, removed: seq<Id>)

  function Successor(id: Id, b: Body, a: Amendment): Body {
    b.(gold := Dedupe(b.gold + a.gold), paths := Dedupe(b.paths + a.paths), origins := b.origins + a.origins,
       overlap := if a.overlap.None? then b.overlap else a.overlap,
       predecessor := Some(id), adjudications := b.adjudications + [a.note])
  }

  function AmendFault(records: Records, id: Id, a: Amendment): Option<Fault> {
    if id !in records then Some(NotFound)
    else if a.removed != [] then Some(GoldRemoval)
    else if (a.gold != [] || a.paths != []) && a.origins == [] then Some(OriginRequired)
    else if !Answerable(Successor(id, records[id], a)) then Some(InvalidRecord)
    else None
  }

  /** A merged list: no repetition, exactly the old and the added, and in the order met. */
  ghost predicate Merged(was: seq<Id>, added: seq<Id>, all: seq<Id>) {
    && Distinct(all)
    && (forall g :: g in all <==> g in was || g in added)
    && forall i, j :: 0 <= i < j < |all| ==> MetBefore(was + added, all[i], all[j])
  }

  lemma MergedDedupe(was: seq<Id>, added: seq<Id>)
    ensures Merged(was, added, Dedupe(was + added))
  {
    UnionProperties([], was + added);
    UnionOrder([], was + added);
  }

  /** What the record an amendment leaves says: all gold and paths there were and all that were
      added, the origins and notes in order, the figure given or else the old one, the record
      amended as its predecessor, and everything else unchanged. */
  ghost predicate AmendsTo(b: Body, id: Id, a: Amendment, c: Body) {
    && Merged(b.gold, a.gold, c.gold) && Merged(b.paths, a.paths, c.paths)
    && c.origins == b.origins + a.origins
    && c.overlap == (if a.overlap.Some? then a.overlap else b.overlap)
    && c.predecessor == Some(id) && c.adjudications == b.adjudications + [a.note]
    && c.item == b.item && c.level == b.level && c.split == b.split && c.question == b.question
    && c.refusal == b.refusal && c.fixed == b.fixed
  }

  /** An answerable item ends with gold, an origin and a figure; a refused one with none. */
  predicate StaysAnswerable(b: Body, a: Amendment) {
    if b.refusal then
      b.gold == a.gold == [] && b.paths == a.paths == [] && b.origins == a.origins == [] && b.overlap.None? && a.overlap.None?
    else
      (b.gold != [] || a.gold != []) && (b.origins != [] || a.origins != []) && (b.overlap.Some? || a.overlap.Some?)
  }

  lemma NothingMerged(was: seq<Id>, added: seq<Id>, all: seq<Id>)
    requires Merged(was, added, all)
    ensures all == [] <==> was == [] && added == []
  {
    if was != [] {
      assert was[0] in all;
    }
    if added != [] {
      assert added[0] in all;
    }
    if all != [] {
      assert all[0] in all;
    }
  }

  lemma SuccessorAmends(id: Id, b: Body, a: Amendment)
    ensures AmendsTo(b, id, a, Successor(id, b, a))
    ensures Answerable(Successor(id, b, a)) <==> StaysAnswerable(b, a)
  {
    MergedDedupe(b.gold, a.gold);
    MergedDedupe(b.paths, a.paths);
    NothingMerged(b.gold, a.gold, Dedupe(b.gold + a.gold));
    NothingMerged(b.paths, a.paths, Dedupe(b.paths + a.paths));
  }

  /** An amendment is refused for the first of these that holds, and accepted when none does:
      there is no such record, it takes gold away, it adds gold without an origin, or it leaves
      the record without what its kind must carry. No other complaint is possible, and what is
      stored is the old record with the amendment in it. */
  lemma AmendedExactly(records: Records, id: Id, a: Amendment, address: Body -> Id)
    ensures var fault := AmendFault(records, id, a);
            && (fault == Some(NotFound) <==> id !in records)
            && (id in records ==>
                  var bare := a.origins == [] && (a.gold != [] || a.paths != []);
                  && (fault == Some(GoldRemoval) <==> a.removed != [])
                  && (fault == Some(OriginRequired) <==> a.removed == [] && bare)
                  && (fault == Some(InvalidRecord) <==> a.removed == [] && !bare && !StaysAnswerable(records[id], a))
                  && (fault == None <==> a.removed == [] && !bare && StaysAnswerable(records[id], a)))
    ensures var after := Amended(records, id, a, address);
            if AmendFault(records, id, a).Some? then after == records
            else exists c :: AmendsTo(records[id], id, a, c) && after == records[address(c) := c]
  {
    if id in records {
      SuccessorAmends(id, records[id], a);
    }
  }

  // ----- the trees -----

  /** What an amendment leaves in place: the question and every fixed field, all earlier gold,
      and all earlier adjudications plus exactly one. */
  predicate Extends(b: Body, c: Body) {
    && b.item == c.item && b.level == c.level && b.split == c.split && b.question == c.question
    && b.refusal == c.refusal && b.fixed == c.fixed
    && (forall g <- b.gold :: g in c.gold) && (forall p <- b.paths :: p in c.paths)
    && b.origins <= c.origins
    && |c.adjudications| == |b.adjudications| + 1 && b.adjudications <= c.adjudications
  }

  predicate LinkOk(records: Records, id: Id)
    requires id in records
  {
    match records[id].predecessor
    case None => true
    case Some(p) => p in records && Extends(records[p], records[id])
  }

  predicate Roots(records: Records) {
    forall i, j :: i in records && j in records && records[i].predecessor.None? && records[j].predecessor.None? ==>
      records[i].item == records[j].item ==> i == j
  }

  /** Every record is stored under its content, every link extends, and an item has one root. */
  ghost predicate Trees(records: Records, address: Body -> Id) {
    && (forall id <- records :: id == address(records[id]))
    && (forall id <- records :: LinkOk(records, id))
    && Roots(records)
  }

  predicate HasRoot(records: Records, item: Id) {
    exists id :: id in records && records[id].item == item && records[id].predecessor.None?
  }

  // ----- create and amend -----

  function CreateFault(records: Records, b: Body, address: Body -> Id): Option<Fault> {
    if exists id :: id in records && records[id].item == b.item && records[id].predecessor.None? && id != address(b)
    then Some(ItemOwned) else None
  }

  function Created(records: Records, b: Body, address: Body -> Id): Records {
    if CreateFault(records, b, address).Some? then records else records[address(b) := b]
  }

  function Amended(records: Records, id: Id, a: Amendment, address: Body -> Id): Records {
    if AmendFault(records, id, a).Some? then records else
      var s := Successor(id, records[id], a);
      records[address(s) := s]
  }

  /** Amending keeps the trees; amending twice alike is amending once. */
  lemma AmendKeepsTrees(records: Records, id: Id, a: Amendment, address: Body -> Id)
    requires Trees(records, address) && Injective(address)
    ensures Trees(Amended(records, id, a, address), address)
    ensures var after := Amended(records, id, a, address); Amended(after, id, a, address) == after
    ensures forall i <- records :: i in Amended(records, id, a, address) && Amended(records, id, a, address)[i] == records[i]
  {
    if AmendFault(records, id, a).None? {
      var s := Successor(id, records[id], a);
      SuccessorAmends(id, records[id], a);
      var after := Amended(records, id, a, address);
      assert Extends(records[id], s);
      forall i <- after ensures LinkOk(after, i) {
        if i in records {
          assert LinkOk(records, i);
        }
      }
      assert AmendFault(after, id, a) == AmendFault(records, id, a);
    }
  }

  // ----- walking back to the root -----

  /** The record the author wrote before any audit touched it. */
  ghost function RootOf(records: Records, address: Body -> Id, id: Id): Id
    requires Trees(records, address) && id in records
    decreases |records[id].adjudications|
  {
    match records[id].predecessor
    case None => id
    case Some(p) => assert LinkOk(records, id); RootOf(records, address, p)
  }

  /** The root belongs to the same item and question, and its gold was never taken back. */
  lemma {:induction false} RootIsKept(records: Records, address: Body -> Id, id: Id)
    requires Trees(records, address) && id in records
    ensures var r := RootOf(records, address, id);
            && r in records && records[r].predecessor.None? && records[r].item == records[id].item
            && records[r].question == records[id].question && records[r].level == records[id].level
            && (forall g <- records[r].gold :: g in records[id].gold)
            && records[r].adjudications <= records[id].adjudications
    decreases |records[id].adjudications|
  {
    assert LinkOk(records, id);
    if records[id].predecessor.Some? {
      RootIsKept(records, address, records[id].predecessor.value);
    }
  }

  lemma ItemHasRoot(records: Records, address: Body -> Id, id: Id)
    requires Trees(records, address) && id in records
    ensures HasRoot(records, records[id].item)
  {
    RootIsKept(records, address, id);
  }

  /** All records of an item lead to one root. */
  lemma OneRootPerItem(records: Records, address: Body -> Id, i: Id, j: Id)
    requires Trees(records, address) && i in records && j in records && records[i].item == records[j].item
    ensures RootOf(records, address, i) == RootOf(records, address, j)
  {
    RootIsKept(records, address, i);
    RootIsKept(records, address, j);
  }

  lemma CreateRootKeepsTrees(records: Records, b: Body, address: Body -> Id)
    requires Trees(records, address) && Injective(address) && b.predecessor.None?
    ensures Trees(Created(records, b, address), address)
  {
    var after := Created(records, b, address);
    if CreateFault(records, b, address).None? {
      forall i <- after ensures LinkOk(after, i) {
        if i in records {
          assert LinkOk(records, i);
        }
      }
    }
  }

  lemma CreateOrphanBreaksTrees(records: Records, b: Body, address: Body -> Id)
    requires Trees(records, address) && Injective(address) && b.predecessor.Some? && !HasRoot(records, b.item)
    ensures !Trees(Created(records, b, address), address)
  {
    var after := Created(records, b, address);
    var p := b.predecessor.value;
    assert after == records[address(b) := b];
    if p in records && records[p].item == b.item {
      ItemHasRoot(records, address, p);
    }
    assert !LinkOk(after, address(b));
  }

  /** create does not look at the predecessor a record names. It keeps one tree per item if and
      only if the record names none, or its item is already owned and the create is refused. */
  lemma CreateKeepsTreesIff(records: Records, b: Body, address: Body -> Id)
    requires Trees(records, address) && Injective(address)
    ensures Trees(Created(records, b, address), address) <==> b.predecessor.None? || HasRoot(records, b.item)
  {
    if b.predecessor.None? {
      CreateRootKeepsTrees(records, b, address);
    } else if !HasRoot(records, b.item) {
      CreateOrphanBreaksTrees(records, b, address);
    }
  }

  /** A concrete record that breaks the trees of an empty store. */
  lemma OrphanExample(address: Body -> Id)
    requires Injective(address)
    ensures var b := Body(1, L1, Dev, 2, true, 3, [], [], [], None, Some(4), []);
            !Trees(Created(map[], b, address), address)
  {
    var b := Body(1, L1, Dev, 2, true, 3, [], [], [], None, Some(4), []);
    CreateOrphanBreaksTrees(map[], b, address);
  }

  // ----- runs -----

  datatype Action = DoCreate(body: Body) | DoAmend(id: Id, amendment: Amendment)

  function Step(records: Records, a: Action, address: Body -> Id): Records {
    match a
    case DoCreate(b) => Created(records, b, address)
    case DoAmend(id, amendment) => Amended(records, id, amendment, address)
  }

  function Steps(records: Records, actions: seq<Action>, address: Body -> Id): Records {
    if actions == [] then records else Step(Steps(records, actions[..|actions|-1], address), actions[|actions|-1], address)
  }

  /** Created records name no predecessor. */
  predicate RootsOnly(actions: seq<Action>) {
    forall i :: 0 <= i < |actions| && actions[i].DoCreate? ==> actions[i].body.predecessor.None?
  }

  predicate Keeps(a: Records, b: Records) {
    forall i <- a :: i in b && b[i] == a[i]
  }

  lemma StepKeeps(records: Records, a: Action, address: Body -> Id)
    requires Trees(records, address) && Injective(address) && (a.DoCreate? ==> a.body.predecessor.None?)
    ensures Trees(Step(records, a, address), address) && Keeps(records, Step(records, a, address))
  {
    match a
    case DoCreate(b) =>
      CreateRootKeepsTrees(records, b, address);
    case DoAmend(id, amendment) => AmendKeepsTrees(records, id, amendment, address);
  }

  /** Every store built by creating roots and amending holds one tree per item, and no record
      ever changes or goes. */
  lemma {:induction false} StepsKeepTrees(records: Records, actions: seq<Action>, address: Body -> Id)
    requires Trees(records, address) && Injective(address) && RootsOnly(actions)
    ensures Trees(Steps(records, actions, address), address) && Keeps(records, Steps(records, actions, address))
  {
    if actions != [] {
      StepsKeepTrees(records, actions[..|actions|-1], address);
      StepKeeps(Steps(records, actions[..|actions|-1], address), actions[|actions|-1], address);
    }
  }

  // ----- the store -----

  datatype Retirement = Retirement(item: Id, annotation: Id, reason: Id)

  predicate Head(records: Records, id: Id) {
    id in records && forall j :: j in records ==> records[j].predecessor != Some(id)
  }

  /** Records are read in id order, so of several heads of an item the last one counts. */
  predicate CurrentHead(records: Records, id: Id) {
    Head(records, id) && forall j :: j in records && records[j].item == records[id].item && id < j ==> !Head(records, j)
  }

  class AnnotationStore {
    const address: Body -> Id
    var records: Records
    var retirements: seq<Retirement>

    constructor (address: Body -> Id)
      requires Injective(address)
      ensures records == map[] && retirements == [] && this.address == address && Trees(records, address)
    {
      this.address, records, retirements := address, map[], [];
    }

    method Create(b: Body) returns (r: Result<Id>)
      modifies this`records
      ensures records == Created(old(records), b, address)
      ensures r.Err? <==> exists i :: i in old(records) && old(records)[i].item == b.item && old(records)[i].predecessor == None && i != address(b)
      ensures (r == Err(ItemOwned) && records == old(records)) || (r == Ok(address(b)) && records == old(records)[address(b) := b])
    {
      var id := address(b);
      if exists i :: i in records && records[i].item == b.item && records[i].predecessor.None? && i != id {
        return Err(ItemOwned);
      }
      records := records[id := b];
      return Ok(id);
    }

    method Amend(id: Id, a: Amendment) returns (r: Result<Id>)
      modifies this`records
      ensures records == Amended(old(records), id, a, address)
      ensures var fault := AmendFault(old(records), id, a);
              r == if fault.Some? then Err(fault.value) else Ok(address(Successor(id, old(records)[id], a)))
      ensures r.Ok? <==> id in old(records) && a.removed == [] && (a.origins == [] ==> a.gold == a.paths == []) && StaysAnswerable(old(records)[id], a)
      ensures r.Ok? ==> r.value in records && AmendsTo(old(records)[id], id, a, records[r.value])
    {
      AmendedExactly(records, id, a, address);
      if id !in records {
        return Err(NotFound);
      }
      if a.removed != [] {
        return Err(GoldRemoval);
      }
      if (a.gold != [] || a.paths != []) && a.origins == [] {
        return Err(OriginRequired);
      }
      var s := Successor(id, records[id], a);
      SuccessorAmends(id, records[id], a);
      if !Answerable(s) {
        return Err(InvalidRecord);
      }
      records := records[address(s) := s];
      return Ok(address(s));
    }

    /** Retire an item by its current head: once per item, and without touching a record. */
    method Retire(id: Id, reason: Id) returns (r: Result<Retirement>)
      requires forall i, j :: 0 <= i < j < |retirements| ==> retirements[i].item != retirements[j].item
      modifies this`retirements
      ensures forall i, j :: 0 <= i < j < |retirements| ==> retirements[i].item != retirements[j].item
      ensures r.Ok? <==>
              && id in records && (forall j <- records :: records[j].predecessor != Some(id))
              && (forall j <- records :: records[j].item == records[id].item && id < j ==> exists k <- records :: records[k].predecessor == Some(j))
              && forall e <- old(retirements) :: e.item != records[id].item
      ensures r == Err(NotFound) <==> id !in records
      ensures r == Err(NotHead) <==> id in records && !CurrentHead(records, id)
      ensures r == Err(AlreadyRetired) <==> CurrentHead(records, id) && exists e <- old(retirements) :: e.item == records[id].item
      ensures r.Ok? ==> r.value == Retirement(records[id].item, id, reason) && retirements == old(retirements) + [r.value]
      ensures r.Err? ==> retirements == old(retirements)
    {
      if id !in records {
        return Err(NotFound);
      }
      if !CurrentHead(records, id) {
        return Err(NotHead);
      }
      if exists k :: 0 <= k < |retirements| && retirements[k].item == records[id].item {
        return Err(AlreadyRetired);
      }
      r := Ok(Retirement(records[id].item, id, reason));
      retirements := retirements + [r.value];
    }
  }
}
