/** Progress over annotation records, counting items and not files. */
module Progress {
  import opened Basics
  import opened Sequences
  import opened Annotations
  import Maps

  // ----- chains of arbitrary records -----

  /** The n-th record back from one, or None past the end of its chain. */
  function Back(records: Records, id: Id, n: nat): Option<Id> {
    if n == 0 then Some(id) else
      match Back(records, id, n - 1)
      case None => None
      case Some(x) => if x in records then records[x].predecessor else None
  }

  ghost predicate RootAt(records: Records, id: Id, root: Id) {
    root in records && records[root].predecessor.None? && exists n: nat :: Back(records, id, n) == Some(root)
  }

  /** Some record back names a predecessor that is not there. */
  ghost predicate Dangling(records: Records, id: Id) {
    exists n: nat :: Back(records, id, n).Some? && Back(records, id, n).value !in records
  }

  /** Every record back is there and names another one. */
  ghost predicate Endless(records: Records, id: Id) {
    forall n: nat :: Back(records, id, n).Some? && Back(records, id, n).value in records
  }

  lemma {:induction false} PastTheEnd(records: Records, id: Id, m: nat, n: nat)
    requires m <= n && Back(records, id, m).None?
    ensures Back(records, id, n).None?
  {
    if m < n {
      PastTheEnd(records, id, m, n - 1);
    }
  }

  /** A chain ends in one way only, and at one root. */
  lemma OneEnd(records: Records, id: Id, root: Id)
    requires RootAt(records, id, root)
    ensures !Dangling(records, id) && !Endless(records, id)
    ensures forall other :: RootAt(records, id, other) ==> other == root
  {
    var n: nat :| Back(records, id, n) == Some(root);
    assert Back(records, id, n + 1).None?;
    forall m: nat | m > n ensures Back(records, id, m).None? {
      PastTheEnd(records, id, n + 1, m);
    }
    forall m: nat | m < n ensures Back(records, id, m).Some? && Back(records, id, m).value in records && records[Back(records, id, m).value].predecessor.Some? {
      if Back(records, id, m + 1).None? {
        PastTheEnd(records, id, m + 1, n);
      }
    }
  }

  /** A chain that comes back to where it was never ends. */
  lemma {:induction false} CycleIsEndless(records: Records, id: Id, i: nat, j: nat, n: nat)
    requires i < j && Back(records, id, i) == Back(records, id, j)
    requires forall k: nat :: k <= j ==> Back(records, id, k).Some? && Back(records, id, k).value in records
    ensures Back(records, id, n).Some? && Back(records, id, n).value in records
    ensures j <= n ==> Back(records, id, n) == Back(records, id, n - (j - i))
  {
    if j < n {
      CycleIsEndless(records, id, i, j, n - 1);
      CycleIsEndless(records, id, i, j, n - (j - i));
    }
  }

  /** The walk back ends on any records, and says how the chain ends: at its root, in a record
      that names a missing one, or not at all. */
  method ChainRoot(records: Records, head: Id) returns (r: Result<Id>)
    requires head in records
    ensures match r
            case Ok(root) => RootAt(records, head, root)
            case Err(MissingPredecessor) => Dangling(records, head)
            case Err(Cyclic) => Endless(records, head)
            case _ => false
  {
    var current := head;
    var seen: set<Id> := {};
    ghost var k := 0;
    while records[current].predecessor.Some?
      invariant current in records && seen <= records.Keys && Back(records, head, k) == Some(current)
      invariant forall i: nat :: i <= k ==> Back(records, head, i).Some? && Back(records, head, i).value in records
      invariant forall s <- seen :: exists i: nat :: i <= k && Back(records, head, i) == Some(s)
      decreases |records| - |seen|
    {
      var p := records[current].predecessor.value;
      assert Back(records, head, k + 1) == Some(p);
      if p in seen {
        ghost var i: nat :| i <= k && Back(records, head, i) == Some(p);
        forall n: nat ensures Back(records, head, n).Some? && Back(records, head, n).value in records {
          CycleIsEndless(records, head, i, k + 1, n);
        }
        return Err(Cyclic);
      }
      seen := seen + {p};
      if p !in records {
        return Err(MissingPredecessor);
      }
      SubsetSize(seen, records.Keys);
      k := k + 1;
      current := p;
    }
    return Ok(current);
  }

  ghost predicate Rooted(records: Records, id: Id) {
    exists root :: RootAt(records, id, root)
  }

  lemma {:induction false} BackBack(records: Records, id: Id, p: Id, n: nat)
    requires id in records && records[id].predecessor == Some(p)
    ensures Back(records, id, n + 1) == Back(records, p, n)
  {
    if n > 0 {
      BackBack(records, id, p, n - 1);
    }
  }

  /** In a store of trees every chain ends at its root. */
  lemma {:induction false} TreesAreRooted(records: Records, address: Body -> Id, id: Id)
    requires Trees(records, address) && id in records
    ensures RootAt(records, id, RootOf(records, address, id))
    decreases |records[id].adjudications|
  {
    assert LinkOk(records, id);
    match records[id].predecessor
    case None => assert Back(records, id, 0) == Some(id);
    case Some(p) =>
      TreesAreRooted(records, address, p);
      var n: nat :| Back(records, p, n) == Some(RootOf(records, address, p));
      BackBack(records, id, p, n);
  }

  // ----- the report -----

  datatype SetProgress = SetProgress(completed: nat, dev: nat, locked: nat, awaiting: nat, gold: nat, pooled: nat)
  datatype Report = Report(l1: SetProgress, l2: SetProgress, items: nat, superseded: nat)

  const NOTHING := SetProgress(0, 0, 0, 0, 0, 0)

  function GoldSet(b: Body): set<Id> {
    set g | g in b.gold
  }

  predicate Counted(records: Records, retired: set<Id>, level: Level, id: Id) {
    Head(records, id) && records[id].item !in retired && records[id].level == level
  }

  /** The counted heads of one level. */
  function CountedHeads(records: Records, retired: set<Id>, level: Level): set<Id> {
    set id | id in records && Counted(records, retired, level, id)
  }

  /** One number per record, summed over some of the records. */
  ghost function SumOver(m: map<Id, nat>, ids: set<Id>): nat {
    Maps.Sum(m - (m.Keys - ids))
  }

  lemma SumOverOneMore(m: map<Id, nat>, ids: set<Id>, id: Id)
    requires id in m && id !in ids
    ensures SumOver(m, ids + {id}) == SumOver(m, ids) + m[id]
  {
    var before := m - (m.Keys - ids);
    Maps.SumInsert(before, id, m[id]);
    assert m - (m.Keys - (ids + {id})) == before[id := m[id]];
  }

  lemma SumOverPlus(m: map<Id, nat>, a: map<Id, nat>, b: map<Id, nat>, ids: set<Id>)
    requires m.Keys == a.Keys == b.Keys && forall id <- m :: m[id] == a[id] + b[id]
    ensures SumOver(m, ids) == SumOver(a, ids) + SumOver(b, ids)
  {
    var x, y := a - (a.Keys - ids), b - (b.Keys - ids);
    Maps.SumPlus(x, y);
    assert m - (m.Keys - ids) == Maps.Plus(x, y);
  }

  function Golds(records: Records): map<Id, nat> {
    map id | id in records :: |GoldSet(records[id])|
  }

  function Ones(records: Records, split: Split): map<Id, nat> {
    map id | id in records :: if records[id].split == split then 1 else 0
  }

  function Waiting(records: Records): map<Id, nat> {
    map id | id in records :: if records[id].adjudications == [] then 1 else 0
  }

  /** Gold a record has beyond its root, and gold it still has from its root. */
  ghost function PooledGold(records: Records, id: Id): nat
    requires id in records
  {
    if Rooted(records, id) then
      var root :| RootAt(records, id, root);
      |GoldSet(records[id]) - GoldSet(records[root])|
    else 0
  }

  ghost function KeptGold(records: Records, id: Id): nat
    requires id in records
  {
    if Rooted(records, id) then
      var root :| RootAt(records, id, root);
      |GoldSet(records[id]) * GoldSet(records[root])|
    else |GoldSet(records[id])|
  }

  ghost function PooledGolds(records: Records): map<Id, nat> {
    map id | id in records :: PooledGold(records, id)
  }

  ghost function KeptGolds(records: Records): map<Id, nat> {
    map id | id in records :: KeptGold(records, id)
  }

  lemma GoldAtRoot(records: Records, id: Id, root: Id)
    requires id in records && RootAt(records, id, root)
    ensures PooledGold(records, id) == |GoldSet(records[id]) - GoldSet(records[root])|
    ensures KeptGold(records, id) == |GoldSet(records[id]) * GoldSet(records[root])|
  {
    OneEnd(records, id, root);
  }

  /** What each record contributes to the counts it is in. */
  datatype Columns = Columns(dev: map<Id, nat>, locked: map<Id, nat>, awaiting: map<Id, nat>, gold: map<Id, nat>, pooled: map<Id, nat>)

  ghost function ColumnsOf(records: Records): Columns {
    Columns(Ones(records, Dev), Ones(records, Locked), Waiting(records), Golds(records), PooledGolds(records))
  }

  /** What one level reports about a set of heads. */
  ghost predicate Counts(p: SetProgress, c: Columns, ids: set<Id>) {
    && p.completed == |ids|
    && p.dev == SumOver(c.dev, ids) && p.locked == SumOver(c.locked, ids)
    && p.awaiting == SumOver(c.awaiting, ids)
    && p.gold == SumOver(c.gold, ids) && p.pooled == SumOver(c.pooled, ids)
  }

  function Add(p: SetProgress, b: Body, pooled: nat): SetProgress {
    SetProgress(p.completed + 1, p.dev + (if b.split == Dev then 1 else 0), p.locked + (if b.split == Locked then 1 else 0),
                p.awaiting + (if b.adjudications == [] then 1 else 0), p.gold + |GoldSet(b)|, p.pooled + pooled)
  }

  predicate Row(c: Columns, id: Id, one: SetProgress) {
    && id in c.dev && c.dev[id] == one.dev && id in c.locked && c.locked[id] == one.locked
    && id in c.awaiting && c.awaiting[id] == one.awaiting
    && id in c.gold && c.gold[id] == one.gold && id in c.pooled && c.pooled[id] == one.pooled
  }

  /** The columns are those of the records, kept folded. */
  ghost predicate ColumnsFor(c: Columns, records: Records) {
    forall n: nat {:trigger Maps.Unfold(n)} :: Maps.Unfold(n) ==> c == ColumnsOf(records)
  }

  lemma ColumnsAre(records: Records)
    ensures ColumnsFor(ColumnsOf(records), records)
  {
  }

  lemma RowOf(c: Columns, records: Records, id: Id, pooled: nat)
    requires ColumnsFor(c, records) && id in records && id in c.pooled && pooled == c.pooled[id]
    ensures Row(c, id, Add(NOTHING, records[id], pooled))
  {
    assert Maps.Unfold(0);
  }

  lemma PooledColumn(c: Columns, records: Records, id: Id, root: Id)
    requires ColumnsFor(c, records) && id in records && RootAt(records, id, root)
    ensures id in c.pooled && c.pooled[id] == |GoldSet(records[id]) - GoldSet(records[root])|
  {
    assert Maps.Unfold(0);
    GoldAtRoot(records, id, root);
  }

  lemma CountsOneMore(p: SetProgress, c: Columns, ids: set<Id>, id: Id, b: Body, pooled: nat)
    requires id !in ids && Row(c, id, Add(NOTHING, b, pooled)) && Counts(p, c, ids)
    ensures Counts(Add(p, b, pooled), c, ids + {id})
  {
    SumOverOneMore(c.dev, ids, id);
    SumOverOneMore(c.locked, ids, id);
    SumOverOneMore(c.awaiting, ids, id);
    SumOverOneMore(c.gold, ids, id);
    SumOverOneMore(c.pooled, ids, id);
  }

  /** An item is counted once: no two heads share it. */
  predicate Unforked(records: Records) {
    forall i, j :: i in records && j in records && Head(records, i) && Head(records, j) && i != j ==>
      records[i].item != records[j].item
  }

  /** The items that have a head. */
  function HeadItems(records: Records): set<Id> {
    set id | id in records && Head(records, id) :: records[id].item
  }

  function Superseded(records: Records): set<Id> {
    set id | id in records && records[id].predecessor.Some? :: records[id].predecessor.value
  }

  lemma SplitGold(a: set<Id>, b: set<Id>)
    ensures |a| == |a - b| + |a * b|
  {
    assert a == (a - b) + (a * b);
  }

  /** Gold found by pooling is what a head has beyond its root, so what is left is the gold it
      still has from its authors: over any heads, in any level, of any records. */
  lemma GoldWithoutPooling(records: Records, ids: set<Id>)
    ensures SumOver(Golds(records), ids) == SumOver(PooledGolds(records), ids) + SumOver(KeptGolds(records), ids)
  {
    forall id <- records ensures |GoldSet(records[id])| == PooledGold(records, id) + KeptGold(records, id) {
      if Rooted(records, id) {
        var root :| RootAt(records, id, root);
        GoldAtRoot(records, id, root);
        SplitGold(GoldSet(records[id]), GoldSet(records[root]));
      }
    }
    SumOverPlus(Golds(records), PooledGolds(records), KeptGolds(records), ids);
  }

  /** The heads seen so far: their items, and that no two share one. */
  ghost predicate Seen(records: Records, done: set<Id>, items: set<Id>) {
    && (forall i :: i in items <==> exists d :: d in done && Head(records, d) && records[d].item == i)
    && (forall i, j :: i in done && j in done && Head(records, i) && Head(records, j) && i != j ==> records[i].item != records[j].item)
  }

  ghost predicate Tallied(records: Records, c: Columns, retired: set<Id>, done: set<Id>, l1: SetProgress, l2: SetProgress) {
    && Counts(l1, c, done * CountedHeads(records, retired, L1))
    && Counts(l2, c, done * CountedHeads(records, retired, L2))
  }

  lemma TalliedHead(records: Records, c: Columns, retired: set<Id>, done: set<Id>, l1: SetProgress, l2: SetProgress, id: Id, pooled: nat)
    requires Tallied(records, c, retired, done, l1, l2) && id in records && id !in done
    requires Row(c, id, Add(NOTHING, records[id], pooled))
    ensures Counted(records, retired, L1, id) ==> Tallied(records, c, retired, done + {id}, Add(l1, records[id], pooled), l2)
    ensures Counted(records, retired, L2, id) ==> Tallied(records, c, retired, done + {id}, l1, Add(l2, records[id], pooled))
  {
    CountedStep(records, retired, done, id, L1);
    CountedStep(records, retired, done, id, L2);
    CountsOneMore(l1, c, done * CountedHeads(records, retired, L1), id, records[id], pooled);
    CountsOneMore(l2, c, done * CountedHeads(records, retired, L2), id, records[id], pooled);
  }

  lemma TalliedOther(records: Records, c: Columns, retired: set<Id>, done: set<Id>, l1: SetProgress, l2: SetProgress, id: Id)
    requires Tallied(records, c, retired, done, l1, l2) && id in records
    requires !Head(records, id) || records[id].item in retired
    ensures Tallied(records, c, retired, done + {id}, l1, l2)
  {
    CountedStep(records, retired, done, id, L1);
    CountedStep(records, retired, done, id, L2);
  }

  lemma CountedStep(records: Records, retired: set<Id>, before: set<Id>, id: Id, level: Level)
    requires id in records
    ensures var heads := CountedHeads(records, retired, level);
            (before + {id}) * heads == if Counted(records, retired, level, id) then before * heads + {id} else before * heads
  {
  }

  lemma SeenHead(records: Records, done: set<Id>, items: set<Id>, id: Id)
    requires Seen(records, done, items) && id in records && id !in done && done <= records.Keys
    ensures !Head(records, id) ==> Seen(records, done + {id}, items)
    ensures Head(records, id) && records[id].item !in items ==> Seen(records, done + {id}, items + {records[id].item})
    ensures Head(records, id) && records[id].item in items ==> !Unforked(records)
  {
    if Head(records, id) && records[id].item in items {
      var d :| d in done && Head(records, d) && records[d].item == records[id].item;
      assert d in records && d != id;
    }
  }

  /** A counted head whose chain has no root, and the fault its walk reports. */
  ghost predicate Unrooted(records: Records, retired: set<Id>, id: Id, fault: Fault) {
    && Head(records, id) && records[id].item !in retired
    && ((fault == MissingPredecessor && Dangling(records, id)) || (fault == Cyclic && Endless(records, id)))
  }

  /** Why a report is refused. */
  ghost predicate Refuses(records: Records, retired: set<Id>, fault: Fault) {
    (fault == MoreThanOneChain && !Unforked(records)) || exists id :: Unrooted(records, retired, id, fault)
  }

  ghost predicate AllRooted(records: Records, retired: set<Id>, done: set<Id>) {
    forall id <- done :: Head(records, id) && records[id].item !in retired ==> Rooted(records, id)
  }

  /** The pooled gold of one head, by walking its chain. */
  method Pooled(records: Records, id: Id, ghost c: Columns) returns (pooled: Result<nat>)
    requires id in records && ColumnsFor(c, records)
    ensures pooled.Ok? ==> Rooted(records, id) && id in c.pooled && pooled.value == c.pooled[id]
    ensures pooled.Err? ==>
      (pooled.fault == MissingPredecessor && Dangling(records, id)) || (pooled.fault == Cyclic && Endless(records, id))
  {
    var root := ChainRoot(records, id);
    if root.Err? {
      return Err(root.fault);
    }
    PooledColumn(c, records, id, root.value);
    pooled := Ok(|GoldSet(records[id]) - GoldSet(records[root.value])|);
  }

  /** One record's turn: a head that is not retired moves its level's counts. */
  method Tally(records: Records, retired: set<Id>, id: Id, l1: SetProgress, l2: SetProgress,
               ghost done: set<Id>, ghost c: Columns)
    returns (fault: Option<Fault>, l1': SetProgress, l2': SetProgress)
    requires id in records && id !in done && Head(records, id) && ColumnsFor(c, records)
    requires Tallied(records, c, retired, done, l1, l2) && AllRooted(records, retired, done)
    ensures fault.None? ==> Tallied(records, c, retired, done + {id}, l1', l2') && AllRooted(records, retired, done + {id})
    ensures fault.Some? ==> Unrooted(records, retired, id, fault.value)
  {
    fault, l1', l2' := None, l1, l2;
    if records[id].item in retired {
      TalliedOther(records, c, retired, done, l1, l2, id);
      return;
    }
    var pooled := Pooled(records, id, c);
    if pooled.Err? {
      fault := Some(pooled.fault);
      return;
    }
    RowOf(c, records, id, pooled.value);
    TalliedHead(records, c, retired, done, l1, l2, id, pooled.value);
    if records[id].level == L2 {
      l2' := Add(l2, records[id], pooled.value);
    } else {
      l1' := Add(l1, records[id], pooled.value);
    }
  }

  lemma AllTallied(records: Records, c: Columns, retired: set<Id>, l1: SetProgress, l2: SetProgress)
    requires Tallied(records, c, retired, records.Keys, l1, l2)
    ensures Counts(l1, c, CountedHeads(records, retired, L1)) && Counts(l2, c, CountedHeads(records, retired, L2))
  {
    assert records.Keys * CountedHeads(records, retired, L1) == CountedHeads(records, retired, L1);
    assert records.Keys * CountedHeads(records, retired, L2) == CountedHeads(records, retired, L2);
  }

  ghost predicate Half(records: Records, c: Columns, retired: set<Id>, done: set<Id>, items: set<Id>, l1: SetProgress, l2: SetProgress) {
    Seen(records, done, items) && Tallied(records, c, retired, done, l1, l2) && AllRooted(records, retired, done)
  }

  /** The same, kept folded. */
  ghost predicate Halfway(records: Records, c: Columns, retired: set<Id>, done: set<Id>, items: set<Id>, l1: SetProgress, l2: SetProgress) {
    forall n: nat {:trigger Maps.Unfold(n)} :: Maps.Unfold(n) ==> Half(records, c, retired, done, items, l1, l2)
  }

  method Turn(records: Records, retired: set<Id>, superseded: set<Id>, id: Id, l1: SetProgress, l2: SetProgress, items: set<Id>,
              ghost done: set<Id>, ghost c: Columns)
    returns (fault: Option<Fault>, l1': SetProgress, l2': SetProgress, items': set<Id>)
    requires ColumnsFor(c, records) && superseded == Superseded(records)
    requires id in records && id !in done && done <= records.Keys && Halfway(records, c, retired, done, items, l1, l2)
    ensures fault.Some? ==> Refuses(records, retired, fault.value)
    ensures fault.None? ==> Halfway(records, c, retired, done + {id}, items', l1', l2')
  {
    assert Maps.Unfold(0);
    fault, l1', l2', items' := None, l1, l2, items;
    SeenHead(records, done, items, id);
    if id in superseded {
      TalliedOther(records, c, retired, done, l1, l2, id);
      return;
    }
    if records[id].item in items {
      fault := Some(MoreThanOneChain);
      return;
    }
    items' := items + {records[id].item};
    fault, l1', l2' := Tally(records, retired, id, l1, l2, done, c);
  }

  lemma AtTheEnd(records: Records, c: Columns, retired: set<Id>, items: set<Id>, l1: SetProgress, l2: SetProgress)
    requires Halfway(records, c, retired, records.Keys, items, l1, l2)
    ensures Unforked(records) && AllRooted(records, retired, records.Keys) && items == HeadItems(records)
    ensures Tallied(records, c, retired, records.Keys, l1, l2)
  {
    assert Maps.Unfold(0);
  }

  lemma OneLess(all: set<Id>, rest: set<Id>, id: Id)
    requires rest <= all && id in rest
    ensures all - (rest - {id}) == (all - rest) + {id}
  {
  }

  /** The loop over the records: each item once, or the first fault met. */
  method TallyAll(records: Records, retired: set<Id>, superseded: set<Id>, ghost c: Columns)
    returns (fault: Option<Fault>, l1: SetProgress, l2: SetProgress, items: set<Id>)
    requires ColumnsFor(c, records) && superseded == Superseded(records)
    ensures fault.Some? ==> Refuses(records, retired, fault.value)
    ensures fault.None? ==> Halfway(records, c, retired, records.Keys, items, l1, l2)
  {
    fault, l1, l2, items := None, NOTHING, NOTHING, {};
    var rest := records.Keys;
    assert records.Keys - rest == {};
    StartsTallied(records, c, retired);
    while rest != {}
      invariant fault.None? && rest <= records.Keys
      invariant Halfway(records, c, retired, records.Keys - rest, items, l1, l2)
      decreases |rest|
    {
      var id :| id in rest;
      fault, l1, l2, items := Turn(records, retired, superseded, id, l1, l2, items, records.Keys - rest, c);
      if fault.Some? {
        return;
      }
      OneLess(records.Keys, rest, id);
      rest := rest - {id};
    }
    assert records.Keys - rest == records.Keys;
  }

  lemma StartsTallied(records: Records, c: Columns, retired: set<Id>)
    ensures Halfway(records, c, retired, {}, {}, NOTHING, NOTHING)
  {
    assert {} * CountedHeads(records, retired, L1) == {} && {} * CountedHeads(records, retired, L2) == {};
  }

  // ----- what the numbers count -----

  lemma {:induction false} SumOverChosen(m: map<Id, nat>, ids: set<Id>, chosen: set<Id>)
    requires ids <= m.Keys && forall id <- ids :: m[id] == if id in chosen then 1 else 0
    ensures SumOver(m, ids) == |ids * chosen|
    decreases |ids|
  {
    if ids == {} {
      assert m - m.Keys == map[] && ids * chosen == {};
    } else {
      var id :| id in ids;
      var rest := ids - {id};
      SumOverOneMore(m, rest, id);
      SumOverChosen(m, rest, chosen);
      assert rest + {id} == ids;
      if id in chosen {
        assert ids * chosen == rest * chosen + {id};
      } else {
        assert ids * chosen == rest * chosen;
      }
    }
  }

  function Paired(id: Id, gold: set<Id>): set<(Id, Id)> {
    set g | g in gold :: (id, g)
  }

  lemma {:induction false} PairedSize(id: Id, gold: set<Id>)
    ensures |Paired(id, gold)| == |gold|
    decreases |gold|
  {
    if gold != {} {
      var g :| g in gold;
      PairedSize(id, gold - {g});
      assert Paired(id, gold) == Paired(id, gold - {g}) + {(id, g)};
    }
  }

  function Pairs(f: map<Id, set<Id>>, ids: set<Id>): set<(Id, Id)> {
    set id, g | id in ids && id in f && g in f[id] :: (id, g)
  }

  lemma {:induction false} SumOverPairs(m: map<Id, nat>, f: map<Id, set<Id>>, ids: set<Id>)
    requires ids <= m.Keys && ids <= f.Keys && forall id <- ids :: m[id] == |f[id]|
    ensures SumOver(m, ids) == |Pairs(f, ids)|
    decreases |ids|
  {
    if ids == {} {
      assert m - m.Keys == map[] && Pairs(f, ids) == {};
    } else {
      var id :| id in ids;
      var rest := ids - {id};
      SumOverOneMore(m, rest, id);
      SumOverPairs(m, f, rest);
      PairedSize(id, f[id]);
      assert rest + {id} == ids;
      assert Pairs(f, ids) == Pairs(f, rest) + Paired(id, f[id]);
      assert Pairs(f, rest) !! Paired(id, f[id]);
    }
  }

  /** The clause is gold of the record and not of the root of its chain. */
  ghost predicate FoundByPooling(records: Records, id: Id, g: Id) {
    && id in records && g in records[id].gold
    && exists root :: RootAt(records, id, root) && g !in records[root].gold
  }

  function OfSplit(records: Records, heads: set<Id>, split: Split): set<Id> {
    set id | id in heads && id in records && records[id].split == split
  }

  function Unadjudicated(records: Records, heads: set<Id>): set<Id> {
    set id | id in heads && id in records && records[id].adjudications == []
  }

  /** What one level's numbers say about its heads: how many there are, how many of each split,
      how many without an adjudication, and how many pairs of a head with a gold clause, of all
      and of those its root does not have. */
  ghost predicate Tells(p: SetProgress, records: Records, heads: set<Id>) {
    && p.completed == |heads|
    && p.dev == |OfSplit(records, heads, Dev)|
    && p.locked == |OfSplit(records, heads, Locked)|
    && p.awaiting == |Unadjudicated(records, heads)|
    && p.gold == |set id, g | id in heads && id in records && g in records[id].gold :: (id, g)|
    && p.pooled == |set id, g | id in heads && id in records && g in records[id].gold && FoundByPooling(records, id, g) :: (id, g)|
  }

  lemma TellsSplit(records: Records, heads: set<Id>, split: Split)
    requires heads <= records.Keys
    ensures SumOver(Ones(records, split), heads) == |OfSplit(records, heads, split)|
  {
    var chosen := OfSplit(records, heads, split);
    SumOverChosen(Ones(records, split), heads, chosen);
    assert heads * chosen == chosen;
  }

  lemma TellsWaiting(records: Records, heads: set<Id>)
    requires heads <= records.Keys
    ensures SumOver(Waiting(records), heads) == |Unadjudicated(records, heads)|
  {
    var chosen := Unadjudicated(records, heads);
    SumOverChosen(Waiting(records), heads, chosen);
    assert heads * chosen == chosen;
  }

  lemma TellsGold(records: Records, heads: set<Id>)
    requires heads <= records.Keys
    ensures SumOver(Golds(records), heads) == |set id, g | id in heads && id in records && g in records[id].gold :: (id, g)|
  {
    var f := map id | id in records :: GoldSet(records[id]);
    SumOverPairs(Golds(records), f, heads);
    assert Pairs(f, heads) == set id, g | id in heads && id in records && g in records[id].gold :: (id, g);
  }

  ghost function PooledSet(records: Records, id: Id): set<Id>
    requires id in records
  {
    set g | g in records[id].gold && FoundByPooling(records, id, g)
  }

  lemma PooledSetSize(records: Records, id: Id)
    requires id in records && Rooted(records, id)
    ensures PooledGold(records, id) == |PooledSet(records, id)|
  {
    var root :| RootAt(records, id, root);
    GoldAtRoot(records, id, root);
    OneEnd(records, id, root);
    assert PooledSet(records, id) == GoldSet(records[id]) - GoldSet(records[root]);
  }

  lemma TellsPooled(records: Records, heads: set<Id>)
    requires heads <= records.Keys && forall id <- heads :: Rooted(records, id)
    ensures SumOver(PooledGolds(records), heads)
            == |set id, g | id in heads && id in records && g in records[id].gold && FoundByPooling(records, id, g) :: (id, g)|
  {
    var f := map id | id in records :: PooledSet(records, id);
    forall id <- heads ensures PooledGolds(records)[id] == |f[id]| {
      PooledSetSize(records, id);
    }
    SumOverPairs(PooledGolds(records), f, heads);
    assert Pairs(f, heads) == set id, g | id in heads && id in records && g in records[id].gold && FoundByPooling(records, id, g) :: (id, g);
  }

  lemma CountsTell(p: SetProgress, records: Records, heads: set<Id>)
    requires Counts(p, ColumnsOf(records), heads) && heads <= records.Keys && forall id <- heads :: Rooted(records, id)
    ensures Tells(p, records, heads)
  {
    TellsSplit(records, heads, Dev);
    TellsSplit(records, heads, Locked);
    TellsWaiting(records, heads);
    TellsGold(records, heads);
    TellsPooled(records, heads);
  }

  /** The records of a level that no record names, of items that are not retired. */
  ghost function Unnamed(records: Records, retired: set<Id>, level: Level): set<Id> {
    set id | id in records && (forall j <- records :: records[j].predecessor != Some(id)) && records[id].item !in retired && records[id].level == level
  }

  lemma UnnamedAreCounted(records: Records, retired: set<Id>, level: Level)
    ensures Unnamed(records, retired, level) == CountedHeads(records, retired, level)
  {
  }

  lemma HeadsTold(records: Records, retired: set<Id>, l1: SetProgress, l2: SetProgress)
    requires Unforked(records) && AllRooted(records, retired, records.Keys)
    requires Counts(l1, ColumnsOf(records), CountedHeads(records, retired, L1))
    requires Counts(l2, ColumnsOf(records), CountedHeads(records, retired, L2))
    ensures Tells(l1, records, Unnamed(records, retired, L1)) && Tells(l2, records, Unnamed(records, retired, L2))
  {
    UnnamedAreCounted(records, retired, L1);
    UnnamedAreCounted(records, retired, L2);
    CountsTell(l1, records, Unnamed(records, retired, L1));
    CountsTell(l2, records, Unnamed(records, retired, L2));
  }

  lemma ItemsTold(records: Records)
    ensures |HeadItems(records)| == |set id | id in records && (forall j <- records :: records[j].predecessor != Some(id)) :: records[id].item|
    ensures |Superseded(records)| == |set id | id in records && records[id].predecessor.Some? :: records[id].predecessor.value|
  {
    assert HeadItems(records) == set id | id in records && (forall j <- records :: records[j].predecessor != Some(id)) :: records[id].item;
  }

  /** On any records the report is refused exactly when some item has two heads or the chain of a
      head that counts has no root; otherwise it counts the heads of the items that are not
      retired, each once. */
  method BuildProgress(records: Records, retired: set<Id>) returns (r: Result<Report>)
    ensures r.Ok? <==> Unforked(records) && AllRooted(records, retired, records.Keys)
    ensures r.Err? ==> Refuses(records, retired, r.fault)
    ensures r.Ok? ==>
      && Counts(r.value.l1, ColumnsOf(records), CountedHeads(records, retired, L1))
      && Counts(r.value.l2, ColumnsOf(records), CountedHeads(records, retired, L2))
      && Tells(r.value.l1, records, Unnamed(records, retired, L1)) && Tells(r.value.l2, records, Unnamed(records, retired, L2))
      && r.value.items == |set id | id in records && (forall j <- records :: records[j].predecessor != Some(id)) :: records[id].item|
      && r.value.superseded == |set id | id in records && records[id].predecessor.Some? :: records[id].predecessor.value|
  {
    ColumnsAre(records);
    r := Summarize(records, retired, ColumnsOf(records));
    if r.Err? {
      RefusedIsBad(records, retired, r.fault);
    } else {
      HeadsTold(records, retired, r.value.l1, r.value.l2);
      ItemsTold(records);
    }
  }

  method Summarize(records: Records, retired: set<Id>, ghost c: Columns) returns (r: Result<Report>)
    requires ColumnsFor(c, records)
    ensures r.Err? ==> Refuses(records, retired, r.fault)
    ensures r.Ok? ==>
      && Unforked(records) && AllRooted(records, retired, records.Keys)
      && Counts(r.value.l1, c, CountedHeads(records, retired, L1))
      && Counts(r.value.l2, c, CountedHeads(records, retired, L2))
      && r.value.items == |HeadItems(records)| && r.value.superseded == |Superseded(records)|
  {
    var superseded := Superseded(records);
    var fault, l1, l2, items := TallyAll(records, retired, superseded, c);
    if fault.Some? {
      return Err(fault.value);
    }
    AtTheEnd(records, c, retired, items, l1, l2);
    AllTallied(records, c, retired, l1, l2);
    return Ok(Report(l1, l2, |items|, |superseded|));
  }

  lemma RefusedIsBad(records: Records, retired: set<Id>, fault: Fault)
    requires Refuses(records, retired, fault)
    ensures !(Unforked(records) && AllRooted(records, retired, records.Keys))
  {
    if exists id :: Unrooted(records, retired, id, fault) {
      var id :| Unrooted(records, retired, id, fault);
      if Rooted(records, id) {
        var root :| RootAt(records, id, root);
        OneEnd(records, id, root);
      }
    }
  }

  ghost function RootGold(records: Records, address: Body -> Id, id: Id): nat
    requires Trees(records, address) && id in records
  {
    RootIsKept(records, address, id);
    |GoldSet(records[RootOf(records, address, id)])|
  }

  ghost function RootGolds(records: Records, address: Body -> Id): map<Id, nat>
    requires Trees(records, address)
  {
    map id | id in records :: RootGold(records, address, id)
  }

  lemma {:induction false} KeptIsRootGold(records: Records, address: Body -> Id, id: Id)
    requires Trees(records, address) && id in records
    ensures KeptGold(records, id) == RootGold(records, address, id)
  {
    var root := RootOf(records, address, id);
    TreesAreRooted(records, address, id);
    RootIsKept(records, address, id);
    GoldAtRoot(records, id, root);
    assert GoldSet(records[id]) * GoldSet(records[root]) == GoldSet(records[root]);
  }

  lemma {:induction false} KeptAreRootGolds(records: Records, address: Body -> Id, kept: map<Id, nat>, roots: map<Id, nat>)
    requires Trees(records, address) && kept == KeptGolds(records) && roots == RootGolds(records, address)
    ensures kept == roots
  {
    forall id | id in kept ensures kept[id] == roots[id] {
      KeptIsRootGold(records, address, id);
    }
  }

  lemma {:induction false} TreesAllRooted(records: Records, address: Body -> Id, retired: set<Id>)
    requires Trees(records, address)
    ensures AllRooted(records, retired, records.Keys)
  {
    forall id <- records ensures Rooted(records, id) {
      TreesAreRooted(records, address, id);
    }
  }

  /** Over a store of trees no chain is refused, and in the report a level's gold less its pooled
      gold is the distinct gold its authors found before any audit. */
  lemma {:induction false} ReportedGold(p: SetProgress, records: Records, address: Body -> Id, ids: set<Id>, retired: set<Id>)
    requires Trees(records, address) && Counts(p, ColumnsOf(records), ids)
    ensures AllRooted(records, retired, records.Keys)
    ensures p.gold - p.pooled == SumOver(RootGolds(records, address), ids)
  {
    TreesAllRooted(records, address, retired);
    KeptAreRootGolds(records, address, KeptGolds(records), RootGolds(records, address));
    GoldWithoutPooling(records, ids);
  }
}
