/** The registry of frozen collections: manifests are content addressed and stored for good. A
    client checks the registry it has read and stores into the registry as it is by then, so
    what the stored manifests form depends on what others stored in between. */
module Manifests {
  import opened Basics

  datatype Intent = Intent(collection: Id, predecessor: Option<Id>, terms: Id)
  datatype Draft = Draft(intent: Intent, rest: Id)
  datatype Manifest = Manifest(id: Id, draft: Draft)
  datatype Fault = PredecessorMissing | PredecessorElsewhere | PredecessorRequired | IntentConflict
  datatype Result<+T> = Ok(value: T) | Err(fault: Fault)

  /** The content hash of a draft, without collisions. */
  ghost predicate Injective(address: Draft -> Id) {
    forall d, e :: address(d) == address(e) ==> d == e
  }

  // ----- the checks -----

  function Find(records: seq<Manifest>, id: Id): Option<Manifest> {
    if records == [] then None
    else if records[|records|-1].id == id then Some(records[|records|-1])
    else Find(records[..|records|-1], id)
  }

  predicate Bound(records: seq<Manifest>, collection: Id) {
    exists m <- records :: m.draft.intent.collection == collection
  }

  function ReferenceFault(intent: Intent, records: seq<Manifest>): Option<Fault> {
    match intent.predecessor
    case None => None
    case Some(id) =>
      match Find(records, id)
      case None => Some(PredecessorMissing)
      case Some(m) => if m.draft.intent.collection != intent.collection then Some(PredecessorElsewhere) else None
  }

  /** A collection that already has a manifest takes only successors of its own manifests. */
  function PublishFault(intent: Intent, records: seq<Manifest>): Option<Fault> {
    var reference := ReferenceFault(intent, records);
    if reference.Some? then reference
    else if Bound(records, intent.collection) && intent.predecessor.None? then Some(PredecessorRequired)
    else None
  }

  /** The manifests of one intent. */
  function Matching(records: seq<Manifest>, intent: Intent): seq<Manifest> {
    if records == [] then [] else
      var n := |records| - 1;
      Matching(records[..n], intent) + if records[n].draft.intent == intent then [records[n]] else []
  }

  /** What a publication needs of the registry it has read. */
  predicate Publishable(intent: Intent, records: seq<Manifest>) {
    Matching(records, intent) == [] && PublishFault(intent, records).None?
  }

  // ----- forests and trees -----

  /** The predecessor a manifest names is an earlier manifest of its collection. */
  predicate Grounded(records: seq<Manifest>, k: nat)
    requires k < |records|
  {
    var intent := records[k].draft.intent;
    intent.predecessor.Some? ==>
      exists j :: 0 <= j < k && records[j].id == intent.predecessor.value && records[j].draft.intent.collection == intent.collection
  }

  /** In publication order: what every interleaving of clients keeps. */
  ghost predicate Forest(records: seq<Manifest>) {
    && (forall i, j :: 0 <= i < j < |records| ==> records[i].id != records[j].id)
    && (forall k :: 0 <= k < |records| ==> Grounded(records, k))
  }

  /** One root per collection and one manifest per intent on top of that. */
  ghost predicate Tree(records: seq<Manifest>) {
    && Forest(records)
    && (forall i, j :: 0 <= i < j < |records| ==> records[i].draft.intent != records[j].draft.intent)
    && (forall i, j :: 0 <= i < j < |records| && records[i].draft.intent.collection == records[j].draft.intent.collection ==>
          records[j].draft.intent.predecessor.Some?)
  }

  ghost predicate Addressed(records: seq<Manifest>, address: Draft -> Id) {
    forall m <- records :: m.id == address(m.draft)
  }

  ghost predicate Sound(records: seq<Manifest>, address: Draft -> Id) {
    Forest(records) && Addressed(records, address) && Injective(address)
  }

  lemma {:induction false} FindFinds(records: seq<Manifest>, id: Id)
    ensures Find(records, id).Some? ==> Find(records, id).value in records && Find(records, id).value.id == id
    ensures Find(records, id).None? ==> forall m <- records :: m.id != id
  {
    if records != [] {
      FindFinds(records[..|records|-1], id);
    }
  }

  lemma {:induction false} MatchingMeans(records: seq<Manifest>, intent: Intent)
    ensures forall m :: m in Matching(records, intent) <==> m in records && m.draft.intent == intent
  {
    if records != [] {
      MatchingMeans(records[..|records|-1], intent);
      assert records == records[..|records|-1] + [records[|records|-1]];
    }
  }

  lemma {:induction false} NothingMatches(records: seq<Manifest>, intent: Intent)
    ensures Matching(records, intent) == [] <==> forall m <- records :: m.draft.intent != intent
  {
    if records != [] {
      NothingMatches(records[..|records|-1], intent);
      assert records == records[..|records|-1] + [records[|records|-1]];
    }
  }

  /** Only the manifest itself matches exactly when no other has its intent. */
  lemma {:induction false} MatchesOnly(records: seq<Manifest>, m: Manifest)
    requires forall i, j :: 0 <= i < j < |records| ==> records[i].id != records[j].id
    ensures Matching(records, m.draft.intent) == [m] <==> m in records && forall r <- records :: r.draft.intent == m.draft.intent ==> r == m
  {
    if records != [] {
      var n := |records| - 1;
      var last := records[n];
      assert records == records[..n] + [last];
      assert forall r <- records[..n] :: r.id != last.id;
      MatchesOnly(records[..n], m);
      NothingMatches(records[..n], m.draft.intent);
      var before := Matching(records[..n], m.draft.intent);
      if last.draft.intent == m.draft.intent {
        assert Matching(records, m.draft.intent) == before + [last];
        assert before + [last] == [m] <==> before == [] && last == m by {
          if before + [last] == [m] {
            assert |before + [last]| == 1;
            assert (before + [last])[0] == m;
          }
        }
      } else {
        assert Matching(records, m.draft.intent) == before;
      }
    }
  }

  lemma ReferenceMeans(intent: Intent, records: seq<Manifest>)
    requires ReferenceFault(intent, records).None? && intent.predecessor.Some?
    ensures exists j :: 0 <= j < |records| && records[j].id == intent.predecessor.value && records[j].draft.intent.collection == intent.collection
  {
    FindFinds(records, intent.predecessor.value);
    var p := Find(records, intent.predecessor.value).value;
    var j :| 0 <= j < |records| && records[j] == p;
  }

  lemma {:induction false} FindIs(records: seq<Manifest>, m: Manifest)
    requires (forall i, j :: 0 <= i < j < |records| ==> records[i].id != records[j].id) && m in records
    ensures Find(records, m.id) == Some(m)
  {
    FindFinds(records, m.id);
    var found := Find(records, m.id).value;
    var i :| 0 <= i < |records| && records[i] == m;
    var j :| 0 <= j < |records| && records[j] == found;
  }

  predicate Held(records: seq<Manifest>, id: Id) {
    exists m <- records :: m.id == id
  }

  predicate HeldIn(records: seq<Manifest>, id: Id, collection: Id) {
    exists m <- records :: m.id == id && m.draft.intent.collection == collection
  }

  /** Each fault exactly when it is due: the named predecessor is nowhere, or only in another
      collection, or none is named for a collection that has manifests. */
  lemma FaultExactly(intent: Intent, records: seq<Manifest>)
    requires forall i, j :: 0 <= i < j < |records| ==> records[i].id != records[j].id
    ensures var fault := PublishFault(intent, records);
            match intent.predecessor
            case None =>
              && ReferenceFault(intent, records) == None
              && fault == if exists m <- records :: m.draft.intent.collection == intent.collection then Some(PredecessorRequired) else None
            case Some(id) =>
              && fault == ReferenceFault(intent, records)
              && fault == if HeldIn(records, id, intent.collection) then None else if Held(records, id) then Some(PredecessorElsewhere) else Some(PredecessorMissing)
  {
    if intent.predecessor.Some? {
      var id := intent.predecessor.value;
      FindFinds(records, id);
      if Held(records, id) {
        var m :| m in records && m.id == id;
        FindIs(records, m);
        if HeldIn(records, id, intent.collection) {
          var n :| n in records && n.id == id && n.draft.intent.collection == intent.collection;
          FindIs(records, n);
        }
      }
    }
  }

  lemma PublishableExactly(intent: Intent, records: seq<Manifest>)
    requires forall i, j :: 0 <= i < j < |records| ==> records[i].id != records[j].id
    ensures Publishable(intent, records) <==>
            && (forall m <- records :: m.draft.intent != intent)
            && (intent.predecessor.Some? ==> HeldIn(records, intent.predecessor.value, intent.collection))
            && (intent.predecessor.None? ==> forall m <- records :: m.draft.intent.collection != intent.collection)
  {
    NothingMatches(records, intent);
    FaultExactly(intent, records);
  }

  /** A reference stays valid while the registry grows. */
  lemma ReferenceStays(intent: Intent, seen: seq<Manifest>, records: seq<Manifest>)
    requires seen <= records && Forest(records) && ReferenceFault(intent, seen).None?
    ensures ReferenceFault(intent, records).None?
  {
    if intent.predecessor.Some? {
      ReferenceMeans(intent, seen);
      var j :| 0 <= j < |seen| && seen[j].id == intent.predecessor.value && seen[j].draft.intent.collection == intent.collection;
      FindFinds(records, intent.predecessor.value);
      assert records[j] == seen[j];
    }
  }

  lemma GroundedStays(records: seq<Manifest>, m: Manifest, k: nat)
    requires k < |records| && Grounded(records, k)
    ensures Grounded(records + [m], k)
  {
    var more := records + [m];
    var intent := records[k].draft.intent;
    if intent.predecessor.Some? {
      var j :| 0 <= j < k && records[j].id == intent.predecessor.value && records[j].draft.intent.collection == intent.collection;
      assert more[j] == records[j];
    }
  }

  /** A manifest whose reference was once valid may be stored at any later time. */
  lemma ForestGrows(records: seq<Manifest>, m: Manifest, address: Draft -> Id)
    requires Sound(records, address) && m.id == address(m.draft) && m !in records
    requires ReferenceFault(m.draft.intent, records).None?
    ensures Sound(records + [m], address)
  {
    var more := records + [m];
    forall k | 0 <= k < |more| ensures Grounded(more, k) {
      if k < |records| {
        GroundedStays(records, m, k);
      } else if m.draft.intent.predecessor.Some? {
        ReferenceMeans(m.draft.intent, records);
        var j :| 0 <= j < |records| && records[j].id == m.draft.intent.predecessor.value
                 && records[j].draft.intent.collection == m.draft.intent.collection;
        assert more[j] == records[j];
      }
    }
  }

  /** Storing one more manifest keeps a tree exactly when it would pass the checks against the
      registry it is stored into, not only against the one that was read. */
  lemma TreeGrowsIff(records: seq<Manifest>, m: Manifest, address: Draft -> Id)
    requires Tree(records) && Sound(records, address) && m.id == address(m.draft) && m !in records
    ensures Tree(records + [m]) <==> Publishable(m.draft.intent, records)
  {
    var more := records + [m];
    var intent := m.draft.intent;
    NothingMatches(records, intent);
    if Publishable(intent, records) {
      ForestGrows(records, m, address);
      forall i, j | 0 <= i < j < |more|
        ensures more[i].draft.intent != more[j].draft.intent
        ensures more[i].draft.intent.collection == more[j].draft.intent.collection ==> more[j].draft.intent.predecessor.Some? {
        if j == |records| {
          assert more[i] == records[i] && records[i] in records;
        }
      }
    }
    if Tree(more) {
      assert more[|records|] == m && Grounded(more, |records|);
      if intent.predecessor.Some? {
        var j :| 0 <= j < |records| && more[j].id == intent.predecessor.value && more[j].draft.intent.collection == intent.collection;
        assert records[j] == more[j];
        FindFinds(records, intent.predecessor.value);
      }
      if Bound(records, intent.collection) {
        var r :| r in records && r.draft.intent.collection == intent.collection;
        var i :| 0 <= i < |records| && records[i] == r;
        assert more[i] == r;
      }
      forall r <- records ensures r.draft.intent != intent {
        var i :| 0 <= i < |records| && records[i] == r;
        assert more[i] == r;
      }
    }
  }

  lemma PrefixIsTree(records: seq<Manifest>, more: seq<Manifest>)
    requires records <= more
    ensures Forest(more) ==> Forest(records)
    ensures Tree(more) ==> Tree(records)
  {
    forall k | 0 <= k < |records| && Grounded(more, k) ensures Grounded(records, k) {
      assert records[k] == more[k];
      var intent := records[k].draft.intent;
      if intent.predecessor.Some? {
        var j :| 0 <= j < k && more[j].id == intent.predecessor.value && more[j].draft.intent.collection == intent.collection;
        assert records[j] == more[j];
      }
    }
  }

  // ----- paths -----

  /** Each manifest's index in publication order. */
  function IndexOf(records: seq<Manifest>, id: Id): (k: nat)
    requires exists m :: m in records && m.id == id
    ensures k < |records| && records[k].id == id
  {
    if records[|records|-1].id == id then |records| - 1 else
      assert exists m :: m in records[..|records|-1] && m.id == id by {
        var m :| m in records && m.id == id;
        assert m in records[..|records|-1];
      }
      IndexOf(records[..|records|-1], id)
  }

  ghost predicate Linked(records: seq<Manifest>, path: seq<Manifest>) {
    && (forall m <- path :: m in records)
    && forall i, j :: 0 <= i < j < |path| && j == i + 1 ==> path[i].draft.intent.predecessor == Some(path[j].id)
  }

  lemma PredecessorEarlier(records: seq<Manifest>, a: Manifest, b: Manifest)
    requires Forest(records) && a in records && b in records && a.draft.intent.predecessor == Some(b.id)
    ensures IndexOf(records, b.id) < IndexOf(records, a.id)
    ensures a.draft.intent.collection == b.draft.intent.collection
  {
    var i, j := IndexOf(records, a.id), IndexOf(records, b.id);
    assert records[i] == a && records[j] == b;
    assert Grounded(records, i);
    var k :| 0 <= k < i && records[k].id == b.id && records[k].draft.intent.collection == a.draft.intent.collection;
    assert k == j;
  }

  /** Following predecessors never comes back: positions fall along every path, and the whole
      path stays inside one collection. */
  lemma {:induction false} PathsDescend(records: seq<Manifest>, path: seq<Manifest>, i: nat, j: nat)
    requires Forest(records) && Linked(records, path) && i < j < |path|
    ensures IndexOf(records, path[j].id) < IndexOf(records, path[i].id)
    ensures path[i] != path[j] && path[i].draft.intent.collection == path[j].draft.intent.collection
    decreases j - i
  {
    PredecessorEarlier(records, path[j - 1], path[j]);
    if i < j - 1 {
      PathsDescend(records, path, i, j - 1);
    }
  }

  /** Every manifest reaches a manifest without predecessor of its own collection. */
  lemma {:induction false} ReachesRoot(records: seq<Manifest>, m: Manifest) returns (path: seq<Manifest>)
    requires Forest(records) && m in records
    ensures path != [] && path[0] == m && Linked(records, path)
    ensures path[|path|-1].draft.intent.predecessor.None?
    ensures path[|path|-1].draft.intent.collection == m.draft.intent.collection
    decreases IndexOf(records, m.id)
  {
    if m.draft.intent.predecessor.None? {
      path := [m];
    } else {
      var k := IndexOf(records, m.id);
      assert records[k] == m && Grounded(records, k);
      var j :| 0 <= j < k && records[j].id == m.draft.intent.predecessor.value
               && records[j].draft.intent.collection == m.draft.intent.collection;
      PredecessorEarlier(records, m, records[j]);
      var rest := ReachesRoot(records, records[j]);
      path := [m] + rest;
    }
  }

  /** A collection has at most one manifest without predecessor. */
  lemma OneRoot(records: seq<Manifest>, a: Manifest, b: Manifest)
    requires Tree(records) && a in records && b in records
    requires a.draft.intent.predecessor.None? && b.draft.intent.predecessor.None?
    requires a.draft.intent.collection == b.draft.intent.collection
    ensures a == b
  {
    var i :| 0 <= i < |records| && records[i] == a;
    var j :| 0 <= j < |records| && records[j] == b;
  }

  // ----- create, section by section -----

  /** The registry as it stands at the three reads of a create and when it stores. */
  datatype Views = Views(first: seq<Manifest>, second: seq<Manifest>, third: seq<Manifest>, last: seq<Manifest>)

  ghost predicate Interleaved(before: seq<Manifest>, v: Views, address: Draft -> Id) {
    before <= v.first <= v.second <= v.third <= v.last && Sound(v.last, address)
  }

  function FoundIn(records: seq<Manifest>, intent: Intent): Result<Option<Manifest>> {
    var reference := ReferenceFault(intent, records);
    var matches := Matching(records, intent);
    if reference.Some? then Err(reference.value)
    else if |matches| > 1 then Err(IntentConflict)
    else Ok(if matches == [] then None else Some(matches[0]))
  }

  /** Storing is by name: the same manifest is stored once. */
  function Stored(records: seq<Manifest>, m: Manifest): seq<Manifest> {
    if m in records then records else records + [m]
  }

  function Settled(matches: seq<Manifest>, m: Manifest): Result<Manifest> {
    if matches == [m] then Ok(m) else Err(IntentConflict)
  }

  function PublishAnswer(seen: seq<Manifest>, m: Manifest): Result<Manifest> {
    if Matching(seen, m.draft.intent) != [] then Settled(Matching(seen, m.draft.intent), m)
    else match PublishFault(m.draft.intent, seen)
         case Some(fault) => Err(fault)
         case None => Ok(m)
  }

  function AfterPublish(seen: seq<Manifest>, now: seq<Manifest>, m: Manifest): seq<Manifest> {
    if Publishable(m.draft.intent, seen) then Stored(now, m) else seen
  }

  function CreateAnswer(v: Views, m: Manifest): Result<Manifest> {
    match FoundIn(v.first, m.draft.intent)
    case Err(fault) => Err(fault)
    case Ok(Some(existing)) => if existing == m then Ok(m) else Err(IntentConflict)
    case Ok(None) =>
      match PublishFault(m.draft.intent, v.second)
      case Some(fault) => Err(fault)
      case None => PublishAnswer(v.third, m)
  }

  /** The store is reached when none of the three reads refused or settled the matter. */
  predicate Stores(v: Views, m: Manifest) {
    FoundIn(v.first, m.draft.intent) == Ok(None) && PublishFault(m.draft.intent, v.second).None? && Publishable(m.draft.intent, v.third)
  }

  function AfterCreate(v: Views, m: Manifest): seq<Manifest> {
    if Stores(v, m) then Stored(v.last, m)
    else if FoundIn(v.first, m.draft.intent) != Ok(None) then v.first
    else if PublishFault(m.draft.intent, v.second).Some? then v.second
    else v.third
  }

  lemma StoreIsSound(seen: seq<Manifest>, now: seq<Manifest>, m: Manifest, address: Draft -> Id)
    requires seen <= now && Sound(now, address) && m.id == address(m.draft) && Publishable(m.draft.intent, seen)
    ensures Sound(Stored(now, m), address)
  {
    ReferenceStays(m.draft.intent, seen, now);
    if m !in now {
      ForestGrows(now, m, address);
    }
  }

  lemma ViewsAreSound(before: seq<Manifest>, v: Views, address: Draft -> Id)
    requires Interleaved(before, v, address)
    ensures Sound(before, address) && Sound(v.first, address) && Sound(v.second, address) && Sound(v.third, address)
  {
    PrefixIsTree(v.third, v.last);
    PrefixIsTree(v.second, v.last);
    PrefixIsTree(v.first, v.last);
    PrefixIsTree(before, v.last);
    assert forall m <- v.third :: m in v.last;
    assert forall m <- v.second :: m in v.last;
    assert forall m <- v.first :: m in v.last;
    assert forall m <- before :: m in v.last;
  }

  lemma FoundIsThere(records: seq<Manifest>, intent: Intent)
    requires FoundIn(records, intent).Ok? && FoundIn(records, intent).value.Some?
    ensures var m := FoundIn(records, intent).value.value; m in records && m.draft.intent == intent
  {
    MatchingMeans(records, intent);
    assert Matching(records, intent)[0] in Matching(records, intent);
  }

  /** Whatever others store meanwhile, a create leaves a forest that only grew. */
  lemma CreateIsSound(before: seq<Manifest>, v: Views, m: Manifest, address: Draft -> Id)
    requires Interleaved(before, v, address) && m.id == address(m.draft)
    ensures Sound(AfterCreate(v, m), address) && before <= AfterCreate(v, m)
  {
    ViewsAreSound(before, v, address);
    if Stores(v, m) {
      StoreIsSound(v.third, v.last, m, address);
    }
  }

  /** An answered manifest is the one drafted, and it is stored. */
  lemma AnsweredIsStored(v: Views, m: Manifest)
    requires CreateAnswer(v, m).Ok?
    ensures CreateAnswer(v, m).value == m && m in AfterCreate(v, m)
  {
    MatchingMeans(v.third, m.draft.intent);
    if FoundIn(v.first, m.draft.intent) != Ok(None) {
      FoundIsThere(v.first, m.draft.intent);
    } else if Matching(v.third, m.draft.intent) == [m] {
      assert m in Matching(v.third, m.draft.intent);
    }
  }

  /** A create keeps a tree exactly when what it stores, if it stores, is still publishable in
      the registry of that moment. */
  lemma CreateKeepsTreeIff(before: seq<Manifest>, v: Views, m: Manifest, address: Draft -> Id)
    requires Interleaved(before, v, address) && m.id == address(m.draft) && Tree(v.last)
    ensures Tree(AfterCreate(v, m)) <==> (Stores(v, m) && m !in v.last ==> Publishable(m.draft.intent, v.last))
  {
    PrefixIsTree(v.third, v.last);
    PrefixIsTree(v.second, v.last);
    PrefixIsTree(v.first, v.last);
    if Stores(v, m) && m !in v.last {
      TreeGrowsIff(v.last, m, address);
    }
  }

  /** The part of the registry a publication in the collection looks at. */
  predicate SameWithin(seen: seq<Manifest>, now: seq<Manifest>, collection: Id) {
    forall m <- now :: m.draft.intent.collection == collection ==> m in seen
  }

  /** While others store only in other collections, the checks keep their answers. */
  lemma ChecksStay(intent: Intent, seen: seq<Manifest>, now: seq<Manifest>)
    requires seen <= now && Forest(now) && SameWithin(seen, now, intent.collection)
    requires Publishable(intent, seen)
    ensures Publishable(intent, now)
  {
    ReferenceStays(intent, seen, now);
    NothingMatches(seen, intent);
    NothingMatches(now, intent);
    assert forall m <- now :: m.draft.intent == intent ==> m in seen;
    if Bound(now, intent.collection) {
      var m :| m in now && m.draft.intent.collection == intent.collection;
      assert m in seen;
    }
  }

  /** Undisturbed in its own collection, a create keeps the tree. */
  lemma UndisturbedKeepsTree(before: seq<Manifest>, v: Views, m: Manifest, address: Draft -> Id)
    requires Interleaved(before, v, address) && m.id == address(m.draft) && Tree(v.last)
    requires SameWithin(v.third, v.last, m.draft.intent.collection)
    ensures Tree(AfterCreate(v, m))
  {
    if Stores(v, m) {
      ChecksStay(m.draft.intent, v.third, v.last);
    }
    CreateKeepsTreeIff(before, v, m, address);
  }

  lemma StoredReference(records: seq<Manifest>, m: Manifest)
    requires Forest(records) && m in records
    ensures ReferenceFault(m.draft.intent, records).None?
  {
    if m.draft.intent.predecessor.Some? {
      var k :| 0 <= k < |records| && records[k] == m;
      assert Grounded(records, k);
      var j :| 0 <= j < k && records[j].id == m.draft.intent.predecessor.value
               && records[j].draft.intent.collection == m.draft.intent.collection;
      FindFinds(records, m.draft.intent.predecessor.value);
    }
  }

  lemma SoleMatch(matches: seq<Manifest>, m: Manifest)
    requires m in matches && |matches| <= 1
    ensures matches == [m]
  {
  }

  /** A stored draft created again stores nothing; it answers the stored manifest exactly when
      no other manifest has its intent, and conflicts otherwise, whatever others do. */
  lemma CreateIsIdempotent(before: seq<Manifest>, v: Views, m: Manifest, address: Draft -> Id)
    requires Interleaved(before, v, address) && m.id == address(m.draft) && m in before
    ensures AfterCreate(v, m) == v.first
    ensures CreateAnswer(v, m) ==
            if forall r <- v.first :: r.draft.intent == m.draft.intent ==> r == m then Ok(m) else Err(IntentConflict)
  {
    ViewsAreSound(before, v, address);
    assert m in v.first;
    StoredReference(v.first, m);
    MatchingMeans(v.first, m.draft.intent);
    MatchesOnly(v.first, m);
    var matches := Matching(v.first, m.draft.intent);
    assert m in matches;
    if |matches| <= 1 {
      SoleMatch(matches, m);
    }
  }

  lemma {:induction false} MatchingGrows(a: seq<Manifest>, b: seq<Manifest>, intent: Intent)
    requires a <= b
    ensures |Matching(a, intent)| <= |Matching(b, intent)|
  {
    if a == b {
    } else {
      assert a <= b[..|b|-1];
      MatchingGrows(a, b[..|b|-1], intent);
    }
  }

  /** Two manifests of one intent are never told apart again: every later search of it fails. */
  lemma TwiceIsForEver(records: seq<Manifest>, later: seq<Manifest>, intent: Intent)
    requires records <= later && Forest(later) && Twice(records, intent)
    ensures FoundIn(later, intent) == Err(IntentConflict)
  {
    MatchesTwice(records, intent);
    MatchingGrows(records, later, intent);
    MatchingMeans(later, intent);
    var m := Matching(later, intent)[0];
    assert m in Matching(later, intent);
    StoredReference(later, m);
  }

  predicate Twice(records: seq<Manifest>, intent: Intent) {
    exists i, j :: 0 <= i < j < |records| && records[i].draft.intent == intent && records[j].draft.intent == intent
  }

  lemma TwiceSnoc(records: seq<Manifest>, m: Manifest, intent: Intent)
    ensures Twice(records + [m], intent) <==>
            Twice(records, intent) || (m.draft.intent == intent && exists r <- records :: r.draft.intent == intent)
  {
    var more := records + [m];
    if Twice(records, intent) {
      var i, j :| 0 <= i < j < |records| && records[i].draft.intent == intent && records[j].draft.intent == intent;
      assert more[i] == records[i] && more[j] == records[j];
    }
    if Twice(more, intent) {
      var i, j :| 0 <= i < j < |more| && more[i].draft.intent == intent && more[j].draft.intent == intent;
      assert more[i] == records[i] && records[i] in records;
    }
    if m.draft.intent == intent && exists r <- records :: r.draft.intent == intent {
      var i :| 0 <= i < |records| && records[i].draft.intent == intent;
      assert more[i] == records[i] && more[|records|] == m;
    }
  }

  lemma {:induction false} MatchesTwice(records: seq<Manifest>, intent: Intent)
    ensures |Matching(records, intent)| > 1 <==> Twice(records, intent)
  {
    if records != [] {
      var n := |records| - 1;
      assert records == records[..n] + [records[n]];
      MatchesTwice(records[..n], intent);
      TwiceSnoc(records[..n], records[n], intent);
      NothingMatches(records[..n], intent);
    }
  }

  /** A search answers the reference's fault, a conflict exactly when two stored manifests share
      the intent, and otherwise the one manifest of the intent or none. */
  lemma FoundExactly(records: seq<Manifest>, intent: Intent)
    ensures match FoundIn(records, intent)
            case Err(fault) => ReferenceFault(intent, records) == Some(fault) || (fault == IntentConflict && Twice(records, intent))
            case Ok(None) => forall r <- records :: r.draft.intent != intent
            case Ok(Some(m)) => m in records && m.draft.intent == intent && !Twice(records, intent)
  {
    MatchesTwice(records, intent);
    MatchingMeans(records, intent);
    NothingMatches(records, intent);
    if Matching(records, intent) != [] {
      assert Matching(records, intent)[0] in Matching(records, intent);
    }
  }

  /** A create that nobody disturbs stores its manifest exactly when no manifest has its intent,
      the predecessor it names is stored in its collection, and it names one if the collection has
      any; it answers with the manifest exactly when it has stored it or it is the only one of
      its intent. */
  lemma CreatedAlone(records: seq<Manifest>, m: Manifest, address: Draft -> Id)
    requires Sound(records, address) && m.id == address(m.draft)
    ensures var v := Views(records, records, records, records);
            var intent := m.draft.intent;
            var stores := && (forall r <- records :: r.draft.intent != intent)
                          && (intent.predecessor.Some? ==> HeldIn(records, intent.predecessor.value, intent.collection))
                          && (intent.predecessor.None? ==> forall r <- records :: r.draft.intent.collection != intent.collection);
            && AfterCreate(v, m) == (if stores then records + [m] else records)
            && (CreateAnswer(v, m) == Ok(m) <==> stores || (m in records && !Twice(records, intent)))
            && (m in records && Twice(records, intent) ==> CreateAnswer(v, m) == Err(IntentConflict))
            && (m !in records && !stores ==> CreateAnswer(v, m).Err?)
  {
    PublishableExactly(m.draft.intent, records);
    FoundExactly(records, m.draft.intent);
    NothingMatches(records, m.draft.intent);
    if m in records {
      StoredReference(records, m);
      SoleOfIntent(records, m);
    }
  }

  lemma SoleOfIntent(records: seq<Manifest>, m: Manifest)
    requires m in records
    ensures !Twice(records, m.draft.intent) ==> forall r <- records :: r.draft.intent == m.draft.intent ==> r == m
  {
    var i :| 0 <= i < |records| && records[i] == m;
    forall r <- records | r.draft.intent == m.draft.intent && r != m ensures Twice(records, m.draft.intent) {
      var j :| 0 <= j < |records| && records[j] == r;
    }
  }

  // ----- the store -----

  /** `records` is the shared directory. Each method is given what others have made of it by the
      time of its reads and of its store. */
  class CorpusManifestStore {
    const address: Draft -> Id
    var records: seq<Manifest>

    ghost predicate Valid() reads this { Sound(records, address) }

    constructor (address: Draft -> Id)
      requires Injective(address)
      ensures Valid() && records == [] && this.address == address
    {
      this.address, this.records := address, [];
    }

    /** The one manifest of an intent, if any; more than one is a conflict. */
    method FindByIntent(intent: Intent, now: seq<Manifest>) returns (r: Result<Option<Manifest>>)
      requires Valid() && records <= now && Sound(now, address)
      modifies this
      ensures Valid() && records == now && r == FoundIn(now, intent)
      ensures r.Ok? && r.value.Some? ==> r.value.value in now && r.value.value.draft.intent == intent
      ensures r.Ok? && r.value.None? ==> forall m <- now :: m.draft.intent != intent
    {
      records := now;
      NothingMatches(now, intent);
      MatchingMeans(now, intent);
      var reference := ReferenceFault(intent, records);
      if reference.Some? {
        return Err(reference.value);
      }
      var matches := Matches(intent);
      if |matches| > 1 {
        return Err(IntentConflict);
      }
      if matches != [] {
        assert matches[0] in matches;
      }
      return Ok(if matches == [] then None else Some(matches[0]));
    }

    method Matches(intent: Intent) returns (matches: seq<Manifest>)
      ensures matches == Matching(records, intent)
    {
      matches := [];
      for k := 0 to |records|
        invariant matches == Matching(records[..k], intent)
      {
        assert records[..k+1][..k] == records[..k];
        if records[k].draft.intent == intent {
          matches := matches + [records[k]];
        }
      }
      assert records[..|records|] == records;
    }

    method RequirePublishable(intent: Intent, now: seq<Manifest>) returns (fault: Option<Fault>)
      requires Valid() && records <= now && Sound(now, address)
      modifies this
      ensures Valid() && records == now && fault == PublishFault(intent, now)
    {
      records := now;
      fault := PublishFault(intent, records);
    }

    /** The manifests read are checked; the store meets the registry of that moment. */
    method PublishUnder(m: Manifest, seen: seq<Manifest>, now: seq<Manifest>) returns (r: Result<Manifest>)
      requires Valid() && m.id == address(m.draft) && records <= seen <= now && Sound(seen, address) && Sound(now, address)
      modifies this
      ensures Valid() && r == PublishAnswer(seen, m) && records == AfterPublish(seen, now, m)
      ensures r.Ok? ==> r.value == m && m in records
    {
      records := seen;
      var matches := Matches(m.draft.intent);
      MatchingMeans(seen, m.draft.intent);
      if matches != [] {
        if |matches| != 1 || matches[0] != m {
          return Err(IntentConflict);
        }
        assert matches[0] in matches;
        return Ok(matches[0]);
      }
      var fault := PublishFault(m.draft.intent, records);
      if fault.Some? {
        return Err(fault.value);
      }
      StoreIsSound(seen, now, m, address);
      records := now;
      if m !in records {
        records := records + [m];
      }
      return Ok(m);
    }

    method Create(d: Draft, v: Views) returns (r: Result<Manifest>)
      requires Valid() && Interleaved(records, v, address)
      modifies this
      ensures Valid()
      ensures var m := Manifest(address(d), d); r == CreateAnswer(v, m) && records == AfterCreate(v, m)
      ensures old(records) <= records && (r.Ok? ==> r.value in records && r.value.draft == d)
    {
      var m := Manifest(address(d), d);
      ViewsAreSound(records, v, address);
      CreateIsSound(records, v, m, address);
      if CreateAnswer(v, m).Ok? {
        AnsweredIsStored(v, m);
      }
      var existing := FindByIntent(d.intent, v.first);
      if existing.Err? {
        return Err(existing.fault);
      }
      if existing.value.Some? {
        return if existing.value.value == m then Ok(m) else Err(IntentConflict);
      }
      var fault := RequirePublishable(d.intent, v.second);
      if fault.Some? {
        return Err(fault.value);
      }
      r := PublishUnder(m, v.third, v.last);
    }
  }
}
