/** The fusion as it runs: nested loops over routes and ranks fill the groups, then each group
    becomes one hit in its place. */
module FusionMethod {
  import opened Basics
  import opened Fusion

  datatype Fault = NoRankings | DuplicateRoute | NoLocator | CrossCorpus | ConflictingLocators | SharedTieKey
  datatype Result<+T> = Ok(value: T) | Err(fault: Fault)

  /** Per identity and route the best rank and the unit that held it. */
  type Groups = map<Identity, map<Id, (nat, Id)>>

  function RanksIn(group: map<Id, (nat, Id)>): map<Id, nat> {
    map route | route in group :: group[route].0
  }

  function UnitsIn(group: map<Id, (nat, Id)>): set<Id> {
    set route | route in group :: group[route].1
  }

  function GroupOf(groups: Groups, id: Identity): map<Id, (nat, Id)> {
    if id in groups then groups[id] else map[]
  }

  ghost predicate Grouped(groups: Groups, rankings: seq<Ranking>, locators: Locators)
    requires Located(rankings, locators)
  {
    && (forall id <- groups :: groups[id] != map[])
    && (forall id :: RanksIn(GroupOf(groups, id)) == RanksOf(rankings, locators, id)
                     && UnitsIn(GroupOf(groups, id)) == BestUnits(rankings, locators, id))
  }

  /** The rankings read so far: whole ones, and the first `j` ranks of the next. */
  function Read(rankings: seq<Ranking>, i: nat, j: nat): seq<Ranking>
    requires i < |rankings| && j <= |rankings[i].units|
  {
    rankings[..i] + [Ranking(rankings[i].route, rankings[i].units[..j])]
  }

  lemma ReadLocated(rankings: seq<Ranking>, locators: Locators, i: nat, j: nat)
    requires Located(rankings, locators) && i < |rankings| && j <= |rankings[i].units|
    ensures Located(Read(rankings, i, j), locators) && Located(rankings[..i], locators)
  {
  }

  /** One ranking more, read up to `j`. */
  function RanksWith(before: map<Id, nat>, route: Id, p: Option<nat>): map<Id, nat> {
    if p.Some? then before[route := p.value + 1] else before
  }

  function UnitsWith(before: set<Id>, units: seq<Id>, p: Option<nat>): set<Id> {
    if p.Some? && p.value < |units| then before + {units[p.value]} else before
  }

  /** What the partly read ranking adds depends only on where it first lists the identity. */
  lemma {:induction false} ReadRanks(rankings: seq<Ranking>, locators: Locators, i: nat, j: nat, id: Identity)
    requires Located(rankings, locators) && i < |rankings| && j <= |rankings[i].units|
    ensures Located(Read(rankings, i, j), locators) && Located(rankings[..i], locators)
    ensures var p := First(rankings[i].units[..j], locators, id);
            && RanksOf(Read(rankings, i, j), locators, id) == RanksWith(RanksOf(rankings[..i], locators, id), rankings[i].route, p)
            && BestUnits(Read(rankings, i, j), locators, id) == UnitsWith(BestUnits(rankings[..i], locators, id), rankings[i].units, p)
  {
    ReadLocated(rankings, locators, i, j);
    assert Read(rankings, i, j)[..i] == rankings[..i];
    FirstIs(rankings[i].units[..j], locators, id);
  }

  lemma FirstSnoc(units: seq<Id>, locators: Locators, j: nat, id: Identity)
    requires j < |units| && forall u <- units :: u in locators
    ensures var p := First(units[..j], locators, id);
            First(units[..j + 1], locators, id) ==
            if p.Some? then p else if IdentityOf(locators[units[j]]) == id then Some(j) else None
  {
    assert units[..j + 1][..j] == units[..j];
  }

  /** The route is in the group exactly when this ranking already listed the identity. */
  lemma RouteSeen(rankings: seq<Ranking>, locators: Locators, i: nat, j: nat, id: Identity)
    requires Located(rankings, locators) && UniqueRoutes(rankings) && i < |rankings| && j <= |rankings[i].units|
    requires Located(Read(rankings, i, j), locators)
    ensures rankings[i].route in RanksOf(Read(rankings, i, j), locators, id) <==> First(rankings[i].units[..j], locators, id).Some?
  {
    ReadRanks(rankings, locators, i, j, id);
    RanksOfMeans(rankings[..i], locators, id);
  }

  function WithUnit(groups: Groups, id: Identity, route: Id, rank: nat, unit: Id): Groups {
    var group := GroupOf(groups, id);
    if route in group then groups else groups[id := group[route := (rank, unit)]]
  }

  lemma AddedToGroup(group: map<Id, (nat, Id)>, route: Id, rank: nat, unit: Id)
    requires route !in group
    ensures RanksIn(group[route := (rank, unit)]) == RanksIn(group)[route := rank]
    ensures UnitsIn(group[route := (rank, unit)]) == UnitsIn(group) + {unit}
  {
    var more := group[route := (rank, unit)];
    assert forall r <- group :: more[r] == group[r];
    forall u ensures u in UnitsIn(more) <==> u in UnitsIn(group) + {unit} {
      if u in UnitsIn(group) {
        var r :| r in group && group[r].1 == u;
        assert more[r].1 == u;
      }
      assert more[route].1 == unit;
    }
  }

  lemma {:induction false} OtherGroups(rankings: seq<Ranking>, locators: Locators, i: nat, j: nat, id: Identity)
    requires Located(rankings, locators) && i < |rankings| && j < |rankings[i].units|
    requires IdentityOf(locators[rankings[i].units[j]]) != id || First(rankings[i].units[..j], locators, id).Some?
    ensures Located(Read(rankings, i, j), locators) && Located(Read(rankings, i, j + 1), locators)
    ensures RanksOf(Read(rankings, i, j + 1), locators, id) == RanksOf(Read(rankings, i, j), locators, id)
    ensures BestUnits(Read(rankings, i, j + 1), locators, id) == BestUnits(Read(rankings, i, j), locators, id)
  {
    ReadRanks(rankings, locators, i, j, id);
    ReadRanks(rankings, locators, i, j + 1, id);
    FirstSnoc(rankings[i].units, locators, j, id);
  }

  lemma {:induction false} OwnGroup(rankings: seq<Ranking>, locators: Locators, i: nat, j: nat, id: Identity)
    requires Located(rankings, locators) && i < |rankings| && j < |rankings[i].units|
    requires IdentityOf(locators[rankings[i].units[j]]) == id && First(rankings[i].units[..j], locators, id).None?
    ensures Located(Read(rankings, i, j), locators) && Located(Read(rankings, i, j + 1), locators)
    ensures RanksOf(Read(rankings, i, j + 1), locators, id) == RanksOf(Read(rankings, i, j), locators, id)[rankings[i].route := j + 1]
    ensures BestUnits(Read(rankings, i, j + 1), locators, id) == BestUnits(Read(rankings, i, j), locators, id) + {rankings[i].units[j]}
  {
    ReadRanks(rankings, locators, i, j, id);
    ReadRanks(rankings, locators, i, j + 1, id);
    FirstSnoc(rankings[i].units, locators, j, id);
  }

  lemma GroupedStep(rankings: seq<Ranking>, locators: Locators, groups: Groups, i: nat, j: nat)
    requires Located(rankings, locators) && UniqueRoutes(rankings) && i < |rankings| && j < |rankings[i].units|
    requires Located(Read(rankings, i, j), locators) && Grouped(groups, Read(rankings, i, j), locators)
    ensures Located(Read(rankings, i, j + 1), locators)
    ensures Grouped(WithUnit(groups, IdentityOf(locators[rankings[i].units[j]]), rankings[i].route, j + 1, rankings[i].units[j]),
                    Read(rankings, i, j + 1), locators)
  {
    ReadLocated(rankings, locators, i, j + 1);
    var unit := rankings[i].units[j];
    var own := IdentityOf(locators[unit]);
    var after := WithUnit(groups, own, rankings[i].route, j + 1, unit);
    var group := GroupOf(groups, own);
    RouteSeen(rankings, locators, i, j, own);
    assert rankings[i].route in group <==> rankings[i].route in RanksIn(group);
    forall id ensures RanksIn(GroupOf(after, id)) == RanksOf(Read(rankings, i, j + 1), locators, id)
                      && UnitsIn(GroupOf(after, id)) == BestUnits(Read(rankings, i, j + 1), locators, id) {
      if id == own && rankings[i].route !in group {
        OwnGroup(rankings, locators, i, j, own);
        AddedToGroup(group, rankings[i].route, j + 1, unit);
      } else {
        OtherGroups(rankings, locators, i, j, id);
      }
    }
  }

  // ----- one locator per identity, one identity per tie key -----

  ghost predicate LocatorsSeen(seen: set<Id>, locators: Locators, byIdentity: map<Identity, Locator>) {
    && (forall u <- seen :: u in locators && IdentityOf(locators[u]) in byIdentity && byIdentity[IdentityOf(locators[u])] == locators[u])
    && (forall id <- byIdentity :: exists u :: u in seen && u in locators && locators[u] == byIdentity[id] && IdentityOf(locators[u]) == id)
  }

  ghost predicate OwnersSeen(seen: set<Id>, locators: Locators, owners: map<TieKey, Identity>) {
    && (forall u <- seen :: u in locators && TieOf(locators[u]) in owners && owners[TieOf(locators[u])] == IdentityOf(locators[u]))
    && (forall t <- owners :: exists u :: u in seen && u in locators && TieOf(locators[u]) == t && IdentityOf(locators[u]) == owners[t])
  }

  ghost predicate Checked(seen: set<Id>, locators: Locators, byIdentity: map<Identity, Locator>, owners: map<TieKey, Identity>) {
    LocatorsSeen(seen, locators, byIdentity) && OwnersSeen(seen, locators, owners)
  }

  lemma CheckedIsCoherent(seen: set<Id>, locators: Locators, byIdentity: map<Identity, Locator>, owners: map<TieKey, Identity>)
    requires Checked(seen, locators, byIdentity, owners)
    ensures Coherent(seen, locators)
  {
  }

  function Admit<K, V>(m: map<K, V>, k: K, v: V): map<K, V> {
    if k in m then m else m[k := v]
  }

  lemma {:induction false} LocatorsStep(seen: set<Id>, locators: Locators, byIdentity: map<Identity, Locator>, u: Id, after: map<Identity, Locator>)
    requires LocatorsSeen(seen, locators, byIdentity) && u in locators
    requires var id := IdentityOf(locators[u]); (id in byIdentity ==> byIdentity[id] == locators[u]) && after == Admit(byIdentity, id, locators[u])
    ensures LocatorsSeen(seen + {u}, locators, after)
  {
    forall id <- after ensures exists v :: v in seen + {u} && v in locators && locators[v] == after[id] && IdentityOf(locators[v]) == id {
      if id in byIdentity {
        var v :| v in seen && v in locators && locators[v] == byIdentity[id] && IdentityOf(locators[v]) == id;
        assert v in seen + {u};
      } else {
        assert u in seen + {u};
      }
    }
  }

  lemma {:induction false} OwnersStep(seen: set<Id>, locators: Locators, owners: map<TieKey, Identity>, u: Id, after: map<TieKey, Identity>)
    requires OwnersSeen(seen, locators, owners) && u in locators
    requires var t := TieOf(locators[u]); (t in owners ==> owners[t] == IdentityOf(locators[u])) && after == Admit(owners, t, IdentityOf(locators[u]))
    ensures OwnersSeen(seen + {u}, locators, after)
  {
    forall t <- after ensures exists v :: v in seen + {u} && v in locators && TieOf(locators[v]) == t && IdentityOf(locators[v]) == after[t] {
      if t in owners {
        var v :| v in seen && v in locators && TieOf(locators[v]) == t && IdentityOf(locators[v]) == owners[t];
        assert v in seen + {u};
      } else {
        assert u in seen + {u};
      }
    }
  }

  lemma {:induction false} CheckedStep(seen: set<Id>, locators: Locators, byIdentity: map<Identity, Locator>, owners: map<TieKey, Identity>, u: Id)
    requires Checked(seen, locators, byIdentity, owners) && u in locators
    requires var id := IdentityOf(locators[u]); id in byIdentity ==> byIdentity[id] == locators[u]
    requires var t := TieOf(locators[u]); t in owners ==> owners[t] == IdentityOf(locators[u])
    ensures Checked(seen + {u}, locators, Admit(byIdentity, IdentityOf(locators[u]), locators[u]),
                    Admit(owners, TieOf(locators[u]), IdentityOf(locators[u])))
  {
    LocatorsStep(seen, locators, byIdentity, u, Admit(byIdentity, IdentityOf(locators[u]), locators[u]));
    OwnersStep(seen, locators, owners, u, Admit(owners, TieOf(locators[u]), IdentityOf(locators[u])));
  }

  /** Two ranked units of one passage have different locators. */
  predicate LocatorsClash(units: set<Id>, locators: Locators) {
    exists u, v :: u in units && v in units && u in locators && v in locators && SamePassage(locators[u], locators[v]) && locators[u] != locators[v]
  }

  /** Two ranked units of different passages share document, path and start. */
  predicate TiesClash(units: set<Id>, locators: Locators) {
    exists u, v :: u in units && v in units && u in locators && v in locators
                   && locators[u].document == locators[v].document && locators[u].path == locators[v].path
                   && locators[u].start == locators[v].start && !SamePassage(locators[u], locators[v])
  }

  predicate Explains(fault: Fault, units: set<Id>, locators: Locators) {
    match fault
    case ConflictingLocators => LocatorsClash(units, locators)
    case SharedTieKey => TiesClash(units, locators)
    case _ => false
  }

  /** A clash with what was seen shows that the whole input is incoherent, and how. */
  lemma Clash(seen: set<Id>, all: set<Id>, locators: Locators, byIdentity: map<Identity, Locator>, owners: map<TieKey, Identity>, u: Id)
    requires Checked(seen, locators, byIdentity, owners) && seen <= all && u in all && u in locators
    requires var id := IdentityOf(locators[u]);
             (id in byIdentity && byIdentity[id] != locators[u]) || (TieOf(locators[u]) in owners && owners[TieOf(locators[u])] != id)
    ensures !Coherent(all, locators)
    ensures var id := IdentityOf(locators[u]);
            Explains(if id in byIdentity && byIdentity[id] != locators[u] then ConflictingLocators else SharedTieKey, all, locators)
  {
    var id := IdentityOf(locators[u]);
    if id in byIdentity && byIdentity[id] != locators[u] {
      var v :| v in seen && v in locators && locators[v] == byIdentity[id] && IdentityOf(locators[v]) == id;
      assert v in all;
    } else {
      var v :| v in seen && v in locators && TieOf(locators[v]) == TieOf(locators[u]) && IdentityOf(locators[v]) == owners[TieOf(locators[u])];
      assert v in all;
    }
  }

  // ----- one group becomes one hit -----

  method ScoreOf(group: map<Id, (nat, Id)>, k: nat) returns (score: real)
    requires 0 < k
    ensures score == Score(RanksIn(group), k)
  {
    var rest := RanksIn(group);
    score := 0.0;
    while rest != map[]
      invariant score + Score(rest, k) == Score(RanksIn(group), k)
      decreases |rest|
    {
      var route :| route in rest;
      ScoreRemove(rest, k, route);
      score := score + 1.0 / (k + rest[route]) as real;
      rest := rest - {route};
    }
  }

  method LeastUnit(group: map<Id, (nat, Id)>) returns (unit: Id)
    requires group != map[]
    ensures IsMin(unit, UnitsIn(group))
  {
    var first :| first in group;
    unit := group[first].1;
    var rest := group.Keys;
    while rest != {}
      invariant rest <= group.Keys && unit in UnitsIn(group)
      invariant forall route <- group :: route in rest || unit <= group[route].1
      decreases |rest|
    {
      var route :| route in rest;
      if group[route].1 < unit {
        unit := group[route].1;
      }
      rest := rest - {route};
    }
    assert forall u <- UnitsIn(group) :: unit <= u;
  }

  lemma {:induction false} InsertedSorted(hits: seq<Hit>, i: nat, h: Hit, r: seq<Hit>)
    requires Sorted(hits) && i <= |hits| && r == hits[..i] + [h] + hits[i..]
    requires forall j :: 0 <= j < i ==> Before(hits[j], h)
    requires forall j :: i <= j < |hits| ==> Before(h, hits[j])
    ensures Sorted(r)
  {
    forall a, b | 0 <= a < b < |r| ensures Before(r[a], r[b]) {
      var x, y := if a < i then a else a - 1, if b < i then b else b - 1;
      assert a != i ==> r[a] == hits[x];
      assert b != i ==> r[b] == hits[y];
    }
  }

  lemma {:induction false} InsertedHolds(hits: seq<Hit>, i: nat, h: Hit, r: seq<Hit>)
    requires i <= |hits| && r == hits[..i] + [h] + hits[i..]
    ensures forall x :: x in r <==> x in hits || x == h
  {
    assert hits == hits[..i] + hits[i..];
  }

  /** The place of a hit in a sorted list without its tie key. */
  method Insert(hits: seq<Hit>, h: Hit) returns (r: seq<Hit>)
    requires Sorted(hits) && forall x <- hits :: TieOf(x.locator) != TieOf(h.locator)
    ensures Sorted(r) && forall x :: x in r <==> x in hits || x == h
  {
    var i := 0;
    while i < |hits| && Before(hits[i], h)
      invariant 0 <= i <= |hits|
      invariant forall j :: 0 <= j < i ==> Before(hits[j], h)
    {
      i := i + 1;
    }
    forall j | i <= j < |hits| ensures Before(h, hits[j]) {
      assert hits[i] in hits && hits[j] in hits;
      BeforeOrder(hits[i], h);
      if i < j {
        BeforeTransitive(h, hits[i], hits[j]);
      }
    }
    r := hits[..i] + [h] + hits[i..];
    InsertedSorted(hits, i, h, r);
    InsertedHolds(hits, i, h, r);
  }

  // ----- the whole fusion -----

  function SeenUnits(rankings: seq<Ranking>, i: nat, j: nat): set<Id>
    requires i < |rankings| && j <= |rankings[i].units|
  {
    UnitsOf(rankings[..i]) + set u | u in rankings[i].units[..j]
  }

  lemma UnitsOfSnoc(rankings: seq<Ranking>, i: nat)
    requires i < |rankings|
    ensures UnitsOf(rankings[..i + 1]) == UnitsOf(rankings[..i]) + set u | u in rankings[i].units
    ensures UnitsOf(rankings[..i + 1]) <= UnitsOf(rankings)
  {
    assert rankings[..i + 1] == rankings[..i] + [rankings[i]];
    forall u | u in UnitsOf(rankings[..i + 1]) ensures u in UnitsOf(rankings[..i]) + (set u | u in rankings[i].units) && u in UnitsOf(rankings) {
      var r :| r in rankings[..i + 1] && u in r.units;
      assert r in rankings;
    }
    var both := UnitsOf(rankings[..i]) + set u | u in rankings[i].units;
    forall u <- both ensures u in UnitsOf(rankings[..i + 1]) {
      if u in UnitsOf(rankings[..i]) {
        var r :| r in rankings[..i] && u in r.units;
        assert r in rankings[..i + 1];
      } else {
        assert rankings[i] in rankings[..i + 1];
      }
    }
  }

  lemma SeenStep(rankings: seq<Ranking>, i: nat, j: nat)
    requires i < |rankings| && j < |rankings[i].units|
    ensures rankings[i].units[j] in UnitsOf(rankings) && SeenUnits(rankings, i, j) <= UnitsOf(rankings)
    ensures SeenUnits(rankings, i, j + 1) == SeenUnits(rankings, i, j) + {rankings[i].units[j]}
  {
    UnitsOfSnoc(rankings, i);
    assert rankings[i].units[..j + 1] == rankings[i].units[..j] + [rankings[i].units[j]];
  }

  lemma ReadNone(rankings: seq<Ranking>, locators: Locators, groups: Groups, i: nat)
    requires Located(rankings, locators) && i < |rankings| && Located(rankings[..i], locators)
    requires Grouped(groups, rankings[..i], locators)
    ensures Located(Read(rankings, i, 0), locators) && Grouped(groups, Read(rankings, i, 0), locators)
  {
    ReadLocated(rankings, locators, i, 0);
    forall id ensures RanksOf(Read(rankings, i, 0), locators, id) == RanksOf(rankings[..i], locators, id)
                      && BestUnits(Read(rankings, i, 0), locators, id) == BestUnits(rankings[..i], locators, id) {
      ReadRanks(rankings, locators, i, 0, id);
    }
  }

  lemma ReadAll(rankings: seq<Ranking>, i: nat)
    requires i < |rankings|
    ensures Read(rankings, i, |rankings[i].units|) == rankings[..i + 1]
  {
    assert rankings[i].units[..|rankings[i].units|] == rankings[i].units;
  }

  /** The groups, the locators and the tie owners after all rankings, or the clash met first. */
  method Group(rankings: seq<Ranking>, locators: Locators) returns (fault: Option<Fault>, groups: Groups, byIdentity: map<Identity, Locator>)
    requires Located(rankings, locators) && UniqueRoutes(rankings)
    ensures fault.Some? ==> Explains(fault.value, UnitsOf(rankings), locators) && !Coherent(UnitsOf(rankings), locators)
    ensures fault.None? ==>
      && Coherent(UnitsOf(rankings), locators) && Grouped(groups, rankings, locators)
      && forall u <- UnitsOf(rankings) :: IdentityOf(locators[u]) in byIdentity && byIdentity[IdentityOf(locators[u])] == locators[u]
  {
    fault, groups, byIdentity := None, map[], map[];
    var owners: map<TieKey, Identity> := map[];
    for i := 0 to |rankings|
      invariant fault == None && Located(rankings[..i], locators)
      invariant Grouped(groups, rankings[..i], locators)
      invariant Checked(UnitsOf(rankings[..i]), locators, byIdentity, owners)
    {
      ReadNone(rankings, locators, groups, i);
      UnitsOfSnoc(rankings, i);
      assert SeenUnits(rankings, i, 0) == UnitsOf(rankings[..i]);
      for j := 0 to |rankings[i].units|
        invariant fault == None
        invariant Located(Read(rankings, i, j), locators) && Grouped(groups, Read(rankings, i, j), locators)
        invariant Checked(SeenUnits(rankings, i, j), locators, byIdentity, owners)
      {
        fault, groups, byIdentity, owners := GroupUnit(rankings, locators, groups, byIdentity, owners, i, j);
        if fault.Some? {
          return;
        }
      }
      ReadAll(rankings, i);
      assert SeenUnits(rankings, i, |rankings[i].units|) == UnitsOf(rankings[..i + 1]);
    }
    assert rankings[..|rankings|] == rankings;
    CheckedIsCoherent(UnitsOf(rankings), locators, byIdentity, owners);
  }

  method GroupUnit(rankings: seq<Ranking>, locators: Locators, groups: Groups, byIdentity: map<Identity, Locator>, owners: map<TieKey, Identity>,
                   i: nat, j: nat)
    returns (fault: Option<Fault>, groups': Groups, byIdentity': map<Identity, Locator>, owners': map<TieKey, Identity>)
    requires Located(rankings, locators) && UniqueRoutes(rankings) && i < |rankings| && j < |rankings[i].units|
    requires Located(Read(rankings, i, j), locators) && Grouped(groups, Read(rankings, i, j), locators)
    requires Checked(SeenUnits(rankings, i, j), locators, byIdentity, owners)
    ensures fault.Some? ==> Explains(fault.value, UnitsOf(rankings), locators) && !Coherent(UnitsOf(rankings), locators)
    ensures fault.None? ==>
      && Located(Read(rankings, i, j + 1), locators) && Grouped(groups', Read(rankings, i, j + 1), locators)
      && Checked(SeenUnits(rankings, i, j + 1), locators, byIdentity', owners')
  {
    fault, groups', byIdentity', owners' := None, groups, byIdentity, owners;
    var unit := rankings[i].units[j];
    var locator := locators[unit];
    var id := IdentityOf(locator);
    SeenStep(rankings, i, j);
    ghost var seen := SeenUnits(rankings, i, j);
    if id in byIdentity && byIdentity[id] != locator {
      Clash(seen, UnitsOf(rankings), locators, byIdentity, owners, unit);
      fault := Some(ConflictingLocators);
      return;
    }
    if TieOf(locator) in owners && owners[TieOf(locator)] != id {
      Clash(seen, UnitsOf(rankings), locators, byIdentity, owners, unit);
      fault := Some(SharedTieKey);
      return;
    }
    CheckedStep(seen, locators, byIdentity, owners, unit);
    GroupedStep(rankings, locators, groups, i, j);
    byIdentity', owners' := Admit(byIdentity, id, locator), Admit(owners, TieOf(locator), id);
    groups' := WithUnit(groups, id, rankings[i].route, j + 1, unit);
  }

  lemma GroupUnits(rankings: seq<Ranking>, locators: Locators, id: Identity, unit: Id)
    requires Located(rankings, locators) && unit in BestUnits(rankings, locators, id)
    ensures unit in UnitsOf(rankings) && unit in locators && IdentityOf(locators[unit]) == id
  {
    BestUnitsMeans(rankings, locators, id);
    var r :| r in rankings && First(r.units, locators, id).Some? && First(r.units, locators, id).value < |r.units|
             && r.units[First(r.units, locators, id).value] == unit;
    FirstIs(r.units, locators, id);
    assert unit in r.units;
  }

  lemma GroupExists(rankings: seq<Ranking>, locators: Locators, groups: Groups, u: Id)
    requires Located(rankings, locators) && UniqueRoutes(rankings) && Grouped(groups, rankings, locators) && u in UnitsOf(rankings)
    ensures IdentityOf(locators[u]) in groups
  {
    var id := IdentityOf(locators[u]);
    var r :| r in rankings && u in r.units;
    FirstIs(r.units, locators, id);
    RanksOfMeans(rankings, locators, id);
    assert RanksIn(GroupOf(groups, id)) == RanksOf(rankings, locators, id);
    assert r.route in RanksIn(GroupOf(groups, id));
  }

  method HitOf(rankings: seq<Ranking>, locators: Locators, k: nat, groups: Groups, byIdentity: map<Identity, Locator>, id: Identity) returns (h: Hit)
    requires Located(rankings, locators) && 0 < k && Grouped(groups, rankings, locators) && id in groups
    requires forall u <- UnitsOf(rankings) :: IdentityOf(locators[u]) in byIdentity && byIdentity[IdentityOf(locators[u])] == locators[u]
    ensures HitFor(h, rankings, locators, k, id) && h.unit in UnitsOf(rankings)
  {
    assert RanksIn(GroupOf(groups, id)) == RanksOf(rankings, locators, id);
    assert UnitsIn(GroupOf(groups, id)) == BestUnits(rankings, locators, id);
    var score := ScoreOf(groups[id], k);
    var unit := LeastUnit(groups[id]);
    GroupUnits(rankings, locators, id, unit);
    var first :| first in groups[id];
    assert first in RanksIn(groups[id]);
    h := Hit(unit, score, RanksIn(groups[id]), byIdentity[id]);
  }

  lemma DifferentTies(rankings: seq<Ranking>, locators: Locators, x: Hit, h: Hit)
    requires Coherent(UnitsOf(rankings), locators) && x.unit in UnitsOf(rankings) && h.unit in UnitsOf(rankings)
    requires x.locator == locators[x.unit] && h.locator == locators[h.unit]
    requires IdentityOf(x.locator) != IdentityOf(h.locator)
    ensures TieOf(x.locator) != TieOf(h.locator)
  {
  }

  predicate OneCorpus(units: set<Id>, locators: Locators) {
    forall u, v :: u in units && v in units && u in locators && v in locators ==> locators[u].corpus == locators[v].corpus
  }

  /** Fuse route rankings: refused in the order of the checks, or the fused list. */
  method Fuse(rankings: seq<Ranking>, locators: Locators, k: nat) returns (r: Result<seq<Hit>>)
    requires 0 < k
    ensures rankings == [] ==> r == Err(NoRankings)
    ensures rankings != [] && !UniqueRoutes(rankings) ==> r == Err(DuplicateRoute)
    ensures rankings != [] && UniqueRoutes(rankings) && !Located(rankings, locators) ==> r == Err(NoLocator)
    ensures rankings != [] && UniqueRoutes(rankings) && Located(rankings, locators) && !OneCorpus(UnitsOf(rankings), locators) ==>
              r == Err(CrossCorpus)
    ensures rankings != [] && UniqueRoutes(rankings) && Located(rankings, locators) && OneCorpus(UnitsOf(rankings), locators) ==>
              && (r.Ok? <==> Coherent(UnitsOf(rankings), locators))
              && (r.Err? ==> Explains(r.fault, UnitsOf(rankings), locators))
              && (r.Ok? ==> Fused(r.value, rankings, locators, k))
  {
    if rankings == [] {
      return Err(NoRankings);
    }
    if !UniqueRoutes(rankings) {
      return Err(DuplicateRoute);
    }
    if !Located(rankings, locators) {
      return Err(NoLocator);
    }
    if !OneCorpus(UnitsOf(rankings), locators) {
      return Err(CrossCorpus);
    }
    var fault, groups, byIdentity := Group(rankings, locators);
    if fault.Some? {
      return Err(fault.value);
    }
    var hits := Collect(rankings, locators, k, groups, byIdentity);
    return Ok(hits);
  }

  /** The hits so far are those of the groups not left. */
  ghost predicate Collected(hits: seq<Hit>, rankings: seq<Ranking>, locators: Locators, k: nat, ids: set<Identity>, rest: set<Identity>)
    requires Located(rankings, locators) && 0 < k
  {
    && (forall h <- hits :: HitFor(h, rankings, locators, k, IdentityOf(h.locator)) && h.unit in UnitsOf(rankings)
                            && IdentityOf(h.locator) !in rest)
    && (forall id <- ids :: id in rest || exists h :: h in hits && IdentityOf(h.locator) == id)
  }

  lemma CollectedOneMore(hits: seq<Hit>, more: seq<Hit>, h: Hit, rankings: seq<Ranking>, locators: Locators, k: nat, ids: set<Identity>, rest: set<Identity>)
    requires Located(rankings, locators) && 0 < k && Collected(hits, rankings, locators, k, ids, rest)
    requires HitFor(h, rankings, locators, k, IdentityOf(h.locator)) && h.unit in UnitsOf(rankings)
    requires forall x :: x in more <==> x in hits || x == h
    ensures Collected(more, rankings, locators, k, ids, rest - {IdentityOf(h.locator)})
  {
    forall id <- ids | id !in rest - {IdentityOf(h.locator)} ensures exists x :: x in more && IdentityOf(x.locator) == id {
      if id in rest {
        assert h in more;
      } else {
        var x :| x in hits && IdentityOf(x.locator) == id;
        assert x in more;
      }
    }
  }

  /** One group's hit goes to its place. */
  method CollectOne(rankings: seq<Ranking>, locators: Locators, k: nat, groups: Groups, byIdentity: map<Identity, Locator>,
                    hits: seq<Hit>, ghost rest: set<Identity>, id: Identity)
    returns (more: seq<Hit>)
    requires 0 < k && Located(rankings, locators) && UniqueRoutes(rankings)
    requires Coherent(UnitsOf(rankings), locators) && Grouped(groups, rankings, locators)
    requires forall u <- UnitsOf(rankings) :: IdentityOf(locators[u]) in byIdentity && byIdentity[IdentityOf(locators[u])] == locators[u]
    requires id in groups && id in rest && Sorted(hits) && Collected(hits, rankings, locators, k, groups.Keys, rest)
    ensures Sorted(more) && Collected(more, rankings, locators, k, groups.Keys, rest - {id})
  {
    var h := HitOf(rankings, locators, k, groups, byIdentity, id);
    forall x <- hits ensures TieOf(x.locator) != TieOf(h.locator) {
      DifferentTies(rankings, locators, x, h);
    }
    more := Insert(hits, h);
    CollectedOneMore(hits, more, h, rankings, locators, k, groups.Keys, rest);
  }

  lemma CollectedIsFused(hits: seq<Hit>, rankings: seq<Ranking>, locators: Locators, k: nat, groups: Groups)
    requires 0 < k && Located(rankings, locators) && UniqueRoutes(rankings) && Grouped(groups, rankings, locators)
    requires Sorted(hits) && Collected(hits, rankings, locators, k, groups.Keys, {})
    ensures Fused(hits, rankings, locators, k)
  {
    forall u <- UnitsOf(rankings) ensures exists h :: h in hits && IdentityOf(h.locator) == IdentityOf(locators[u]) {
      GroupExists(rankings, locators, groups, u);
    }
  }

  method Collect(rankings: seq<Ranking>, locators: Locators, k: nat, groups: Groups, byIdentity: map<Identity, Locator>) returns (hits: seq<Hit>)
    requires 0 < k && Located(rankings, locators) && UniqueRoutes(rankings)
    requires Coherent(UnitsOf(rankings), locators) && Grouped(groups, rankings, locators)
    requires forall u <- UnitsOf(rankings) :: IdentityOf(locators[u]) in byIdentity && byIdentity[IdentityOf(locators[u])] == locators[u]
    ensures Fused(hits, rankings, locators, k)
  {
    hits := [];
    var rest := groups.Keys;
    while rest != {}
      invariant rest <= groups.Keys && Sorted(hits) && Collected(hits, rankings, locators, k, groups.Keys, rest)
      decreases |rest|
    {
      var id :| id in rest;
      hits := CollectOne(rankings, locators, k, groups, byIdentity, hits, rest, id);
      rest := rest - {id};
    }
    CollectedIsFused(hits, rankings, locators, k, groups);
  }
}
