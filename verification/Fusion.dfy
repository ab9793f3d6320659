/** Reciprocal rank fusion: what the fused list is, whatever order the routes come in. */
module Fusion {
  import opened Basics

  // ----- locators and their orders -----

  datatype Locator = Locator(corpus: Id, document: Id, clause: Id, span: Option<(nat, nat)>, path: seq<int>, start: nat)
  datatype Identity = Identity(corpus: Id, document: Id, clause: Id, span: Option<(nat, nat)>)
  datatype TieKey = TieKey(document: Id, path: seq<int>, start: nat)

  function IdentityOf(l: Locator): Identity {
    Identity(l.corpus, l.document, l.clause, l.span)
  }

  function TieOf(l: Locator): TieKey {
    TieKey(l.document, l.path, l.start)
  }

  predicate PathLess(a: seq<int>, b: seq<int>) {
    if b == [] then false
    else if a == [] then true
    else a[0] < b[0] || (a[0] == b[0] && PathLess(a[1..], b[1..]))
  }

  predicate TieLess(a: TieKey, b: TieKey) {
    || a.document < b.document
    || (a.document == b.document && PathLess(a.path, b.path))
    || (a.document == b.document && a.path == b.path && a.start < b.start)
  }

  lemma {:induction false} PathOrder(a: seq<int>, b: seq<int>)
    ensures !(PathLess(a, b) && PathLess(b, a)) && !PathLess(a, a)
    ensures PathLess(a, b) || PathLess(b, a) || a == b
  {
    if a != [] && b != [] {
      PathOrder(a[1..], b[1..]);
      PathOrder(a[1..], a[1..]);
      assert a == [a[0]] + a[1..] && b == [b[0]] + b[1..];
    } else if a != [] {
      PathOrder(a[1..], a[1..]);
    }
  }

  lemma {:induction false} PathTransitive(a: seq<int>, b: seq<int>, c: seq<int>)
    requires PathLess(a, b) && PathLess(b, c)
    ensures PathLess(a, c)
  {
    if a != [] && a[0] == b[0] == c[0] {
      PathTransitive(a[1..], b[1..], c[1..]);
    }
  }

  // ----- rankings and hits -----

  datatype Ranking = Ranking(route: Id, units: seq<Id>)
  datatype Hit = Hit(unit: Id, score: real, ranks: map<Id, nat>, locator: Locator)

  /** Higher scores first, then the smaller tie key. */
  predicate Before(a: Hit, b: Hit) {
    a.score > b.score || (a.score == b.score && TieLess(TieOf(a.locator), TieOf(b.locator)))
  }

  lemma BeforeOrder(a: Hit, b: Hit)
    ensures !(Before(a, b) && Before(b, a)) && !Before(a, a)
    ensures Before(a, b) || Before(b, a) || TieOf(a.locator) == TieOf(b.locator)
  {
    PathOrder(a.locator.path, b.locator.path);
    PathOrder(a.locator.path, a.locator.path);
  }

  lemma BeforeTransitive(a: Hit, b: Hit, c: Hit)
    requires Before(a, b) && Before(b, c)
    ensures Before(a, c)
  {
    if PathLess(a.locator.path, b.locator.path) && PathLess(b.locator.path, c.locator.path) {
      PathTransitive(a.locator.path, b.locator.path, c.locator.path);
    }
  }

  ghost predicate Sorted(hits: seq<Hit>) {
    forall i, j :: 0 <= i < j < |hits| ==> Before(hits[i], hits[j])
  }

  type Locators = map<Id, Locator>

  predicate Located(rankings: seq<Ranking>, locators: Locators) {
    forall r <- rankings :: forall u <- r.units :: u in locators
  }

  /** The first position at which a ranking lists an identity. */
  function First(units: seq<Id>, locators: Locators, id: Identity): Option<nat>
    requires forall u <- units :: u in locators
  {
    if units == [] then None else
      var n := |units| - 1;
      var earlier := First(units[..n], locators, id);
      if earlier.Some? then earlier
      else if IdentityOf(locators[units[n]]) == id then Some(n) else None
  }

  lemma {:induction false} FirstIs(units: seq<Id>, locators: Locators, id: Identity)
    requires forall u <- units :: u in locators
    ensures First(units, locators, id).None? ==> forall u <- units :: IdentityOf(locators[u]) != id
    ensures First(units, locators, id).Some? ==>
              var p := First(units, locators, id).value;
              p < |units| && IdentityOf(locators[units[p]]) == id && forall i :: 0 <= i < p ==> IdentityOf(locators[units[i]]) != id
  {
    if units != [] {
      var n := |units| - 1;
      FirstIs(units[..n], locators, id);
      assert units == units[..n] + [units[n]];
    }
  }

  predicate UniqueRoutes(rankings: seq<Ranking>) {
    forall i, j :: 0 <= i < |rankings| && i < j < |rankings| ==> rankings[i].route != rankings[j].route
  }

  /** Identities share a locator exactly when they are equal, and tie keys an identity. */
  predicate Coherent(units: set<Id>, locators: Locators) {
    && (forall u <- units :: u in locators)
    && (forall u, v :: u in units && v in units && IdentityOf(locators[u]) == IdentityOf(locators[v]) ==> locators[u] == locators[v])
    && (forall u, v :: u in units && v in units && TieOf(locators[u]) == TieOf(locators[v]) ==>
          IdentityOf(locators[u]) == IdentityOf(locators[v]))
  }

  function UnitsOf(rankings: seq<Ranking>): set<Id> {
    set r, u | r in rankings && u in r.units :: u
  }

  // ----- what one identity's hit is -----

  /** The best rank each route gives an identity. */
  function RanksOf(rankings: seq<Ranking>, locators: Locators, id: Identity): map<Id, nat>
    requires Located(rankings, locators)
  {
    if rankings == [] then map[] else
      var n := |rankings| - 1;
      var earlier := RanksOf(rankings[..n], locators, id);
      var p := First(rankings[n].units, locators, id);
      if p.Some? then earlier[rankings[n].route := p.value + 1] else earlier
  }

  /** The units that stand for an identity at its best rank in each route. */
  function BestUnits(rankings: seq<Ranking>, locators: Locators, id: Identity): set<Id>
    requires Located(rankings, locators)
  {
    if rankings == [] then {} else
      var n := |rankings| - 1;
      var p := First(rankings[n].units, locators, id);
      FirstIs(rankings[n].units, locators, id);
      BestUnits(rankings[..n], locators, id) + if p.Some? then {rankings[n].units[p.value]} else {}
  }

  ghost function Pick<T>(s: set<T>): T
    requires s != {}
  {
    var x :| x in s; x
  }

  /** The sum of 1/(k+rank) over the routes, in no particular order. */
  ghost function Score(ranks: map<Id, nat>, k: nat): real
    requires 0 < k
    decreases |ranks|
  {
    if ranks == map[] then 0.0 else
      var route := Pick(ranks.Keys);
      1.0 / (k + ranks[route]) as real + Score(ranks - {route}, k)
  }

  lemma {:induction false} ScoreRemove(ranks: map<Id, nat>, k: nat, route: Id)
    requires 0 < k && route in ranks
    ensures Score(ranks, k) == 1.0 / (k + ranks[route]) as real + Score(ranks - {route}, k)
    decreases |ranks|
  {
    var p := Pick(ranks.Keys);
    if p != route {
      ScoreRemove(ranks - {p}, k, route);
      ScoreRemove(ranks - {route}, k, p);
      assert (ranks - {p}) - {route} == (ranks - {route}) - {p};
    }
  }

  lemma Reciprocal(a: nat, b: nat)
    requires 0 < a < b
    ensures 1.0 / a as real > 1.0 / b as real > 0.0
  {
    assert (b as real) * (1.0 / b as real) == 1.0;
    assert (a as real) * (1.0 / a as real) == 1.0;
  }

  lemma Positive(a: nat)
    requires 0 < a
    ensures 1.0 / a as real > 0.0
  {
    Reciprocal(a, a + 1);
  }

  lemma {:induction false} ScorePositive(ranks: map<Id, nat>, k: nat)
    requires 0 < k
    ensures Score(ranks, k) >= 0.0 && (ranks != map[] ==> Score(ranks, k) > 0.0)
    decreases |ranks|
  {
    if ranks != map[] {
      var p := Pick(ranks.Keys);
      Positive(k + ranks[p]);
      ScorePositive(ranks - {p}, k);
    }
  }

  /** Ranked strictly better wherever the other appears: a strictly higher score. */
  lemma {:induction false} BetterScores(a: map<Id, nat>, b: map<Id, nat>, k: nat)
    requires 0 < k && b != map[]
    requires forall route <- b :: route in a && a[route] < b[route]
    ensures Score(a, k) > Score(b, k)
    decreases |b|
  {
    var p := Pick(b.Keys);
    ScoreRemove(a, k, p);
    Reciprocal(k + a[p], k + b[p]);
    if b - {p} == map[] {
      ScorePositive(a - {p}, k);
    } else {
      BetterScores(a - {p}, b - {p}, k);
    }
  }

  ghost predicate IsMin(x: Id, s: set<Id>) {
    x in s && forall y <- s :: x <= y
  }

  /** The one hit of an identity: its best rank per route, their score, the least of the units
      that held those ranks, and the identity's locator. */
  ghost predicate HitFor(h: Hit, rankings: seq<Ranking>, locators: Locators, k: nat, id: Identity)
    requires Located(rankings, locators) && 0 < k
  {
    && h.ranks == RanksOf(rankings, locators, id) && h.ranks != map[]
    && h.score == Score(h.ranks, k)
    && IsMin(h.unit, BestUnits(rankings, locators, id))
    && h.unit in locators && h.locator == locators[h.unit] && IdentityOf(h.locator) == id
  }

  /** The fused list: one hit per ranked identity, in strict order. */
  ghost predicate Fused(hits: seq<Hit>, rankings: seq<Ranking>, locators: Locators, k: nat)
    requires Located(rankings, locators) && 0 < k
  {
    && Sorted(hits)
    && (forall h <- hits :: HitFor(h, rankings, locators, k, IdentityOf(h.locator)))
    && (forall u <- UnitsOf(rankings) :: exists h :: h in hits && IdentityOf(h.locator) == IdentityOf(locators[u]))
  }

  // ----- the list does not depend on the order of the routes -----

  lemma {:induction false} RanksOfMeans(rankings: seq<Ranking>, locators: Locators, id: Identity)
    requires Located(rankings, locators) && UniqueRoutes(rankings)
    ensures forall r <- rankings :: First(r.units, locators, id).Some? ==>
              r.route in RanksOf(rankings, locators, id) && RanksOf(rankings, locators, id)[r.route] == First(r.units, locators, id).value + 1
    ensures forall route <- RanksOf(rankings, locators, id) ::
              exists r :: r in rankings && r.route == route && First(r.units, locators, id).Some?
  {
    if rankings != [] {
      var n := |rankings| - 1;
      RanksOfMeans(rankings[..n], locators, id);
      assert rankings == rankings[..n] + [rankings[n]];
    }
  }

  lemma {:induction false} BestUnitsMeans(rankings: seq<Ranking>, locators: Locators, id: Identity)
    requires Located(rankings, locators)
    ensures forall u :: u in BestUnits(rankings, locators, id) <==>
              exists r :: r in rankings && First(r.units, locators, id).Some? && First(r.units, locators, id).value < |r.units|
                          && r.units[First(r.units, locators, id).value] == u
  {
    if rankings != [] {
      var n := |rankings| - 1;
      BestUnitsMeans(rankings[..n], locators, id);
      FirstIs(rankings[n].units, locators, id);
      assert rankings == rankings[..n] + [rankings[n]];
    }
  }

  lemma SameRanks(a: seq<Ranking>, b: seq<Ranking>, locators: Locators, id: Identity)
    requires Located(a, locators) && Located(b, locators) && UniqueRoutes(a) && UniqueRoutes(b)
    requires forall r :: r in a <==> r in b
    ensures RanksOf(a, locators, id) == RanksOf(b, locators, id)
    ensures BestUnits(a, locators, id) == BestUnits(b, locators, id)
  {
    RanksOfMeans(a, locators, id);
    RanksOfMeans(b, locators, id);
    BestUnitsMeans(a, locators, id);
    BestUnitsMeans(b, locators, id);
  }

  lemma SameHits(x: Hit, y: Hit, a: seq<Ranking>, b: seq<Ranking>, locators: Locators, k: nat)
    requires Located(a, locators) && Located(b, locators) && UniqueRoutes(a) && UniqueRoutes(b) && 0 < k
    requires forall r :: r in a <==> r in b
    requires IdentityOf(x.locator) == IdentityOf(y.locator)
    requires HitFor(x, a, locators, k, IdentityOf(x.locator)) && HitFor(y, b, locators, k, IdentityOf(y.locator))
    ensures x == y
  {
    SameRanks(a, b, locators, IdentityOf(x.locator));
  }

  lemma HitMembers(xs: seq<Hit>, ys: seq<Hit>, a: seq<Ranking>, b: seq<Ranking>, locators: Locators, k: nat, x: Hit)
    requires Located(a, locators) && Located(b, locators) && UniqueRoutes(a) && UniqueRoutes(b) && 0 < k
    requires forall r :: r in a <==> r in b
    requires Fused(xs, a, locators, k) && Fused(ys, b, locators, k) && x in xs
    ensures x in ys
  {
    var id := IdentityOf(x.locator);
    BestUnitsMeans(a, locators, id);
    var r :| r in a && First(r.units, locators, id).Some? && First(r.units, locators, id).value < |r.units|
             && r.units[First(r.units, locators, id).value] == x.unit;
    assert r in b && x.unit in r.units && x.unit in UnitsOf(b);
    var y :| y in ys && IdentityOf(y.locator) == id;
    SameHits(x, y, a, b, locators, k);
  }

  lemma InTail(hits: seq<Hit>, h: Hit)
    requires Sorted(hits) && hits != []
    ensures h in hits[1..] <==> h in hits && h != hits[0]
  {
    BeforeOrder(h, h);
    if h in hits[1..] {
      var i :| 0 <= i < |hits| - 1 && hits[1..][i] == h;
      assert Before(hits[0], hits[i + 1]);
    }
    assert hits == [hits[0]] + hits[1..];
  }

  lemma {:induction false} SortedUnique(xs: seq<Hit>, ys: seq<Hit>)
    requires Sorted(xs) && Sorted(ys) && forall h :: h in xs <==> h in ys
    ensures xs == ys
    decreases |xs|
  {
    if xs != [] {
      assert xs[0] in ys;
      assert ys[0] in xs;
      var i :| 0 <= i < |ys| && ys[i] == xs[0];
      var j :| 0 <= j < |xs| && xs[j] == ys[0];
      BeforeOrder(xs[0], ys[0]);
      assert i == 0;
      forall h ensures h in xs[1..] <==> h in ys[1..] {
        InTail(xs, h);
        InTail(ys, h);
      }
      SortedUnique(xs[1..], ys[1..]);
      assert xs == [xs[0]] + xs[1..] && ys == [ys[0]] + ys[1..];
    } else {
      HasMember(ys);
    }
  }

  lemma HasMember(hits: seq<Hit>)
    ensures hits != [] ==> exists h :: h in hits
  {
    if hits != [] {
      assert hits[0] in hits;
    }
  }

  /** The fused list is a function of the set of rankings: the order in which the routes are
      given does not matter. */
  lemma RouteOrderIsIrrelevant(xs: seq<Hit>, ys: seq<Hit>, a: seq<Ranking>, b: seq<Ranking>, locators: Locators, k: nat)
    requires Located(a, locators) && Located(b, locators) && UniqueRoutes(a) && UniqueRoutes(b) && 0 < k
    requires forall r :: r in a <==> r in b
    requires Fused(xs, a, locators, k) && Fused(ys, b, locators, k)
    ensures xs == ys
  {
    forall h ensures h in xs <==> h in ys {
      if h in xs {
        HitMembers(xs, ys, a, b, locators, k, h);
      }
      if h in ys {
        HitMembers(ys, xs, b, a, locators, k, h);
      }
    }
    SortedUnique(xs, ys);
  }

  /** No identity is listed twice. */
  lemma OneHitEach(hits: seq<Hit>, rankings: seq<Ranking>, locators: Locators, k: nat, i: nat, j: nat)
    requires Located(rankings, locators) && UniqueRoutes(rankings) && 0 < k
    requires Fused(hits, rankings, locators, k) && i < |hits| && j < |hits|
    requires IdentityOf(hits[i].locator) == IdentityOf(hits[j].locator)
    ensures i == j
  {
    SameHits(hits[i], hits[j], rankings, rankings, locators, k);
    BeforeOrder(hits[i], hits[i]);
  }

  /** An identity ranked strictly better than another in every route that lists the other
      comes before it. */
  lemma DominanceDecides(hits: seq<Hit>, rankings: seq<Ranking>, locators: Locators, k: nat, i: nat, j: nat)
    requires Located(rankings, locators) && 0 < k && Fused(hits, rankings, locators, k) && i < |hits| && j < |hits|
    requires forall route <- hits[j].ranks :: route in hits[i].ranks && hits[i].ranks[route] < hits[j].ranks[route]
    ensures i < j
  {
    BetterScores(hits[i].ranks, hits[j].ranks, k);
    ScoresFall(hits, j, i);
  }

  lemma ScoresFall(hits: seq<Hit>, i: nat, j: nat)
    requires Sorted(hits) && i < |hits| && j < |hits|
    ensures i <= j ==> hits[i].score >= hits[j].score
  {
    if i < j {
      assert Before(hits[i], hits[j]);
    }
  }

  // ----- what the fused list says of its rankings -----

  /** The same passage: corpus, document, clause and span. */
  predicate SamePassage(a: Locator, b: Locator) {
    a.corpus == b.corpus && a.document == b.document && a.clause == b.clause && a.span == b.span
  }

  /** At the first place where the paths differ the smaller number, or the end, comes first. */
  predicate PathEarlier(a: seq<int>, b: seq<int>) {
    exists k :: 0 <= k <= |a| && k < |b| && a[..k] == b[..k] && (k == |a| || a[k] < b[k])
  }

  predicate LocatorEarlier(a: Locator, b: Locator) {
    || a.document < b.document
    || (a.document == b.document && PathEarlier(a.path, b.path))
    || (a.document == b.document && a.path == b.path && a.start < b.start)
  }

  lemma {:induction false} PathLessMeans(a: seq<int>, b: seq<int>)
    ensures PathLess(a, b) <==> PathEarlier(a, b)
  {
    if a == [] && b != [] {
      assert a[..0] == b[..0];
    } else if a != [] && b != [] {
      PathLessMeans(a[1..], b[1..]);
      if a[0] < b[0] {
        assert a[..0] == b[..0];
      } else if a[0] == b[0] && PathEarlier(a[1..], b[1..]) {
        var k :| 0 <= k <= |a| - 1 && k < |b| - 1 && a[1..][..k] == b[1..][..k] && (k == |a| - 1 || a[1..][k] < b[1..][k]);
        assert a[..k + 1] == [a[0]] + a[1..][..k] && b[..k + 1] == [b[0]] + b[1..][..k];
      }
      if PathEarlier(a, b) {
        var k :| 0 <= k <= |a| && k < |b| && a[..k] == b[..k] && (k == |a| || a[k] < b[k]);
        if k > 0 {
          assert a[..k][0] == b[..k][0];
          assert a[1..][..k - 1] == a[..k][1..] && b[1..][..k - 1] == b[..k][1..];
        }
      }
    }
  }

  /** Higher scores come first; at equal scores the lower document, then clause path, then
      start. */
  lemma BeforeExactly(a: Hit, b: Hit)
    ensures Before(a, b) <==> a.score > b.score || (a.score == b.score && LocatorEarlier(a.locator, b.locator))
  {
    PathLessMeans(a.locator.path, b.locator.path);
  }

  /** Locators are coherent exactly when those of one passage are equal and those that share
      document, path and start are of one passage. */
  lemma CoherentExactly(units: set<Id>, locators: Locators)
    ensures Coherent(units, locators) <==>
            && (forall u <- units :: u in locators)
            && (forall u, v :: u in units && v in units && SamePassage(locators[u], locators[v]) ==> locators[u] == locators[v])
            && (forall u, v :: u in units && v in units && locators[u].document == locators[v].document
                               && locators[u].path == locators[v].path && locators[u].start == locators[v].start ==>
                  SamePassage(locators[u], locators[v]))
  {
  }

  /** The ranking lists the passage at this position and not earlier. */
  predicate FirstAt(units: seq<Id>, locators: Locators, l: Locator, p: nat) {
    && p < |units| && units[p] in locators && SamePassage(locators[units[p]], l)
    && forall i :: 0 <= i < p && units[i] in locators ==> !SamePassage(locators[units[i]], l)
  }

  predicate Lists(units: seq<Id>, locators: Locators, l: Locator) {
    exists u <- units :: u in locators && SamePassage(locators[u], l)
  }

  lemma FirstMeans(units: seq<Id>, locators: Locators, l: Locator)
    requires forall u <- units :: u in locators
    ensures Lists(units, locators, l) <==> First(units, locators, IdentityOf(l)).Some?
    ensures forall p: nat :: FirstAt(units, locators, l, p) <==> First(units, locators, IdentityOf(l)) == Some(p)
  {
    FirstIs(units, locators, IdentityOf(l));
    forall p: nat ensures FirstAt(units, locators, l, p) <==> First(units, locators, IdentityOf(l)) == Some(p) {
    }
  }

  /** What one ranking says of a passage, in the ranks and units of the whole. */
  lemma RankingTells(rankings: seq<Ranking>, locators: Locators, l: Locator, r: Ranking, ranks: map<Id, nat>)
    requires Located(rankings, locators) && UniqueRoutes(rankings) && r in rankings && ranks == RanksOf(rankings, locators, IdentityOf(l))
    ensures r.route in ranks <==> Lists(r.units, locators, l)
    ensures r.route in ranks ==> 0 < ranks[r.route] <= |r.units| && FirstAt(r.units, locators, l, ranks[r.route] - 1)
    ensures r.route in ranks ==> r.units[ranks[r.route] - 1] in BestUnits(rankings, locators, IdentityOf(l))
  {
    var id := IdentityOf(l);
    FirstMeans(r.units, locators, l);
    FirstIs(r.units, locators, id);
    if First(r.units, locators, id).Some? {
      RanksOfMeans(rankings, locators, id);
      BestUnitsMeans(rankings, locators, id);
    } else if r.route in ranks {
      OneRankingEach(rankings, r, locators, id);
    }
  }

  lemma UnitHoldsRank(rankings: seq<Ranking>, locators: Locators, id: Identity, unit: Id, ranks: map<Id, nat>) returns (r: Ranking)
    requires Located(rankings, locators) && UniqueRoutes(rankings) && unit in BestUnits(rankings, locators, id)
    requires ranks == RanksOf(rankings, locators, id)
    ensures r in rankings && r.route in ranks && 0 < ranks[r.route] <= |r.units| && r.units[ranks[r.route] - 1] == unit
  {
    RanksOfMeans(rankings, locators, id);
    BestUnitsMeans(rankings, locators, id);
    r :| r in rankings && First(r.units, locators, id).Some? && First(r.units, locators, id).value < |r.units|
         && r.units[First(r.units, locators, id).value] == unit;
  }

  /** Each hit of a fused list: a route ranks it exactly when it lists the passage, and then by the
      first place where it does; its unit is the least of those that hold these places; and its
      locator is that unit's. */
  lemma HitsTellRanks(hits: seq<Hit>, rankings: seq<Ranking>, locators: Locators, k: nat, h: Hit) returns (at: Ranking)
    requires Located(rankings, locators) && UniqueRoutes(rankings) && 0 < k && Fused(hits, rankings, locators, k) && h in hits
    ensures h.unit in locators && h.locator == locators[h.unit]
    ensures forall r <- rankings :: r.route in h.ranks <==> Lists(r.units, locators, h.locator)
    ensures forall r <- rankings :: r.route in h.ranks ==>
              0 < h.ranks[r.route] <= |r.units| && FirstAt(r.units, locators, h.locator, h.ranks[r.route] - 1) && h.unit <= r.units[h.ranks[r.route] - 1]
    ensures at in rankings && at.route in h.ranks && 0 < h.ranks[at.route] <= |at.units| && at.units[h.ranks[at.route] - 1] == h.unit
  {
    forall r <- rankings
      ensures r.route in h.ranks <==> Lists(r.units, locators, h.locator)
      ensures r.route in h.ranks ==> 0 < h.ranks[r.route] <= |r.units| && FirstAt(r.units, locators, h.locator, h.ranks[r.route] - 1)
                                     && h.unit <= r.units[h.ranks[r.route] - 1] {
      RankingTells(rankings, locators, h.locator, r, h.ranks);
    }
    at := UnitHoldsRank(rankings, locators, IdentityOf(h.locator), h.unit, h.ranks);
  }

  lemma OneRankingEach(rankings: seq<Ranking>, r: Ranking, locators: Locators, id: Identity)
    requires Located(rankings, locators) && UniqueRoutes(rankings) && r in rankings && r.route in RanksOf(rankings, locators, id)
    ensures First(r.units, locators, id).Some?
  {
    RanksOfMeans(rankings, locators, id);
    var q :| q in rankings && q.route == r.route && First(q.units, locators, id).Some?;
    var i :| 0 <= i < |rankings| && rankings[i] == q;
    var j :| 0 <= j < |rankings| && rankings[j] == r;
    assert i == j;
  }

  /** Every ranked unit's passage is in the list, at one place only. */
  lemma EachPassageOnce(hits: seq<Hit>, rankings: seq<Ranking>, locators: Locators, k: nat, r: Ranking, u: Id)
    requires Located(rankings, locators) && UniqueRoutes(rankings) && 0 < k && Fused(hits, rankings, locators, k)
    requires r in rankings && u in r.units
    ensures exists i :: 0 <= i < |hits| && SamePassage(hits[i].locator, locators[u])
    ensures forall i, j :: 0 <= i < |hits| && 0 <= j < |hits| && SamePassage(hits[i].locator, hits[j].locator) ==> i == j
  {
    assert u in UnitsOf(rankings);
    var h :| h in hits && IdentityOf(h.locator) == IdentityOf(locators[u]);
    var i :| 0 <= i < |hits| && hits[i] == h;
    forall i, j | 0 <= i < |hits| && 0 <= j < |hits| && SamePassage(hits[i].locator, hits[j].locator) ensures i == j {
      OneHitEach(hits, rankings, locators, k, i, j);
    }
  }

  /** A hit's score is the sum of 1/(k + rank): nothing without ranks, and one term for each route
      that ranks it. */
  lemma ScoreAdds(ranks: map<Id, nat>, k: nat, route: Id, rank: nat)
    requires 0 < k && route !in ranks
    ensures Score(map[], k) == 0.0
    ensures Score(ranks[route := rank], k) == Score(ranks, k) + 1.0 / (k + rank) as real
  {
    ScoreRemove(ranks[route := rank], k, route);
    assert ranks[route := rank] - {route} == ranks;
  }
}
