/** The loops that update one account of a snapshot, proved against the flat account it
    represents. */
module AccountUpdates {
  import opened Basics
  import opened Sequences
  import opened EgressContracts
  import opened Accounts
  import opened OrderIndependence
  import opened ScopeInvariants
  import opened Snapshots
  import Maps

  function Outcome<T>(r: Result<T>): Option<Code> {
    if r.Err? then Some(r.code) else None
  }

  // ----- one account -----

  method OrderedUnion(first: seq<DisclosureId>, second: seq<DisclosureId>) returns (r: seq<DisclosureId>)
    ensures r == Union(first, second)
    ensures first <= r && (forall id :: id in r <==> id in first || id in second) && (Distinct(first) ==> Distinct(r))
    ensures forall i, j :: |first| <= i < j < |r| ==> MetBefore(second, r[i], r[j])
  {
    r := first;
    var seen := set i | i in first;
    for n := 0 to |second|
      invariant r == Union(first, second[..n])
      invariant forall i :: i in seen <==> i in r
    {
      assert second[..n+1][..n] == second[..n];
      if second[n] !in seen {
        r := r + [second[n]];
        seen := seen + {second[n]};
      }
    }
    assert second[..|second|] == second;
    UnionProperties(first, second);
    UnionOrder(first, second);
  }

  /** The corpus and document loop: a disclosure weighs only when it is first seen. */
  method CountUnseen(u: UniqueUsage, facts: seq<Fact>, ghost p: Priced) returns (r: UniqueUsage)
    requires Holds(u, p)
    ensures Holds(r, Price(facts) + p)
    ensures r.ids == Union(u.ids, IdsOf(facts))
  {
    var known := set i | i in u.ids;
    var tokens, bytes := u.tokens, u.bytes;
    assert Price(facts[..0]) + p == p;
    for n := 0 to |facts|
      invariant forall i :: i in known <==> i in Price(facts[..n]) + p
      invariant tokens == UniqueTokens(Price(facts[..n]) + p) && bytes == UniqueBytes(Price(facts[..n]) + p)
    {
      var f := facts[n];
      ghost var sofar := Price(facts[..n]) + p;
      assert facts[..n+1] == facts[..n] + [f];
      OverlaySnoc(facts[..n], f, p);
      if f.id !in known {
        known := known + {f.id};
        tokens := tokens + f.size.tokens;
        bytes := bytes + f.size.bytes;
        AddOne(sofar, f.id, f.size);
      }
    }
    assert facts[..|facts|] == facts;
    var ids := OrderedUnion(u.ids, IdsOf(facts));
    UnionLists(u.ids, p, facts);
    r := UniqueUsage(ids, tokens, bytes);
  }

  /** The other accounts add their ids again from the root's facts. */
  method Recount(u: UniqueUsage, facts: seq<Fact>, merged: Priced, ghost p: Priced) returns (r: UniqueUsage)
    requires Holds(u, p) && SubMap(Price(facts) + p, merged)
    ensures Holds(r, Price(facts) + p)
    ensures r.ids == Union(u.ids, IdsOf(facts))
  {
    var ids := OrderedUnion(u.ids, IdsOf(facts));
    UnionLists(u.ids, p, facts);
    assert forall i <- ids :: i in merged;
    var sums := SizeSums(ids, merged);
    SizeSumsAreTotals(ids, Price(facts) + p, merged);
    r := UniqueUsage(ids, sums.0, sums.1);
  }

  function CheckUnique(u: UniqueUsage, cap: Cap, scope: Scope): Option<Code> {
    if |u.ids| > cap.excerpts then Some(UniqueExceeded(scope, Excerpts))
    else if u.tokens > cap.tokens then Some(UniqueExceeded(scope, Tokens))
    else if u.bytes > cap.bytes then Some(UniqueExceeded(scope, Bytes))
    else None
  }

  lemma CheckUniqueDecides(u: UniqueUsage, p: Priced, cap: Cap, scope: Scope)
    requires Holds(u, p)
    ensures CheckUnique(u, cap, scope) == UniqueFault(p, cap, scope)
  {
    DistinctCount(u.ids, p);
  }

  /** Recount one account and check it against its cap. */
  method RecountWithin(u: UniqueUsage, facts: seq<Fact>, merged: Priced, cap: Cap, scope: Scope, ghost p: Priced)
    returns (r: Result<UniqueUsage>)
    requires Holds(u, p) && SubMap(Price(facts) + p, merged)
    ensures Outcome(r) == UniqueFault(Price(facts) + p, cap, scope)
    ensures r.Ok? ==> Holds(r.value, Price(facts) + p)
  {
    var unique := Recount(u, facts, merged, p);
    CheckUniqueDecides(unique, Price(facts) + p, cap, scope);
    var fault := CheckUnique(unique, cap, scope);
    r := if fault.Some? then Err(fault.value) else Ok(unique);
  }

  // ----- the merged facts of the root -----

  lemma ListedIds(facts: seq<Fact>, i: DisclosureId)
    ensures i in IdsOf(facts) <==> i in Price(facts)
  {
    PriceIsFirstSize(facts);
    if i in IdsOf(facts) {
      var j :| 0 <= j < |facts| && facts[j].id == i;
      assert facts[j] in facts;
    }
    if i in Price(facts) {
      var j :| 0 <= j < |facts| && facts[j] == Fact(i, Price(facts)[i]);
      assert IdsOf(facts)[j] == i;
    }
  }

  lemma ConsistentSnoc(known: Priced, xs: seq<Fact>, f: Fact)
    requires Consistent(known, xs)
    ensures Consistent(known, xs + [f]) <==>
            (f.id in known ==> known[f.id] == f.size) && (f.id in Price(xs) ==> Price(xs)[f.id] == f.size)
  {
    PriceIsFirstSize(xs);
    if f.id in Price(xs) {
      assert Fact(f.id, Price(xs)[f.id]) in xs + [f];
    }
    assert f in xs + [f];
  }

  lemma ConsistentPrefix(known: Priced, facts: seq<Fact>, n: nat)
    requires n <= |facts| && Consistent(known, facts)
    ensures Consistent(known, facts[..n])
  {
  }

  lemma IdsSnoc(xs: seq<Fact>, f: Fact)
    ensures IdsOf(xs + [f]) == IdsOf(xs) + [f.id]
  {
  }

  /** What reading one more consistent fact leaves. */
  lemma FactRead(seen: seq<Fact>, f: Fact, order: seq<Fact>, byId: Priced)
    requires byId == Price(seen) == Price(order) && IdsOf(order) == Union([], IdsOf(seen))
    requires f.id in byId ==> byId[f.id] == f.size
    ensures Price(seen + [f]) == byId[f.id := f.size]
    ensures f.id in byId ==> Price(order) == byId[f.id := f.size] && IdsOf(order) == Union([], IdsOf(seen + [f]))
    ensures f.id !in byId ==> Price(order + [f]) == byId[f.id := f.size] && IdsOf(order + [f]) == Union([], IdsOf(seen + [f]))
  {
    PriceSnoc(seen, f);
    IdsSnoc(seen, f);
    ListedIds(order, f.id);
    if f.id !in byId {
      PriceSnoc(order, f);
      IdsSnoc(order, f);
    }
  }

  /** Refuse a contradiction; otherwise the request's distinct facts in first-seen order. */
  method CheckFacts(known: Priced, facts: seq<Fact>) returns (r: Result<seq<Fact>>)
    ensures r.Err? <==> !Consistent(known, facts)
    ensures r.Err? ==> r.code == FactMismatch
    ensures r.Ok? ==> Price(r.value) == Price(facts) && IdsOf(r.value) == Union([], IdsOf(facts))
  {
    var byId: Priced := map[];
    var order: seq<Fact> := [];
    for n := 0 to |facts|
      invariant Consistent(known, facts[..n])
      invariant byId == Price(facts[..n]) == Price(order)
      invariant IdsOf(order) == Union([], IdsOf(facts[..n]))
    {
      var f := facts[n];
      assert facts[..n+1] == facts[..n] + [f];
      ConsistentSnoc(known, facts[..n], f);
      if (f.id in known && known[f.id] != f.size) || (f.id in byId && byId[f.id] != f.size) {
        if Consistent(known, facts) {
          ConsistentPrefix(known, facts, n + 1);
          assert false;
        }
        return Err(FactMismatch);
      }
      FactRead(facts[..n], f, order, byId);
      if f.id !in byId {
        order := order + [f];
      }
      byId := byId[f.id := f.size];
    }
    assert facts[..|facts|] == facts;
    r := Ok(order);
  }

  /** The root's facts followed by the request's new ones. */
  method MergeFacts(existing: seq<Fact>, known: Priced, added: seq<Fact>) returns (merged: seq<Fact>)
    requires Distinct(IdsOf(existing)) && known == Price(existing) && Distinct(IdsOf(added))
    ensures Distinct(IdsOf(merged)) && Price(merged) == Price(added) + known
    ensures IdsOf(merged) == Union(IdsOf(existing), IdsOf(added))
  {
    merged := existing;
    assert Price(added[..0]) + known == known;
    for n := 0 to |added|
      invariant Price(merged) == Price(added[..n]) + known
      invariant IdsOf(merged) == Union(IdsOf(existing), IdsOf(added[..n]))
    {
      var f := added[n];
      assert added[..n+1] == added[..n] + [f];
      assert IdsOf(added)[n] == f.id && forall j :: 0 <= j < n ==> IdsOf(added)[j] == IdsOf(added[..n])[j];
      OverlaySnoc(added[..n], f, known);
      IdsSnoc(added[..n], f);
      ListedIds(merged, f.id);
      ListedIds(added[..n], f.id);
      if f.id !in known {
        PriceSnoc(merged, f);
        IdsSnoc(merged, f);
        merged := merged + [f];
      }
    }
    assert added[..|added|] == added;
    UnionProperties(IdsOf(existing), IdsOf(added));
  }
}
