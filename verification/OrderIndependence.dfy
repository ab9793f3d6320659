/** Whether a batch of reservations is accepted, and where it leaves the books, does not
    depend on the order; and a part of an accepted batch is accepted too. */
module OrderIndependence {
  import opened Basics
  import opened Sequences
  import opened EgressContracts
  import opened Accounts
  import opened Acceptance
  import Maps

  /** The books after a whole batch, whether or not it was accepted. */
  function Run(b: Books, es: seq<Entry>): Books {
    if es == [] then b else Post(Run(b, es[..|es|-1]), es[|es|-1])
  }

  /** Accepted under the policy the root is bound to, kept folded: the decision is large. */
  ghost predicate Accepts(b: Books, e: Entry) {
    forall n: nat {:trigger Maps.Unfold(n)} :: Maps.Unfold(n) ==> WellFormed(e) && Verdict(b, e, b.root.policy).None?
  }

  lemma AcceptsMeans(b: Books, e: Entry)
    ensures Accepts(b, e) <==> WellFormed(e) && Verdict(b, e, b.root.policy).None?
  {
    assert Maps.Unfold(0);
  }

  ghost predicate AllAccepted(b: Books, es: seq<Entry>) {
    es == [] || (AllAccepted(b, es[..|es|-1]) && Accepts(Run(b, es[..|es|-1]), es[|es|-1]))
  }

  predicate SubMap(a: Priced, b: Priced) {
    forall i <- a :: i in b && a[i] == b[i]
  }

  predicate PricedIn(facts: seq<Fact>, p: Priced) {
    forall f <- facts :: f.id in p && p[f.id] == f.size
  }

  lemma {:induction false} PriceIsFirstSize(facts: seq<Fact>)
    ensures forall i :: i in Price(facts) <==> exists f :: f in facts && f.id == i
    ensures forall i :: i in Price(facts) ==> Fact(i, Price(facts)[i]) in facts
  {
    if facts != [] {
      PriceIsFirstSize(facts[1..]);
      assert forall f :: f in facts <==> f == facts[0] || f in facts[1..];
      forall i | i in Price(facts) ensures Fact(i, Price(facts)[i]) in facts && exists f :: f in facts && f.id == i {
        assert Fact(i, Price(facts)[i]) in facts;
      }
    }
  }

  lemma PriceInside(facts: seq<Fact>, p: Priced)
    requires PricedIn(facts, p)
    ensures SubMap(Price(facts), p)
  {
    PriceIsFirstSize(facts);
  }

  // ----- posting commutes -----

  lemma ChargeAt<K>(m: map<K, Priced>, s: set<K>, p: Priced, k: K)
    ensures At(Charge(m, s, p), k) == if k in s then p + At(m, k) else At(m, k)
  {
  }

  lemma OverlayCommutes(p: Priced, q: Priced, a: Priced, all: Priced)
    requires SubMap(p, all) && SubMap(q, all)
    ensures p + (q + a) == q + (p + a)
  {
  }

  lemma ChargeCommutes<K>(m: map<K, Priced>, s: set<K>, p: Priced, t: set<K>, q: Priced, all: Priced)
    requires SubMap(p, all) && SubMap(q, all)
    ensures Charge(Charge(m, s, p), t, q) == Charge(Charge(m, t, q), s, p)
  {
    var left, right := Charge(Charge(m, s, p), t, q), Charge(Charge(m, t, q), s, p);
    assert left.Keys == m.Keys + s + t == right.Keys;
    forall k | k in left ensures At(left, k) == At(right, k) {
      ChargeAt(m, s, p, k);
      ChargeAt(m, t, q, k);
      ChargeAt(Charge(m, s, p), t, q, k);
      ChargeAt(Charge(m, t, q), s, p, k);
      OverlayCommutes(p, q, At(m, k), all);
    }
    assert forall k :: k in left ==> left[k] == At(left, k) && right[k] == At(right, k);
  }

  lemma PlusAt<K>(a: map<K, nat>, b: map<K, nat>, k: K)
    ensures Maps.Get(Maps.Plus(a, b), k) == Maps.Get(a, k) + Maps.Get(b, k)
  {
  }

  lemma PlusCommutes<K>(m: map<K, nat>, a: map<K, nat>, b: map<K, nat>)
    ensures Maps.Plus(Maps.Plus(m, a), b) == Maps.Plus(Maps.Plus(m, b), a)
  {
    var left, right := Maps.Plus(Maps.Plus(m, a), b), Maps.Plus(Maps.Plus(m, b), a);
    assert left.Keys == m.Keys + a.Keys + b.Keys == right.Keys;
    forall k | k in left ensures Maps.Get(left, k) == Maps.Get(right, k) {
      PlusAt(m, a, k);
      PlusAt(m, b, k);
      PlusAt(Maps.Plus(m, a), b, k);
      PlusAt(Maps.Plus(m, b), a, k);
    }
    assert forall k :: k in left ==> left[k] == Maps.Get(left, k) && right[k] == Maps.Get(right, k);
  }

  lemma PostCommutes(b: Books, d: Entry, e: Entry, all: Priced)
    requires PricedIn(d.facts, all) && PricedIn(e.facts, all)
    ensures Post(Post(b, d), e) == Post(Post(b, e), d)
  {
    PriceInside(d.facts, all);
    PriceInside(e.facts, all);
    ChargeCommutes(b.root.accounts, RootTouch(d), Price(d.facts), RootTouch(e), Price(e.facts), all);
    ChargeCommutes(b.corpus.accounts, CorpusTouch(d), Price(d.facts), CorpusTouch(e), Price(e.facts), all);
    PlusCommutes(b.root.counters, Increments(d), Increments(e));
  }

  predicate AllPricedIn(es: seq<Entry>, all: Priced) {
    forall e <- es :: PricedIn(e.facts, all)
  }

  lemma {:induction false} RunLast(b: Books, es: seq<Entry>, before: seq<Entry>, e: Entry)
    requires es == before + [e]
    ensures Run(b, es) == Post(Run(b, before), e)
  {
    assert es[..|es|-1] == before;
  }

  lemma {:induction false} RunAppend(b: Books, xs: seq<Entry>, ys: seq<Entry>)
    ensures Run(b, xs + ys) == Run(Run(b, xs), ys)
    decreases |ys|
  {
    if ys == [] {
      assert xs + ys == xs;
    } else {
      var zs, e := ys[..|ys|-1], ys[|ys|-1];
      assert ys == zs + [e];
      RunAppend(b, xs, zs);
      Regroup(xs, zs, [e]);
      RunLast(b, xs + ys, xs + zs, e);
      RunLast(Run(b, xs), ys, zs, e);
    }
  }

  lemma {:induction false} RunMoveLast(b: Books, e: Entry, ys: seq<Entry>, all: Priced)
    requires AllPricedIn([e] + ys, all)
    ensures Run(Post(b, e), ys) == Post(Run(b, ys), e)
    decreases |ys|
  {
    if ys != [] {
      var n := |ys| - 1;
      assert forall d :: d in [e] + ys[..n] ==> d in [e] + ys;
      RunMoveLast(b, e, ys[..n], all);
      assert ys[n] in [e] + ys && e in [e] + ys;
      PostCommutes(Run(b, ys[..n]), e, ys[n], all);
    }
  }

  /** Any entry may be the one posted last. */
  lemma RunTakeOut(b: Books, es: seq<Entry>, i: nat, all: Priced)
    requires i < |es| && AllPricedIn(es, all)
    ensures Run(b, es) == Post(Run(b, es[..i] + es[i+1..]), es[i])
  {
    var xs, e, ys := es[..i], es[i], es[i+1..];
    assert es == xs + ([e] + ys);
    RunAppend(b, xs, [e] + ys);
    RunAppend(Run(b, xs), [e], ys);
    assert [e][..0] == [];
    assert forall d <- [e] + ys :: d in es;
    RunMoveLast(Run(b, xs), e, ys, all);
    RunAppend(b, xs, ys);
  }

  lemma TakeOut<T>(s: seq<T>, i: nat)
    requires i < |s|
    ensures multiset(s[..i] + s[i+1..]) == multiset(s) - multiset{s[i]}
  {
    assert s == s[..i] + ([s[i]] + s[i+1..]);
  }

  lemma Find<T>(s: seq<T>, x: T) returns (i: nat)
    requires x in multiset(s)
    ensures i < |s| && s[i] == x
  {
    i :| 0 <= i < |s| && s[i] == x;
  }

  /** The last item of a permutation, taken out of the other one. */
  lemma LastOut<T>(s: seq<T>, t: seq<T>) returns (i: nat, rest: seq<T>)
    requires multiset(s) == multiset(t) && t != []
    ensures i < |s| && s[i] == t[|t|-1] && rest == s[..i] + s[i+1..]
    ensures multiset(rest) == multiset(t[..|t|-1]) && forall x :: x in rest ==> x in s
  {
    var n := |t| - 1;
    assert t[n] in multiset(t);
    i := Find(s, t[n]);
    rest := s[..i] + s[i+1..];
    TakeOut(s, i);
    TakeOut(t, n);
    assert t[..n] + t[n+1..] == t[..n];
  }

  lemma NoItems<T>(s: seq<T>)
    requires multiset(s) == multiset([])
    ensures s == []
  {
    assert |multiset(s)| == |s|;
  }

  /** Permuted batches end in the same books. */
  lemma {:induction false} RunPermuted(b: Books, es: seq<Entry>, fs: seq<Entry>, all: Priced)
    requires multiset(es) == multiset(fs) && AllPricedIn(es, all)
    ensures Run(b, es) == Run(b, fs)
    decreases |fs|
  {
    if fs == [] {
      NoItems(es);
    } else {
      var i, rest := LastOut(es, fs);
      RunTakeOut(b, es, i, all);
      RunPermuted(b, rest, fs[..|fs|-1], all);
    }
  }

  // ----- posting only grows the books -----

  predicate Leq(a: Books, b: Books) {
    && (forall k <- a.root.accounts :: k in b.root.accounts && SubMap(a.root.accounts[k], b.root.accounts[k]))
    && (forall k <- a.root.counters :: k in b.root.counters && a.root.counters[k] <= b.root.counters[k])
    && (forall k <- a.corpus.accounts :: k in b.corpus.accounts && SubMap(a.corpus.accounts[k], b.corpus.accounts[k]))
    && a.root.level == b.root.level && a.root.policy == b.root.policy && a.root.id == b.root.id
    && a.corpus.id == b.corpus.id && a.corpus.policy == b.corpus.policy
  }

  lemma PostGrows(b: Books, e: Entry)
    ensures Leq(b, Post(b, e))
  {
  }

  lemma {:induction false} RunGrows(b: Books, es: seq<Entry>)
    ensures Leq(b, Run(b, es))
  {
    if es != [] {
      RunGrows(b, es[..|es|-1]);
      PostGrows(Run(b, es[..|es|-1]), es[|es|-1]);
    }
  }

  lemma SubMapSizes(a: Priced, b: Priced)
    requires SubMap(a, b)
    ensures |a| <= |b| && UniqueTokens(a) <= UniqueTokens(b) && UniqueBytes(a) <= UniqueBytes(b)
  {
    assert a.Keys <= b.Keys;
    SubsetSize(a.Keys, b.Keys);
    Maps.SumMonotone(TokenMap(a), TokenMap(b));
    Maps.SumMonotone(ByteMap(a), ByteMap(b));
  }

  /** A smaller state fits whatever a larger one fits. */
  lemma FitsDownward(a: Books, b: Books, e: Entry, policy: Policy)
    requires Leq(a, b) && Fits(b, e, policy)
    ensures Fits(a, e, policy)
  {
    assert RootWithin(a.root, RootTouch(e), policy) by {
      forall k <- RootTouch(e) ensures Within(At(a.root.accounts, k), RootCap(policy, a.root.level, k)) {
        SubMapSizes(At(a.root.accounts, k), At(b.root.accounts, k));
      }
    }
    assert CorpusWithin(a.corpus, CorpusTouch(e), policy) by {
      forall k <- CorpusTouch(e) ensures Within(At(a.corpus.accounts, k), CorpusCap(policy, k)) {
        SubMapSizes(At(a.corpus.accounts, k), At(b.corpus.accounts, k));
      }
    }
    SubsetSize(ClaimsOf(a.root.accounts, e.run), ClaimsOf(b.root.accounts, e.run));
  }

  lemma RootWithinForward(b: RootBook, d: Entry, e: Entry, policy: Policy)
    requires RootWithin(b, RootTouch(d), policy) && RootWithin(PostRoot(b, e), RootTouch(e), policy)
    ensures RootWithin(PostRoot(b, e), RootTouch(d), policy)
  {
    forall k <- RootTouch(d) ensures Within(At(PostRoot(b, e).accounts, k), RootCap(policy, b.level, k)) {
      ChargeAt(b.accounts, RootTouch(e), Price(e.facts), k);
    }
  }

  lemma CountersForward(b: RootBook, d: Entry, e: Entry, policy: Policy)
    requires CountersUnder(b, CounterTouch(d), policy) && CountersUnder(PostRoot(b, e), CounterTouch(e), policy)
    ensures CountersUnder(PostRoot(b, e), CounterTouch(d), policy)
  {
    forall k <- CounterTouch(d) ensures Under(Maps.Get(PostRoot(b, e).counters, k), CounterCap(policy, b.level, k)) {
      PlusAt(b.counters, Increments(e), k);
    }
  }

  lemma CorpusForward(c: CorpusBook, d: Entry, e: Entry, policy: Policy)
    requires CorpusWithin(c, CorpusTouch(d), policy) && CorpusWithin(PostCorpus(c, e), CorpusTouch(e), policy)
    ensures CorpusWithin(PostCorpus(c, e), CorpusTouch(d), policy)
  {
    forall k <- CorpusTouch(d) ensures Within(At(PostCorpus(c, e).accounts, k), CorpusCap(policy, k)) {
      ChargeAt(c.accounts, CorpusTouch(e), Price(e.facts), k);
    }
  }

  lemma ClaimsForward(b: RootBook, d: Entry, e: Entry, policy: Policy)
    requires ClaimsUnder(b, d, policy) && ClaimsUnder(PostRoot(b, e), e, policy)
    ensures ClaimsUnder(PostRoot(b, e), d, policy)
  {
    if d.stage != JudgeStage && d.claim.Some? && !(e.stage != JudgeStage && e.claim.Some? && e.run == d.run) {
      assert ClaimsOf(PostRoot(b, e).accounts, d.run) == ClaimsOf(b.accounts, d.run);
    }
  }

  /** An entry that fits after it is posted leaves every earlier entry fitting: an account
      it does not touch has not moved, and one it does touch was just checked. */
  lemma FitsForward(b: Books, d: Entry, e: Entry, policy: Policy)
    requires Fits(b, d, policy) && Fits(Post(b, e), e, policy)
    ensures Fits(Post(b, e), d, policy)
  {
    RootWithinForward(b.root, d, e, policy);
    CountersForward(b.root, d, e, policy);
    ClaimsForward(b.root, d, e, policy);
    CorpusForward(b.corpus, d, e, policy);
  }

  // ----- acceptance of a batch is a property of where it ends -----

  ghost predicate EndsWell(b: Books, es: seq<Entry>) {
    var end := Run(b, es);
    && AllPricedIn(es, At(end.root.accounts, Root))
    && forall e <- es :: Admissible(b, e, b.root.policy) && Fits(end, e, b.root.policy)
  }

  lemma RootAfter(b: Books, e: Entry)
    ensures At(Post(b, e).root.accounts, Root) == Price(e.facts) + At(b.root.accounts, Root)
  {
  }

  lemma SameBindings(b: Books, c: Books, e: Entry)
    requires Leq(b, c)
    ensures Admissible(b, e, b.root.policy) == Admissible(c, e, c.root.policy)
  {
  }

  /** A consistent entry is priced at exactly the sizes it names. */
  lemma ConsistentIsPriced(known: Priced, facts: seq<Fact>)
    requires Consistent(known, facts)
    ensures PricedIn(facts, Price(facts) + known)
  {
    PriceIsFirstSize(facts);
  }

  lemma PricedIsConsistent(known: Priced, all: Priced, facts: seq<Fact>)
    requires SubMap(known, all) && PricedIn(facts, all)
    ensures Consistent(known, facts)
  {
  }

  /** An earlier entry of the batch is still priced, admissible and fitting after one more. */
  lemma EarlierEndsWell(b: Books, mid: Books, e: Entry, end: Books, d: Entry)
    requires end == Post(mid, e) && Leq(mid, end) && Fits(end, e, b.root.policy)
    requires PricedIn(d.facts, At(mid.root.accounts, Root)) && Fits(mid, d, b.root.policy)
    ensures PricedIn(d.facts, At(end.root.accounts, Root)) && Fits(end, d, b.root.policy)
  {
    FitsForward(mid, d, e, b.root.policy);
    assert SubMap(At(mid.root.accounts, Root), At(end.root.accounts, Root));
  }

  /** The last entry of an accepted batch is, because it was accepted. */
  lemma LastEndsWell(b: Books, mid: Books, e: Entry, end: Books)
    requires end == Post(mid, e) && Leq(b, mid) && Accepts(mid, e)
    ensures PricedIn(e.facts, At(end.root.accounts, Root)) && Admissible(b, e, b.root.policy) && Fits(end, e, b.root.policy)
  {
    AcceptsMeans(mid, e);
    VerdictIsConjunction(mid, e, b.root.policy);
    SameBindings(b, mid, e);
    RootAfter(mid, e);
    ConsistentIsPriced(At(mid.root.accounts, Root), e.facts);
  }

  lemma {:induction false} EndsWellSnoc(b: Books, part: seq<Entry>, e: Entry, es: seq<Entry>, mid: Books, end: Books)
    requires EndsWell(b, part) && es == part + [e] && mid == Run(b, part) && end == Run(b, es) == Post(mid, e) && Accepts(mid, e)
    ensures EndsWell(b, es)
  {
    RunGrows(b, part);
    PostGrows(mid, e);
    LastEndsWell(b, mid, e, end);
    forall d <- es ensures PricedIn(d.facts, At(end.root.accounts, Root)) &&
                           Admissible(b, d, b.root.policy) && Fits(end, d, b.root.policy) {
      if d in part {
        EarlierEndsWell(b, mid, e, end, d);
      } else {
        assert d == e;
      }
    }
  }

  lemma {:induction false} AcceptedEndsWell(b: Books, es: seq<Entry>)
    requires AllAccepted(b, es)
    ensures EndsWell(b, es)
  {
    if es != [] {
      var n := |es| - 1;
      AcceptedEndsWell(b, es[..n]);
      EndsWellSnoc(b, es[..n], es[n], es, Run(b, es[..n]), Run(b, es));
    }
  }

  lemma {:induction false} EndsWellAccepted(b: Books, es: seq<Entry>)
    requires EndsWell(b, es)
    ensures AllAccepted(b, es)
  {
    if es != [] {
      var n := |es| - 1;
      var mid, e, end := Run(b, es[..n]), es[n], Run(b, es);
      assert e in es;
      PostGrows(mid, e);
      RunGrows(b, es[..n]);
      PrefixEndsWell(b, es[..n], mid, end, es);
      EndsWellAccepted(b, es[..n]);
      SameBindings(b, mid, e);
      PricedIsConsistent(At(mid.root.accounts, Root), At(end.root.accounts, Root), e.facts);
      VerdictIsConjunction(mid, e, b.root.policy);
      AcceptsMeans(mid, e);
    }
  }

  /** What fits and is priced at the end of a longer batch was so at the end of a part of it. */
  lemma PrefixEndsWell(b: Books, part: seq<Entry>, mid: Books, end: Books, es: seq<Entry>)
    requires mid == Run(b, part) && Leq(mid, end)
    requires AllPricedIn(es, At(end.root.accounts, Root))
    requires forall e <- es :: Admissible(b, e, b.root.policy) && Fits(end, e, b.root.policy)
    requires forall e <- part :: e in es
    ensures EndsWell(b, part)
  {
    RunPrices(b, part);
    forall d <- part ensures PricedIn(d.facts, At(mid.root.accounts, Root)) &&
                             Admissible(b, d, b.root.policy) && Fits(mid, d, b.root.policy) {
      FitsDownward(mid, end, d, b.root.policy);
      assert SubMap(At(mid.root.accounts, Root), At(end.root.accounts, Root));
    }
  }

  /** Every disclosure of the batch ends up priced in the root account. */
  lemma {:induction false} RunPrices(b: Books, es: seq<Entry>)
    ensures forall e, f :: e in es && f in e.facts ==> f.id in At(Run(b, es).root.accounts, Root)
  {
    if es != [] {
      var n := |es| - 1;
      RunPrices(b, es[..n]);
      RootAfter(Run(b, es[..n]), es[n]);
      PriceIsFirstSize(es[n].facts);
      assert forall e :: e in es ==> e in es[..n] || e == es[n];
    }
  }

  lemma {:induction false} Enumerate<T>(m: multiset<T>) returns (s: seq<T>)
    ensures multiset(s) == m
    decreases |m|
  {
    if m == multiset{} {
      s := [];
    } else {
      var x :| x in m;
      s := Enumerate(m - multiset{x});
      s := s + [x];
    }
  }

  /** Order independence: any part of an accepted batch, in any order, is accepted from the
      same books; and a reordering of the whole batch ends in the same books. */
  lemma OrderIndependent(b: Books, es: seq<Entry>, fs: seq<Entry>)
    requires AllAccepted(b, es) && multiset(fs) <= multiset(es)
    ensures AllAccepted(b, fs)
    ensures multiset(fs) == multiset(es) ==> Run(b, fs) == Run(b, es)
  {
    AcceptedEndsWell(b, es);
    var all := At(Run(b, es).root.accounts, Root);
    var rest := Enumerate(multiset(es) - multiset(fs));
    assert multiset(fs + rest) == multiset(es);
    RunPermuted(b, es, fs + rest, all);
    RunAppend(b, fs, rest);
    RunGrows(Run(b, fs), rest);
    assert forall e <- fs :: e in multiset(es);
    PrefixEndsWell(b, fs, Run(b, fs), Run(b, es), es);
    EndsWellAccepted(b, fs);
    if multiset(fs) == multiset(es) {
      RunPermuted(b, es, fs, all);
    }
  }
}
