/** The list of sections with their numbers, and exactly when the numbers are distinct. */
module SectionNumbers {
  import opened Basics
  import opened SectionTree

  datatype Label = Arabic(n: nat) | Letter(n: nat)
  type Number = seq<Label>

  /** A listed section: where it is, and its number when it has one. */
  datatype SectionRef = SectionRef(path: Path, number: Option<Number>)

  predicate Listed(c: Element, skip: bool) {
    c.tag == SectionTag && (c.numbered || !skip)
  }

  /** How many numbered sections are among the first `n` children. */
  function Counter(e: Element, n: nat): nat
    requires n <= |e.children|
  {
    if n == 0 then 0 else
      Counter(e, n - 1) + if e.children[n - 1].tag == SectionTag && e.children[n - 1].numbered then 1 else 0
  }

  function LabelOf(lettered: bool, n: nat): Label {
    if lettered then Letter(n) else Arabic(n)
  }

  /** The sections below an element in document order. An unnumbered one passes its prefix on. */
  function Walk(e: Element, at: Path, prefix: Number, lettered: bool, skip: bool): seq<SectionRef>
    decreases e, |e.children| + 1
  {
    WalkTo(e, at, prefix, lettered, skip, |e.children|)
  }

  function WalkTo(e: Element, at: Path, prefix: Number, lettered: bool, skip: bool, n: nat): seq<SectionRef>
    requires n <= |e.children|
    decreases e, n
  {
    if n == 0 then [] else
      WalkTo(e, at, prefix, lettered, skip, n - 1) +
      WalkChild(e.children[n - 1], at + [n - 1], prefix, LabelOf(lettered, Counter(e, n)), skip)
  }

  function WalkChild(c: Element, at: Path, prefix: Number, mark: Label, skip: bool): seq<SectionRef>
    decreases c, |c.children| + 2
  {
    if !Listed(c, skip) then []
    else if c.numbered then [SectionRef(at, Some(prefix + [mark]))] + Walk(c, at, prefix + [mark], false, false)
    else [SectionRef(at, None)] + Walk(c, at, prefix, false, false)
  }

  /** What one child adds to the list, in the two steps of the loop. */
  lemma ChildAppended(found: seq<SectionRef>, before: seq<SectionRef>, head: SectionRef, below: seq<SectionRef>)
    ensures found + before + [head] + below == found + (before + ([head] + below))
  {
  }

  lemma WalkToNext(e: Element, at: Path, prefix: Number, lettered: bool, skip: bool, n: nat)
    requires n < |e.children|
    ensures WalkTo(e, at, prefix, lettered, skip, n + 1) ==
            WalkTo(e, at, prefix, lettered, skip, n) +
            WalkChild(e.children[n], at + [n], prefix, LabelOf(lettered, Counter(e, n + 1)), skip)
  {
  }

  /** The loop: the counter and the list grow as the children are met. */
  method WalkInto(e: Element, at: Path, prefix: Number, lettered: bool, skip: bool, found: seq<SectionRef>) returns (r: seq<SectionRef>)
    ensures r == found + Walk(e, at, prefix, lettered, skip)
    decreases e
  {
    r := found;
    var counter := 0;
    for n := 0 to |e.children|
      invariant counter == Counter(e, n) && r == found + WalkTo(e, at, prefix, lettered, skip, n)
    {
      var c := e.children[n];
      WalkToNext(e, at, prefix, lettered, skip, n);
      if c.tag == SectionTag && (c.numbered || !skip) {
        if c.numbered {
          counter := counter + 1;
        }
        var number := if c.numbered then prefix + [LabelOf(lettered, counter)] else prefix;
        var head := SectionRef(at + [n], if c.numbered then Some(number) else None);
        ChildAppended(found, WalkTo(e, at, prefix, lettered, skip, n), head, Walk(c, at + [n], number, false, false));
        r := r + [head];
        r := WalkInto(c, at + [n], number, false, false, r);
      }
    }
  }

  /** Every section of the document: the middle numbered, the numbered back matter lettered. */
  function Sections(middle: Option<Element>, back: Option<Element>): seq<SectionRef> {
    (if middle.Some? then Walk(middle.value, [0], [], false, false) else []) +
    (if back.Some? then Walk(back.value, [1], [], true, true) else [])
  }

  method ListSections(middle: Option<Element>, back: Option<Element>) returns (r: seq<SectionRef>)
    ensures r == Sections(middle, back)
  {
    r := [];
    if middle.Some? {
      r := WalkInto(middle.value, [0], [], false, false, r);
    }
    if back.Some? {
      r := WalkInto(back.value, [1], [], true, true, r);
    }
  }

  // ----- which sections are listed, and with what number -----

  lemma {:induction false} CounterCounts(e: Element, n: nat)
    requires n <= |e.children|
    ensures Counter(e, n) == |set i | 0 <= i < n && e.children[i].tag == SectionTag && e.children[i].numbered|
  {
    var counted := set i | 0 <= i < n && e.children[i].tag == SectionTag && e.children[i].numbered;
    if n > 0 {
      CounterCounts(e, n - 1);
      var before := set i | 0 <= i < n - 1 && e.children[i].tag == SectionTag && e.children[i].numbered;
      if e.children[n - 1].tag == SectionTag && e.children[n - 1].numbered {
        assert counted == before + {n - 1};
      } else {
        assert counted == before;
      }
    } else {
      assert counted == {};
    }
  }

  /** The path leads down through sections only; in back matter the first of them is numbered. */
  predicate SectionChain(e: Element, path: Path, skip: bool)
    decreases |path|
  {
    && path != [] && path[0] < |e.children|
    && var c := e.children[path[0]];
       c.tag == SectionTag && (skip ==> c.numbered) && (|path| == 1 || SectionChain(c, path[1..], false))
  }

  lemma {:induction false} SectionChainMeans(e: Element, path: Path, skip: bool)
    ensures SectionChain(e, path, skip) <==>
            && path != []
            && (forall i :: 0 < i <= |path| ==> Sub(e, path[..i]).Some? && Sub(e, path[..i]).value.tag == SectionTag)
            && (skip ==> Sub(e, path[..1]).Some? && Sub(e, path[..1]).value.numbered)
    decreases |path|
  {
    if path != [] && path[0] < |e.children| {
      var c, rest := e.children[path[0]], path[1..];
      SectionChainMeans(c, rest, false);
      assert path[..1][1..] == [] && Sub(e, path[..1]) == Some(c);
      forall i | 0 < i <= |path| ensures Sub(e, path[..i]) == Sub(c, rest[..i - 1]) {
        assert path[..i][1..] == rest[..i - 1];
      }
      forall i | 0 < i <= |rest| ensures Sub(c, rest[..i]) == Sub(e, path[..i + 1]) {
        assert path[..i + 1][1..] == rest[..i];
      }
    } else if path != [] {
      assert Sub(e, path[..1]).None?;
    }
  }

  /** The marks along a path: each numbered element adds which of its numbered siblings it is. */
  function Marks(e: Element, path: Path, lettered: bool): Number
    decreases |path|
  {
    if path == [] || path[0] >= |e.children| then [] else
      var c := e.children[path[0]];
      var place := |set i | 0 <= i <= path[0] && e.children[i].tag == SectionTag && e.children[i].numbered|;
      (if !c.numbered then [] else if lettered then [Letter(place)] else [Arabic(place)]) + Marks(c, path[1..], false)
  }

  /** The number of the section at a path: the marks along it, if the section itself has one. */
  function NumberAt(e: Element, path: Path, prefix: Number, lettered: bool): Option<Number> {
    if Sub(e, path).Some? && Sub(e, path).value.numbered then Some(prefix + Marks(e, path, lettered)) else None
  }

  ghost predicate ListedAt(e: Element, at: Path, prefix: Number, lettered: bool, skip: bool, n: nat, r: SectionRef) {
    && at < r.path && r.path[|at|] < n && SectionChain(e, r.path[|at|..], skip)
    && r.number == NumberAt(e, r.path[|at|..], prefix, lettered)
  }

  lemma {:induction false} WalkToLists(e: Element, at: Path, prefix: Number, lettered: bool, skip: bool, n: nat, r: SectionRef)
    requires n <= |e.children|
    ensures r in WalkTo(e, at, prefix, lettered, skip, n) <==> ListedAt(e, at, prefix, lettered, skip, n, r)
    decreases e, n
  {
    if n > 0 {
      var c := e.children[n - 1];
      WalkToLists(e, at, prefix, lettered, skip, n - 1, r);
      WalkChildLists(c, at + [n - 1], prefix, LabelOf(lettered, Counter(e, n)), skip, r);
      if at < r.path && r.path[|at|] == n - 1 {
        CounterCounts(e, n);
        assert (set i | 0 <= i < n && e.children[i].tag == SectionTag && e.children[i].numbered)
               == set i | 0 <= i <= n - 1 && e.children[i].tag == SectionTag && e.children[i].numbered;
        ChildPath(e, at, prefix, lettered, skip, n - 1, r);
      }
    }
  }

  /** What a listed path says at its first step. */
  ghost predicate ChildListed(c: Element, at: Path, prefix: Number, mark: Label, skip: bool, r: SectionRef) {
    && at <= r.path && Listed(c, skip)
    && var own := prefix + if c.numbered then [mark] else [];
       if r.path == at then r.number == (if c.numbered then Some(own) else None)
       else ListedAt(c, at, own, false, false, |c.children|, r)
  }

  lemma {:induction false} WalkChildLists(c: Element, at: Path, prefix: Number, mark: Label, skip: bool, r: SectionRef)
    ensures r in WalkChild(c, at, prefix, mark, skip) <==> ChildListed(c, at, prefix, mark, skip, r)
    decreases c, |c.children| + 2
  {
    if Listed(c, skip) {
      WalkToLists(c, at, prefix + [mark], false, false, |c.children|, r);
      WalkToLists(c, at, prefix, false, false, |c.children|, r);
      assert prefix + [] == prefix;
    }
  }

  lemma {:induction false} ChildPath(e: Element, at: Path, prefix: Number, lettered: bool, skip: bool, k: nat, r: SectionRef)
    requires k < |e.children| && at < r.path && r.path[|at|] == k
    ensures ListedAt(e, at, prefix, lettered, skip, k + 1, r) <==>
            ChildListed(e.children[k], at + [k], prefix,
                        LabelOf(lettered, |set i | 0 <= i <= k && e.children[i].tag == SectionTag && e.children[i].numbered|), skip, r)
  {
    var c, rel := e.children[k], r.path[|at|..];
    var mark := LabelOf(lettered, |set i | 0 <= i <= k && e.children[i].tag == SectionTag && e.children[i].numbered|);
    assert at + [k] <= r.path && rel[1..] == r.path[|at| + 1..];
    var own := prefix + if c.numbered then [mark] else [];
    if r.path == at + [k] {
      assert rel == [k] && rel[1..] == [] && Sub(e, rel) == Some(c);
      assert Marks(e, rel, lettered) == if c.numbered then [mark] else [];
      assert own == prefix + Marks(e, rel, lettered);
      assert SectionChain(e, rel, skip) <==> Listed(c, skip);
      assert NumberAt(e, rel, prefix, lettered) == if c.numbered then Some(own) else None;
    } else {
      assert prefix + Marks(e, rel, lettered) == own + Marks(c, rel[1..], false);
      assert r.path[|at + [k]|..] == rel[1..] && |rel| > 1 && Sub(e, rel) == Sub(c, rel[1..]);
      assert SectionChain(e, rel, skip) <==> Listed(c, skip) && SectionChain(c, rel[1..], false);
      assert NumberAt(e, rel, prefix, lettered) == NumberAt(c, rel[1..], own, false);
      assert r.path[|at + [k]|] == rel[1..][0];
    }
  }

  /** Exactly the sections reached through sections are listed, each with the number its path
      spells; in back matter a section is listed with what is below it only if it is numbered. */
  lemma ListedExactly(e: Element, at: Path, lettered: bool, skip: bool, rel: Path, number: Option<Number>)
    ensures SectionRef(at + rel, number) in Walk(e, at, [], lettered, skip) <==>
            && rel != []
            && (forall i :: 0 < i <= |rel| ==> Sub(e, rel[..i]).Some? && Sub(e, rel[..i]).value.tag == SectionTag)
            && (skip ==> Sub(e, rel[..1]).Some? && Sub(e, rel[..1]).value.numbered)
            && number == if Sub(e, rel).Some? && Sub(e, rel).value.numbered then Some(Marks(e, rel, lettered)) else None
    ensures forall r <- Walk(e, at, [], lettered, skip) :: at < r.path
  {
    assert (at + rel)[|at|..] == rel && [] + Marks(e, rel, lettered) == Marks(e, rel, lettered);
    WalkToLists(e, at, [], lettered, skip, |e.children|, SectionRef(at + rel, number));
    SectionChainMeans(e, rel, skip);
    if rel != [] && rel[0] >= |e.children| {
      assert Sub(e, rel[..1]).None?;
    }
    forall r <- Walk(e, at, [], lettered, skip) ensures at < r.path {
      WalkToLists(e, at, [], lettered, skip, |e.children|, r);
    }
  }

  /** Listed in reading order: a section before those inside it and those after it. */
  predicate ReadBefore(a: Path, b: Path) {
    a < b || LeftOf(a, b)
  }

  ghost predicate InReadingOrder(refs: seq<SectionRef>) {
    forall i, j :: 0 <= i < j < |refs| ==> ReadBefore(refs[i].path, refs[j].path)
  }

  lemma ReadingOrderJoins(a: seq<SectionRef>, b: seq<SectionRef>)
    requires InReadingOrder(a) && InReadingOrder(b) && forall x, y :: x in a && y in b ==> ReadBefore(x.path, y.path)
    ensures InReadingOrder(a + b)
  {
    forall i, j | 0 <= i < j < |a + b| ensures ReadBefore((a + b)[i].path, (a + b)[j].path) {
      if i < |a| <= j {
        assert a[i] in a && b[j - |a|] in b;
      }
    }
  }

  lemma EarlierChild(e: Element, at: Path, prefix: Number, lettered: bool, skip: bool, n: nat, r: SectionRef)
    requires n <= |e.children| && r in WalkTo(e, at, prefix, lettered, skip, n)
    ensures at < r.path && at + [r.path[|at|]] <= r.path && r.path[|at|] < n
  {
    WalkToLists(e, at, prefix, lettered, skip, n, r);
  }

  lemma ChildPathBelow(c: Element, at: Path, prefix: Number, mark: Label, skip: bool, r: SectionRef)
    requires r in WalkChild(c, at, prefix, mark, skip)
    ensures at <= r.path
  {
    WalkChildLists(c, at, prefix, mark, skip, r);
  }

  lemma EarlierBeforeChild(e: Element, at: Path, prefix: Number, lettered: bool, skip: bool, n: nat, c: Element, mark: Label, x: SectionRef, y: SectionRef)
    requires n <= |e.children| && x in WalkTo(e, at, prefix, lettered, skip, n) && y in WalkChild(c, at + [n], prefix, mark, skip)
    ensures ReadBefore(x.path, y.path)
  {
    EarlierChild(e, at, prefix, lettered, skip, n, x);
    ChildPathBelow(c, at + [n], prefix, mark, skip, y);
    LeftBranch(at, x.path[|at|], n, x.path, y.path);
  }

  lemma {:induction false} WalkToInOrder(e: Element, at: Path, prefix: Number, lettered: bool, skip: bool, n: nat)
    requires n <= |e.children|
    ensures InReadingOrder(WalkTo(e, at, prefix, lettered, skip, n))
    decreases e, n
  {
    if n > 0 {
      var c, mark := e.children[n - 1], LabelOf(lettered, Counter(e, n));
      var before, last := WalkTo(e, at, prefix, lettered, skip, n - 1), WalkChild(c, at + [n - 1], prefix, mark, skip);
      WalkToInOrder(e, at, prefix, lettered, skip, n - 1);
      WalkChildInOrder(c, at + [n - 1], prefix, mark, skip);
      forall x, y | x in before && y in last ensures ReadBefore(x.path, y.path) {
        EarlierBeforeChild(e, at, prefix, lettered, skip, n - 1, c, mark, x, y);
      }
      ReadingOrderJoins(before, last);
    }
  }

  lemma {:induction false} WalkChildInOrder(c: Element, at: Path, prefix: Number, mark: Label, skip: bool)
    ensures InReadingOrder(WalkChild(c, at, prefix, mark, skip))
    decreases c, |c.children| + 2
  {
    if Listed(c, skip) {
      var own := prefix + if c.numbered then [mark] else [];
      assert prefix + [] == prefix;
      var head, below := [SectionRef(at, if c.numbered then Some(own) else None)], Walk(c, at, own, false, false);
      WalkToInOrder(c, at, own, false, false, |c.children|);
      forall x, y | x in head && y in below ensures ReadBefore(x.path, y.path) {
        WalkToLists(c, at, own, false, false, |c.children|, y);
      }
      ReadingOrderJoins(head, below);
      assert WalkChild(c, at, prefix, mark, skip) == head + below;
    }
  }

  /** The document's sections come in reading order, so each is listed once. */
  lemma SectionsInOrder(middle: Option<Element>, back: Option<Element>, refs: seq<SectionRef>)
    requires refs == Sections(middle, back)
    ensures forall i, j :: 0 <= i < j < |refs| ==> ReadBefore(refs[i].path, refs[j].path) && refs[i].path != refs[j].path
  {
    var a := if middle.Some? then Walk(middle.value, [0], [], false, false) else [];
    var b := if back.Some? then Walk(back.value, [1], [], true, true) else [];
    if middle.Some? {
      WalkToInOrder(middle.value, [0], [], false, false, |middle.value.children|);
    }
    if back.Some? {
      WalkToInOrder(back.value, [1], [], true, true, |back.value.children|);
    }
    forall x, y | x in a && y in b ensures ReadBefore(x.path, y.path) {
      WalkToLists(middle.value, [0], [], false, false, |middle.value.children|, x);
      WalkToLists(back.value, [1], [], true, true, |back.value.children|, y);
      LeftBranch([], 0, 1, x.path, y.path);
    }
    ReadingOrderJoins(a, b);
    forall i, j | 0 <= i < j < |refs| ensures refs[i].path != refs[j].path {
      assert ReadBefore(refs[i].path, refs[j].path);
      if LeftOf(refs[i].path, refs[j].path) {
        LeftOfIsApart(refs[i].path, refs[j].path);
      }
    }
  }

  // ----- how often a number occurs -----

  function Occurs(refs: seq<SectionRef>, x: Number): nat {
    if refs == [] then 0 else Occurs(refs[..|refs|-1], x) + if refs[|refs|-1].number == Some(x) then 1 else 0
  }

  /** No two listed sections carry the same number. */
  ghost predicate NumbersDistinct(refs: seq<SectionRef>) {
    forall i, j :: 0 <= i < j < |refs| && refs[i].number.Some? ==> refs[i].number != refs[j].number
  }

  ghost predicate OccurOnce(refs: seq<SectionRef>) {
    forall x: Number :: Occurs(refs, x) <= 1
  }

  lemma {:induction false} OccursAppend(a: seq<SectionRef>, b: seq<SectionRef>, x: Number)
    ensures Occurs(a + b, x) == Occurs(a, x) + Occurs(b, x)
  {
    if b == [] {
      assert a + b == a;
    } else {
      assert (a + b)[..|a + b|-1] == a + b[..|b|-1];
      OccursAppend(a, b[..|b|-1], x);
    }
  }

  lemma OccursFirst(r: SectionRef, rest: seq<SectionRef>, x: Number)
    ensures Occurs([r] + rest, x) == (if r.number == Some(x) then 1 else 0) + Occurs(rest, x)
  {
    OccursAppend([r], rest, x);
    assert [r][..0] == [];
  }

  lemma {:induction false} DistinctPlaces(refs: seq<SectionRef>, i: nat, j: nat)
    requires OccurOnce(refs) && i < j < |refs| && refs[i].number.Some?
    ensures refs[i].number != refs[j].number
    decreases |refs|
  {
    var x := refs[i].number.value;
    assert refs == refs[..j] + refs[j..] && refs[..j] == refs[..i] + [refs[i]] + refs[i + 1..j];
    OccursAppend(refs[..j], refs[j..], x);
    OccursAppend(refs[..i] + [refs[i]], refs[i + 1..j], x);
    OccursAppend(refs[..i], [refs[i]], x);
    OccursFirst(refs[i], [], x);
    assert [refs[i]] + [] == [refs[i]] && refs[j..] == [refs[j]] + refs[j + 1..];
    OccursFirst(refs[j], refs[j + 1..], x);
  }

  lemma {:induction false} NoPlaceNoOccurrence(refs: seq<SectionRef>, x: Number)
    requires forall i :: 0 <= i < |refs| ==> refs[i].number != Some(x)
    ensures Occurs(refs, x) == 0
  {
    if refs != [] {
      NoPlaceNoOccurrence(refs[..|refs|-1], x);
    }
  }

  lemma {:induction false} DistinctOccurOnce(refs: seq<SectionRef>, x: Number)
    requires NumbersDistinct(refs)
    ensures Occurs(refs, x) <= 1
  {
    if refs != [] {
      var n := |refs| - 1;
      if refs[n].number == Some(x) {
        NoPlaceNoOccurrence(refs[..n], x);
      } else {
        DistinctOccurOnce(refs[..n], x);
      }
    }
  }

  /** Distinct place by place is the same as occurring once. */
  lemma DistinctMeans(refs: seq<SectionRef>)
    ensures NumbersDistinct(refs) <==> OccurOnce(refs)
  {
    if OccurOnce(refs) {
      forall i, j | 0 <= i < j < |refs| && refs[i].number.Some? ensures refs[i].number != refs[j].number {
        DistinctPlaces(refs, i, j);
      }
    }
    if NumbersDistinct(refs) {
      forall x: Number ensures Occurs(refs, x) <= 1 {
        DistinctOccurOnce(refs, x);
      }
    }
  }

  lemma OccursIn(e: Element, at: Path, prefix: Number, lettered: bool, skip: bool, n: nat, x: Number)
    requires 0 < n <= |e.children|
    ensures Occurs(WalkTo(e, at, prefix, lettered, skip, n), x) ==
            Occurs(WalkTo(e, at, prefix, lettered, skip, n - 1), x) +
            Occurs(WalkChild(e.children[n - 1], at + [n - 1], prefix, LabelOf(lettered, Counter(e, n)), skip), x)
  {
    OccursAppend(WalkTo(e, at, prefix, lettered, skip, n - 1),
                 WalkChild(e.children[n - 1], at + [n - 1], prefix, LabelOf(lettered, Counter(e, n)), skip), x);
  }

  lemma OccursInChild(c: Element, at: Path, prefix: Number, mark: Label, skip: bool, x: Number)
    ensures Occurs(WalkChild(c, at, prefix, mark, skip), x) ==
            if !Listed(c, skip) then 0
            else if c.numbered then (if x == prefix + [mark] then 1 else 0) + Occurs(Walk(c, at, prefix + [mark], false, false), x)
            else Occurs(Walk(c, at, prefix, false, false), x)
  {
    if Listed(c, skip) {
      if c.numbered {
        OccursFirst(SectionRef(at, Some(prefix + [mark])), Walk(c, at, prefix + [mark], false, false), x);
      } else {
        OccursFirst(SectionRef(at, None), Walk(c, at, prefix, false, false), x);
      }
    }
  }

  // ----- numbering scopes -----

  /** How many elements start the same numbering anew: the scope itself when it has a numbered
      section, and every element below it, through unnumbered sections only, that has one. */
  function Starts(e: Element, skip: bool): nat
    decreases e, |e.children| + 1
  {
    (if Counter(e, |e.children|) > 0 then 1 else 0) + StartsBelow(e, skip, |e.children|)
  }

  function StartsBelow(e: Element, skip: bool, n: nat): nat
    requires n <= |e.children|
    decreases e, n
  {
    if n == 0 then 0 else
      StartsBelow(e, skip, n - 1) +
      if Listed(e.children[n - 1], skip) && !e.children[n - 1].numbered then Starts(e.children[n - 1], false) else 0
  }

  /** In every scope at most one element starts the numbering. */
  predicate ScopeOk(e: Element, skip: bool)
    decreases e, |e.children| + 2
  {
    Starts(e, skip) <= 1 && ScopesBelowOk(e, skip, |e.children|)
  }

  predicate ScopesBelowOk(e: Element, skip: bool, n: nat)
    requires n <= |e.children|
    decreases e, n
  {
    n == 0 ||
    (ScopesBelowOk(e, skip, n - 1) &&
     (Listed(e.children[n - 1], skip) ==>
        if e.children[n - 1].numbered then ScopeOk(e.children[n - 1], false)
        else ScopesBelowOk(e.children[n - 1], false, |e.children[n - 1].children|)))
  }

  /** Every number below an element extends its prefix. */
  lemma {:induction false} NumbersExtend(e: Element, at: Path, prefix: Number, lettered: bool, skip: bool, n: nat, x: Number)
    requires n <= |e.children| && Occurs(WalkTo(e, at, prefix, lettered, skip, n), x) > 0
    ensures prefix < x
    decreases e, n
  {
    if n > 0 {
      var c, mark := e.children[n - 1], LabelOf(lettered, Counter(e, n));
      OccursIn(e, at, prefix, lettered, skip, n, x);
      OccursInChild(c, at + [n - 1], prefix, mark, skip, x);
      if Occurs(WalkTo(e, at, prefix, lettered, skip, n - 1), x) > 0 {
        NumbersExtend(e, at, prefix, lettered, skip, n - 1, x);
      } else if c.numbered && x != prefix + [mark] {
        NumbersExtend(c, at + [n - 1], prefix + [mark], false, false, |c.children|, x);
      } else if !c.numbered {
        NumbersExtend(c, at + [n - 1], prefix, false, false, |c.children|, x);
      }
    }
  }

  /** Without a start there is no number at all. */
  lemma {:induction false} NoStartNoNumber(e: Element, at: Path, prefix: Number, lettered: bool, skip: bool, n: nat, x: Number)
    requires n <= |e.children| && Counter(e, n) == 0 && StartsBelow(e, skip, n) == 0
    ensures Occurs(WalkTo(e, at, prefix, lettered, skip, n), x) == 0
    decreases e, n
  {
    if n > 0 {
      var c := e.children[n - 1];
      OccursIn(e, at, prefix, lettered, skip, n, x);
      OccursInChild(c, at + [n - 1], prefix, LabelOf(lettered, Counter(e, n)), skip, x);
      NoStartNoNumber(e, at, prefix, lettered, skip, n - 1, x);
      if Listed(c, skip) {
        NoStartNoNumber(c, at + [n - 1], prefix, false, false, |c.children|, x);
      }
    }
  }

  /** With no start below, every number begins with one of the counter's labels so far. */
  lemma {:induction false} LabelsSoFar(e: Element, at: Path, prefix: Number, lettered: bool, skip: bool, n: nat, x: Number) returns (k: nat)
    requires n <= |e.children| && StartsBelow(e, skip, n) == 0 && Occurs(WalkTo(e, at, prefix, lettered, skip, n), x) > 0
    ensures 1 <= k <= Counter(e, n) && prefix + [LabelOf(lettered, k)] <= x
    decreases n
  {
    k := Counter(e, n);
    if n > 0 {
      var c, mark := e.children[n - 1], LabelOf(lettered, Counter(e, n));
      OccursIn(e, at, prefix, lettered, skip, n, x);
      OccursInChild(c, at + [n - 1], prefix, mark, skip, x);
      if Occurs(WalkTo(e, at, prefix, lettered, skip, n - 1), x) > 0 {
        k := LabelsSoFar(e, at, prefix, lettered, skip, n - 1, x);
      } else if !c.numbered {
        NoStartNoNumber(c, at + [n - 1], prefix, false, false, |c.children|, x);
      } else if x != prefix + [mark] {
        NumbersExtend(c, at + [n - 1], prefix + [mark], false, false, |c.children|, x);
      }
    }
  }

  // ----- exactly when numbers are distinct -----

  function StartsTo(e: Element, skip: bool, n: nat): nat
    requires n <= |e.children|
  {
    (if Counter(e, n) > 0 then 1 else 0) + StartsBelow(e, skip, n)
  }

  /** In a sound scope every number occurs at most once. */
  lemma {:induction false} AtMostOnce(e: Element, at: Path, prefix: Number, lettered: bool, skip: bool, n: nat, x: Number)
    requires n <= |e.children| && StartsTo(e, skip, n) <= 1 && ScopesBelowOk(e, skip, n)
    ensures Occurs(WalkTo(e, at, prefix, lettered, skip, n), x) <= 1
    decreases e, n
  {
    if n > 0 {
      var c, mark := e.children[n - 1], LabelOf(lettered, Counter(e, n));
      OccursIn(e, at, prefix, lettered, skip, n, x);
      OccursInChild(c, at + [n - 1], prefix, mark, skip, x);
      AtMostOnce(e, at, prefix, lettered, skip, n - 1, x);
      if Listed(c, skip) {
        if c.numbered {
          NumberedOnce(e, at, prefix, lettered, skip, n, x);
        } else if Starts(c, false) == 0 {
          NoStartNoNumber(c, at + [n - 1], prefix, false, false, |c.children|, x);
        } else {
          NoStartNoNumber(e, at, prefix, lettered, skip, n - 1, x);
          AtMostOnce(c, at + [n - 1], prefix, false, false, |c.children|, x);
        }
      }
    }
  }

  /** A numbered section adds its own number and longer ones, none of them used before. */
  lemma {:induction false} NumberedOnce(e: Element, at: Path, prefix: Number, lettered: bool, skip: bool, n: nat, x: Number)
    requires 0 < n <= |e.children| && StartsTo(e, skip, n) <= 1 && ScopesBelowOk(e, skip, n)
    requires e.children[n - 1].tag == SectionTag && e.children[n - 1].numbered
    requires Occurs(WalkTo(e, at, prefix, lettered, skip, n - 1), x) <= 1
    ensures Occurs(WalkTo(e, at, prefix, lettered, skip, n), x) <= 1
    decreases e, n, 0
  {
    var c, mark := e.children[n - 1], LabelOf(lettered, Counter(e, n));
    OccursIn(e, at, prefix, lettered, skip, n, x);
    OccursInChild(c, at + [n - 1], prefix, mark, skip, x);
    AtMostOnce(c, at + [n - 1], prefix + [mark], false, false, |c.children|, x);
    if Occurs(Walk(c, at + [n - 1], prefix + [mark], false, false), x) > 0 {
      NumbersExtend(c, at + [n - 1], prefix + [mark], false, false, |c.children|, x);
    }
    if Occurs(WalkTo(e, at, prefix, lettered, skip, n - 1), x) > 0 {
      var k := LabelsSoFar(e, at, prefix, lettered, skip, n - 1, x);
      assert x[|prefix|] == (prefix + [LabelOf(lettered, k)])[|prefix|];
      assert prefix + [mark] <= x ==> x[|prefix|] == (prefix + [mark])[|prefix|];
    }
  }

  /** Each start numbers a section with the scope's first label. */
  lemma {:induction false} EachStartIsFirst(e: Element, at: Path, prefix: Number, skip: bool, n: nat)
    requires n <= |e.children|
    ensures Occurs(WalkTo(e, at, prefix, false, skip, n), prefix + [Arabic(1)]) >= StartsTo(e, skip, n)
    decreases e, n
  {
    if n > 0 {
      var c := e.children[n - 1];
      EachStartIsFirst(e, at, prefix, skip, n - 1);
      OccursIn(e, at, prefix, false, skip, n, prefix + [Arabic(1)]);
      OccursInChild(c, at + [n - 1], prefix, Arabic(Counter(e, n)), skip, prefix + [Arabic(1)]);
      if Listed(c, skip) && !c.numbered {
        EachStartIsFirst(c, at + [n - 1], prefix, false, |c.children|);
        assert Starts(c, false) == StartsTo(c, false, |c.children|);
        assert StartsTo(e, skip, n) == StartsTo(e, skip, n - 1) + Starts(c, false);
      } else if Listed(c, skip) {
        assert Counter(e, n) == Counter(e, n - 1) + 1;
        assert StartsTo(e, skip, n) == StartsTo(e, skip, n - 1) + if Counter(e, n) == 1 then 1 else 0;
      } else {
        assert StartsTo(e, skip, n) == StartsTo(e, skip, n - 1);
      }
    }
  }

  /** A scope below that is not sound repeats a number here too. */
  lemma {:induction false} UnsoundBelowRepeats(e: Element, at: Path, prefix: Number, lettered: bool, skip: bool, n: nat) returns (x: Number)
    requires n <= |e.children| && !ScopesBelowOk(e, skip, n)
    ensures Occurs(WalkTo(e, at, prefix, lettered, skip, n), x) >= 2
    decreases e, n
  {
    var c, mark := e.children[n - 1], LabelOf(lettered, Counter(e, n));
    if !ScopesBelowOk(e, skip, n - 1) {
      x := UnsoundBelowRepeats(e, at, prefix, lettered, skip, n - 1);
    } else if !c.numbered {
      x := UnsoundBelowRepeats(c, at + [n - 1], prefix, false, false, |c.children|);
    } else if !ScopesBelowOk(c, false, |c.children|) {
      x := UnsoundBelowRepeats(c, at + [n - 1], prefix + [mark], false, false, |c.children|);
    } else {
      x := prefix + [mark] + [Arabic(1)];
      EachStartIsFirst(c, at + [n - 1], prefix + [mark], false, |c.children|);
    }
    OccursIn(e, at, prefix, lettered, skip, n, x);
    OccursInChild(c, at + [n - 1], prefix, mark, skip, x);
  }

  /** Back matter starts once: its unnumbered sections are not listed. */
  lemma {:induction false} BackStartsOnce(e: Element, n: nat)
    requires n <= |e.children|
    ensures StartsBelow(e, true, n) == 0
  {
    if n > 0 {
      BackStartsOnce(e, n - 1);
    }
  }

  /** The numbers below an element are distinct if and only if every numbering scope in it has
      at most one element that starts the numbering. */
  lemma DistinctIff(e: Element, at: Path, prefix: Number, lettered: bool, skip: bool)
    requires lettered ==> skip
    ensures NumbersDistinct(Walk(e, at, prefix, lettered, skip)) <==> ScopeOk(e, skip)
  {
    DistinctMeans(Walk(e, at, prefix, lettered, skip));
    if ScopeOk(e, skip) {
      forall x: Number ensures Occurs(Walk(e, at, prefix, lettered, skip), x) <= 1 {
        AtMostOnce(e, at, prefix, lettered, skip, |e.children|, x);
      }
    } else if !ScopesBelowOk(e, skip, |e.children|) {
      var x := UnsoundBelowRepeats(e, at, prefix, lettered, skip, |e.children|);
    } else {
      if lettered {
        BackStartsOnce(e, |e.children|);
      }
      EachStartIsFirst(e, at, prefix, skip, |e.children|);
    }
  }

  /** Outside back matter every number continues with a plain counter. */
  lemma {:induction false} PlainCounters(e: Element, at: Path, prefix: Number, skip: bool, n: nat, x: Number)
    requires n <= |e.children| && Occurs(WalkTo(e, at, prefix, false, skip, n), x) > 0
    ensures prefix < x && x[|prefix|].Arabic?
    decreases e, n
  {
    var c := e.children[n - 1];
    var number := prefix + [Arabic(Counter(e, n))];
    OccursIn(e, at, prefix, false, skip, n, x);
    OccursInChild(c, at + [n - 1], prefix, Arabic(Counter(e, n)), skip, x);
    if Occurs(WalkTo(e, at, prefix, false, skip, n - 1), x) > 0 {
      PlainCounters(e, at, prefix, skip, n - 1, x);
    } else if !c.numbered {
      PlainCounters(c, at + [n - 1], prefix, false, |c.children|, x);
    } else if x != number {
      NumbersExtend(c, at + [n - 1], number, false, false, |c.children|, x);
      assert x[|prefix|] == number[|prefix|];
    }
  }

  lemma BackLetters(e: Element, x: Number)
    requires Occurs(Walk(e, [1], [], true, true), x) > 0
    ensures x != [] && x[0].Letter?
  {
    BackStartsOnce(e, |e.children|);
    var k := LabelsSoFar(e, [1], [], true, true, |e.children|, x);
    assert x[0] == ([] + [Letter(k)])[0];
  }

  /** The numbers of a whole document are distinct if and only if every scope of the parts it has
      is sound: lettered and plain numbers never meet. */
  lemma DocumentDistinctIff(middle: Option<Element>, back: Option<Element>)
    ensures NumbersDistinct(Sections(middle, back)) <==>
            (middle.Some? ==> ScopeOk(middle.value, false)) && (back.Some? ==> ScopeOk(back.value, true))
  {
    var a := if middle.Some? then Walk(middle.value, [0], [], false, false) else [];
    var b := if back.Some? then Walk(back.value, [1], [], true, true) else [];
    PartDistinctIff(middle, back, a, b);
    DistinctMeans(a);
    DistinctMeans(b);
    DistinctMeans(a + b);
    forall x: Number ensures Occurs(a + b, x) == Occurs(a, x) + Occurs(b, x) && !(Occurs(a, x) > 0 && Occurs(b, x) > 0) {
      OccursAppend(a, b, x);
      NeverMeet(middle, back, a, b, x);
    }
  }

  lemma PartDistinctIff(middle: Option<Element>, back: Option<Element>, a: seq<SectionRef>, b: seq<SectionRef>)
    requires a == if middle.Some? then Walk(middle.value, [0], [], false, false) else []
    requires b == if back.Some? then Walk(back.value, [1], [], true, true) else []
    ensures NumbersDistinct(a) <==> (middle.Some? ==> ScopeOk(middle.value, false))
    ensures NumbersDistinct(b) <==> (back.Some? ==> ScopeOk(back.value, true))
  {
    if middle.Some? {
      DistinctIff(middle.value, [0], [], false, false);
    }
    if back.Some? {
      DistinctIff(back.value, [1], [], true, true);
    }
  }

  lemma NeverMeet(middle: Option<Element>, back: Option<Element>, a: seq<SectionRef>, b: seq<SectionRef>, x: Number)
    requires a == if middle.Some? then Walk(middle.value, [0], [], false, false) else []
    requires b == if back.Some? then Walk(back.value, [1], [], true, true) else []
    ensures !(Occurs(a, x) > 0 && Occurs(b, x) > 0)
  {
    if Occurs(a, x) > 0 && Occurs(b, x) > 0 {
      PlainCounters(middle.value, [0], [], false, |middle.value.children|, x);
      BackLetters(back.value, x);
    }
  }

  // ----- documents without numbered sections below unnumbered ones -----

  /** No numbered section anywhere below. */
  predicate Bare(e: Element) {
    forall i :: 0 <= i < |e.children| && e.children[i].tag == SectionTag ==> !e.children[i].numbered && Bare(e.children[i])
  }

  predicate Nested(e: Element) {
    forall i :: 0 <= i < |e.children| && e.children[i].tag == SectionTag ==>
      if e.children[i].numbered then Nested(e.children[i]) else Bare(e.children[i])
  }

  lemma {:induction false} BareHasNoStart(e: Element, skip: bool, n: nat)
    requires Bare(e) && n <= |e.children|
    ensures Counter(e, n) == 0 && StartsBelow(e, skip, n) == 0 && ScopesBelowOk(e, skip, n)
    decreases e, n
  {
    if n > 0 {
      BareHasNoStart(e, skip, n - 1);
      if e.children[n - 1].tag == SectionTag {
        BareHasNoStart(e.children[n - 1], false, |e.children[n - 1].children|);
      }
    }
  }

  lemma {:induction false} NestedIsSound(e: Element, skip: bool, n: nat)
    requires Nested(e) && n <= |e.children|
    ensures StartsBelow(e, skip, n) == 0 && ScopesBelowOk(e, skip, n)
    decreases e, n
  {
    if n > 0 {
      var c := e.children[n - 1];
      NestedIsSound(e, skip, n - 1);
      if c.tag == SectionTag {
        if c.numbered {
          NestedIsSound(c, false, |c.children|);
        } else {
          BareHasNoStart(c, false, |c.children|);
        }
      }
    }
  }

  /** As RFC 7991 section 2.46.2 asks: with no numbered section below an unnumbered one the
      numbers are distinct. */
  lemma ConformingNumbersDistinct(middle: Option<Element>, back: Option<Element>)
    requires middle.Some? ==> Nested(middle.value)
    requires back.Some? ==> Nested(back.value)
    ensures NumbersDistinct(Sections(middle, back))
  {
    if middle.Some? {
      NestedIsSound(middle.value, false, |middle.value.children|);
    }
    if back.Some? {
      NestedIsSound(back.value, true, |back.value.children|);
    }
    DocumentDistinctIff(middle, back);
  }

  /** Without it they may collide: a numbered section, and one inside an unnumbered section. */
  lemma NumbersMayCollide()
    ensures var inner := Element(SectionTag, true, []);
            var middle := Element(OtherTag, true, [inner, Element(SectionTag, false, [inner])]);
            !NumbersDistinct(Walk(middle, [0], [], false, false))
  {
    var inner := Element(SectionTag, true, []);
    var preface := Element(SectionTag, false, [inner]);
    var middle := Element(OtherTag, true, [inner, preface]);
    assert Counter(preface, 1) == 1 && Starts(preface, false) >= 1;
    assert Counter(middle, 1) == 1 && Counter(middle, 2) == 1;
    assert StartsBelow(middle, false, 2) == StartsBelow(middle, false, 1) + Starts(preface, false);
    DistinctIff(middle, [0], [], false, false);
  }
}
