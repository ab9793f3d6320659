/** Reading an RFC tree: which section owns which block, and how sections are numbered.
    Elements are told apart by their paths from the root. */
module SectionTree {
  import opened Basics
  import opened Sequences

  datatype Tag = SectionTag | Paragraph | Listing | LabelTag | Item | TableTag | OtherTag
  datatype Element = Element(tag: Tag, numbered: bool, children: seq<Element>)

  type Path = seq<nat>

  // ----- ownership -----

  datatype Unit = Prose | Tables
  datatype Verdict = Skip | Yield | Descend

  /** A list item or definition body whose prose is not wrapped in a paragraph. */
  predicate Unwrapped(e: Element) {
    e.tag == Item && forall i :: 0 <= i < |e.children| ==> e.children[i].tag != Paragraph
  }

  /** What the reader of one kind of unit does with an element it meets. */
  function Judge(unit: Unit, e: Element): Verdict {
    if e.tag == SectionTag then Skip
    else if unit == Tables then if e.tag == TableTag then Yield else Descend
    else if e.tag == Paragraph || e.tag == Listing then Yield
    else if e.tag == LabelTag then Skip
    else if Unwrapped(e) then Yield
    else Descend
  }

  /** The units a section (or any element) owns, in document order. */
  function Owned(unit: Unit, e: Element, at: Path): seq<Path>
    decreases e, |e.children| + 1
  {
    OwnedIn(unit, e, at, |e.children|)
  }

  function OwnedIn(unit: Unit, e: Element, at: Path, n: nat): seq<Path>
    requires n <= |e.children|
    decreases e, n
  {
    if n == 0 then [] else OwnedIn(unit, e, at, n - 1) + OwnedBy(unit, e.children[n - 1], at + [n - 1])
  }

  function OwnedBy(unit: Unit, c: Element, at: Path): seq<Path>
    decreases c, |c.children| + 2
  {
    match Judge(unit, c)
    case Skip => []
    case Yield => [at]
    case Descend => Owned(unit, c, at)
  }

  /** The element a relative path leads to. */
  function Sub(e: Element, path: Path): Option<Element>
    decreases |path|
  {
    if path == [] then Some(e)
    else if path[0] < |e.children| then Sub(e.children[path[0]], path[1..])
    else None
  }

  /** Reachable from `e` by passing only elements the reader descends into. */
  predicate Yielded(unit: Unit, e: Element, path: Path)
    decreases |path|
  {
    && path != [] && path[0] < |e.children|
    && var c := e.children[path[0]];
       if |path| == 1 then Judge(unit, c) == Yield else Judge(unit, c) == Descend && Yielded(unit, c, path[1..])
  }

  /** The blocks a reader takes: tables; or paragraphs and listings, and list items whose prose is
      not wrapped in a paragraph of their own. */
  predicate Taken(unit: Unit, e: Element) {
    match unit
    case Tables => e.tag == TableTag
    case Prose => e.tag == Paragraph || e.tag == Listing || (e.tag == Item && !exists c :: c in e.children && c.tag == Paragraph)
  }

  /** What hides its content from a reader: a section; for prose a label too; and any block that
      is taken whole. */
  predicate Hides(unit: Unit, e: Element) {
    e.tag == SectionTag || (unit == Prose && e.tag == LabelTag) || Taken(unit, e)
  }

  lemma JudgedExactly(unit: Unit, e: Element)
    ensures Judge(unit, e) == Yield <==> Taken(unit, e)
    ensures Judge(unit, e) == Descend <==> !Hides(unit, e)
  {
    if exists c :: c in e.children && c.tag == Paragraph {
      var c :| c in e.children && c.tag == Paragraph;
      var i :| 0 <= i < |e.children| && e.children[i] == c;
    }
  }

  /** The same in terms of the elements on the way: the last is taken, and nothing between hides
      its content. */
  lemma {:induction false} YieldedMeans(unit: Unit, e: Element, path: Path)
    ensures Yielded(unit, e, path) <==>
            && path != [] && Sub(e, path).Some? && Taken(unit, Sub(e, path).value)
            && forall i :: 0 < i < |path| ==> Sub(e, path[..i]).Some? && !Hides(unit, Sub(e, path[..i]).value)
    decreases |path|
  {
    if path != [] && path[0] < |e.children| {
      var c, rest := e.children[path[0]], path[1..];
      JudgedExactly(unit, c);
      YieldedMeans(unit, c, rest);
      forall i | 0 < i < |path| ensures Sub(e, path[..i]) == Sub(c, rest[..i - 1]) {
        assert path[..i][1..] == rest[..i - 1];
      }
      if |path| > 1 {
        forall i | 0 < i < |rest| ensures Sub(c, rest[..i]) == Sub(e, path[..i + 1]) {
          assert path[..i + 1][1..] == rest[..i];
        }
        assert rest[..0] == [] && Sub(e, path[..1]) == Some(c);
      }
    } else if path != [] {
      assert Sub(e, path).None?;
    }
  }

  lemma {:induction false} OwnedInMeans(unit: Unit, e: Element, at: Path, n: nat, q: Path)
    requires n <= |e.children|
    ensures q in OwnedIn(unit, e, at, n) <==>
            at <= q && |at| < |q| && q[|at|] < n && Yielded(unit, e, q[|at|..])
    decreases e, n
  {
    if n > 0 {
      OwnedInMeans(unit, e, at, n - 1, q);
      OwnedByMeans(unit, e.children[n - 1], at + [n - 1], q);
      if at <= q && |at| < |q| && q[|at|] == n - 1 {
        assert at + [n - 1] <= q;
        assert q[|at|..][1..] == q[|at| + 1..];
        if |q| == |at| + 1 {
          assert q == at + [n - 1];
        }
      }
    }
  }

  lemma {:induction false} OwnedByMeans(unit: Unit, c: Element, at: Path, q: Path)
    ensures q in OwnedBy(unit, c, at) <==>
            at <= q && if q == at then Judge(unit, c) == Yield else Judge(unit, c) == Descend && Yielded(unit, c, q[|at|..])
    decreases c, |c.children| + 2
  {
    if Judge(unit, c) == Descend {
      OwnedInMeans(unit, c, at, |c.children|, q);
    }
  }

  lemma OwnedYielded(unit: Unit, e: Element, at: Path, q: Path)
    ensures q in Owned(unit, e, at) <==> at < q && Yielded(unit, e, q[|at|..])
  {
    OwnedInMeans(unit, e, at, |e.children|, q);
  }

  /** Exactly the units an element owns: the blocks taken below it that nothing on the way hides. */
  lemma OwnedMeans(unit: Unit, e: Element, at: Path, rel: Path)
    ensures at + rel in Owned(unit, e, at) <==>
            && rel != [] && Sub(e, rel).Some? && Taken(unit, Sub(e, rel).value)
            && forall i :: 0 < i < |rel| ==> Sub(e, rel[..i]).Some? && !Hides(unit, Sub(e, rel[..i]).value)
    ensures forall q <- Owned(unit, e, at) :: at < q
  {
    OwnedYielded(unit, e, at, at + rel);
    assert (at + rel)[|at|..] == rel;
    YieldedMeans(unit, e, rel);
    forall q <- Owned(unit, e, at) ensures at < q {
      OwnedYielded(unit, e, at, q);
    }
  }

  /** Earlier in the document, and neither inside the other. */
  predicate LeftOf(a: Path, b: Path) {
    exists k :: 0 <= k < |a| && k < |b| && a[..k] == b[..k] && a[k] < b[k]
  }

  ghost predicate InOrder(ps: seq<Path>) {
    forall i, j :: 0 <= i < j < |ps| ==> LeftOf(ps[i], ps[j])
  }

  lemma LeftBranch(at: Path, i: nat, j: nat, a: Path, b: Path)
    requires at + [i] <= a && at + [j] <= b && i < j
    ensures LeftOf(a, b)
  {
    assert a[..|at|] == at == b[..|at|];
    assert a[|at|] == (at + [i])[|at|] && b[|at|] == (at + [j])[|at|];
  }

  lemma {:induction false} OwnedLeftToRight(unit: Unit, e: Element, at: Path, n: nat)
    requires n <= |e.children|
    ensures InOrder(OwnedIn(unit, e, at, n))
    decreases e, n
  {
    if n > 0 {
      var before, last := OwnedIn(unit, e, at, n - 1), OwnedBy(unit, e.children[n - 1], at + [n - 1]);
      OwnedLeftToRight(unit, e, at, n - 1);
      var c := e.children[n - 1];
      if Judge(unit, c) == Descend {
        OwnedLeftToRight(unit, c, at + [n - 1], |c.children|);
        assert last == Owned(unit, c, at + [n - 1]) == OwnedIn(unit, c, at + [n - 1], |c.children|);
      } else {
        assert |last| <= 1;
      }
      forall a, b | a in before && b in last ensures LeftOf(a, b) {
        OwnedInMeans(unit, e, at, n - 1, a);
        OwnedByMeans(unit, e.children[n - 1], at + [n - 1], b);
        assert at + [a[|at|]] <= a;
        LeftBranch(at, a[|at|], n - 1, a, b);
      }
    }
  }

  /** Being left of another excludes being it, holding it, or lying inside it. */
  lemma LeftOfIsApart(a: Path, b: Path)
    requires LeftOf(a, b)
    ensures a != b && !(a <= b) && !(b <= a)
  {
    var k :| 0 <= k < |a| && k < |b| && a[..k] == b[..k] && a[k] < b[k];
  }

  /** Units come in document order, each once, and none lies inside another. */
  lemma OwnedInOrder(unit: Unit, e: Element, at: Path)
    ensures var ps := Owned(unit, e, at);
            forall i, j :: 0 <= i < j < |ps| ==> LeftOf(ps[i], ps[j]) && ps[i] != ps[j] && !(ps[i] <= ps[j]) && !(ps[j] <= ps[i])
  {
    var ps := Owned(unit, e, at);
    OwnedLeftToRight(unit, e, at, |e.children|);
    forall i, j | 0 <= i < j < |ps| ensures LeftOf(ps[i], ps[j]) && ps[i] != ps[j] && !(ps[i] <= ps[j]) && !(ps[j] <= ps[i]) {
      LeftOfIsApart(ps[i], ps[j]);
    }
  }

  lemma {:induction false} SubAppend(e: Element, a: Path, b: Path)
    ensures Sub(e, a + b) == match Sub(e, a) case Some(s) => Sub(s, b) case None => None
    decreases |a|
  {
    if a == [] {
      assert a + b == b;
    } else if a[0] < |e.children| {
      assert (a + b)[1..] == a[1..] + b;
      SubAppend(e.children[a[0]], a[1..], b);
    }
  }

  /** No unit belongs to two sections: the inner one would stand in the outer one's way. */
  lemma OwnedByOneSection(unit: Unit, root: Element, s: Path, t: Path, q: Path)
    requires Sub(root, s).Some? && Sub(root, s).value.tag == SectionTag
    requires Sub(root, t).Some? && Sub(root, t).value.tag == SectionTag
    requires q in Owned(unit, Sub(root, s).value, s) && q in Owned(unit, Sub(root, t).value, t)
    ensures s == t
  {
    OwnedYielded(unit, Sub(root, s).value, s, q);
    OwnedYielded(unit, Sub(root, t).value, t, q);
    NoSectionBetween(unit, root, s, t, q);
    NoSectionBetween(unit, root, t, s, q);
    assert s == q[..|s|] && t == q[..|t|];
  }

  lemma NoSectionBetween(unit: Unit, root: Element, s: Path, t: Path, q: Path)
    requires Sub(root, s).Some? && Sub(root, t).Some? && Sub(root, t).value.tag == SectionTag
    requires s < q && t < q && Yielded(unit, Sub(root, s).value, q[|s|..])
    ensures |t| <= |s|
  {
    if |s| < |t| {
      var rel := q[|s|..];
      var i := |t| - |s|;
      YieldedMeans(unit, Sub(root, s).value, rel);
      assert t == s + rel[..i];
      SubAppend(root, s, rel[..i]);
    }
  }

  /** A unit is owned by its nearest enclosing section exactly when nothing on the way hides it. */
  lemma {:induction false} NearestSectionOwns(unit: Unit, root: Element, s: Path, q: Path)
    requires Sub(root, s).Some? && s < q && Sub(root, q).Some? && Taken(unit, Sub(root, q).value)
    requires forall i :: |s| < i < |q| ==> Sub(root, q[..i]).Some? && Sub(root, q[..i]).value.tag != SectionTag
    ensures q in Owned(unit, Sub(root, s).value, s) <==>
            forall i :: |s| < i < |q| ==> !Taken(unit, Sub(root, q[..i]).value) && (unit == Prose ==> Sub(root, q[..i]).value.tag != LabelTag)
  {
    var e, rel := Sub(root, s).value, q[|s|..];
    OwnedYielded(unit, e, s, q);
    YieldedMeans(unit, e, rel);
    assert q == s + rel;
    SubAppend(root, s, rel);
    forall i | |s| < i < |q| ensures Sub(root, q[..i]) == Sub(e, rel[..i - |s|]) {
      assert q[..i] == s + rel[..i - |s|];
      SubAppend(root, s, rel[..i - |s|]);
    }
    forall i | 0 < i < |rel| ensures Sub(e, rel[..i]) == Sub(root, q[..i + |s|]) {
      assert q[..i + |s|] == s + rel[..i];
      SubAppend(root, s, rel[..i]);
    }
  }
}
