/** One reservation applied to the usage of a corpus and of the document it names. */
module CorpusUpdates {
  import opened Basics
  import opened EgressContracts
  import opened Accounts
  import opened OrderIndependence
  import opened Snapshots
  import opened AccountUpdates
  import opened ScopeUpdates
  import Maps

  ghost predicate Ordered(us: seq<DocumentUsage>) {
    forall i, j :: 0 <= i < j < |us| ==> us[i].document < us[j].document
  }

  /** The documents below the one charged, that document if it has an account, and the rest. */
  predicate SplitAt(us: seq<DocumentUsage>, document: Id, before: seq<DocumentUsage>, own: seq<DocumentUsage>, rest: seq<DocumentUsage>) {
    && us == before + own + rest && |own| <= 1
    && (forall v <- before :: v.document < document)
    && (forall v <- own :: v.document == document)
    && (forall v <- rest :: document < v.document)
  }

  lemma DocumentsOrdered(us: seq<DocumentUsage>, before: seq<DocumentUsage>, own: seq<DocumentUsage>, rest: seq<DocumentUsage>, u: DocumentUsage)
    requires Ordered(us) && SplitAt(us, u.document, before, own, rest)
    ensures Ordered(before + [u] + rest)
  {
    var n := |before| + |own|;
    forall i, j | 0 <= i < j < |rest| ensures rest[i].document < rest[j].document {
      assert us[n + i] == rest[i] && us[n + j] == rest[j];
    }
    forall i, j | 0 <= i < j < |before| ensures before[i].document < before[j].document {
      assert us[i] == before[i] && us[j] == before[j];
    }
  }

  lemma DocumentKept(us: seq<DocumentUsage>, v: DocumentUsage, c: CorpusBook, e: Entry, after: map<CorpusKey, Priced>)
    requires after == PostCorpus(c, e).accounts
    requires DocumentsRepresent(us, c.accounts) && v in us && v.document != e.document
    ensures DocumentOf(v.document) in after && Holds(v.unique, At(after, DocumentOf(v.document)))
  {
    ChargeAt(c.accounts, CorpusTouch(e), Price(e.facts), DocumentOf(v.document));
  }

  lemma DocumentsListed(us: seq<DocumentUsage>, before: seq<DocumentUsage>, own: seq<DocumentUsage>, rest: seq<DocumentUsage>, u: DocumentUsage,
                        c: CorpusBook, e: Entry, after: map<CorpusKey, Priced>)
    requires after == PostCorpus(c, e).accounts && u.document == e.document
    requires DocumentsRepresent(us, c.accounts) && SplitAt(us, e.document, before, own, rest)
    ensures forall k <- after :: k.DocumentOf? ==> exists v :: v in before + [u] + rest && v.document == k.document
  {
    forall k <- after | k.DocumentOf? ensures exists v :: v in before + [u] + rest && v.document == k.document {
      if k.document == e.document {
        assert u in before + [u] + rest;
      } else {
        var v :| v in us && v.document == k.document;
        assert v in before + [u] + rest;
      }
    }
  }

  lemma DocumentsHeld(us: seq<DocumentUsage>, before: seq<DocumentUsage>, own: seq<DocumentUsage>, rest: seq<DocumentUsage>, u: DocumentUsage,
                      c: CorpusBook, e: Entry, after: map<CorpusKey, Priced>)
    requires after == PostCorpus(c, e).accounts && u.document == e.document
    requires DocumentsRepresent(us, c.accounts) && SplitAt(us, e.document, before, own, rest)
    requires Holds(u.unique, At(after, DocumentOf(e.document)))
    ensures forall v <- before + [u] + rest :: DocumentOf(v.document) in after && Holds(v.unique, At(after, DocumentOf(v.document)))
  {
    forall v <- before + [u] + rest ensures DocumentOf(v.document) in after && Holds(v.unique, At(after, DocumentOf(v.document))) {
      if v.document == e.document {
        assert v == u;
        ChargeAt(c.accounts, CorpusTouch(e), Price(e.facts), DocumentOf(e.document));
      } else {
        assert v in before || v in rest;
        DocumentKept(us, v, c, e, after);
      }
    }
  }

  lemma DocumentsUpserted(us: seq<DocumentUsage>, before: seq<DocumentUsage>, own: seq<DocumentUsage>, rest: seq<DocumentUsage>, u: DocumentUsage,
                          c: CorpusBook, e: Entry, after: map<CorpusKey, Priced>)
    requires after == PostCorpus(c, e).accounts && u.document == e.document
    requires DocumentsRepresent(us, c.accounts) && SplitAt(us, e.document, before, own, rest)
    requires Holds(u.unique, At(after, DocumentOf(e.document)))
    ensures DocumentsRepresent(before + [u] + rest, after)
  {
    DocumentsListed(us, before, own, rest, u, c, e, after);
    DocumentsHeld(us, before, own, rest, u, c, e, after);
    DocumentsOrdered(us, before, own, rest, u);
  }

  method SplitDocuments(us: seq<DocumentUsage>, document: Id)
    returns (before: seq<DocumentUsage>, own: seq<DocumentUsage>, rest: seq<DocumentUsage>)
    requires Ordered(us)
    ensures SplitAt(us, document, before, own, rest)
  {
    var i := 0;
    while i < |us| && us[i].document < document
      invariant 0 <= i <= |us|
      invariant forall j :: 0 <= j < i ==> us[j].document < document
    {
      i := i + 1;
    }
    if i < |us| && us[i].document == document {
      before, own, rest := us[..i], [us[i]], us[i+1..];
    } else {
      before, own, rest := us[..i], [], us[i..];
    }
  }

  lemma OwnAccount(us: seq<DocumentUsage>, before: seq<DocumentUsage>, own: seq<DocumentUsage>, rest: seq<DocumentUsage>, c: CorpusBook, document: Id)
    requires DocumentsRepresent(us, c.accounts) && SplitAt(us, document, before, own, rest)
    ensures Holds(if own == [] then NOTHING else own[0].unique, At(c.accounts, DocumentOf(document)))
  {
    if own == [] {
      assert forall v <- us :: v in before || v in rest;
    } else {
      assert own[0] in us;
    }
  }

  /** The document's account, counted by first sight, checked, and put back in id order. */
  method ApplyDocumentUsage(us: seq<DocumentUsage>, e: Entry, caps: CapSnapshot, ghost c: CorpusBook) returns (r: Result<seq<DocumentUsage>>)
    requires DocumentsRepresent(us, c.accounts)
    ensures Outcome(r) == UniqueFault(At(PostCorpus(c, e).accounts, DocumentOf(e.document)), caps.documentUnique, DocumentAccount)
    ensures r.Ok? ==> DocumentsRepresent(r.value, PostCorpus(c, e).accounts)
  {
    ghost var p := At(c.accounts, DocumentOf(e.document));
    var before, own, rest := SplitDocuments(us, e.document);
    OwnAccount(us, before, own, rest, c, e.document);
    var unique := CountUnseen(if own == [] then NOTHING else own[0].unique, e.facts, p);
    CheckUniqueDecides(unique, Price(e.facts) + p, caps.documentUnique, DocumentAccount);
    var fault := CheckUnique(unique, caps.documentUnique, DocumentAccount);
    if fault.Some? {
      return Err(fault.value);
    }
    var u := DocumentUsage(e.document, unique);
    DocumentsUpserted(us, before, own, rest, u, c, e, PostCorpus(c, e).accounts);
    r := Ok(before + [u] + rest);
  }

  method ApplyCorpusUsage(existing: Option<CorpusUsage>, e: Entry, policy: Policy, caps: CapSnapshot, ghost c: CorpusBook)
    returns (r: Result<CorpusUsage>)
    requires existing.None? ==> c == EmptyCorpus(e.corpus, policy)
    requires existing.Some? ==> CorpusRepresents(existing.value, c)
    ensures Outcome(r) == CorpusFault(c, e, policy, caps)
    ensures r.Ok? ==> CorpusRepresents(r.value, PostCorpus(c, e))
  {
    var u := if existing.Some? then existing.value else CorpusUsage(e.corpus, policy, NOTHING, []);
    if u.corpus != e.corpus {
      return Err(CorpusUsageMismatch);
    }
    if u.policy != policy {
      return Err(PolicyMismatch);
    }
    ghost var p := At(c.accounts, Whole);
    var unique := CountUnseen(u.unique, e.facts, p);
    CheckUniqueDecides(unique, Price(e.facts) + p, caps.corpusUnique, CorpusAccount);
    var fault := CheckUnique(unique, caps.corpusUnique, CorpusAccount);
    if fault.Some? {
      return Err(fault.value);
    }
    var documents := ApplyDocumentUsage(u.documents, e, caps, c);
    if documents.Err? {
      return Err(documents.code);
    }
    r := Ok(CorpusUsage(e.corpus, policy, unique, documents.value));
  }
}
