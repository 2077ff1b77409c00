/** What every serial run of the builtin oracle keeps. */
module DirectoryProperties {
  import opened Values
  import opened Sequences
  import opened CacheKeys
  import opened Directories

  // ---- The collection

  /** No document, read as a query, selects an earlier one. */
  ghost predicate NonSubsuming(docs: seq<Document>) {
    forall i, j | 0 <= i < j < |docs| :: !Selects(QueryOf(docs[j]), docs[i])
  }

  lemma DeleteKeepsNonSubsuming(docs: seq<Document>, at: nat)
    requires NonSubsuming(docs)
    ensures NonSubsuming(Without(docs, at))
  {
  }

  lemma StepKeepsNonSubsuming(dir: Directory, ttl: int, c: Call)
    requires NonSubsuming(dir.parties)
    ensures NonSubsuming(Step(dir, ttl, c).parties)
  {
    if c.DisassociateCall? {
      DeleteKeepsNonSubsuming(dir.parties, Find(dir.parties, QueryOf(DocumentOf(c.fspId, c.party))));
    }
  }

  lemma {:induction false} NonSubsumptionInvariant(dir: Directory, ttl: int, calls: seq<Call>)
    requires NonSubsuming(dir.parties)
    ensures NonSubsuming(Run(dir, ttl, calls).parties)
    decreases |calls|
  {
    if calls != [] {
      StepKeepsNonSubsuming(dir, ttl, calls[0]);
      NonSubsumptionInvariant(Step(dir, ttl, calls[0]), ttl, calls[1..]);
    }
  }

  ghost predicate NoDuplicates(docs: seq<Document>) {
    forall i, j | 0 <= i < j < |docs| :: docs[i] != docs[j]
  }

  /**
   A delete built from a stored document removes that document, at its place, and nothing else, even when other
   documents match.
   */
  lemma ExactDelete(docs: seq<Document>, at: nat)
    requires NonSubsuming(docs) && at < |docs|
    ensures Find(docs, QueryOf(docs[at])) == at
    ensures DeleteOne(docs, QueryOf(docs[at])) == docs[..at] + docs[at + 1..]
    ensures NoDuplicates(docs) && docs[at] !in DeleteOne(docs, QueryOf(docs[at]))
  {
    assert forall k | 0 <= k < |docs| :: Selects(QueryOf(docs[k]), docs[k]);
  }

  lemma DeletedForGood(docs: seq<Document>, d: Document)
    requires NonSubsuming(docs)
    ensures d !in DeleteOne(docs, QueryOf(d))
  {
    if d in docs {
      var at :| 0 <= at < |docs| && docs[at] == d;
      ExactDelete(docs, at);
    }
  }

  /** From the empty store, through any calls and faults, one disassociation takes its tuple away for good. */
  lemma DisassociationIsFinal(ttl: int, start: int, calls: seq<Call>, fspId: string, p: Party, fault: Fault)
    requires !fault.DeleteFails?
    ensures var dir := Run(Directory([], map[], start), ttl, calls);
            DocumentOf(fspId, p) !in Disassociate(dir, fspId, p, fault).1.parties
  {
    NonSubsumptionInvariant(Directory([], map[], start), ttl, calls);
    DeletedForGood(Run(Directory([], map[], start), ttl, calls).parties, DocumentOf(fspId, p));
  }

  /**
   The delete hits a document other than the one named exactly when the named one is not stored and a more specific one
   is.
   */
  lemma WildcardDeleteIff(docs: seq<Document>, d: Document)
    requires NonSubsuming(docs)
    ensures var i := Find(docs, QueryOf(d));
            i < |docs| && docs[i] != d <==> d !in docs && exists e :: e in docs && Selects(QueryOf(d), e)
  {
    var i := Find(docs, QueryOf(d));
    if d in docs {
      var at :| 0 <= at < |docs| && docs[at] == d;
      ExactDelete(docs, at);
    } else if i < |docs| {
      assert docs[i] in docs;
    }
  }

  /**
   Disassociating right after a successful association restores the collection, and forgets at most the cached answer
   for that party.
   */
  lemma DisassociateUndoesAssociate(dir: Directory, ttl: int, fspId: string, p: Party)
    requires Associate(dir, ttl, fspId, p, NoFault).0.Ok?
    ensures var after := Disassociate(Associate(dir, ttl, fspId, p, NoFault).1, fspId, p, NoFault);
            after.0.Ok? && after.1 == CacheDel(dir, p)
  {
    var d := DocumentOf(fspId, p);
    var docs := dir.parties + [d];
    assert Selects(QueryOf(d), docs[|dir.parties|]);
    assert forall k | 0 <= k < |dir.parties| :: docs[k] == dir.parties[k];
    assert Find(docs, QueryOf(d)) == |dir.parties|;
    assert DeleteOne(docs, QueryOf(d)) == dir.parties;
    assert dir.cache[CacheKey(p) := CacheEntry(Record(fspId, p), dir.now + ttl)] - {CacheKey(p)}
           == dir.cache - {CacheKey(p)};
  }

  // ---- The cache against the collection

  /** Every cached answer for a fully specified party is backed by a stored document with that tuple and owner. */
  ghost predicate Coherent(dir: Directory) {
    forall p | Clean(p) && p.Full() && CacheKey(p) in dir.cache ::
      DocumentOf(dir.cache[CacheKey(p)].record.fspId, p) in dir.parties
  }

  /** A disassociation deletes nothing, or is fully specified and reaches the cache. */
  predicate Evicts(q: Party, fault: Fault) {
    fault.DeleteFails? || (q.Full() && !fault.CacheDeleteFails?)
  }

  /** Lookups and associations may be partial and may fail anywhere. */
  predicate Disciplined(c: Call) {
    match c
    case GetCall(p, _) => Clean(p)
    case AssociateCall(_, p, _) => Clean(p)
    case DisassociateCall(_, p, fault) => Clean(p) && Evicts(p, fault)
    case Wait(_) => true
  }

  lemma CacheSetKeepsCoherence(dir: Directory, ttl: int, fspId: string, q: Party)
    requires Coherent(dir) && Clean(q) && (q.Full() ==> DocumentOf(fspId, q) in dir.parties)
    ensures Coherent(CacheSet(dir, ttl, Record(fspId, q)))
  {
    forall p | Clean(p) && CacheKey(p) == CacheKey(q) ensures p == q { KeyInjective(p, q); }
  }

  lemma DisassociateKeepsCoherence(dir: Directory, fspId: string, q: Party, fault: Fault)
    requires Coherent(dir) && Clean(q) && Evicts(q, fault)
    ensures Coherent(Disassociate(dir, fspId, q, fault).1)
  {
    var after := Disassociate(dir, fspId, q, fault).1;
    forall p | Clean(p) && p.Full() && CacheKey(p) in after.cache
      ensures DocumentOf(after.cache[CacheKey(p)].record.fspId, p) in after.parties
    {
      if !fault.DeleteFails? {
        var backing := DocumentOf(dir.cache[CacheKey(p)].record.fspId, p);
        assert p != q && backing != DocumentOf(fspId, q);
        assert Selects(QueryOf(DocumentOf(fspId, q)), backing) ==> backing == DocumentOf(fspId, q);
      }
    }
  }

  /** The party with any field left out filled in. */
  function Filled(q: Party, subType: string, currency: string): Party {
    q.(partySubType := if q.partySubType.Truthy() then q.partySubType else Text(subType),
       currency := if q.currency.Truthy() then q.currency else Text(currency))
  }

  /**
   Exactly the disassociations that delete nothing, or are fully specified and reach the cache, keep every coherent
   directory coherent.
   */
  lemma DisassociateKeepsCoherenceIff(fspId: string, q: Party, fault: Fault)
    requires Clean(q)
    ensures Evicts(q, fault) <==> forall dir | Coherent(dir) :: Coherent(Disassociate(dir, fspId, q, fault).1)
  {
    if Evicts(q, fault) {
      forall dir | Coherent(dir) ensures Coherent(Disassociate(dir, fspId, q, fault).1) {
        DisassociateKeepsCoherence(dir, fspId, q, fault);
      }
    } else {
      var p := Filled(q, "x", "x");
      var d := DocumentOf(fspId, p);
      var bare := Directory([d], map[], 0);
      CacheSetKeepsCoherence(bare, 1, fspId, p);
      var dir := CacheSet(bare, 1, Record(fspId, p));
      assert Find([d], QueryOf(DocumentOf(fspId, q))) == 0;
      var after := Disassociate(dir, fspId, q, fault).1;
      assert after.parties == [];
      if !q.Full() && CacheKey(p) == CacheKey(q) { KeyInjective(p, q); }
      assert CacheKey(p) in after.cache && !Coherent(after);
    }
  }

  lemma StepKeepsCoherence(dir: Directory, ttl: int, c: Call)
    requires Coherent(dir) && Disciplined(c)
    ensures Coherent(Step(dir, ttl, c))
  {
    match c
    case GetCall(p, fault) =>
      var i := Find(dir.parties, LookupQuery(p));
      if i < |dir.parties| {
        assert p.Full() ==> dir.parties[i] == DocumentOf(dir.parties[i].fspId, p);
        CacheSetKeepsCoherence(dir, ttl, dir.parties[i].fspId, p);
      }
    case AssociateCall(f, p, fault) =>
      var inserted := dir.(parties := dir.parties + [DocumentOf(f, p)]);
      CacheSetKeepsCoherence(inserted, ttl, f, p);
    case DisassociateCall(f, p, fault) => DisassociateKeepsCoherence(dir, f, p, fault);
    case Wait(_) =>
  }

  lemma {:induction false} CoherenceInvariant(dir: Directory, ttl: int, calls: seq<Call>)
    requires Coherent(dir) && forall c | c in calls :: Disciplined(c)
    ensures Coherent(Run(dir, ttl, calls))
    decreases |calls|
  {
    if calls != [] {
      StepKeepsCoherence(dir, ttl, calls[0]);
      CoherenceInvariant(Step(dir, ttl, calls[0]), ttl, calls[1..]);
    }
  }

  ghost predicate Owns(docs: seq<Document>, f: string, p: Party) {
    exists d :: d in docs && d.fspId == f && Selects(LookupQuery(p), d)
  }

  ghost predicate SingleOwner(docs: seq<Document>, p: Party) {
    forall f, g | Owns(docs, f, p) && Owns(docs, g, p) :: f == g
  }

  lemma DirectLookupIsOwner(docs: seq<Document>, p: Party)
    ensures DirectLookup(docs, p).Some? ==> Owns(docs, DirectLookup(docs, p).value, p)
    ensures DirectLookup(docs, p).None? <==> !exists f :: Owns(docs, f, p)
  {
    var i := Find(docs, LookupQuery(p));
    if i < |docs| {
      assert docs[i] in docs;
      assert Owns(docs, docs[i].fspId, p);
    }
  }

  /**
   Answers under a fully specified party come from live documents: some owner if there is one, null exactly if there is
   none.
   */
  lemma ExactLookupIsLive(dir: Directory, ttl: int, calls: seq<Call>, p: Party)
    requires dir.cache == map[] && (forall c | c in calls :: Disciplined(c)) && Clean(p) && p.Full()
    ensures var after := Run(dir, ttl, calls);
            var reply := GetParticipantFspId(after, ttl, p, NoFault).0;
            reply.Ok? && (if reply.value.Some? then Owns(after.parties, reply.value.value, p)
                          else !exists f :: Owns(after.parties, f, p))
  {
    CoherenceInvariant(dir, ttl, calls);
    var after := Run(dir, ttl, calls);
    DirectLookupIsOwner(after.parties, p);
    if CacheGet(after, p).Some? {
      assert Selects(LookupQuery(p), DocumentOf(CacheGet(after, p).value, p));
    }
  }

  /**
   Over one collection, every coherent cache answers a full party as the collection would exactly when the party has at
   most one owner.
   */
  lemma CacheIsTransparentIff(docs: seq<Document>, ttl: int, p: Party)
    requires Clean(p) && p.Full()
    ensures SingleOwner(docs, p) <==>
            forall dir: Directory | dir.parties == docs && Coherent(dir) ::
              GetParticipantFspId(dir, ttl, p, NoFault).0 == Ok(DirectLookup(docs, p))
  {
    DirectLookupIsOwner(docs, p);
    if SingleOwner(docs, p) {
      forall dir: Directory | dir.parties == docs && Coherent(dir)
        ensures GetParticipantFspId(dir, ttl, p, NoFault).0 == Ok(DirectLookup(docs, p))
      {
        if CacheGet(dir, p).Some? {
          assert Selects(LookupQuery(p), DocumentOf(CacheGet(dir, p).value, p));
          assert Owns(docs, CacheGet(dir, p).value, p);
        }
      }
    } else {
      var f, g :| Owns(docs, f, p) && Owns(docs, g, p) && f != g;
      var other := if DirectLookup(docs, p) == Some(f) then g else f;
      var d :| d in docs && d.fspId == other && Selects(LookupQuery(p), d);
      assert d == DocumentOf(other, p);
      var bare := Directory(docs, map[], 0);
      CacheSetKeepsCoherence(bare, 1, other, p);
      var dir := CacheSet(bare, 1, Record(other, p));
      assert GetParticipantFspId(dir, ttl, p, NoFault).0 == Ok(Some(other));
    }
  }

  /**
   Without discipline the cache lies: a disassociation that leaves the currency out deletes the document and not its
   cached answer.
   */
  lemma PartialDisassociationLeavesStaleAnswer(ttl: int)
    requires ttl > 0
    ensures var p := Party("MSISDN", "1", Text("PERSONAL"), Text("USD"));
            var calls := [AssociateCall("a", p, NoFault), DisassociateCall("a", p.(currency := Null), NoFault)];
            var after := Run(Directory([], map[], 0), ttl, calls);
            after.parties == [] && GetParticipantFspId(after, ttl, p, NoFault).0 == Ok(Some("a"))
  {
    var p := Party("MSISDN", "1", Text("PERSONAL"), Text("USD"));
    var q := p.(currency := Null);
    var calls := [AssociateCall("a", p, NoFault), DisassociateCall("a", q, NoFault)];
    var first := Step(Directory([], map[], 0), ttl, calls[0]);
    assert Run(Directory([], map[], 0), ttl, calls) == Run(first, ttl, [calls[1]]) == Step(first, ttl, calls[1]);
    assert Find(first.parties, QueryOf(DocumentOf("a", q))) == 0;
    if CacheKey(p) == CacheKey(q) { KeyInjective(p, q); }
  }
}
