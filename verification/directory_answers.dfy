/** When the builtin oracle's operations succeed and what they leave, told by the stored documents alone. */
module DirectoryAnswers {
  import opened Values
  import opened CacheKeys
  import opened Directories
  import opened Searching

  /** The given fields agree with the document's; one that is left out agrees with everything. */
  predicate Matches(d: Document, p: Party) {
    && d.partyType == p.partyType && d.partyId == p.partyId
    && (p.partySubType.Truthy() ==> d.partySubType == Some(p.partySubType.text))
    && (p.currency.Truthy() ==> d.currency == Some(p.currency.text))
  }

  /** The document says that `fspId` owns exactly `p`. */
  predicate Records(d: Document, fspId: string, p: Party) {
    && d.fspId == fspId && Matches(d, p)
    && (d.partySubType.Some? ==> p.partySubType.Truthy())
    && (d.currency.Some? ==> p.currency.Truthy())
  }

  ghost predicate Taken(docs: seq<Document>, fspId: string, p: Party) {
    exists d :: d in docs && d.fspId == fspId && Matches(d, p)
  }

  /** A lookup selects what matches; a duplicate check and a delete select what matches with the same owner. */
  lemma QueriesMatch(d: Document, fspId: string, p: Party)
    ensures Selects(LookupQuery(p), d) <==> Matches(d, p)
    ensures Selects(QueryOf(DocumentOf(fspId, p)), d) <==> d.fspId == fspId && Matches(d, p)
    ensures d == DocumentOf(fspId, p) <==> Records(d, fspId, p)
  {
  }

  lemma FoundIfTaken(docs: seq<Document>, fspId: string, p: Party)
    ensures Find(docs, QueryOf(DocumentOf(fspId, p))) < |docs| <==> Taken(docs, fspId, p)
  {
    var at := Find(docs, QueryOf(DocumentOf(fspId, p)));
    if at < |docs| {
      QueriesMatch(docs[at], fspId, p);
      assert docs[at] in docs;
    }
    forall d | d in docs && d.fspId == fspId && Matches(d, p) ensures at < |docs| { QueriesMatch(d, fspId, p); }
  }

  // ---- Associations

  predicate StoresAnswer(fault: Fault) {
    !fault.FindFails? && !fault.InsertFails? && !fault.CacheWriteFails?
  }

  /** An association succeeds exactly if its owner has no matching document and no store call fails. */
  lemma AssociateSucceedsIff(dir: Directory, ttl: int, fspId: string, p: Party, fault: Fault)
    ensures var reply := Associate(dir, ttl, fspId, p, fault).0;
            && (reply.Ok? <==> !Taken(dir.parties, fspId, p) && StoresAnswer(fault))
            && (reply == Err(AlreadyExists) <==> Taken(dir.parties, fspId, p) && !fault.FindFails?)
  {
    FoundIfTaken(dir.parties, fspId, p);
  }

  /**
   It then adds one document at the end, and the cached answer if the call gets that far; otherwise it changes nothing.
   */
  lemma AssociateLeaves(dir: Directory, ttl: int, fspId: string, p: Party, fault: Fault)
    ensures var after, d := Associate(dir, ttl, fspId, p, fault).1, DocumentOf(fspId, p);
            if Taken(dir.parties, fspId, p) || fault.FindFails? || fault.InsertFails? then after == dir
            else
              && after.now == dir.now && after.parties == dir.parties + [d] && Records(d, fspId, p)
              && after.cache == if fault.CacheWriteFails? then dir.cache
                                else dir.cache[CacheKey(p) := CacheEntry(Record(fspId, p), dir.now + ttl)]
  {
    FoundIfTaken(dir.parties, fspId, p);
  }

  // ---- Disassociations

  /** Whatever is stored, a disassociation succeeds exactly if neither of its store calls fails. */
  lemma DisassociateSucceedsIff(dir: Directory, fspId: string, p: Party, fault: Fault)
    ensures var reply := Disassociate(dir, fspId, p, fault).0;
            && (reply.Ok? <==> !fault.DeleteFails? && !fault.CacheDeleteFails?)
            && (reply.Err? ==> reply.error == Unavailable)
  {
  }

  /** The first document of the owner that matches. */
  ghost predicate IsFirstOf(docs: seq<Document>, at: nat, fspId: string, p: Party) {
    && at < |docs| && docs[at].fspId == fspId && Matches(docs[at], p)
    && forall k | 0 <= k < at :: !(docs[k].fspId == fspId && Matches(docs[k], p))
  }

  /** It takes away the owner's first matching document if there is one, and then the cached answer for the party. */
  lemma DisassociateLeaves(dir: Directory, fspId: string, p: Party, fault: Fault)
    ensures var after := Disassociate(dir, fspId, p, fault).1;
            && after.now == dir.now
            && after.cache == (if fault.DeleteFails? || fault.CacheDeleteFails? then dir.cache
                               else dir.cache - {CacheKey(p)})
            && if fault.DeleteFails? || !Taken(dir.parties, fspId, p) then after.parties == dir.parties
               else exists at: nat :: IsFirstOf(dir.parties, at, fspId, p)
                                 && after.parties == dir.parties[..at] + dir.parties[at + 1..]
  {
    FoundIfTaken(dir.parties, fspId, p);
    var at := Find(dir.parties, QueryOf(DocumentOf(fspId, p)));
    forall k | 0 <= k < |dir.parties| && k <= at { QueriesMatch(dir.parties[k], fspId, p); }
    if at < |dir.parties| { assert IsFirstOf(dir.parties, at, fspId, p); }
  }

  // ---- Lookups

  predicate IsLive(dir: Directory, p: Party) {
    CacheKey(p) in dir.cache && dir.now < dir.cache[CacheKey(p)].expires
  }

  /** The first matching document is one of `fspId`. */
  ghost predicate NamesFirst(docs: seq<Document>, p: Party, fspId: string) {
    exists at :: 0 <= at < |docs| && docs[at].fspId == fspId && Matches(docs[at], p)
                 && forall k | 0 <= k < at :: !Matches(docs[k], p)
  }

  /** What a lookup is to answer: the live cached answer, or else the owner of the first matching document. */
  ghost predicate Names(dir: Directory, p: Party, fault: Fault, fspId: string) {
    && !fault.CacheReadFails?
    && if IsLive(dir, p) then dir.cache[CacheKey(p)].record.fspId == fspId
       else !fault.FindFails? && !fault.CacheWriteFails? && NamesFirst(dir.parties, p, fspId)
  }

  lemma DirectLookupNamesFirst(docs: seq<Document>, p: Party)
    ensures forall f :: DirectLookup(docs, p) == Some(f) <==> NamesFirst(docs, p, f)
    ensures DirectLookup(docs, p).None? <==> forall d | d in docs :: !Matches(d, p)
  {
    forall d { QueriesMatch(d, "", p); }
    var at := Find(docs, LookupQuery(p));
    forall f ensures DirectLookup(docs, p) == Some(f) <==> NamesFirst(docs, p, f) {
      if NamesFirst(docs, p, f) {
        var k :| 0 <= k < |docs| && docs[k].fspId == f && Matches(docs[k], p)
                 && forall j | 0 <= j < k :: !Matches(docs[j], p);
        assert k == at;
      }
    }
    if at < |docs| { assert docs[at] in docs; }
  }

  lemma LookupAnswersIff(dir: Directory, ttl: int, p: Party, fault: Fault)
    ensures var reply := GetParticipantFspId(dir, ttl, p, fault).0;
            && (forall f :: reply == Ok(Some(f)) <==> Names(dir, p, fault, f))
            && (reply == Ok(None) <==>
                  && !fault.CacheReadFails? && !IsLive(dir, p) && !fault.FindFails?
                  && forall d | d in dir.parties :: !Matches(d, p))
  {
    DirectLookupNamesFirst(dir.parties, p);
  }

  /** A lookup changes at most the cached answer under its own key, and that only to a new answer it gives. */
  lemma LookupLeaves(dir: Directory, ttl: int, p: Party, fault: Fault)
    ensures var (reply, after) := GetParticipantFspId(dir, ttl, p, fault);
            after == if IsLive(dir, p) || reply.Err? || reply.value.None? then dir
                     else dir.(cache := dir.cache[CacheKey(p) :=
                                          CacheEntry(Record(reply.value.value, p), dir.now + ttl)])
  {
  }

  /** A cached answer is live for less than its lifetime; waiting changes nothing but the clock. */
  lemma AnswerLivesForLifetime(dir: Directory, ttl: int, fspId: string, p: Party, delay: nat)
    ensures var cached := CacheSet(dir, ttl, Record(fspId, p));
            var later := Step(cached, ttl, Wait(delay));
            && (IsLive(later, p) <==> delay < ttl)
            && later == Directory(dir.parties, cached.cache, dir.now + delay)
  {
  }

  // ---- Searches

  /** Where texts match only themselves, a search for an owner and a party shows what a query for them selects. */
  lemma ExactSearchIsQuery(d: Document, fspId: string, p: Party, matches: TextMatch)
    requires fspId != "" && p.partyId != "" && p.partyType != ""
    requires forall s, t :: matches(s, t) <==> s == t
    ensures Meets(d, Criteria(Text(fspId), Text(p.partyId), Text(p.partyType), p.partySubType, p.currency), matches)
            <==> Selects(QueryOf(DocumentOf(fspId, p)), d)
    ensures Meets(d, Criteria(Null, Text(p.partyId), Text(p.partyType), p.partySubType, p.currency), matches)
            <==> Selects(LookupQuery(p), d)
  {
    QueriesMatch(d, fspId, p);
  }

  /** A search without terms shows every document, and a further owner or party id only narrows it. */
  lemma TermsNarrow(d: Document, c: Criteria, fspId: string, partyId: string, matches: TextMatch)
    requires fspId != "" && partyId != ""
    ensures Meets(d, Criteria(Null, Null, Null, Null, Null), matches)
    ensures !c.fspId.Truthy() ==>
              (Meets(d, c.(fspId := Text(fspId)), matches) <==> Meets(d, c, matches) && d.fspId == fspId)
    ensures !c.partyId.Truthy() ==>
              (Meets(d, c.(partyId := Text(partyId)), matches) <==> Meets(d, c, matches) && matches(d.partyId, partyId))
  {
  }
}
