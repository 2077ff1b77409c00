/** From an association event to the queries that find it. */
module EndToEnd {
  import opened Values
  import opened CacheKeys
  import opened Directories
  import opened DirectoryProperties
  import opened Registries
  import opened Events
  import opened EventProperties
  import opened Batches
  import opened Writes
  import opened Redelivery

  /** The cache answers `p` with `fspId` until `deadline`. */
  ghost predicate Remembers(dir: Directory, fspId: string, p: Party, deadline: int) {
    CacheKey(p) in dir.cache && dir.cache[CacheKey(p)] == CacheEntry(Record(fspId, p), deadline)
  }

  /** A message that does not ask to write associations of `p`; parties are clean, so that keys can be told apart. */
  predicate LeavesAlone(m: Message, p: Party) {
    m.payload.Some? ==>
      && Clean(m.payload.value.party)
      && (m.name.AssociationRequestReceived? ==> m.payload.value.party != p)
      && (m.name.DisassociateRequestReceived? ==> m.payload.value.party.OrNull() != p)
  }

  function TotalDelay(turns: seq<Turn>): nat {
    if turns == [] then 0 else turns[0].delay + TotalDelay(turns[1..])
  }

  /** The clock moves by the delays of the messages that the batch gets to, and by nothing else. */
  lemma {:induction false} BatchTakesItsDelays(reg: Registry, dir: Directory, ttl: int, turns: seq<Turn>, k: nat)
    requires StopsAt(turns, k)
    ensures Process(AggregateHandler(reg, ttl), dir, turns).2.now
            == dir.now + TotalDelay(if k < |turns| then turns[..k + 1] else turns)
    decreases |turns|
  {
    if turns != [] {
      var t, reached := turns[0], if k < |turns| then turns[..k + 1] else turns;
      var start := Delayed(dir, t.delay);
      OnlyAssociationsWrite(reg, start, ttl, t.services, t.message);
      HandlerHandles(reg, ttl, dir, t);
      if k > 0 {
        StopsAtTail(turns, k);
        BatchTakesItsDelays(reg, AggregateHandler(reg, ttl)(dir, t).1, ttl, turns[1..], k - 1);
        assert reached[1..] == if k - 1 < |turns[1..]| then turns[1..][..k] else turns[1..];
      } else {
        assert reached[1..] == [];
      }
    }
  }

  lemma AssociationIsRemembered(reg: Registry, dir: Directory, ttl: int, s: Services, m: Message)
    requires HandleEvent(reg, dir, ttl, s, m).0.AssociationCreated?
    ensures m.payload.Some? && m.payload.value.ownerFspId.Truthy() && IsValid(s, m.payload.value.ownerFspId)
    ensures var p := m.payload.value.party;
            var adapter := GetOracleAdapter(reg, p.partyType, p.currency, false);
            adapter.Ok? && (adapter.value.kind.Builtin? ==>
              Remembers(HandleEvent(reg, dir, ttl, s, m).1, m.payload.value.ownerFspId.text, p, dir.now + ttl))
  {
    SuccessIsGuarded(reg, dir, ttl, s, m);
  }

  lemma LookupKeepsMemory(dir: Directory, ttl: int, q: Party, fault: Fault, fspId: string, p: Party, deadline: int)
    requires Remembers(dir, fspId, p, deadline) && dir.now < deadline && Clean(p) && Clean(q)
    ensures Remembers(GetParticipantFspId(dir, ttl, q, fault).1, fspId, p, deadline)
  {
    if CacheKey(q) == CacheKey(p) { KeyInjective(p, q); }
  }

  lemma WritesKeepMemory(dir: Directory, ttl: int, f: string, q: Party, fault: Fault, fspId: string, p: Party,
                         deadline: int)
    requires Remembers(dir, fspId, p, deadline) && Clean(p) && Clean(q) && p != q
    ensures Remembers(Associate(dir, ttl, f, q, fault).1, fspId, p, deadline)
    ensures Remembers(Disassociate(dir, f, q, fault).1, fspId, p, deadline)
  {
    if CacheKey(q) == CacheKey(p) { KeyInjective(p, q); }
  }

  lemma OwnerLookupKeepsMemory(reg: Registry, dir: Directory, ttl: int, s: Services, q: Party, fspId: string, p: Party,
                               deadline: int)
    requires Remembers(dir, fspId, p, deadline) && dir.now < deadline && Clean(p) && Clean(q)
    ensures Remembers(OwnerFromOracle(reg, dir, ttl, s, q).1, fspId, p, deadline)
  {
    LookupKeepsMemory(dir, ttl, q, s.fault, fspId, p, deadline);
  }

  lemma AssociationKeepsMemory(reg: Registry, dir: Directory, ttl: int, s: Services, m: Payload, fspId: string,
                               p: Party, deadline: int)
    requires Remembers(dir, fspId, p, deadline) && Clean(p) && Clean(m.party) && m.party != p
    ensures Remembers(HandleAssociation(reg, dir, ttl, s, m).1, fspId, p, deadline)
  {
    if m.ownerFspId.Text? { WritesKeepMemory(dir, ttl, m.ownerFspId.text, m.party, s.fault, fspId, p, deadline); }
  }

  lemma DisassociationKeepsMemory(reg: Registry, dir: Directory, ttl: int, s: Services, m: Payload, fspId: string,
                                  p: Party, deadline: int)
    requires Remembers(dir, fspId, p, deadline) && Clean(p) && Clean(m.party) && m.party.OrNull() != p
    ensures Remembers(HandleDisassociation(reg, dir, s, m).1, fspId, p, deadline)
  {
    if m.ownerFspId.Text? {
      WritesKeepMemory(dir, ttl, m.ownerFspId.text, m.party.OrNull(), s.fault, fspId, p, deadline);
    }
  }

  lemma EventKeepsMemory(reg: Registry, dir: Directory, ttl: int, s: Services, m: Message, fspId: string, p: Party,
                         deadline: int)
    requires Remembers(dir, fspId, p, deadline) && dir.now < deadline && Clean(p) && LeavesAlone(m, p)
    ensures Remembers(HandleEvent(reg, dir, ttl, s, m).1, fspId, p, deadline)
  {
    if m.payload.Some? {
      var pay := m.payload.value;
      match m.name
      case PartyQueryReceived => OwnerLookupKeepsMemory(reg, dir, ttl, s, pay.party.OrNull(), fspId, p, deadline);
      case ParticipantQueryReceived => OwnerLookupKeepsMemory(reg, dir, ttl, s, pay.party, fspId, p, deadline);
      case AssociationRequestReceived => AssociationKeepsMemory(reg, dir, ttl, s, pay, fspId, p, deadline);
      case DisassociateRequestReceived => DisassociationKeepsMemory(reg, dir, ttl, s, pay, fspId, p, deadline);
      case _ =>
    }
  }

  /**
   Until its deadline, any batch of messages that leaves `p` alone, faults and throws included, leaves the memory of
   `p`.
   */
  lemma {:induction false} BatchKeepsMemory(reg: Registry, dir: Directory, ttl: int, turns: seq<Turn>, fspId: string,
                                            p: Party, deadline: int)
    requires Remembers(dir, fspId, p, deadline) && dir.now + TotalDelay(turns) < deadline && Clean(p)
    requires forall t | t in turns :: LeavesAlone(t.message, p)
    ensures var after := Process(AggregateHandler(reg, ttl), dir, turns).2;
            Remembers(after, fspId, p, deadline) && after.now <= dir.now + TotalDelay(turns)
    decreases |turns|
  {
    if turns != [] {
      var t := turns[0];
      var start := Delayed(dir, t.delay);
      EventKeepsMemory(reg, start, ttl, t.services, t.message, fspId, p, deadline);
      OnlyAssociationsWrite(reg, start, ttl, t.services, t.message);
      HandlerHandles(reg, ttl, dir, t);
      var next := AggregateHandler(reg, ttl)(dir, t).1;
      if t.fault.Smooth? {
        BatchKeepsMemory(reg, next, ttl, turns[1..], fspId, p, deadline);
      }
    }
  }

  /** While a party is remembered, queries that reach a builtin oracle find the remembered owner. */
  lemma RememberedOwnerIsServed(reg: Registry, dir: Directory, ttl: int, s: Services, fspId: string, p: Party,
                                deadline: int)
    requires Remembers(dir, fspId, p, deadline) && dir.now < deadline && fspId != ""
    requires !s.finderFails && s.fault.NoFault?
    requires RoutesToBuiltin(reg, p.partyType, p.currency)
    ensures OwnerFromOracle(reg, dir, ttl, s, p).0 == Some(fspId)
  {
  }

  /**
   The message's event was the creation of an association, written through a builtin oracle under keys that can be told
   apart.
   */
  ghost predicate AssociatedThroughBuiltin(reg: Registry, dir: Directory, ttl: int, s: Services, m: Message) {
    && HandleEvent(reg, dir, ttl, s, m).0.AssociationCreated?
    && m.payload.Some? && Clean(m.payload.value.party)
    && RoutesToBuiltin(reg, m.payload.value.party.partyType, m.payload.value.party.currency)
  }

  /** Later messages take less than the cache's lifetime and do not write associations of `p`. */
  ghost predicate Undisturbed(turns: seq<Turn>, ttl: int, p: Party) {
    TotalDelay(turns) < ttl && forall t | t in turns :: LeavesAlone(t.message, p)
  }

  /** The stores and the finder answer, metrics do not throw, and requester and owner are valid participants. */
  predicate Answering(s: Services, requester: Field, owner: Field) {
    !s.finderFails && s.fault.NoFault? && s.throws.NoThrow? && IsValid(s, requester) && IsValid(s, owner)
  }

  /** The directory after the association and the later messages. */
  function Later(reg: Registry, dir: Directory, ttl: int, s: Services, m: Message, turns: seq<Turn>): Directory {
    Process(AggregateHandler(reg, ttl), HandleEvent(reg, dir, ttl, s, m).1, turns).2
  }

  lemma OwnerStillServed(reg: Registry, dir: Directory, ttl: int, s: Services, m: Message, turns: seq<Turn>,
                         s': Services)
    requires AssociatedThroughBuiltin(reg, dir, ttl, s, m) && Undisturbed(turns, ttl, m.payload.value.party)
    requires !s'.finderFails && s'.fault.NoFault?
    ensures m.payload.value.ownerFspId.Truthy()
    ensures OwnerFromOracle(reg, Later(reg, dir, ttl, s, m, turns), ttl, s', m.payload.value.party).0
            == Some(m.payload.value.ownerFspId.text)
  {
    var p, first := m.payload.value.party, HandleEvent(reg, dir, ttl, s, m).1;
    AssociationIsRemembered(reg, dir, ttl, s, m);
    OnlyAssociationsWrite(reg, dir, ttl, s, m);
    var fspId := m.payload.value.ownerFspId.text;
    BatchKeepsMemory(reg, first, ttl, turns, fspId, p, dir.now + ttl);
    RememberedOwnerIsServed(reg, Later(reg, dir, ttl, s, m, turns), ttl, s', fspId, p, dir.now + ttl);
  }

  /**
   After an association is created through a builtin oracle, and any batch that leaves the party alone and takes less
   than the cache's lifetime, whatever fails in it, a participant query for the same party is answered with that owner.
   */
  lemma ParticipantQueryFindsOwner(reg: Registry, dir: Directory, ttl: int, s: Services, m: Message, turns: seq<Turn>,
                                   s': Services, query: Message)
    requires AssociatedThroughBuiltin(reg, dir, ttl, s, m) && Undisturbed(turns, ttl, m.payload.value.party)
    requires query.isDomainEvent && query.payload.Some? && query.name.ParticipantQueryReceived?
    requires query.payload.value.party == m.payload.value.party
    requires Answering(s', query.payload.value.requesterFspId, m.payload.value.ownerFspId)
    ensures HandleEvent(reg, Later(reg, dir, ttl, s, m, turns), ttl, s', query).0
            == ParticipantQueryResponse(query.payload.value.requesterFspId, m.payload.value.ownerFspId,
                                        m.payload.value.party)
  {
    OwnerStillServed(reg, dir, ttl, s, m, turns, s');
  }

  /**
   So is a party query that names no destination: the owner becomes the destination, provided the association left no
   field out.
   */
  lemma PartyQueryFindsOwner(reg: Registry, dir: Directory, ttl: int, s: Services, m: Message, turns: seq<Turn>,
                             s': Services, query: Message)
    requires AssociatedThroughBuiltin(reg, dir, ttl, s, m) && Undisturbed(turns, ttl, m.payload.value.party)
    requires query.isDomainEvent && query.payload.Some? && query.name.PartyQueryReceived?
    requires query.payload.value.party.OrNull() == m.payload.value.party
             && !query.payload.value.destinationFspId.Truthy()
    requires Answering(s', query.payload.value.requesterFspId, m.payload.value.ownerFspId)
    ensures HandleEvent(reg, Later(reg, dir, ttl, s, m, turns), ttl, s', query).0
            == PartyInfoRequested(query.payload.value.requesterFspId, m.payload.value.ownerFspId,
                                  query.payload.value.party)
  {
    OwnerStillServed(reg, dir, ttl, s, m, turns, s');
  }

  /**
   A party query asks for a left-out field as null, and an association caches it as undefined.  Right after every
   successful association of `p` that lookup names the new owner exactly if `p` leaves no field out.
   */
  lemma NormalisedLookupAgreesIff(ttl: int, p: Party)
    requires ttl > 0 && Clean(p)
    ensures p.OrNull() == p <==>
            forall dir: Directory, f | Associate(dir, ttl, f, p, NoFault).0.Ok? ::
              GetParticipantFspId(Associate(dir, ttl, f, p, NoFault).1, ttl, p.OrNull(), NoFault).0 == Ok(Some(f))
  {
    if p.OrNull() != p {
      var q := p.OrNull();
      if CacheKey(p) == CacheKey(q) { KeyInjective(p, q); }
      var first := Associate(Directory([], map[], 0), ttl, "a", q, NoFault);
      assert first.1.parties == [DocumentOf("a", q)];
      assert Find(first.1.parties, QueryOf(DocumentOf("b", p))) == 1;
      var second := Associate(first.1, ttl, "b", p, NoFault);
      assert second.0.Ok? && GetParticipantFspId(second.1, ttl, q, NoFault).0 == Ok(Some("a"));
    }
  }

  // ---- Removal

  /** Neither the collection nor the cache names `fspId` for exactly `p`. */
  predicate Forgotten(dir: Directory, fspId: string, p: Party) {
    && DocumentOf(fspId, p) !in dir.parties
    && (CacheKey(p) in dir.cache ==> dir.cache[CacheKey(p)].record.fspId != fspId)
  }

  /** A message that does not ask to associate `p` with `fspId`; anything else may be associated and disassociated. */
  predicate DoesNotRestore(m: Message, fspId: string, p: Party) {
    m.payload.Some? ==>
      && Clean(m.payload.value.party)
      && (m.name.AssociationRequestReceived? ==>
            m.payload.value.party != p || m.payload.value.ownerFspId != Text(fspId))
  }

  lemma LookupKeepsForgotten(dir: Directory, ttl: int, q: Party, fault: Fault, fspId: string, p: Party)
    requires Forgotten(dir, fspId, p) && Clean(p) && p.Full() && Clean(q)
    ensures Forgotten(GetParticipantFspId(dir, ttl, q, fault).1, fspId, p)
    ensures q == p ==> GetParticipantFspId(dir, ttl, q, fault).0 != Ok(Some(fspId))
  {
    if CacheKey(q) == CacheKey(p) { KeyInjective(p, q); }
    var i := Find(dir.parties, LookupQuery(p));
    if i < |dir.parties| {
      assert dir.parties[i] == DocumentOf(dir.parties[i].fspId, p);
    }
  }

  lemma OwnerLookupKeepsForgotten(reg: Registry, dir: Directory, ttl: int, s: Services, q: Party, fspId: string,
                                  p: Party)
    requires Forgotten(dir, fspId, p) && Clean(p) && p.Full() && Clean(q)
    ensures Forgotten(OwnerFromOracle(reg, dir, ttl, s, q).1, fspId, p)
    ensures q == p && RoutesToBuiltin(reg, p.partyType, p.currency) ==>
            OwnerFromOracle(reg, dir, ttl, s, q).0 != Some(fspId)
  {
    LookupKeepsForgotten(dir, ttl, q, s.fault, fspId, p);
  }

  lemma WritesKeepForgotten(dir: Directory, ttl: int, f: string, q: Party, fault: Fault, fspId: string, p: Party)
    requires Forgotten(dir, fspId, p) && Clean(p) && p.Full() && Clean(q)
    ensures q != p || f != fspId ==> Forgotten(Associate(dir, ttl, f, q, fault).1, fspId, p)
    ensures Forgotten(Disassociate(dir, f, q, fault).1, fspId, p)
  {
    if CacheKey(q) == CacheKey(p) { KeyInjective(p, q); }
    assert DocumentOf(f, q) == DocumentOf(fspId, p) ==> q == p && f == fspId;
  }

  lemma AssociationKeepsForgotten(reg: Registry, dir: Directory, ttl: int, s: Services, m: Payload,
                                  fspId: string, p: Party)
    requires Forgotten(dir, fspId, p) && Clean(p) && p.Full() && Clean(m.party)
    requires m.party != p || m.ownerFspId != Text(fspId)
    ensures Forgotten(HandleAssociation(reg, dir, ttl, s, m).1, fspId, p)
  {
    if m.ownerFspId.Text? { WritesKeepForgotten(dir, ttl, m.ownerFspId.text, m.party, s.fault, fspId, p); }
  }

  lemma DisassociationKeepsForgotten(reg: Registry, dir: Directory, s: Services, m: Payload, fspId: string, p: Party)
    requires Forgotten(dir, fspId, p) && Clean(p) && p.Full() && Clean(m.party)
    ensures Forgotten(HandleDisassociation(reg, dir, s, m).1, fspId, p)
  {
    if m.ownerFspId.Text? { WritesKeepForgotten(dir, 0, m.ownerFspId.text, m.party.OrNull(), s.fault, fspId, p); }
  }

  lemma EventKeepsForgotten(reg: Registry, dir: Directory, ttl: int, s: Services, m: Message, fspId: string, p: Party)
    requires Forgotten(dir, fspId, p) && Clean(p) && p.Full() && DoesNotRestore(m, fspId, p)
    ensures Forgotten(HandleEvent(reg, dir, ttl, s, m).1, fspId, p)
  {
    if m.payload.Some? {
      var pay := m.payload.value;
      match m.name
      case PartyQueryReceived => OwnerLookupKeepsForgotten(reg, dir, ttl, s, pay.party.OrNull(), fspId, p);
      case ParticipantQueryReceived => OwnerLookupKeepsForgotten(reg, dir, ttl, s, pay.party, fspId, p);
      case AssociationRequestReceived => AssociationKeepsForgotten(reg, dir, ttl, s, pay, fspId, p);
      case DisassociateRequestReceived => DisassociationKeepsForgotten(reg, dir, s, pay, fspId, p);
      case _ =>
    }
  }

  /**
   Whatever fails and throws in it, and however long it takes, a batch that does not restore the association leaves it
   forgotten.
   */
  lemma {:induction false} BatchKeepsForgotten(reg: Registry, dir: Directory, ttl: int, turns: seq<Turn>,
                                               fspId: string, p: Party)
    requires Forgotten(dir, fspId, p) && Clean(p) && p.Full()
    requires forall t | t in turns :: DoesNotRestore(t.message, fspId, p)
    ensures Forgotten(Process(AggregateHandler(reg, ttl), dir, turns).2, fspId, p)
    decreases |turns|
  {
    if turns != [] {
      var t := turns[0];
      EventKeepsForgotten(reg, Delayed(dir, t.delay), ttl, t.services, t.message, fspId, p);
      HandlerHandles(reg, ttl, dir, t);
      if t.fault.Smooth? {
        BatchKeepsForgotten(reg, AggregateHandler(reg, ttl)(dir, t).1, ttl, turns[1..], fspId, p);
      }
    }
  }

  /** The message's event was the removal, through a builtin oracle, of an association of a fully specified party. */
  ghost predicate RemovedThroughBuiltin(reg: Registry, dir: Directory, ttl: int, s: Services, m: Message) {
    && HandleEvent(reg, dir, ttl, s, m).0.AssociationRemoved? && NoDuplicates(dir.parties)
    && m.payload.Some? && Clean(m.payload.value.party) && m.payload.value.party.Full()
    && RoutesToBuiltin(reg, m.payload.value.party.partyType, m.payload.value.party.currency)
  }

  lemma RemovalForgets(dir: Directory, fspId: string, p: Party, fault: Fault)
    requires NoDuplicates(dir.parties) && p.Full() && Disassociate(dir, fspId, p, fault).0.Ok?
    ensures Forgotten(Disassociate(dir, fspId, p, fault).1, fspId, p)
  {
    var d := DocumentOf(fspId, p);
    FullDropActs(dir.parties, d);
    assert d in DeleteOne(dir.parties, QueryOf(d)) ==> d in DocSet(DeleteOne(dir.parties, QueryOf(d)));
  }

  lemma RemovalIsForgotten(reg: Registry, dir: Directory, ttl: int, s: Services, m: Message)
    requires RemovedThroughBuiltin(reg, dir, ttl, s, m)
    ensures var pay := m.payload.value;
            pay.ownerFspId.Text? && Forgotten(HandleEvent(reg, dir, ttl, s, m).1, pay.ownerFspId.text, pay.party)
  {
    SuccessIsGuarded(reg, dir, ttl, s, m);
    var pay := m.payload.value;
    assert pay.party.OrNull() == pay.party;
    assert m.name.DisassociateRequestReceived?;
    var removal := Disassociate(dir, pay.ownerFspId.text, pay.party, s.fault);
    assert removal.0.Ok? && HandleEvent(reg, dir, ttl, s, m).1 == removal.1;
    RemovalForgets(dir, pay.ownerFspId.text, pay.party, s.fault);
  }

  lemma RemovedOwnerIsNotServed(reg: Registry, dir: Directory, ttl: int, s: Services, m: Message, turns: seq<Turn>,
                                s': Services)
    requires RemovedThroughBuiltin(reg, dir, ttl, s, m) && m.payload.value.ownerFspId.Text?
    requires forall t | t in turns :: DoesNotRestore(t.message, m.payload.value.ownerFspId.text, m.payload.value.party)
    ensures OwnerFromOracle(reg, Later(reg, dir, ttl, s, m, turns), ttl, s', m.payload.value.party).0
            != Some(m.payload.value.ownerFspId.text)
  {
    var p, fspId, first := m.payload.value.party, m.payload.value.ownerFspId.text, HandleEvent(reg, dir, ttl, s, m).1;
    RemovalIsForgotten(reg, dir, ttl, s, m);
    BatchKeepsForgotten(reg, first, ttl, turns, fspId, p);
    OwnerLookupKeepsForgotten(reg, Later(reg, dir, ttl, s, m, turns), ttl, s', p, fspId, p);
  }

  /** The query asks an oracle for the owner of `p`. */
  predicate AsksFor(query: Message, p: Party) {
    && query.payload.Some? && AsksOracle(query.name, query.payload.value)
    && ReadBy(query.name, query.payload.value) == p
  }

  /** An answer that names `fspId` as the owner. */
  predicate Names(e: Event, fspId: Field) {
    (e.ParticipantQueryResponse? && e.ownerFspId == fspId) || (e.PartyInfoRequested? && e.destinationFspId == fspId)
  }

  /**
   After an association of a fully specified party is removed through a builtin oracle, and any batch that does not
   restore it, whatever fails in it and however long it takes, no query for that party is answered with that owner.
   */
  lemma QueryForgetsOwner(reg: Registry, dir: Directory, ttl: int, s: Services, m: Message, turns: seq<Turn>,
                          s': Services, query: Message)
    requires RemovedThroughBuiltin(reg, dir, ttl, s, m)
    requires m.payload.value.ownerFspId.Text? ==>
             forall t | t in turns :: DoesNotRestore(t.message, m.payload.value.ownerFspId.text, m.payload.value.party)
    requires AsksFor(query, m.payload.value.party)
    ensures !Names(HandleEvent(reg, Later(reg, dir, ttl, s, m, turns), ttl, s', query).0, m.payload.value.ownerFspId)
  {
    RemovalIsForgotten(reg, dir, ttl, s, m);
    RemovedOwnerIsNotServed(reg, dir, ttl, s, m, turns, s');
  }

  lemma FillingsAreFound(fspId: string, p: Party, e: Document, f: Document)
    requires !p.Full()
    requires var d := DocumentOf(fspId, p);
             e == FilledDocument(d, "x", "x") && f == FilledDocument(d, "y", "y")
    ensures NonSubsuming([e, f]) && DirectLookup([f], p) == Some(fspId)
  {
    assert Find([f], LookupQuery(p)) == 0;
  }

  lemma UncachedLookup(docs: seq<Document>, ttl: int, p: Party)
    ensures GetParticipantFspId(Uncached(docs), ttl, p, NoFault).0 == Ok(DirectLookup(docs, p))
  {
  }

  lemma PartialRemovalKeepsOwner(ttl: int, fspId: string, p: Party) returns (dir: Directory)
    requires !p.Full()
    ensures NonSubsuming(dir.parties)
    ensures GetParticipantFspId(Disassociate(dir, fspId, p, NoFault).1, ttl, p, NoFault).0 == Ok(Some(fspId))
  {
    var d := DocumentOf(fspId, p);
    var e, f := FilledDocument(d, "x", "x"), FilledDocument(d, "y", "y");
    PartialDropRepeats(d, e, f);
    FillingsAreFound(fspId, p, e, f);
    dir := Uncached([e, f]);
    assert Disassociate(dir, fspId, p, NoFault).1 == Uncached([f]);
    UncachedLookup([f], ttl, p);
  }

  /**
   Exactly for fully specified parties does a successful removal silence the owner in every collection the oracle can
   reach.
   */
  lemma RemovalSilencesIff(ttl: int, fspId: string, p: Party)
    requires Clean(p)
    ensures p.Full() <==>
            forall dir: Directory | NonSubsuming(dir.parties) ::
              GetParticipantFspId(Disassociate(dir, fspId, p, NoFault).1, ttl, p, NoFault).0 != Ok(Some(fspId))
  {
    if p.Full() {
      forall dir: Directory | NonSubsuming(dir.parties)
        ensures GetParticipantFspId(Disassociate(dir, fspId, p, NoFault).1, ttl, p, NoFault).0 != Ok(Some(fspId))
      {
        if dir.parties != [] { ExactDelete(dir.parties, 0); }
        RemovalForgets(dir, fspId, p, NoFault);
        LookupKeepsForgotten(Disassociate(dir, fspId, p, NoFault).1, ttl, p, NoFault, fspId, p);
      }
    } else {
      var dir := PartialRemovalKeepsOwner(ttl, fspId, p);
    }
  }
}
