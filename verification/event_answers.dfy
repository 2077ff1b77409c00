/** Which event every message gets: the exact conditions for each success, and what error events say. */
module EventAnswers {
  import opened Values
  import opened Directories
  import opened DirectoryAnswers
  import opened Registries
  import opened Events
  import opened EventProperties

  predicate IsWellFormed(m: Message) {
    m.payload.Some? && m.isDomainEvent
  }

  // ---- Queries

  /** The oracle the party is routed to names the owner. */
  ghost predicate OracleNames(reg: Registry, dir: Directory, s: Services, p: Party, fspId: string) {
    var adapter := GetOracleAdapter(reg, p.partyType, p.currency, false);
    && !s.finderFails && adapter.Ok? && fspId != ""
    && if adapter.value.kind.Builtin? then Names(dir, p, s.fault, fspId) else s.remoteOwner == Ok(Some(fspId))
  }

  lemma OwnerFromOracleIff(reg: Registry, dir: Directory, ttl: int, s: Services, p: Party)
    ensures forall f :: OwnerFromOracle(reg, dir, ttl, s, p).0 == Some(f) <==> OracleNames(reg, dir, s, p, f)
  {
    LookupAnswersIff(dir, ttl, p, s.fault);
  }

  /** The success event that answers a query with the owner. */
  function OwnerEvent(name: MessageName, m: Payload, fspId: Field): Event {
    if name.ParticipantQueryReceived? then ParticipantQueryResponse(m.requesterFspId, fspId, m.party)
    else PartyInfoRequested(m.requesterFspId, fspId, m.party)
  }

  /**
   A query that asks an oracle is answered with an owner exactly if the routed oracle names that owner, requester and
   owner are valid, and nothing throws.
   */
  lemma QueryAnsweredIff(reg: Registry, dir: Directory, ttl: int, s: Services, m: Message, fspId: string)
    requires IsWellFormed(m) && AsksOracle(m.name, m.payload.value)
    ensures var pay := m.payload.value;
            HandleEvent(reg, dir, ttl, s, m).0 == OwnerEvent(m.name, pay, Text(fspId)) <==>
            && s.throws.NoThrow? && IsValid(s, pay.requesterFspId) && IsValid(s, Text(fspId))
            && OracleNames(reg, dir, s, ReadBy(m.name, pay), fspId)
  {
    OwnerFromOracleIff(reg, dir, ttl, s, ReadBy(m.name, m.payload.value));
  }

  predicate RoutesToRemote(reg: Registry, p: Party) {
    var adapter := GetOracleAdapter(reg, p.partyType, p.currency, false);
    adapter.Ok? && !adapter.value.kind.Builtin?
  }

  /**
   Through a remote oracle that is exactly the owner the oracle replies, and the builtin directory stays as it was.
   */
  lemma RemoteQueryAnsweredIff(reg: Registry, dir: Directory, ttl: int, s: Services, m: Message, fspId: string)
    requires IsWellFormed(m) && AsksOracle(m.name, m.payload.value)
    requires RoutesToRemote(reg, ReadBy(m.name, m.payload.value)) && !s.finderFails && s.throws.NoThrow?
    requires IsValid(s, m.payload.value.requesterFspId) && (fspId != "" ==> IsValid(s, Text(fspId)))
    ensures HandleEvent(reg, dir, ttl, s, m).0 == OwnerEvent(m.name, m.payload.value, Text(fspId)) <==>
            s.remoteOwner == Ok(Some(fspId)) && fspId != ""
    ensures HandleEvent(reg, dir, ttl, s, m).1 == dir
  {
    QueryAnsweredIff(reg, dir, ttl, s, m, fspId);
  }

  /** A party query that names its destination goes there exactly if both are valid, and asks no oracle. */
  lemma GivenDestinationIsKept(reg: Registry, dir: Directory, ttl: int, s: Services, m: Message)
    requires IsWellFormed(m) && m.name.PartyQueryReceived? && m.payload.value.destinationFspId.Truthy()
    ensures var pay := m.payload.value;
            HandleEvent(reg, dir, ttl, s, m).0 == OwnerEvent(m.name, pay, pay.destinationFspId) <==>
            s.throws.NoThrow? && IsValid(s, pay.requesterFspId) && IsValid(s, pay.destinationFspId)
    ensures HandleEvent(reg, dir, ttl, s, m).1 == dir
  {
  }

  /** The messages that are only passed on succeed exactly if both participants are valid. */
  lemma PassedOnIff(reg: Registry, dir: Directory, ttl: int, s: Services, m: Message)
    requires IsWellFormed(m) && (m.name.PartyInfoAvailable? || m.name.PartyRejected? || m.name.ParticipantRejected?)
    ensures !HandleEvent(reg, dir, ttl, s, m).0.Failed? <==>
            && s.throws.NoThrow? && IsValid(s, m.payload.value.requesterFspId)
            && IsValid(s, m.payload.value.destinationFspId)
    ensures HandleEvent(reg, dir, ttl, s, m).1 == dir
  {
  }

  // ---- Writes

  /** The routed oracle accepts the association. */
  ghost predicate AcceptsAssociation(reg: Registry, dir: Directory, s: Services, fspId: string, p: Party) {
    var adapter := GetOracleAdapter(reg, p.partyType, p.currency, false);
    && !s.finderFails && adapter.Ok?
    && if adapter.value.kind.Builtin? then !Taken(dir.parties, fspId, p) && StoresAnswer(s.fault) else s.remoteWrites
  }

  /** An association is created exactly if its owner is valid, the routed oracle accepts it and nothing throws. */
  lemma AssociationCreatedIff(reg: Registry, dir: Directory, ttl: int, s: Services, m: Message)
    requires IsWellFormed(m) && m.name.AssociationRequestReceived?
    ensures var pay := m.payload.value;
            HandleEvent(reg, dir, ttl, s, m).0 == AssociationCreated(pay.ownerFspId, pay.party.partyType,
                                                    pay.party.partyId, pay.party.partySubType, pay.details) <==>
            && s.throws.NoThrow? && IsValid(s, pay.ownerFspId)
            && AcceptsAssociation(reg, dir, s, pay.ownerFspId.text, pay.party)
  {
    var pay := m.payload.value;
    if pay.ownerFspId.Text? { AssociateSucceedsIff(dir, ttl, pay.ownerFspId.text, pay.party, s.fault); }
  }

  /** The routed oracle accepts the disassociation; a builtin one does so whatever is stored. */
  predicate AcceptsDisassociation(reg: Registry, s: Services, p: Party) {
    var adapter := GetOracleAdapter(reg, p.partyType, p.currency, false);
    && !s.finderFails && adapter.Ok?
    && if adapter.value.kind.Builtin? then !s.fault.DeleteFails? && !s.fault.CacheDeleteFails? else s.remoteWrites
  }

  /**
   An association is removed, from every directory alike, exactly if its owner is valid, the oracle accepts and nothing
   throws.
   */
  lemma AssociationRemovedIff(reg: Registry, dir: Directory, ttl: int, s: Services, m: Message)
    requires IsWellFormed(m) && m.name.DisassociateRequestReceived?
    ensures var pay := m.payload.value;
            HandleEvent(reg, dir, ttl, s, m).0 == AssociationRemoved(pay.ownerFspId, pay.party.partyType,
                                                    pay.party.partyId, pay.party.partySubType) <==>
            && s.throws.NoThrow? && IsValid(s, pay.ownerFspId)
            && AcceptsDisassociation(reg, s, pay.party.OrNull())
  {
    var pay := m.payload.value;
    if pay.ownerFspId.Text? { DisassociateSucceedsIff(dir, pay.ownerFspId.text, pay.party.OrNull(), s.fault); }
  }

  /** Whatever a remote oracle answers, the builtin directory stays as it was. */
  lemma RemoteMessagesLeaveDirectory(reg: Registry, dir: Directory, ttl: int, s: Services, m: Message)
    requires IsWellFormed(m) && RoutesToRemote(reg, ReadBy(m.name, m.payload.value))
    ensures HandleEvent(reg, dir, ttl, s, m).1 == dir
  {
  }

  // ---- Errors

  /** A message without payload, or of another type, is answered with the error for that, and nothing else happens. */
  lemma InvalidMessageAnswered(reg: Registry, dir: Directory, ttl: int, s: Services, m: Message)
    ensures var e := HandleEvent(reg, dir, ttl, s, m).0;
            && (m.payload.None? <==> e == Failed(InvalidMessagePayload, None))
            && (m.payload.Some? && !m.isDomainEvent ==>
                  e == Failed(InvalidMessageType, Some(m.payload.value.party.OrNull())))
    ensures !IsWellFormed(m) ==> HandleEvent(reg, dir, ttl, s, m).1 == dir
  {
    if IsWellFormed(m) { FailureHasCause(reg, dir, ttl, s, m); }
  }

  lemma LookupsIgnoreThrows(reg: Registry, dir: Directory, ttl: int, s: Services, p: Party)
    ensures OwnerFromOracle(reg, dir, ttl, s.(throws := NoThrow), p) == OwnerFromOracle(reg, dir, ttl, s, p)
  {
  }

  lemma PartyQueryIgnoresThrows(reg: Registry, dir: Directory, ttl: int, s: Services, m: Payload)
    ensures HandlePartyQuery(reg, dir, ttl, s.(throws := NoThrow), m).1 == HandlePartyQuery(reg, dir, ttl, s, m).1
  {
    LookupsIgnoreThrows(reg, dir, ttl, s, m.party.OrNull());
  }

  lemma ParticipantQueryIgnoresThrows(reg: Registry, dir: Directory, ttl: int, s: Services, m: Payload)
    ensures HandleParticipantQuery(reg, dir, ttl, s.(throws := NoThrow), m).1
            == HandleParticipantQuery(reg, dir, ttl, s, m).1
  {
    LookupsIgnoreThrows(reg, dir, ttl, s, m.party);
  }

  lemma WritesIgnoreThrows(reg: Registry, dir: Directory, ttl: int, s: Services, m: Payload)
    ensures HandleAssociation(reg, dir, ttl, s.(throws := NoThrow), m) == HandleAssociation(reg, dir, ttl, s, m)
    ensures HandleDisassociation(reg, dir, s.(throws := NoThrow), m) == HandleDisassociation(reg, dir, s, m)
  {
  }

  lemma DispatchIgnoresThrows(reg: Registry, dir: Directory, ttl: int, s: Services, name: MessageName, m: Payload)
    ensures Dispatch(reg, dir, ttl, s.(throws := NoThrow), name, m).1 == Dispatch(reg, dir, ttl, s, name, m).1
  {
    match name
    case PartyQueryReceived => PartyQueryIgnoresThrows(reg, dir, ttl, s, m);
    case ParticipantQueryReceived => ParticipantQueryIgnoresThrows(reg, dir, ttl, s, m);
    case AssociationRequestReceived => WritesIgnoreThrows(reg, dir, ttl, s, m);
    case DisassociateRequestReceived => WritesIgnoreThrows(reg, dir, ttl, s, m);
    case _ =>
  }

  /** A throw at the start of a handler prevents its work; one at the end comes after the work, which stays done. */
  lemma ThrowKeepsWork(reg: Registry, dir: Directory, ttl: int, s: Services, m: Message)
    ensures var after := HandleEvent(reg, dir, ttl, s, m).1;
            && (s.throws.AtEntry? ==> after == dir)
            && (s.throws.AtExit? ==> after == HandleEvent(reg, dir, ttl, s.(throws := NoThrow), m).1)
  {
    if m.payload.Some? { DispatchIgnoresThrows(reg, dir, ttl, s, m.name, m.payload.value); }
  }

  /** A throw, and nothing else, is answered as an unknown error. */
  lemma ThrowAnswered(reg: Registry, dir: Directory, ttl: int, s: Services, m: Message)
    requires IsWellFormed(m)
    ensures var e := HandleEvent(reg, dir, ttl, s, m).0;
            !s.throws.NoThrow? <==> e == Failed(UnknownError, Some(m.payload.value.party.OrNull()))
  {
    FailureHasCause(reg, dir, ttl, s, m);
  }

  /** Every other error event is about the party as its handler read it. */
  lemma FailureNamesParty(reg: Registry, dir: Directory, ttl: int, s: Services, m: Message)
    requires IsWellFormed(m) && s.throws.NoThrow?
    ensures var e := HandleEvent(reg, dir, ttl, s, m).0;
            e.Failed? ==> e.about == Some(ReadBy(m.name, m.payload.value))
  {
  }
}
