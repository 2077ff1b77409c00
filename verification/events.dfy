/**
 The event state machine: every inbound message yields one domain event, and association messages change the
 builtin directory.  The functions below are what `handleEvent` and its handlers compute from the registry,
 the directory and the answers of the services they depend on.
 */
module Events {
  import opened Values
  import opened Directories
  import opened Registries

  // ---- Messages

  datatype MessageName =
    | PartyQueryReceived
    | PartyInfoAvailable
    | ParticipantQueryReceived
    | AssociationRequestReceived
    | DisassociateRequestReceived
    | PartyRejected
    | ParticipantRejected
    | OtherName(name: string)

  /**
   `details` stands for the fields that are only passed on: names, birth date, KYC data, extensions, error information.
   */
  datatype Payload = Payload(requesterFspId: Field, destinationFspId: Field, ownerFspId: Field, party: Party,
                             details: string)

  datatype Message = Message(isDomainEvent: bool, name: MessageName, payload: Option<Payload>, protocolType: string,
                             opaqueState: string)

  // ---- Events

  datatype Problem = InvalidId | NotFound | IdMismatch | NotApproved | NotActive

  datatype ErrorKind =
    | InvalidMessagePayload
    | InvalidMessageType
    | UnknownError
    | UnableToGetParticipantFromOracle
    | UnableToGetOracleAdapter
    | UnableToAssociate
    | UnableToDisassociate
    | InvalidRequester(problem: Problem)
    | InvalidDestination(problem: Problem)

  datatype Event =
    | PartyInfoRequested(requesterFspId: Field, destinationFspId: Field, party: Party)
    | PartyQueryResponse(requesterFspId: Field, destinationFspId: Field, ownerFspId: Field, party: Party,
                         details: string)
    | ParticipantQueryResponse(requesterFspId: Field, ownerFspId: Field, party: Party)
    | PartyRejectedResponse(party: Party, details: string)
    | ParticipantRejectedResponse(party: Party, details: string)
    | AssociationCreated(ownerFspId: Field, partyType: string, partyId: string, partySubType: Field, details: string)
    | AssociationRemoved(ownerFspId: Field, partyType: string, partyId: string, partySubType: Field)
    | Failed(kind: ErrorKind, about: Option<Party>)

  // ---- Dependencies

  datatype ParticipantReply = Unreachable | Unknown | Participant(id: string, approved: bool, active: bool)

  /** Where logging or metrics throw inside a handler, if they do. */
  datatype Throw = NoThrow | AtEntry | AtExit

  /** What the services answer while one message is handled. */
  datatype Services = Services(
    participants: string -> ParticipantReply,
    finderFails: bool,
    fault: Fault,                           // of the builtin oracle's stores
    remoteOwner: Result<Option<string>, ()>, // a remote oracle's reply to a lookup
    remoteWrites: bool,                      // whether a remote oracle accepts a write
    throws: Throw)

  predicate IsValid(s: Services, id: Field) {
    id.Truthy() && s.participants(id.text) == Participant(id.text, true, true)
  }

  // ---- Validators

  /** The check both validators make, in their order; they differ in the names of their error events. */
  function CheckParticipant(s: Services, id: Field): (r: Option<Problem>)
    ensures r.None? <==> IsValid(s, id)
    ensures r == Some(InvalidId) <==> !id.Truthy() || s.participants(id.text).Unreachable?
    ensures r == Some(NotFound) <==> id.Truthy() && s.participants(id.text).Unknown?
    ensures r == Some(NotApproved) <==>
            id.Truthy() && exists active :: s.participants(id.text) == Participant(id.text, false, active)
    ensures r == Some(NotActive) <==> id.Truthy() && s.participants(id.text) == Participant(id.text, true, false)
  {
    if !id.Truthy() then Some(InvalidId)
    else
      match s.participants(id.text)
      case Unreachable => Some(InvalidId)
      case Unknown => Some(NotFound)
      case Participant(found, approved, active) =>
        if found != id.text then Some(IdMismatch)
        else if !approved then Some(NotApproved)
        else if !active then Some(NotActive)
        else None
  }

  function RequesterError(s: Services, id: Field, p: Party): (r: Option<Event>)
    ensures r.None? <==> IsValid(s, id)
    ensures r.Some? ==> r.value.Failed? && r.value.kind.InvalidRequester?
  {
    var problem := CheckParticipant(s, id);
    if problem.None? then None else Some(Failed(InvalidRequester(problem.value), Some(p)))
  }

  function DestinationError(s: Services, id: Field, p: Party): (r: Option<Event>)
    ensures r.None? <==> IsValid(s, id)
    ensures r.Some? ==> r.value.Failed? && r.value.kind.InvalidDestination?
  {
    var problem := CheckParticipant(s, id);
    if problem.None? then None else Some(Failed(InvalidDestination(problem.value), Some(p)))
  }

  function MessageError(m: Message): Option<Event> {
    if m.payload.None? then Some(Failed(InvalidMessagePayload, None))
    else if !m.isDomainEvent then Some(Failed(InvalidMessageType, Some(m.payload.value.party.OrNull())))
    else None
  }

  // ---- Oracle access

  /** The owner the routed oracle names for the party; none when any step towards it throws. */
  function OwnerFromOracle(reg: Registry, dir: Directory, ttl: int, s: Services, p: Party)
    : (Option<string>, Directory)
  {
    var adapter := GetOracleAdapter(reg, p.partyType, p.currency, s.finderFails);
    if adapter.Err? then (None, dir)
    else if adapter.value.kind.Builtin? then
      var (reply, after) := GetParticipantFspId(dir, ttl, p, s.fault);
      (if reply.Ok? && reply.value.Some? && reply.value.value != "" then reply.value else None, after)
    else
      var reply := s.remoteOwner;
      (if reply.Ok? && reply.value.Some? && reply.value.value != "" then reply.value else None, dir)
  }

  // ---- Handlers

  function HandlePartyQuery(reg: Registry, dir: Directory, ttl: int, s: Services, m: Payload): (Event, Directory) {
    var p := m.party.OrNull();
    var requesterError := RequesterError(s, m.requesterFspId, p);
    if requesterError.Some? then (requesterError.value, dir)
    else
      var (owner, after) :=
        if m.destinationFspId.Truthy() then (Some(m.destinationFspId.text), dir)
        else OwnerFromOracle(reg, dir, ttl, s, p);
      if owner.None? then (Failed(UnableToGetParticipantFromOracle, Some(p)), after)
      else
        var destinationError := DestinationError(s, Text(owner.value), p);
        if destinationError.Some? then (destinationError.value, after)
        else (PartyInfoRequested(m.requesterFspId, Text(owner.value), m.party), after)
  }

  function HandleParticipantQuery(reg: Registry, dir: Directory, ttl: int, s: Services, m: Payload)
    : (Event, Directory)
  {
    var p := m.party;
    var requesterError := RequesterError(s, m.requesterFspId, p);
    if requesterError.Some? then (requesterError.value, dir)
    else
      var (owner, after) := OwnerFromOracle(reg, dir, ttl, s, p);
      if owner.None? then (Failed(UnableToGetParticipantFromOracle, Some(p)), after)
      else
        var ownerError := DestinationError(s, Text(owner.value), p);
        if ownerError.Some? then (ownerError.value, after)
        else (ParticipantQueryResponse(m.requesterFspId, Text(owner.value), p), after)
  }

  /** The three handlers that only check both participants before they pass the payload on. */
  function CheckBoth(s: Services, m: Payload, success: Event): Event {
    var p := m.party.OrNull();
    var requesterError := RequesterError(s, m.requesterFspId, p);
    if requesterError.Some? then requesterError.value
    else
      var destinationError := DestinationError(s, m.destinationFspId, p);
      if destinationError.Some? then destinationError.value else success
  }

  function HandleAssociation(reg: Registry, dir: Directory, ttl: int, s: Services, m: Payload): (Event, Directory) {
    var p := m.party;
    var ownerError := RequesterError(s, m.ownerFspId, p);
    if ownerError.Some? then (ownerError.value, dir)
    else
      var adapter := GetOracleAdapter(reg, p.partyType, p.currency, s.finderFails);
      if adapter.Err? then (Failed(UnableToGetOracleAdapter, Some(p)), dir)
      else
        var (written, after) :=
          if adapter.value.kind.Builtin? then
            var (reply, after) := Associate(dir, ttl, m.ownerFspId.text, p, s.fault); (reply.Ok?, after)
          else (s.remoteWrites, dir);
        if !written then (Failed(UnableToAssociate, Some(p)), after)
        else (AssociationCreated(m.ownerFspId, p.partyType, p.partyId, p.partySubType, m.details), after)
  }

  function HandleDisassociation(reg: Registry, dir: Directory, s: Services, m: Payload): (Event, Directory) {
    var p := m.party.OrNull();
    var ownerError := RequesterError(s, m.ownerFspId, p);
    if ownerError.Some? then (ownerError.value, dir)
    else
      var adapter := GetOracleAdapter(reg, p.partyType, p.currency, s.finderFails);
      if adapter.Err? then (Failed(UnableToGetOracleAdapter, Some(p)), dir)
      else
        var (written, after) :=
          if adapter.value.kind.Builtin? then
            var (reply, after) := Disassociate(dir, m.ownerFspId.text, p, s.fault); (reply.Ok?, after)
          else (s.remoteWrites, dir);
        if !written then (Failed(UnableToDisassociate, Some(p)), after)
        else (AssociationRemoved(m.ownerFspId, m.party.partyType, m.party.partyId, m.party.partySubType), after)
  }

  function Dispatch(reg: Registry, dir: Directory, ttl: int, s: Services, name: MessageName, m: Payload)
    : (Event, Directory)
  {
    match name
    case PartyQueryReceived => HandlePartyQuery(reg, dir, ttl, s, m)
    case PartyInfoAvailable =>
      (CheckBoth(s, m, PartyQueryResponse(m.requesterFspId, m.destinationFspId, m.ownerFspId, m.party, m.details)), dir)
    case ParticipantQueryReceived => HandleParticipantQuery(reg, dir, ttl, s, m)
    case AssociationRequestReceived => HandleAssociation(reg, dir, ttl, s, m)
    case DisassociateRequestReceived => HandleDisassociation(reg, dir, s, m)
    case PartyRejected => (CheckBoth(s, m, PartyRejectedResponse(m.party, m.details)), dir)
    case ParticipantRejected => (CheckBoth(s, m, ParticipantRejectedResponse(m.party, m.details)), dir)
    case OtherName(_) => (Failed(InvalidMessageType, Some(m.party.OrNull())), dir)
  }

  /**
   `handleEvent`: an invalid message is answered at once, and whatever a handler throws becomes an unknown-error event.
   */
  function HandleEvent(reg: Registry, dir: Directory, ttl: int, s: Services, m: Message): (Event, Directory) {
    if MessageError(m).Some? then (MessageError(m).value, dir)
    else
      var unknown := Failed(UnknownError, Some(m.payload.value.party.OrNull()));
      if s.throws.AtEntry? then (unknown, dir)
      else
        var (event, after) := Dispatch(reg, dir, ttl, s, m.name, m.payload.value);
        (if s.throws.AtExit? then unknown else event, after)
  }
}

/** What an event tells about the services' answers and the directory. */
module EventProperties {
  import opened Values
  import opened Directories
  import opened DirectoryProperties
  import opened Registries
  import opened Events

  /** The participants a success event vouches for. */
  function Vouched(m: Payload, e: Event): seq<Field> {
    match e
    case PartyInfoRequested(requester, destination, _) => [m.requesterFspId, requester, destination]
    case PartyQueryResponse(requester, destination, _, _, _) =>
      [m.requesterFspId, m.destinationFspId, requester, destination]
    case ParticipantQueryResponse(requester, owner, _) => [m.requesterFspId, requester, owner]
    case PartyRejectedResponse(_, _) => [m.requesterFspId, m.destinationFspId]
    case ParticipantRejectedResponse(_, _) => [m.requesterFspId, m.destinationFspId]
    case AssociationCreated(owner, _, _, _, _) => [m.ownerFspId, owner]
    case AssociationRemoved(owner, _, _, _) => [m.ownerFspId, owner]
    case Failed(_, _) => []
  }

  /** The success event each kind of message can lead to. */
  predicate Answers(name: MessageName, e: Event) {
    match name
    case PartyQueryReceived => e.PartyInfoRequested?
    case PartyInfoAvailable => e.PartyQueryResponse?
    case ParticipantQueryReceived => e.ParticipantQueryResponse?
    case AssociationRequestReceived => e.AssociationCreated?
    case DisassociateRequestReceived => e.AssociationRemoved?
    case PartyRejected => e.PartyRejectedResponse?
    case ParticipantRejected => e.ParticipantRejectedResponse?
    case OtherName(_) => false
  }

  /** The event repeats what the message said; a party query's destination is new only if the message named none. */
  predicate Echoes(m: Payload, e: Event) {
    match e
    case PartyInfoRequested(requester, destination, p) =>
      requester == m.requesterFspId && p == m.party
      && (m.destinationFspId.Truthy() ==> destination == m.destinationFspId)
    case PartyQueryResponse(requester, destination, owner, p, details) =>
      requester == m.requesterFspId && destination == m.destinationFspId && owner == m.ownerFspId && p == m.party
      && details == m.details
    case ParticipantQueryResponse(requester, _, p) => requester == m.requesterFspId && p == m.party
    case PartyRejectedResponse(p, details) => p == m.party && details == m.details
    case ParticipantRejectedResponse(p, details) => p == m.party && details == m.details
    case AssociationCreated(owner, partyType, partyId, sub, details) =>
      owner == m.ownerFspId && partyType == m.party.partyType && partyId == m.party.partyId
      && sub == m.party.partySubType && details == m.details
    case AssociationRemoved(owner, partyType, partyId, sub) =>
      owner == m.ownerFspId && partyType == m.party.partyType && partyId == m.party.partyId
      && sub == m.party.partySubType
    case Failed(_, _) => false
  }

  /**
   For every message and every outcome of every dependency: a success event is the one its message calls for, it repeats
   the message, and everyone it vouches for was found under the same id, approved and active.
   */
  lemma SuccessIsGuarded(reg: Registry, dir: Directory, ttl: int, s: Services, m: Message)
    ensures var e := HandleEvent(reg, dir, ttl, s, m).0;
            !e.Failed? ==>
              && m.payload.Some? && m.isDomainEvent && Answers(m.name, e) && Echoes(m.payload.value, e)
              && forall id | id in Vouched(m.payload.value, e) :: IsValid(s, id)
  {
  }

  /**
   The party as a handler reads it: two handlers take the payload as it is, the others turn what is left out into null.
   */
  function ReadBy(name: MessageName, m: Payload): Party {
    if name.ParticipantQueryReceived? || name.AssociationRequestReceived? then m.party else m.party.OrNull()
  }

  /** The participant the first check of a handler is about. */
  function FirstChecked(name: MessageName, m: Payload): Field {
    if name.AssociationRequestReceived? || name.DisassociateRequestReceived? then m.ownerFspId else m.requesterFspId
  }

  predicate AsksOracle(name: MessageName, m: Payload) {
    name.ParticipantQueryReceived? || (name.PartyQueryReceived? && !m.destinationFspId.Truthy())
  }

  /** Why an error event of this kind is the answer to a message that passed validation. */
  predicate Cause(reg: Registry, dir: Directory, ttl: int, s: Services, name: MessageName, m: Payload, kind: ErrorKind)
  {
    var p := ReadBy(name, m);
    var adapter := GetOracleAdapter(reg, p.partyType, p.currency, s.finderFails);
    match kind
    case InvalidMessagePayload => false
    case InvalidMessageType => name.OtherName?
    case UnknownError => !s.throws.NoThrow?
    case InvalidRequester(problem) => CheckParticipant(s, FirstChecked(name, m)) == Some(problem)
    case InvalidDestination(problem) =>
      var owner := OwnerFromOracle(reg, dir, ttl, s, p).0;
      if AsksOracle(name, m) then owner.Some? && CheckParticipant(s, Text(owner.value)) == Some(problem)
      else CheckParticipant(s, m.destinationFspId) == Some(problem)
    case UnableToGetParticipantFromOracle => AsksOracle(name, m) && OwnerFromOracle(reg, dir, ttl, s, p).0.None?
    case UnableToGetOracleAdapter =>
      (name.AssociationRequestReceived? || name.DisassociateRequestReceived?) && adapter.Err?
    case UnableToAssociate =>
      name.AssociationRequestReceived? && adapter.Ok? && IsValid(s, m.ownerFspId)
      && if adapter.value.kind.Builtin? then Associate(dir, ttl, m.ownerFspId.text, p, s.fault).0.Err?
         else !s.remoteWrites
    case UnableToDisassociate =>
      name.DisassociateRequestReceived? && adapter.Ok? && IsValid(s, m.ownerFspId)
      && if adapter.value.kind.Builtin? then Disassociate(dir, m.ownerFspId.text, p, s.fault).0.Err?
         else !s.remoteWrites
  }

  lemma QueryFailureHasCause(reg: Registry, dir: Directory, ttl: int, s: Services, m: Payload)
    ensures var e := HandlePartyQuery(reg, dir, ttl, s, m).0; e.Failed? ==>
            Cause(reg, dir, ttl, s, PartyQueryReceived, m, e.kind)
    ensures var e := HandleParticipantQuery(reg, dir, ttl, s, m).0; e.Failed? ==>
            Cause(reg, dir, ttl, s, ParticipantQueryReceived, m, e.kind)
  {
  }

  lemma WriteFailureHasCause(reg: Registry, dir: Directory, ttl: int, s: Services, m: Payload)
    ensures var e := HandleAssociation(reg, dir, ttl, s, m).0; e.Failed? ==>
            Cause(reg, dir, ttl, s, AssociationRequestReceived, m, e.kind)
    ensures var e := HandleDisassociation(reg, dir, s, m).0; e.Failed? ==>
            Cause(reg, dir, ttl, s, DisassociateRequestReceived, m, e.kind)
  {
  }

  lemma CheckFailureHasCause(reg: Registry, dir: Directory, ttl: int, s: Services, name: MessageName, m: Payload,
                             success: Event)
    requires name.PartyInfoAvailable? || name.PartyRejected? || name.ParticipantRejected?
    ensures var e := CheckBoth(s, m, success); e != success ==> e.Failed? && Cause(reg, dir, ttl, s, name, m, e.kind)
  {
  }

  lemma DispatchFailureHasCause(reg: Registry, dir: Directory, ttl: int, s: Services, name: MessageName, m: Payload)
    ensures var e := Dispatch(reg, dir, ttl, s, name, m).0;
            e.Failed? ==> Cause(reg, dir, ttl, s, name, m, e.kind)
  {
    match name
    case PartyQueryReceived => QueryFailureHasCause(reg, dir, ttl, s, m);
    case ParticipantQueryReceived => QueryFailureHasCause(reg, dir, ttl, s, m);
    case AssociationRequestReceived => WriteFailureHasCause(reg, dir, ttl, s, m);
    case DisassociateRequestReceived => WriteFailureHasCause(reg, dir, ttl, s, m);
    case PartyInfoAvailable =>
      CheckFailureHasCause(reg, dir, ttl, s, name, m,
                           PartyQueryResponse(m.requesterFspId, m.destinationFspId, m.ownerFspId, m.party, m.details));
    case PartyRejected => CheckFailureHasCause(reg, dir, ttl, s, name, m, PartyRejectedResponse(m.party, m.details));
    case ParticipantRejected =>
      CheckFailureHasCause(reg, dir, ttl, s, name, m, ParticipantRejectedResponse(m.party, m.details));
    case OtherName(_) =>
  }

  /** Every error event answering a valid message has the cause its kind names. */
  lemma FailureHasCause(reg: Registry, dir: Directory, ttl: int, s: Services, m: Message)
    requires m.payload.Some? && m.isDomainEvent
    ensures var e := HandleEvent(reg, dir, ttl, s, m).0;
            e.Failed? ==> Cause(reg, dir, ttl, s, m.name, m.payload.value, e.kind)
  {
    DispatchFailureHasCause(reg, dir, ttl, s, m.name, m.payload.value);
  }

  lemma LookupsKeepParties(reg: Registry, dir: Directory, ttl: int, s: Services, p: Party)
    ensures OwnerFromOracle(reg, dir, ttl, s, p).1.parties == dir.parties
    ensures OwnerFromOracle(reg, dir, ttl, s, p).1.now == dir.now
  {
  }

  lemma AssociationEffect(reg: Registry, dir: Directory, ttl: int, s: Services, m: Payload)
    ensures var (e, after) := HandleAssociation(reg, dir, ttl, s, m);
            && after.now == dir.now
            && (after.parties != dir.parties ==>
                  IsValid(s, m.ownerFspId) && after.parties == dir.parties + [DocumentOf(m.ownerFspId.text, m.party)])
            && (!e.Failed? ==>
                 && e.AssociationCreated? && IsValid(s, m.ownerFspId)
                 && var adapter := GetOracleAdapter(reg, m.party.partyType, m.party.currency, s.finderFails);
                     && adapter.Ok?
                     && (adapter.value.kind.Builtin? ==> DocumentOf(m.ownerFspId.text, m.party) in after.parties))
  {
  }

  lemma DisassociationEffect(reg: Registry, dir: Directory, s: Services, m: Payload)
    ensures var (e, after) := HandleDisassociation(reg, dir, s, m);
            && after.now == dir.now
            && (after.parties != dir.parties ==>
                  IsValid(s, m.ownerFspId)
                  && after.parties == DeleteOne(dir.parties, QueryOf(DocumentOf(m.ownerFspId.text, m.party))))
            && (!e.Failed? ==>
                 && e.AssociationRemoved? && IsValid(s, m.ownerFspId)
                 && var adapter := GetOracleAdapter(reg, m.party.partyType, m.party.currency.OrNull(), s.finderFails);
                     && adapter.Ok?
                     && (adapter.value.kind.Builtin? ==>
                           after.parties == DeleteOne(dir.parties, QueryOf(DocumentOf(m.ownerFspId.text, m.party)))))
  {
    assert m.ownerFspId.Text? ==>
           DocumentOf(m.ownerFspId.text, m.party) == DocumentOf(m.ownerFspId.text, m.party.OrNull());
  }

  /** What a write to the documents tells about the message, and that handling takes no clock time. */
  ghost predicate WriteIsOwners(dir: Directory, after: Directory, s: Services, name: MessageName, m: Payload) {
    && after.now == dir.now
    && (after.parties != dir.parties ==>
         && IsValid(s, m.ownerFspId)
         && var d := DocumentOf(m.ownerFspId.text, m.party);
            match name
            case AssociationRequestReceived => after.parties == dir.parties + [d]
            case DisassociateRequestReceived => after.parties == DeleteOne(dir.parties, QueryOf(d))
            case _ => false)
  }

  lemma DispatchEffect(reg: Registry, dir: Directory, ttl: int, s: Services, name: MessageName, m: Payload)
    ensures WriteIsOwners(dir, Dispatch(reg, dir, ttl, s, name, m).1, s, name, m)
  {
    match name
    case PartyQueryReceived => LookupsKeepParties(reg, dir, ttl, s, m.party.OrNull());
    case ParticipantQueryReceived => LookupsKeepParties(reg, dir, ttl, s, m.party);
    case AssociationRequestReceived => AssociationEffect(reg, dir, ttl, s, m);
    case DisassociateRequestReceived => DisassociationEffect(reg, dir, s, m);
    case _ =>
  }

  /**
   A message changes the stored documents only if it asks for an association or disassociation and names a valid owner;
   the change is then that owner's document and nothing else.
   */
  lemma OnlyAssociationsWrite(reg: Registry, dir: Directory, ttl: int, s: Services, m: Message)
    ensures var after := HandleEvent(reg, dir, ttl, s, m).1;
            if m.payload.Some? && m.isDomainEvent then WriteIsOwners(dir, after, s, m.name, m.payload.value)
            else after == dir
  {
    if m.payload.Some? { DispatchEffect(reg, dir, ttl, s, m.name, m.payload.value); }
  }

  /**
   A created-event by way of a builtin oracle means the document is stored; a removed-event, in a reachable collection,
   that it is gone.
   */
  lemma SuccessMeansWritten(reg: Registry, dir: Directory, ttl: int, s: Services, m: Message)
    requires NonSubsuming(dir.parties)
    ensures var (e, after) := HandleEvent(reg, dir, ttl, s, m);
            e.AssociationCreated? || e.AssociationRemoved? ==>
              && m.payload.Some? && m.payload.value.ownerFspId.Text?
              && var p := m.payload.value.party;
                 var currency := if e.AssociationCreated? then p.currency else p.currency.OrNull();
                 var adapter := GetOracleAdapter(reg, p.partyType, currency, s.finderFails);
                 && adapter.Ok?
                 && (adapter.value.kind.Builtin? ==>
                      (DocumentOf(m.payload.value.ownerFspId.text, p) in after.parties <==> e.AssociationCreated?))
  {
    SuccessIsGuarded(reg, dir, ttl, s, m);
    var (e, after) := HandleEvent(reg, dir, ttl, s, m);
    if e.AssociationCreated? {
      AssociationEffect(reg, dir, ttl, s, m.payload.value);
    } else if e.AssociationRemoved? {
      DisassociationEffect(reg, dir, s, m.payload.value);
      DeletedForGood(dir.parties, DocumentOf(m.payload.value.ownerFspId.text, m.payload.value.party));
    }
  }
}
