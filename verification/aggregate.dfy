/** The account lookup aggregate: it routes messages to oracle adapters, and administers the oracles. */
module Aggregates {
  import opened Values
  import opened BuiltinProvider
  import opened Registries
  import opened Events
  import opened BuiltinListing
  import opened Searching

  class AccountLookupAggregate {
    const finder: MongoOracleFinderRepo
    const repo: MongoOracleProviderRepo  // the stores behind every builtin adapter
    var adapters: seq<Adapter>

    function Reg(): Registry
      reads this, finder
    {
      Registry(finder.oracleProviders, adapters)
    }

    constructor (finder: MongoOracleFinderRepo, repo: MongoOracleProviderRepo)
      ensures this.finder == finder && this.repo == repo && adapters == []
    {
      this.finder := finder;
      this.repo := repo;
      adapters := [];
    }

    /**
     Reads the stored oracles and sets up an adapter for each; throws if the read fails, or at the first that cannot be
     set up.
     */
    method Init(finderFails: bool, down: set<string>) returns (ok: bool)
      modifies this`adapters
      ensures var (started, added) := Start(finder.oracleProviders, finderFails, down);
              ok == started && adapters == old(adapters) + added
    {
      if finderFails {
        return false;
      }
      var oracles := finder.oracleProviders;
      ghost var added := [];
      for i := 0 to |oracles|
        invariant InitAdapters(oracles[..i], down) == (true, added) && adapters == old(adapters) + added
      {
        assert oracles[..i + 1][..i] == oracles[..i];
        var oracle := oracles[i];
        if oracle.kind.Unsupported? || !CanInit(oracle) || oracle.id in down {
          InitStops(oracles, down, i + 1);
          return false;
        }
        adapters := adapters + [Adapter(oracle.id, oracle.kind)];
        added := added + [Adapter(oracle.id, oracle.kind)];
      }
      assert oracles[..|oracles|] == oracles;
      ok := true;
    }

    method AddOracle(req: OracleRequest, uuid: string, fault: AdminFault) returns (r: Result<string, RegistryError>)
      modifies this`adapters, finder
      ensures (r, Reg()) == Registries.AddOracle(old(Reg()), req, uuid, fault)
    {
      if req.id.Truthy() {
        if fault.IdReadFails? {
          return Err(FinderFailed);
        }
        var sameId := ById(finder.oracleProviders, req.id.text);
        if sameId < |finder.oracleProviders| {
          return Err(DuplicateOracle);
        }
      }
      if fault.NameReadFails? {
        return Err(FinderFailed);
      }
      var oracle := NewOracle(req, uuid);
      var sameName := ByName(finder.oracleProviders, oracle.name);
      if sameName < |finder.oracleProviders| {
        return Err(DuplicateOracle);
      }
      if oracle.kind.Unsupported? {
        return Err(TypeNotSupported);
      }
      var added := finder.AddOracle(oracle, fault);
      if added.Err? {
        return Err(added.error);
      }
      if !CanInit(oracle) || fault.InitThrows? {
        return Err(InitFailed);
      }
      adapters := adapters + [Adapter(oracle.id, oracle.kind)];
      r := Ok(oracle.id);
    }

    method RemoveOracle(id: string, fault: AdminFault) returns (r: Result<(), RegistryError>)
      modifies this`adapters, finder
      ensures (r, Reg()) == Registries.RemoveOracle(old(Reg()), id, fault)
    {
      if fault.IdReadFails? {
        return Err(FinderFailed);
      }
      var at := ById(finder.oracleProviders, id);
      if at == |finder.oracleProviders| {
        return Err(OracleNotFound);
      }
      var removed := finder.RemoveOracle(id, fault);
      if removed.Err? {
        return Err(UnableToRemove);
      }
      adapters := DropAdapter(adapters, id);
      r := Ok(());
    }

    method GetOracleAdapter(partyType: string, currency: Field, finderFails: bool)
      returns (r: Result<Adapter, RegistryError>)
      ensures r == Registries.GetOracleAdapter(Reg(), partyType, currency, finderFails)
    {
      if finderFails {
        return Err(FinderFailed);
      }
      var oracle := finder.GetOracle(partyType, currency);
      if oracle.None? {
        return Err(FinderFailed);
      }
      var at := AdapterOf(adapters, oracle.value.id);
      if at == |adapters| {
        return Err(NoSuchAdapter);
      }
      r := Ok(adapters[at]);
    }

    method AssociationsThroughRoute(o: Oracle, storeFails: bool, remote: string -> Option<seq<Listed>>)
      returns (r: Option<seq<Listed>>)
      ensures r == RoutedAssociations(Reg(), o, repo.parties, storeFails, remote)
    {
      var adapter := GetOracleAdapter(o.partyType, o.currency, false);
      if adapter.Err? {
        return None;
      }
      r := Associations(adapter.value, repo.parties, storeFails, remote);
    }

    /** Asks the route of every builtin oracle for its associations; each answer replaces the one before. */
    method GetBuiltInOracleAssociations(finderFails: bool, storeFails: bool, remote: string -> Option<seq<Listed>>)
      returns (r: Option<seq<Listed>>)
      ensures r == if finderFails then None
                   else BuiltinAssociations(Reg(), finder.oracleProviders, repo.parties, storeFails, remote)
    {
      if finderFails {
        return None;
      }
      var oracles := finder.oracleProviders;
      var associations: seq<Listed> := [];
      for k := 0 to |oracles|
        invariant BuiltinAssociations(Reg(), oracles[..k], repo.parties, storeFails, remote) == Some(associations)
      {
        assert oracles[..k + 1][..k] == oracles[..k];
        if oracles[k].kind.Builtin? {
          var answer := AssociationsThroughRoute(oracles[k], storeFails, remote);
          if answer.None? {
            AssociationsStop(Reg(), oracles, repo.parties, storeFails, remote, k + 1);
            return None;
          }
          associations := answer.value;
        }
      }
      assert oracles[..|oracles|] == oracles;
      r := Some(associations);
    }

    // ---- Messages

    method GetParticipantIdFromOracle(s: Services, p: Party) returns (owner: Option<string>)
      modifies repo
      ensures (owner, repo.State()) == OwnerFromOracle(Reg(), old(repo.State()), repo.ttl, s, p)
    {
      var adapter := GetOracleAdapter(p.partyType, p.currency, s.finderFails);
      if adapter.Err? {
        return None;
      }
      var reply: Result<Option<string>, ()>;
      if adapter.value.kind.Builtin? {
        var answer := repo.GetParticipantFspId(p, s.fault);
        reply := if answer.Ok? then Ok(answer.value) else Err(());
      } else {
        reply := s.remoteOwner;
      }
      if reply.Err? || reply.value.None? || reply.value.value == "" {
        return None;
      }
      owner := reply.value;
    }

    method HandlePartyQueryReceived(s: Services, m: Payload) returns (e: Event)
      modifies repo
      ensures (e, repo.State()) == HandlePartyQuery(Reg(), old(repo.State()), repo.ttl, s, m)
    {
      var p := m.party.OrNull();
      var requesterError := RequesterError(s, m.requesterFspId, p);
      if requesterError.Some? {
        return requesterError.value;
      }
      var destination := m.destinationFspId;
      if !destination.Truthy() {
        var owner := GetParticipantIdFromOracle(s, p);
        if owner.None? {
          return Failed(UnableToGetParticipantFromOracle, Some(p));
        }
        destination := Text(owner.value);
      }
      var destinationError := DestinationError(s, destination, p);
      if destinationError.Some? {
        return destinationError.value;
      }
      e := PartyInfoRequested(m.requesterFspId, destination, m.party);
    }

    method HandleParticipantQueryReceived(s: Services, m: Payload) returns (e: Event)
      modifies repo
      ensures (e, repo.State()) == HandleParticipantQuery(Reg(), old(repo.State()), repo.ttl, s, m)
    {
      var requesterError := RequesterError(s, m.requesterFspId, m.party);
      if requesterError.Some? {
        return requesterError.value;
      }
      var owner := GetParticipantIdFromOracle(s, m.party);
      if owner.None? {
        return Failed(UnableToGetParticipantFromOracle, Some(m.party));
      }
      var ownerError := DestinationError(s, Text(owner.value), m.party);
      if ownerError.Some? {
        return ownerError.value;
      }
      e := ParticipantQueryResponse(m.requesterFspId, Text(owner.value), m.party);
    }

    method HandleAssociationRequestReceived(s: Services, m: Payload) returns (e: Event)
      modifies repo
      ensures (e, repo.State()) == HandleAssociation(Reg(), old(repo.State()), repo.ttl, s, m)
    {
      var p := m.party;
      var ownerError := RequesterError(s, m.ownerFspId, p);
      if ownerError.Some? {
        return ownerError.value;
      }
      var adapter := GetOracleAdapter(p.partyType, p.currency, s.finderFails);
      if adapter.Err? {
        return Failed(UnableToGetOracleAdapter, Some(p));
      }
      var written := s.remoteWrites;
      if adapter.value.kind.Builtin? {
        var reply := repo.AssociateParticipant(m.ownerFspId.text, p, s.fault);
        written := reply.Ok?;
      }
      if !written {
        return Failed(UnableToAssociate, Some(p));
      }
      e := AssociationCreated(m.ownerFspId, p.partyType, p.partyId, p.partySubType, m.details);
    }

    method HandleDisassociateRequestReceived(s: Services, m: Payload) returns (e: Event)
      modifies repo
      ensures (e, repo.State()) == HandleDisassociation(Reg(), old(repo.State()), s, m)
    {
      var p := m.party.OrNull();
      var ownerError := RequesterError(s, m.ownerFspId, p);
      if ownerError.Some? {
        return ownerError.value;
      }
      var adapter := GetOracleAdapter(p.partyType, p.currency, s.finderFails);
      if adapter.Err? {
        return Failed(UnableToGetOracleAdapter, Some(p));
      }
      var written := s.remoteWrites;
      if adapter.value.kind.Builtin? {
        var reply := repo.DisassociateParticipant(m.ownerFspId.text, p, s.fault);
        written := reply.Ok?;
      }
      if !written {
        return Failed(UnableToDisassociate, Some(p));
      }
      e := AssociationRemoved(m.ownerFspId, m.party.partyType, m.party.partyId, m.party.partySubType);
    }

    method HandleEvent(s: Services, m: Message) returns (e: Event)
      modifies repo
      ensures (e, repo.State()) == Events.HandleEvent(Reg(), old(repo.State()), repo.ttl, s, m)
    {
      var messageError := MessageError(m);
      if messageError.Some? {
        return messageError.value;
      }
      var p := m.payload.value;
      e := Failed(UnknownError, Some(p.party.OrNull()));
      if s.throws.AtEntry? {
        return;
      }
      var event;
      match m.name {
        case PartyQueryReceived => event := HandlePartyQueryReceived(s, p);
        case PartyInfoAvailable =>
          var response := PartyQueryResponse(p.requesterFspId, p.destinationFspId, p.ownerFspId, p.party, p.details);
          event := CheckBoth(s, p, response);
        case ParticipantQueryReceived => event := HandleParticipantQueryReceived(s, p);
        case AssociationRequestReceived => event := HandleAssociationRequestReceived(s, p);
        case DisassociateRequestReceived => event := HandleDisassociateRequestReceived(s, p);
        case PartyRejected => event := CheckBoth(s, p, PartyRejectedResponse(p.party, p.details));
        case ParticipantRejected => event := CheckBoth(s, p, ParticipantRejectedResponse(p.party, p.details));
        case OtherName(_) => event := Failed(InvalidMessageType, Some(p.party.OrNull()));
      }
      if !s.throws.AtExit? {
        e := event;
      }
    }
  }

  /** Once setting up the adapters of a prefix fails, it fails the same way for the whole list. */
  lemma {:induction false} InitStops(oracles: seq<Oracle>, down: set<string>, k: nat)
    requires k <= |oracles| && !InitAdapters(oracles[..k], down).0
    ensures InitAdapters(oracles, down) == InitAdapters(oracles[..k], down)
  {
    if k == |oracles| {
      assert oracles[..k] == oracles;
    } else {
      var shorter := oracles[..|oracles| - 1];
      assert shorter[..k] == oracles[..k];
      InitStops(shorter, down, k);
    }
  }
}
