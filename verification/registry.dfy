/**
 The oracle registry: oracles persisted by the finder, and the adapters the running service holds for them.
 Transitions as functions; the classes that perform them are `MongoOracleFinderRepo` below and the aggregate.
 */
module Registries {
  import opened Values
  import opened Sequences

  datatype OracleType = Builtin | RemoteHttp | Unsupported(name: string)

  datatype Oracle = Oracle(id: string, name: string, kind: OracleType, partyType: string, endpoint: Field,
                           currency: Field)

  /** `AddOracleDTO` */
  datatype OracleRequest = OracleRequest(id: Field, name: string, kind: OracleType, partyType: string, endpoint: Field,
                                         currency: Field)

  datatype Adapter = Adapter(oracleId: string, kind: OracleType)

  datatype Registry = Registry(stored: seq<Oracle>, adapters: seq<Adapter>)

  datatype RegistryError =
    | DuplicateOracle
    | TypeNotSupported
    | AlreadyRegistered
    | FinderFailed
    | InitFailed
    | OracleNotFound
    | UnableToRemove
    | NoSuchOracle
    | NoSuchAdapter

  /** The awaited step of an administrative call that fails, if any. */
  datatype AdminFault = Smooth | IdReadFails | NameReadFails | PresenceReadFails | WriteFails | InitThrows

  // ---- The finder's collection

  function ById(stored: seq<Oracle>, id: string): (i: nat)
    ensures i <= |stored|
    ensures forall k | 0 <= k < i :: stored[k].id != id
    ensures i < |stored| ==> stored[i].id == id
  {
    First(stored, (o: Oracle) => o.id == id)
  }

  function ByName(stored: seq<Oracle>, name: string): (i: nat)
    ensures i <= |stored|
    ensures forall k | 0 <= k < i :: stored[k].name != name
    ensures i < |stored| ==> stored[i].name == name
  {
    First(stored, (o: Oracle) => o.name == name)
  }

  predicate SameRegistration(o: Oracle, o': Oracle) {
    o.partyType == o'.partyType && o.kind == o'.kind && o.id == o'.id && o.name == o'.name && o.endpoint == o'.endpoint
  }

  function FinderAdd(stored: seq<Oracle>, oracle: Oracle, fault: AdminFault): (Result<(), RegistryError>, seq<Oracle>) {
    if fault.PresenceReadFails? then (Err(FinderFailed), stored)
    else if First(stored, o => SameRegistration(o, oracle)) < |stored| then (Err(AlreadyRegistered), stored)
    else if fault.WriteFails? then (Err(FinderFailed), stored)
    else (Ok(()), stored + [oracle])
  }

  function FinderRemove(stored: seq<Oracle>, id: string, fault: AdminFault): (Result<(), RegistryError>, seq<Oracle>) {
    if fault.WriteFails? then (Err(FinderFailed), stored)
    else if ById(stored, id) < |stored| then (Ok(()), Without(stored, ById(stored, id)))
    else (Err(NoSuchOracle), stored)
  }

  // ---- Routing

  predicate IsExact(o: Oracle, partyType: string, currency: Field) {
    o.partyType == partyType && o.currency == currency
  }

  function FirstExact(stored: seq<Oracle>, partyType: string, currency: Field): (i: nat)
    ensures i <= |stored|
    ensures forall k | 0 <= k < i :: !IsExact(stored[k], partyType, currency)
    ensures i < |stored| ==> IsExact(stored[i], partyType, currency)
  {
    First(stored, (o: Oracle) => IsExact(o, partyType, currency))
  }

  function FirstOfType(stored: seq<Oracle>, partyType: string): (i: nat)
    ensures i <= |stored|
    ensures forall k | 0 <= k < i :: stored[k].partyType != partyType
    ensures i < |stored| ==> stored[i].partyType == partyType
  {
    First(stored, (o: Oracle) => o.partyType == partyType)
  }

  /**
   Position of the oracle a request is routed to: the first stored one with that exact currency, else the first of the
   party type.
   */
  function RouteIndex(stored: seq<Oracle>, partyType: string, currency: Field): nat {
    var exact := FirstExact(stored, partyType, currency);
    if exact < |stored| then exact else FirstOfType(stored, partyType)
  }

  function Route(stored: seq<Oracle>, partyType: string, currency: Field): Option<Oracle> {
    var i := RouteIndex(stored, partyType, currency);
    if i < |stored| then Some(stored[i]) else None
  }

  function AdapterOf(adapters: seq<Adapter>, id: string): (i: nat)
    ensures i <= |adapters|
    ensures forall k | 0 <= k < i :: adapters[k].oracleId != id
    ensures i < |adapters| ==> adapters[i].oracleId == id
  {
    First(adapters, (a: Adapter) => a.oracleId == id)
  }

  function GetOracleAdapter(reg: Registry, partyType: string, currency: Field, finderFails: bool)
    : Result<Adapter, RegistryError>
  {
    var oracle := Route(reg.stored, partyType, currency);
    if finderFails || oracle.None? then Err(FinderFailed)
    else
      var i := AdapterOf(reg.adapters, oracle.value.id);
      if i < |reg.adapters| then Ok(reg.adapters[i]) else Err(NoSuchAdapter)
  }

  // ---- Administration

  /** Whether an adapter initialises when its store can be reached: a remote one needs an endpoint. */
  predicate CanInit(o: Oracle) {
    o.kind.RemoteHttp? ==> o.endpoint.Truthy()
  }

  /** The oracle as it is stored: the collection keeps what a request leaves out as null. */
  function NewOracle(req: OracleRequest, uuid: string): Oracle {
    Oracle(if req.id.Truthy() then req.id.text else uuid, req.name, req.kind, req.partyType,
           if req.kind.Builtin? then Null else req.endpoint.OrNull(), req.currency.OrNull())
  }

  function AddOracle(reg: Registry, req: OracleRequest, uuid: string, fault: AdminFault)
    : (Result<string, RegistryError>, Registry)
  {
    var oracle := NewOracle(req, uuid);
    if req.id.Truthy() && fault.IdReadFails? then (Err(FinderFailed), reg)
    else if req.id.Truthy() && ById(reg.stored, oracle.id) < |reg.stored| then (Err(DuplicateOracle), reg)
    else if fault.NameReadFails? then (Err(FinderFailed), reg)
    else if ByName(reg.stored, oracle.name) < |reg.stored| then (Err(DuplicateOracle), reg)
    else if oracle.kind.Unsupported? then (Err(TypeNotSupported), reg)
    else
      var (added, stored) := FinderAdd(reg.stored, oracle, fault);
      if added.Err? then (Err(added.error), reg)
      else if !CanInit(oracle) || fault.InitThrows? then (Err(InitFailed), reg.(stored := stored))
      else (Ok(oracle.id), Registry(stored, reg.adapters + [Adapter(oracle.id, oracle.kind)]))
  }

  function DropAdapter(adapters: seq<Adapter>, id: string): (r: seq<Adapter>)
    ensures forall a :: a in r <==> a in adapters && a.oracleId != id
  {
    if adapters == [] then []
    else if adapters[0].oracleId == id then DropAdapter(adapters[1..], id)
    else [adapters[0]] + DropAdapter(adapters[1..], id)
  }

  function RemoveOracle(reg: Registry, id: string, fault: AdminFault): (Result<(), RegistryError>, Registry) {
    if fault.IdReadFails? then (Err(FinderFailed), reg)
    else if ById(reg.stored, id) == |reg.stored| then (Err(OracleNotFound), reg)
    else
      var (removed, stored) := FinderRemove(reg.stored, id, fault);
      if removed.Err? then (Err(UnableToRemove), reg)
      else (Ok(()), Registry(stored, DropAdapter(reg.adapters, id)))
  }

  /** The adapters set up for `oracles`, in order, until one cannot be created or initialised; false if one cannot. */
  function InitAdapters(oracles: seq<Oracle>, down: set<string>): (bool, seq<Adapter>) {
    if oracles == [] then (true, [])
    else
      var last := oracles[|oracles| - 1];
      var (ok, adapters) := InitAdapters(oracles[..|oracles| - 1], down);
      if !ok || last.kind.Unsupported? || !CanInit(last) || last.id in down then (false, adapters)
      else (true, adapters + [Adapter(last.id, last.kind)])
  }

  /** The outcome of start-up, which first reads the stored oracles, and the adapters it sets up. */
  function Start(stored: seq<Oracle>, finderFails: bool, down: set<string>): (bool, seq<Adapter>) {
    if finderFails then (false, []) else InitAdapters(stored, down)
  }

  class MongoOracleFinderRepo {
    var oracleProviders: seq<Oracle>

    constructor (stored: seq<Oracle>)
      ensures oracleProviders == stored
    {
      oracleProviders := stored;
    }

    method AddOracle(oracle: Oracle, fault: AdminFault) returns (r: Result<(), RegistryError>)
      modifies this
      ensures (r, oracleProviders) == FinderAdd(old(oracleProviders), oracle, fault)
    {
      if fault.PresenceReadFails? {
        return Err(FinderFailed);
      }
      var present := First(oracleProviders, o => SameRegistration(o, oracle));
      if present < |oracleProviders| {
        return Err(AlreadyRegistered);
      }
      if fault.WriteFails? {
        return Err(FinderFailed);
      }
      oracleProviders := oracleProviders + [oracle];
      r := Ok(());
    }

    method RemoveOracle(id: string, fault: AdminFault) returns (r: Result<(), RegistryError>)
      modifies this
      ensures (r, oracleProviders) == FinderRemove(old(oracleProviders), id, fault)
    {
      if fault.WriteFails? {
        return Err(FinderFailed);
      }
      var at := ById(oracleProviders, id);
      if at < |oracleProviders| {
        oracleProviders := oracleProviders[..at] + oracleProviders[at + 1..];
        r := Ok(());
      } else {
        r := Err(NoSuchOracle);
      }
    }

    /**
     Sorts the oracles of the party type into those with the currency and those without, and takes the first of either.
     */
    method GetOracle(partyType: string, currency: Field) returns (r: Option<Oracle>)
      ensures r == Route(oracleProviders, partyType, currency)
    {
      var withCurrency, withoutCurrency := [], [];
      for i := 0 to |oracleProviders|
        invariant if withCurrency == [] then i <= FirstExact(oracleProviders, partyType, currency)
                  else FirstExact(oracleProviders, partyType, currency) < i
                       && withCurrency[0] == oracleProviders[FirstExact(oracleProviders, partyType, currency)]
        invariant withCurrency == [] ==>
                    if withoutCurrency == [] then i <= FirstOfType(oracleProviders, partyType)
                    else FirstOfType(oracleProviders, partyType) < i
                         && withoutCurrency[0] == oracleProviders[FirstOfType(oracleProviders, partyType)]
      {
        if oracleProviders[i].partyType == partyType {
          if oracleProviders[i].currency == currency {
            withCurrency := withCurrency + [oracleProviders[i]];
          } else {
            withoutCurrency := withoutCurrency + [oracleProviders[i]];
          }
        }
      }
      if withCurrency != [] {
        r := Some(withCurrency[0]);
      } else if withoutCurrency != [] {
        r := Some(withoutCurrency[0]);
      } else {
        r := None;
      }
    }
  }
}

/** What administration keeps, and what it does to routes. */
module RegistryProperties {
  import opened Values
  import opened Sequences
  import opened Registries

  datatype AdminCall =
    | Add(req: OracleRequest, uuid: string, fault: AdminFault)
    | Remove(id: string, fault: AdminFault)

  function Step(reg: Registry, c: AdminCall): Registry {
    match c
    case Add(req, uuid, fault) => AddOracle(reg, req, uuid, fault).1
    case Remove(id, fault) => RemoveOracle(reg, id, fault).1
  }

  /** The ids stored without an adapter: those whose adapter failed to initialise after they were stored. */
  function LostAfter(reg: Registry, lost: set<string>, c: AdminCall): set<string> {
    match c
    case Add(req, uuid, fault) =>
      if AddOracle(reg, req, uuid, fault).0 == Err(InitFailed) then lost + {NewOracle(req, uuid).id} else lost
    case Remove(id, fault) => if RemoveOracle(reg, id, fault).0.Ok? then lost - {id} else lost
  }

  function Run(reg: Registry, lost: set<string>, calls: seq<AdminCall>): (Registry, set<string>)
    decreases |calls|
  {
    if calls == [] then (reg, lost) else Run(Step(reg, calls[0]), LostAfter(reg, lost, calls[0]), calls[1..])
  }

  predicate Stores(stored: seq<Oracle>, id: string) {
    ById(stored, id) < |stored|
  }

  predicate Adapts(adapters: seq<Adapter>, id: string) {
    AdapterOf(adapters, id) < |adapters|
  }

  /** Random ids are new. */
  predicate FreshIds(reg: Registry, calls: seq<AdminCall>)
    decreases |calls|
  {
    calls != [] ==>
      && (calls[0].Add? && !calls[0].req.id.Truthy() ==> !Stores(reg.stored, calls[0].uuid))
      && FreshIds(Step(reg, calls[0]), calls[1..])
  }

  ghost predicate DistinctOracles(stored: seq<Oracle>) {
    forall i, j | 0 <= i < j < |stored| :: stored[i].id != stored[j].id && stored[i].name != stored[j].name
  }

  ghost predicate DistinctAdapters(adapters: seq<Adapter>) {
    forall i, j | 0 <= i < j < |adapters| :: adapters[i].oracleId != adapters[j].oracleId
  }

  /**
   Ids and names are unique, and adapters stand for exactly the stored oracles that are not lost, with their types.
   */
  ghost predicate Agrees(reg: Registry, lost: set<string>) {
    && DistinctOracles(reg.stored)
    && DistinctAdapters(reg.adapters)
    && (forall o | o in reg.stored :: !o.kind.Unsupported?)
    && (forall id | id in lost :: Stores(reg.stored, id))
    && (forall id :: Adapts(reg.adapters, id) <==> Stores(reg.stored, id) && id !in lost)
    && (forall o, a | o in reg.stored && a in reg.adapters && a.oracleId == o.id :: a.kind == o.kind)
  }

  lemma StoresAppended(stored: seq<Oracle>, o: Oracle, id: string)
    ensures Stores(stored + [o], id) <==> Stores(stored, id) || id == o.id
  {
    assert (stored + [o])[|stored|] == o;
    assert forall k | 0 <= k < |stored| :: (stored + [o])[k] == stored[k];
  }

  lemma AdaptsAppended(adapters: seq<Adapter>, a: Adapter, id: string)
    ensures Adapts(adapters + [a], id) <==> Adapts(adapters, id) || id == a.oracleId
  {
    assert (adapters + [a])[|adapters|] == a;
    assert forall k | 0 <= k < |adapters| :: (adapters + [a])[k] == adapters[k];
  }

  lemma StoresRemoved(stored: seq<Oracle>, gone: string, id: string)
    requires DistinctOracles(stored)
    ensures var rest := Without(stored, ById(stored, gone));
            DistinctOracles(rest) && (Stores(rest, id) <==> Stores(stored, id) && id != gone)
  {
    var rest, at := Without(stored, ById(stored, gone)), ById(stored, gone);
    if at < |stored| {
      assert forall k | 0 <= k < |rest| :: rest[k] == stored[if k < at then k else k + 1];
      var i := ById(stored, id);
      if i < |stored| && id != gone {
        assert rest[if i < at then i else i - 1].id == id;
      }
    }
  }

  lemma {:induction false} AdaptsDropped(adapters: seq<Adapter>, gone: string)
    requires DistinctAdapters(adapters)
    ensures DistinctAdapters(DropAdapter(adapters, gone))
    ensures forall id :: Adapts(DropAdapter(adapters, gone), id) <==> Adapts(adapters, id) && id != gone
  {
    if adapters != [] {
      AdaptsDropped(adapters[1..], gone);
      var rest := DropAdapter(adapters[1..], gone);
      assert forall a | a in rest :: a in adapters[1..];
      forall id ensures Adapts(adapters, id) <==> adapters[0].oracleId == id || Adapts(adapters[1..], id) {
        AdaptsHead(adapters, id);
      }
      if adapters[0].oracleId != gone {
        forall id ensures Adapts([adapters[0]] + rest, id) <==> adapters[0].oracleId == id || Adapts(rest, id) {
          assert ([adapters[0]] + rest)[1..] == rest;
          AdaptsHead([adapters[0]] + rest, id);
        }
      }
    }
  }

  lemma AdaptsHead(adapters: seq<Adapter>, id: string)
    requires adapters != []
    ensures Adapts(adapters, id) <==> adapters[0].oracleId == id || Adapts(adapters[1..], id)
  {
    assert forall k | 0 < k < |adapters| :: adapters[k] == adapters[1..][k - 1];
    assert forall k | 0 <= k < |adapters| - 1 :: adapters[1..][k] == adapters[k + 1];
  }

  lemma AppendKeepsDistinct(reg: Registry, oracle: Oracle)
    requires DistinctOracles(reg.stored) && DistinctAdapters(reg.adapters)
    requires !Stores(reg.stored, oracle.id) && ByName(reg.stored, oracle.name) == |reg.stored|
             && !Adapts(reg.adapters, oracle.id)
    ensures DistinctOracles(reg.stored + [oracle]) && DistinctAdapters(reg.adapters + [Adapter(oracle.id, oracle.kind)])
  {
  }

  /** Storing a new oracle keeps the agreement whether its adapter follows or the id is lost. */
  lemma AppendKeepsAgreement(reg: Registry, lost: set<string>, oracle: Oracle)
    requires Agrees(reg, lost) && !oracle.kind.Unsupported?
    requires !Stores(reg.stored, oracle.id) && ByName(reg.stored, oracle.name) == |reg.stored|
    ensures Agrees(Registry(reg.stored + [oracle], reg.adapters), lost + {oracle.id})
    ensures Agrees(Registry(reg.stored + [oracle], reg.adapters + [Adapter(oracle.id, oracle.kind)]), lost)
  {
    var a := Adapter(oracle.id, oracle.kind);
    var stored, adapters := reg.stored + [oracle], reg.adapters + [a];
    AppendKeepsDistinct(reg, oracle);
    forall id ensures Stores(stored, id) <==> Stores(reg.stored, id) || id == oracle.id {
      StoresAppended(reg.stored, oracle, id);
    }
    forall id ensures Adapts(adapters, id) <==> Adapts(reg.adapters, id) || id == oracle.id {
      AdaptsAppended(reg.adapters, a, id);
    }
    assert !Adapts(reg.adapters, oracle.id);
    forall o, b | o in stored && b in adapters && b.oracleId == o.id ensures b.kind == o.kind {
      assert b in reg.adapters ==> b.oracleId != oracle.id;
      assert o in reg.stored ==> o.id != oracle.id;
    }
  }

  lemma AddKeepsAgreement(reg: Registry, lost: set<string>, req: OracleRequest, uuid: string, fault: AdminFault)
    requires Agrees(reg, lost) && (!req.id.Truthy() ==> !Stores(reg.stored, uuid))
    ensures Agrees(AddOracle(reg, req, uuid, fault).1, LostAfter(reg, lost, Add(req, uuid, fault)))
  {
    var (reply, after) := AddOracle(reg, req, uuid, fault);
    var o, lost' := NewOracle(req, uuid), LostAfter(reg, lost, Add(req, uuid, fault));
    if reply.Ok? {
      assert after == Registry(reg.stored + [o], reg.adapters + [Adapter(o.id, o.kind)]) && lost' == lost;
      AppendKeepsAgreement(reg, lost, o);
    } else if reply.error == InitFailed {
      assert after == Registry(reg.stored + [o], reg.adapters) && lost' == lost + {o.id};
      AppendKeepsAgreement(reg, lost, o);
    } else {
      assert after == reg && lost' == lost;
    }
  }

  lemma RemoveKeepsAgreement(reg: Registry, lost: set<string>, id: string, fault: AdminFault)
    requires Agrees(reg, lost)
    ensures Agrees(RemoveOracle(reg, id, fault).1, LostAfter(reg, lost, Remove(id, fault)))
  {
    if RemoveOracle(reg, id, fault).0.Ok? {
      var stored := Without(reg.stored, ById(reg.stored, id));
      forall other ensures Stores(stored, other) <==> Stores(reg.stored, other) && other != id {
        StoresRemoved(reg.stored, id, other);
      }
      StoresRemoved(reg.stored, id, id);
      AdaptsDropped(reg.adapters, id);
    }
  }

  /**
   Over every serial run of additions and removals, whatever fails, the stored list and the adapters agree up to the
   lost ids.
   */
  lemma {:induction false} AgreementInvariant(reg: Registry, lost: set<string>, calls: seq<AdminCall>)
    requires Agrees(reg, lost) && FreshIds(reg, calls)
    ensures var (after, lost') := Run(reg, lost, calls); Agrees(after, lost')
    decreases |calls|
  {
    if calls != [] {
      match calls[0] {
        case Add(req, uuid, fault) => AddKeepsAgreement(reg, lost, req, uuid, fault);
        case Remove(id, fault) => RemoveKeepsAgreement(reg, lost, id, fault);
      }
      AgreementInvariant(Step(reg, calls[0]), LostAfter(reg, lost, calls[0]), calls[1..]);
    }
  }

  /** No addition of the run fails after it has stored its oracle. */
  predicate InitsSucceed(reg: Registry, calls: seq<AdminCall>)
    decreases |calls|
  {
    calls != [] ==>
      && (calls[0].Add? ==> AddOracle(reg, calls[0].req, calls[0].uuid, calls[0].fault).0 != Err(InitFailed))
      && InitsSucceed(Step(reg, calls[0]), calls[1..])
  }

  lemma {:induction false} NothingIsLost(reg: Registry, calls: seq<AdminCall>)
    requires InitsSucceed(reg, calls)
    ensures Run(reg, {}, calls).1 == {}
    decreases |calls|
  {
    if calls != [] {
      assert LostAfter(reg, {}, calls[0]) == {};
      NothingIsLost(Step(reg, calls[0]), calls[1..]);
    }
  }

  /**
   From the empty registry the agreement always holds, and if every adapter initialises the adapters are those of the
   stored oracles.
   */
  lemma ReachableRegistryAgrees(calls: seq<AdminCall>)
    requires FreshIds(Registry([], []), calls)
    ensures var (reg, lost) := Run(Registry([], []), {}, calls);
            && Agrees(reg, lost)
            && (InitsSucceed(Registry([], []), calls) ==>
                  forall id :: Adapts(reg.adapters, id) <==> Stores(reg.stored, id))
  {
    AgreementInvariant(Registry([], []), {}, calls);
    if InitsSucceed(Registry([], []), calls) {
      NothingIsLost(Registry([], []), calls);
    }
  }

  /**
   A call changes the registry only if it returns normally or fails to initialise an adapter it has already stored.
   */
  lemma RejectionsChangeNothing(reg: Registry, c: AdminCall)
    ensures c.Add? ==>
              var r := AddOracle(reg, c.req, c.uuid, c.fault).0;
              r.Err? && r.error != InitFailed ==> Step(reg, c) == reg
    ensures c.Add? && AddOracle(reg, c.req, c.uuid, c.fault).0 == Err(InitFailed) ==>
              Step(reg, c) == reg.(stored := reg.stored + [NewOracle(c.req, c.uuid)])
    ensures c.Remove? && RemoveOracle(reg, c.id, c.fault).0.Err? ==> Step(reg, c) == reg
  {
  }

  /**
   With an agreeing registry a request reaches an adapter exactly when it is routed to an oracle that is not lost, and
   then that oracle's.
   */
  lemma AdapterFoundIff(reg: Registry, lost: set<string>, partyType: string, currency: Field)
    requires Agrees(reg, lost)
    ensures var route, r := Route(reg.stored, partyType, currency), GetOracleAdapter(reg, partyType, currency, false);
            && (r.Ok? <==> route.Some? && route.value.id !in lost)
            && (r.Ok? ==> r.value == Adapter(route.value.id, route.value.kind))
  {
    var route := Route(reg.stored, partyType, currency);
    if route.Some? {
      assert route.value in reg.stored && Stores(reg.stored, route.value.id);
      assert Adapts(reg.adapters, route.value.id) <==> route.value.id !in lost;
    }
  }

  /**
   When nothing fails, an addition succeeds exactly if its id and name are new, its type is supported and its adapter
   can be initialised.
   */
  lemma AddSucceedsIff(reg: Registry, req: OracleRequest, uuid: string)
    requires !req.id.Truthy() ==> !Stores(reg.stored, uuid)
    ensures var o := NewOracle(req, uuid);
            AddOracle(reg, req, uuid, Smooth).0.Ok? <==>
            && !Stores(reg.stored, o.id) && ByName(reg.stored, o.name) == |reg.stored|
            && !o.kind.Unsupported? && CanInit(o)
  {
    var o := NewOracle(req, uuid);
    if ByName(reg.stored, o.name) == |reg.stored| {
      assert forall k | 0 <= k < |reg.stored| :: !SameRegistration(reg.stored[k], o);
    }
  }

  // ---- Restart

  /**
   A service starts exactly if every stored oracle's adapter can be created and initialised; it then holds one per
   oracle, in order.
   */
  lemma {:induction false} RestartSucceedsIff(oracles: seq<Oracle>, down: set<string>)
    ensures var (ok, adapters) := InitAdapters(oracles, down);
            && (ok <==> forall o | o in oracles :: !o.kind.Unsupported? && CanInit(o) && o.id !in down)
            && (ok ==>
                  adapters == seq(|oracles|, i requires 0 <= i < |oracles| => Adapter(oracles[i].id, oracles[i].kind)))
  {
    if oracles != [] {
      var rest, last := oracles[..|oracles| - 1], oracles[|oracles| - 1];
      RestartSucceedsIff(rest, down);
      assert oracles == rest + [last];
    }
  }

  /** A remote oracle without an endpoint is refused with an error, yet stored: no restart succeeds while it is. */
  lemma RefusedOracleBlocksRestart(reg: Registry, req: OracleRequest, uuid: string)
    requires req.kind.RemoteHttp? && !req.endpoint.Truthy()
    requires !Stores(reg.stored, NewOracle(req, uuid).id) && ByName(reg.stored, req.name) == |reg.stored|
    ensures AddOracle(reg, req, uuid, Smooth) == (Err(InitFailed), reg.(stored := reg.stored + [NewOracle(req, uuid)]))
    ensures forall oracles, down | NewOracle(req, uuid) in oracles :: !InitAdapters(oracles, down).0
  {
    forall oracles, down | NewOracle(req, uuid) in oracles ensures !InitAdapters(oracles, down).0 {
      RestartSucceedsIff(oracles, down);
    }
  }
}

/** How routes depend on the stored oracles. */
module RoutingProperties {
  import opened Values
  import opened Sequences
  import opened Registries
  import opened RegistryProperties

  lemma AppendedRouteIndex(stored: seq<Oracle>, o: Oracle, partyType: string, currency: Field)
    ensures var exact, general := FirstExact(stored, partyType, currency), FirstOfType(stored, partyType);
            RouteIndex(stored + [o], partyType, currency) ==
            if exact < |stored| then exact
            else if IsExact(o, partyType, currency) then |stored|
            else if general < |stored| then general
            else if o.partyType == partyType then |stored| else |stored| + 1
  {
    var longer := stored + [o];
    assert longer[|stored|] == o;
    assert forall k | 0 <= k < |stored| :: longer[k] == stored[k];
    assert FirstExact(longer, partyType, currency) ==
           if FirstExact(stored, partyType, currency) < |stored| then FirstExact(stored, partyType, currency)
           else if IsExact(o, partyType, currency) then |stored| else |stored| + 1;
  }

  /**
   Appending an oracle changes exactly the routes it takes over: its own currency where nothing matched exactly, and its
   party type where there was no oracle.
   */
  lemma AppendFrame(stored: seq<Oracle>, o: Oracle, partyType: string, currency: Field)
    ensures var takesOver := o.partyType == partyType
                             && (Route(stored, partyType, currency).None?
                                 || (o.currency == currency
                                     && Route(stored, partyType, currency).value.currency != currency));
            Route(stored + [o], partyType, currency)
            == if takesOver then Some(o) else Route(stored, partyType, currency)
  {
    AppendedRouteIndex(stored, o, partyType, currency);
  }

  lemma FirstExactWithout(stored: seq<Oracle>, at: nat, partyType: string, currency: Field)
    requires at < |stored| && FirstExact(stored, partyType, currency) != at
    ensures var i := FirstExact(stored, partyType, currency);
            FirstExact(Without(stored, at), partyType, currency) == if i < at then i else i - 1
  {
    var rest, i := Without(stored, at), FirstExact(stored, partyType, currency);
    assert forall k | 0 <= k < |rest| :: rest[k] == stored[if k < at then k else k + 1];
    assert i < |stored| ==> rest[if i < at then i else i - 1] == stored[i];
  }

  lemma FirstOfTypeWithout(stored: seq<Oracle>, at: nat, partyType: string)
    requires at < |stored| && FirstOfType(stored, partyType) != at
    ensures var i := FirstOfType(stored, partyType);
            FirstOfType(Without(stored, at), partyType) == if i < at then i else i - 1
  {
    var rest, i := Without(stored, at), FirstOfType(stored, partyType);
    assert forall k | 0 <= k < |rest| :: rest[k] == stored[if k < at then k else k + 1];
    assert i < |stored| ==> rest[if i < at then i else i - 1] == stored[i];
  }

  /** Removing an oracle changes only the routes that selected it. */
  lemma RemoveFrame(stored: seq<Oracle>, at: nat, partyType: string, currency: Field)
    requires at < |stored| && RouteIndex(stored, partyType, currency) != at
    ensures Route(Without(stored, at), partyType, currency) == Route(stored, partyType, currency)
  {
    var rest, i := Without(stored, at), RouteIndex(stored, partyType, currency);
    FirstExactWithout(stored, at, partyType, currency);
    if FirstExact(stored, partyType, currency) == |stored| {
      FirstOfTypeWithout(stored, at, partyType);
    }
    assert RouteIndex(rest, partyType, currency) == if i < at then i else i - 1;
  }

  /** Adding an oracle under a new id and removing it again restores the registry, and with it every route. */
  lemma AddThenRemoveRestores(reg: Registry, lost: set<string>, req: OracleRequest, uuid: string)
    requires Agrees(reg, lost) && (!req.id.Truthy() ==> !Stores(reg.stored, uuid))
    requires AddOracle(reg, req, uuid, Smooth).0.Ok?
    ensures RemoveOracle(AddOracle(reg, req, uuid, Smooth).1, NewOracle(req, uuid).id, Smooth) == (Ok(()), reg)
  {
    var o := NewOracle(req, uuid);
    assert !Stores(reg.stored, o.id) && !Adapts(reg.adapters, o.id);
    RemoveUndoesAppend(reg, o);
  }

  lemma RemoveUndoesAppend(reg: Registry, o: Oracle)
    requires !Stores(reg.stored, o.id) && !Adapts(reg.adapters, o.id)
    ensures RemoveOracle(Registry(reg.stored + [o], reg.adapters + [Adapter(o.id, o.kind)]), o.id, Smooth)
            == (Ok(()), reg)
  {
    RemoveNew(reg.stored, o);
    DropNew(reg.adapters, Adapter(o.id, o.kind));
  }

  lemma RemoveNew(stored: seq<Oracle>, o: Oracle)
    requires !Stores(stored, o.id)
    ensures ById(stored + [o], o.id) == |stored| && Without(stored + [o], |stored|) == stored
  {
    assert (stored + [o])[|stored|] == o;
    assert forall k | 0 <= k < |stored| :: (stored + [o])[k] == stored[k];
  }

  lemma {:induction false} DropNew(adapters: seq<Adapter>, a: Adapter)
    requires !Adapts(adapters, a.oracleId)
    ensures DropAdapter(adapters + [a], a.oracleId) == adapters
  {
    if adapters != [] {
      AdaptsHead(adapters, a.oracleId);
      assert (adapters + [a])[1..] == adapters[1..] + [a];
      DropNew(adapters[1..], a);
    }
  }
}
