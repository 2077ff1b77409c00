/** What each administrative call answers and stores, told by the request and the stored oracles. */
module Administration {
  import opened Values
  import opened Sequences
  import opened Registries
  import opened RegistryProperties
  import opened RoutingProperties

  ghost predicate HasId(stored: seq<Oracle>, id: string) {
    exists o :: o in stored && o.id == id
  }

  ghost predicate HasName(stored: seq<Oracle>, name: string) {
    exists o :: o in stored && o.name == name
  }

  lemma FoundIfStored(stored: seq<Oracle>, text: string)
    ensures ById(stored, text) < |stored| <==> HasId(stored, text)
    ensures ByName(stored, text) < |stored| <==> HasName(stored, text)
  {
    var i, j := ById(stored, text), ByName(stored, text);
    assert i < |stored| ==> stored[i] in stored;
    assert j < |stored| ==> stored[j] in stored;
  }

  // ---- The finder alone

  lemma FinderAddSucceedsIff(stored: seq<Oracle>, o: Oracle, fault: AdminFault)
    ensures var (reply, after) := FinderAdd(stored, o, fault);
            var present := exists x :: x in stored && x.(currency := o.currency) == o;
            && (reply.Ok? <==> !present && !fault.PresenceReadFails? && !fault.WriteFails?)
            && (reply == Err(AlreadyRegistered) <==> present && !fault.PresenceReadFails?)
            && after == if reply.Ok? then stored + [o] else stored
  {
    var i := First(stored, x => SameRegistration(x, o));
    assert i < |stored| ==> stored[i] in stored && stored[i].(currency := o.currency) == o;
    forall x | x in stored && x.(currency := o.currency) == o ensures i < |stored| { assert SameRegistration(x, o); }
  }

  /** `gone` is the first stored oracle with the id, and the rest stay in their order. */
  ghost predicate IsRemoval(stored: seq<Oracle>, after: seq<Oracle>, id: string, at: nat) {
    && at < |stored| && stored[at].id == id && (forall k | 0 <= k < at :: stored[k].id != id)
    && after == stored[..at] + stored[at + 1..]
  }

  lemma FinderRemoveSucceedsIff(stored: seq<Oracle>, id: string, fault: AdminFault)
    ensures var (reply, after) := FinderRemove(stored, id, fault);
            && (reply.Ok? <==> HasId(stored, id) && !fault.WriteFails?)
            && (reply == Err(NoSuchOracle) <==> !HasId(stored, id) && !fault.WriteFails?)
            && if reply.Ok? then exists at: nat :: IsRemoval(stored, after, id, at) else after == stored
  {
    FoundIfStored(stored, id);
    if HasId(stored, id) { assert IsRemoval(stored, Without(stored, ById(stored, id)), id, ById(stored, id)); }
  }

  // ---- Additions

  function IdOf(req: OracleRequest, uuid: string): string {
    if req.id.Truthy() then req.id.text else uuid
  }

  /** The id or the name of the request is taken, as far as the checks get. */
  ghost predicate IsDuplicate(stored: seq<Oracle>, req: OracleRequest, fault: AdminFault) {
    || (req.id.Truthy() && HasId(stored, req.id.text) && !fault.IdReadFails?)
    || (HasName(stored, req.name) && !fault.NameReadFails? && !(req.id.Truthy() && fault.IdReadFails?))
  }

  /** The id, if one is given, and the name are read and new. */
  ghost predicate IsNew(stored: seq<Oracle>, req: OracleRequest, fault: AdminFault) {
    && !(req.id.Truthy() && (fault.IdReadFails? || HasId(stored, req.id.text)))
    && !HasName(stored, req.name) && !fault.NameReadFails?
  }

  /** The request gets as far as being stored. */
  ghost predicate IsStored(stored: seq<Oracle>, req: OracleRequest, fault: AdminFault) {
    IsNew(stored, req, fault) && !req.kind.Unsupported? && !fault.PresenceReadFails? && !fault.WriteFails?
  }

  /** Its adapter can be initialised: a remote oracle needs an endpoint. */
  predicate Initialises(req: OracleRequest, fault: AdminFault) {
    (req.kind.RemoteHttp? ==> req.endpoint.Truthy()) && !fault.InitThrows?
  }

  lemma NewNameIsNotPresent(stored: seq<Oracle>, o: Oracle)
    requires !HasName(stored, o.name)
    ensures First(stored, x => SameRegistration(x, o)) == |stored|
  {
    assert forall k | 0 <= k < |stored| :: stored[k] in stored;
  }

  /** For every request and every failing await, which answer an addition gets. */
  lemma AddAnswersIff(reg: Registry, req: OracleRequest, uuid: string, fault: AdminFault)
    ensures var reply := AddOracle(reg, req, uuid, fault).0;
            && (forall id :: reply == Ok(id) <==>
                  IsStored(reg.stored, req, fault) && Initialises(req, fault) && id == IdOf(req, uuid))
            && (reply == Err(InitFailed) <==> IsStored(reg.stored, req, fault) && !Initialises(req, fault))
            && (reply == Err(DuplicateOracle) <==> IsDuplicate(reg.stored, req, fault))
            && (reply == Err(TypeNotSupported) <==> IsNew(reg.stored, req, fault) && req.kind.Unsupported?)
            && (reply.Err? ==> reply.error in {InitFailed, DuplicateOracle, TypeNotSupported, FinderFailed})
  {
    FoundIfStored(reg.stored, IdOf(req, uuid));
    FoundIfStored(reg.stored, req.name);
    if !HasName(reg.stored, req.name) { NewNameIsNotPresent(reg.stored, NewOracle(req, uuid)); }
  }

  /** The oracle is what the request says; an endpoint is kept for remote oracles only, and what is left out is null. */
  predicate IsOfRequest(o: Oracle, id: string, req: OracleRequest) {
    && o.id == id && o.name == req.name && o.kind == req.kind && o.partyType == req.partyType
    && (if req.currency.Undefined? then o.currency == Null else o.currency == req.currency)
    && (if req.kind.Builtin? || req.endpoint.Undefined? then o.endpoint == Null else o.endpoint == req.endpoint)
  }

  /**
   An addition that gets that far stores what was asked for, and holds an adapter for it if that initialises; else
   nothing changes.
   */
  lemma AddStoresRequest(reg: Registry, req: OracleRequest, uuid: string, fault: AdminFault)
    ensures var after := AddOracle(reg, req, uuid, fault).1;
            if IsStored(reg.stored, req, fault) then
              && |after.stored| == |reg.stored| + 1 && after.stored[..|reg.stored|] == reg.stored
              && IsOfRequest(after.stored[|reg.stored|], IdOf(req, uuid), req)
              && after.adapters == reg.adapters
                                   + if Initialises(req, fault) then [Adapter(IdOf(req, uuid), req.kind)] else []
            else after == reg
  {
    AddAnswersIff(reg, req, uuid, fault);
    var o := NewOracle(req, uuid);
    if IsStored(reg.stored, req, fault) {
      NewNameIsNotPresent(reg.stored, o);
      assert (reg.stored + [o])[..|reg.stored|] == reg.stored;
    }
  }

  // ---- Routes

  /** The first stored oracle with exactly this type and currency. */
  ghost predicate IsFirstExact(stored: seq<Oracle>, at: nat, partyType: string, currency: Field) {
    && at < |stored| && stored[at].partyType == partyType && stored[at].currency == currency
    && forall k | 0 <= k < at :: stored[k].partyType != partyType || stored[k].currency != currency
  }

  ghost predicate IsFirstOfType(stored: seq<Oracle>, at: nat, partyType: string) {
    && at < |stored| && stored[at].partyType == partyType && forall k | 0 <= k < at :: stored[k].partyType != partyType
  }

  ghost predicate Serves(stored: seq<Oracle>, partyType: string, currency: Field) {
    exists o :: o in stored && o.partyType == partyType && o.currency == currency
  }

  /**
   A route goes to the first oracle with exactly the type and currency, and if there is none to the first of the type.
   */
  lemma RouteIff(stored: seq<Oracle>, at: nat, partyType: string, currency: Field)
    ensures at < |stored| && RouteIndex(stored, partyType, currency) == at <==>
            if Serves(stored, partyType, currency) then IsFirstExact(stored, at, partyType, currency)
            else IsFirstOfType(stored, at, partyType)
    ensures Route(stored, partyType, currency).None? <==> forall o | o in stored :: o.partyType != partyType
  {
    var exact, general := FirstExact(stored, partyType, currency), FirstOfType(stored, partyType);
    assert exact < |stored| <==> Serves(stored, partyType, currency) by {
      assert exact < |stored| ==> stored[exact] in stored;
    }
    assert exact < |stored| ==> general < |stored|;
    assert general < |stored| ==> stored[general] in stored;
  }

  /** Why a request reaches no adapter. */
  lemma AdapterMissingIff(reg: Registry, lost: set<string>, partyType: string, currency: Field, finderFails: bool)
    requires Agrees(reg, lost)
    ensures var route, r := Route(reg.stored, partyType, currency),
                            GetOracleAdapter(reg, partyType, currency, finderFails);
            && (r == Err(FinderFailed) <==> finderFails || route.None?)
            && (r == Err(NoSuchAdapter) <==> !finderFails && route.Some? && route.value.id in lost)
            && (r.Ok? <==> !finderFails && route.Some? && route.value.id !in lost)
  {
    AdapterFoundIff(reg, lost, partyType, currency);
  }

  /**
   Right after it is added, an oracle receives the requests of its party type and currency exactly if no stored oracle
   had both before.
   */
  lemma AddedOracleIsReachedIff(reg: Registry, lost: set<string>, req: OracleRequest, uuid: string, fault: AdminFault)
    requires Agrees(reg, lost) && (!req.id.Truthy() ==> !HasId(reg.stored, uuid))
    requires AddOracle(reg, req, uuid, fault).0.Ok?
    ensures var (reply, after) := AddOracle(reg, req, uuid, fault);
            GetOracleAdapter(after, req.partyType, req.currency.OrNull(), false) == Ok(Adapter(reply.value, req.kind))
            <==> !Serves(reg.stored, req.partyType, req.currency.OrNull())
  {
    var (reply, after) := AddOracle(reg, req, uuid, fault);
    FoundIfStored(reg.stored, uuid);
    AddAnswersIff(reg, req, uuid, fault);
    AddStoresRequest(reg, req, uuid, fault);
    AddKeepsAgreement(reg, lost, req, uuid, fault);
    FoundIfStored(reg.stored, reply.value);
    AddedRoute(reg.stored, after.stored[|reg.stored|], req.partyType, req.currency.OrNull());
    assert after.stored == reg.stored + [after.stored[|reg.stored|]];
    AdapterFoundIff(after, lost, req.partyType, req.currency.OrNull());
    assert Agrees(reg, lost) && reply.value !in lost;
  }

  lemma AddedRoute(stored: seq<Oracle>, o: Oracle, partyType: string, currency: Field)
    requires o.partyType == partyType && o.currency == currency && !HasId(stored, o.id)
    ensures Route(stored + [o], partyType, currency).Some?
    ensures Route(stored + [o], partyType, currency).value.id == o.id <==> !Serves(stored, partyType, currency)
  {
    var exact := FirstExact(stored, partyType, currency);
    AppendedRouteIndex(stored, o, partyType, currency);
    assert exact < |stored| ==> stored[exact] in stored && (stored + [o])[exact] == stored[exact];
  }

  // ---- Removals

  /** For every id and every failing await, which answer a removal gets. */
  lemma RemoveAnswersIff(reg: Registry, id: string, fault: AdminFault)
    ensures var reply := RemoveOracle(reg, id, fault).0;
            && (reply.Ok? <==> HasId(reg.stored, id) && !fault.IdReadFails? && !fault.WriteFails?)
            && (reply == Err(OracleNotFound) <==> !HasId(reg.stored, id) && !fault.IdReadFails?)
            && (reply == Err(UnableToRemove) <==> HasId(reg.stored, id) && fault.WriteFails?)
            && (reply == Err(FinderFailed) <==> fault.IdReadFails?)
  {
    FoundIfStored(reg.stored, id);
  }

  /** After a removal neither a stored oracle nor an adapter has the id, all others stay, and no request reaches it. */
  lemma RemovedOracleIsGone(reg: Registry, lost: set<string>, id: string, fault: AdminFault)
    requires Agrees(reg, lost) && RemoveOracle(reg, id, fault).0.Ok?
    ensures var after := RemoveOracle(reg, id, fault).1;
            && (exists at: nat :: IsRemoval(reg.stored, after.stored, id, at))
            && (forall o :: o in after.stored <==> o in reg.stored && o.id != id)
            && (forall a :: a in after.adapters <==> a in reg.adapters && a.oracleId != id)
            && forall partyType, currency ::
                 var r := GetOracleAdapter(after, partyType, currency, false); r.Ok? ==> r.value.oracleId != id
  {
    var after, at := RemoveOracle(reg, id, fault).1, ById(reg.stored, id);
    assert IsRemoval(reg.stored, after.stored, id, at);
    forall o ensures o in after.stored <==> o in reg.stored && o.id != id {
      if o in after.stored {
        var k :| 0 <= k < |after.stored| && after.stored[k] == o;
        assert o == reg.stored[if k < at then k else k + 1];
      }
    }
    forall partyType, currency | GetOracleAdapter(after, partyType, currency, false).Ok?
      ensures GetOracleAdapter(after, partyType, currency, false).value.oracleId != id
    {
      assert GetOracleAdapter(after, partyType, currency, false).value in after.adapters;
    }
  }

  // ---- Start-up

  /** The oracle's adapter can be created and initialised. */
  predicate CanStart(o: Oracle, down: set<string>) {
    !o.kind.Unsupported? && (o.kind.RemoteHttp? ==> o.endpoint.Truthy()) && o.id !in down
  }

  /** The position of the first oracle that cannot start. */
  function FirstUnusable(oracles: seq<Oracle>, down: set<string>): (i: nat)
    ensures i <= |oracles| && forall k | 0 <= k < i :: CanStart(oracles[k], down)
    ensures i < |oracles| ==> !CanStart(oracles[i], down)
  {
    First(oracles, (o: Oracle) => !CanStart(o, down))
  }

  lemma {:induction false} AdaptersUpToFirstUnusable(oracles: seq<Oracle>, down: set<string>)
    ensures var (ok, adapters) := InitAdapters(oracles, down);
            var n := FirstUnusable(oracles, down);
            && (ok <==> n == |oracles|)
            && |adapters| == n && forall k | 0 <= k < n :: adapters[k] == Adapter(oracles[k].id, oracles[k].kind)
  {
    if oracles != [] {
      var rest := oracles[..|oracles| - 1];
      AdaptersUpToFirstUnusable(rest, down);
      assert forall k | 0 <= k < |rest| :: rest[k] == oracles[k];
      assert FirstUnusable(rest, down) < |rest| ==> FirstUnusable(oracles, down) == FirstUnusable(rest, down);
    }
  }

  /**
   Start-up succeeds exactly if the finder answers and every stored oracle can start; it sets up adapters, in order, for
   the oracles before the first that cannot.
   */
  lemma StartSucceedsIff(stored: seq<Oracle>, finderFails: bool, down: set<string>)
    ensures var (ok, adapters) := Start(stored, finderFails, down);
            && (ok <==> !finderFails && forall o | o in stored :: CanStart(o, down))
            && |adapters| == (if finderFails then 0 else FirstUnusable(stored, down))
            && forall k | 0 <= k < |adapters| :: adapters[k] == Adapter(stored[k].id, stored[k].kind)
  {
    AdaptersUpToFirstUnusable(stored, down);
    var n := FirstUnusable(stored, down);
    assert n < |stored| ==> stored[n] in stored;
  }
}
