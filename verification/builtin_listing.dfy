/** Listing the associations of the builtin oracles, all of which keep them in one collection. */
module BuiltinListing {
  import opened Values
  import opened Directories
  import opened Registries
  import opened Searching

  /** What an adapter answers when asked for all its associations. */
  function Associations(adapter: Adapter, docs: seq<Document>, storeFails: bool, remote: string -> Option<seq<Listed>>)
    : Option<seq<Listed>>
  {
    if !adapter.kind.Builtin? then remote(adapter.oracleId)
    else if storeFails then None else Some(ListAll(docs))
  }

  /** What the route of `o` answers when asked for all its associations. */
  function RoutedAssociations(reg: Registry, o: Oracle, docs: seq<Document>, storeFails: bool,
                              remote: string -> Option<seq<Listed>>): Option<seq<Listed>> {
    var adapter := GetOracleAdapter(reg, o.partyType, o.currency, false);
    if adapter.Err? then None else Associations(adapter.value, docs, storeFails, remote)
  }

  /** The answer for the latest builtin oracle of the list, provided every builtin oracle gets one. */
  function BuiltinAssociations(reg: Registry, oracles: seq<Oracle>, docs: seq<Document>, storeFails: bool,
                               remote: string -> Option<seq<Listed>>): Option<seq<Listed>> {
    if oracles == [] then Some([])
    else
      var before := BuiltinAssociations(reg, oracles[..|oracles| - 1], docs, storeFails, remote);
      var last := oracles[|oracles| - 1];
      if before.None? || !last.kind.Builtin? then before else RoutedAssociations(reg, last, docs, storeFails, remote)
  }

  /** Once a builtin oracle of a prefix gets no answer, the whole list gets none. */
  lemma {:induction false} AssociationsStop(reg: Registry, oracles: seq<Oracle>, docs: seq<Document>, storeFails: bool,
                                            remote: string -> Option<seq<Listed>>, k: nat)
    requires k <= |oracles| && BuiltinAssociations(reg, oracles[..k], docs, storeFails, remote).None?
    ensures BuiltinAssociations(reg, oracles, docs, storeFails, remote).None?
  {
    if k == |oracles| {
      assert oracles[..k] == oracles;
    } else {
      var shorter := oracles[..|oracles| - 1];
      assert shorter[..k] == oracles[..k];
      AssociationsStop(reg, shorter, docs, storeFails, remote, k);
    }
  }

  /** The listing succeeds exactly if the route of every builtin oracle answers. */
  lemma {:induction false} ListingSucceedsIff(reg: Registry, oracles: seq<Oracle>, docs: seq<Document>,
                                              storeFails: bool, remote: string -> Option<seq<Listed>>)
    ensures BuiltinAssociations(reg, oracles, docs, storeFails, remote).Some? <==>
            forall o | o in oracles && o.kind.Builtin? :: RoutedAssociations(reg, o, docs, storeFails, remote).Some?
  {
    if oracles != [] {
      var rest, last := oracles[..|oracles| - 1], oracles[|oracles| - 1];
      ListingSucceedsIff(reg, rest, docs, storeFails, remote);
      assert oracles == rest + [last];
    }
  }

  /** What a route answers: a builtin adapter the whole collection, a remote one its own listing. */
  lemma RouteAnswers(reg: Registry, o: Oracle, docs: seq<Document>, storeFails: bool,
                     remote: string -> Option<seq<Listed>>)
    ensures var adapter := GetOracleAdapter(reg, o.partyType, o.currency, false);
            var r := RoutedAssociations(reg, o, docs, storeFails, remote);
            && (adapter.Err? ==> r.None?)
            && (adapter.Ok? && !adapter.value.kind.Builtin? ==> r == remote(adapter.value.oracleId))
            && (adapter.Ok? && adapter.value.kind.Builtin? ==>
                  && (r.Some? <==> !storeFails)
                  && (r.Some? ==> |r.value| == |docs| && forall i | 0 <= i < |docs| ::
                      r.value[i] == Listed(docs[i].partyId, docs[i].fspId, docs[i].partyType, docs[i].currency)))
  {
  }

  /** A listing that succeeds is the answer for the last builtin oracle, and empty if there is none. */
  lemma {:induction false} ListingIsLastAnswer(reg: Registry, oracles: seq<Oracle>, docs: seq<Document>,
                                               storeFails: bool, remote: string -> Option<seq<Listed>>, last: nat)
    requires BuiltinAssociations(reg, oracles, docs, storeFails, remote).Some?
    requires last <= |oracles| && forall k | last <= k < |oracles| :: !oracles[k].kind.Builtin?
    ensures last == 0 ==> BuiltinAssociations(reg, oracles, docs, storeFails, remote) == Some([])
    ensures last > 0 && oracles[last - 1].kind.Builtin? ==>
              BuiltinAssociations(reg, oracles, docs, storeFails, remote)
              == RoutedAssociations(reg, oracles[last - 1], docs, storeFails, remote)
  {
    if last < |oracles| {
      ListingIsLastAnswer(reg, oracles[..|oracles| - 1], docs, storeFails, remote, last);
    }
  }

  /**
   If every builtin oracle's own route selects a builtin adapter that is present, the shared collection is listed once,
   however many there are.
   */
  lemma {:induction false} ListingCollapses(reg: Registry, oracles: seq<Oracle>, docs: seq<Document>,
                                            remote: string -> Option<seq<Listed>>)
    requires forall o | o in oracles && o.kind.Builtin? ::
               var adapter := GetOracleAdapter(reg, o.partyType, o.currency, false);
               adapter.Ok? && adapter.value.kind.Builtin?
    ensures BuiltinAssociations(reg, oracles, docs, false, remote)
            == Some(if exists o :: o in oracles && o.kind.Builtin? then ListAll(docs) else [])
  {
    if oracles != [] {
      var rest, last := oracles[..|oracles| - 1], oracles[|oracles| - 1];
      assert oracles == rest + [last];
      assert forall o | o in rest :: o in oracles;
      ListingCollapses(reg, rest, docs, remote);
    }
  }
}
