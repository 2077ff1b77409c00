/** The builtin oracle adapter: a Mongo collection behind a Redis cache, changed in place by three operations. */
module BuiltinProvider {
  import opened Values
  import opened CacheKeys
  import opened Directories
  import opened Pagination
  import opened Searching

  class MongoOracleProviderRepo {
    const ttl: int
    var parties: seq<Document>
    var cache: map<string, CacheEntry>
    var now: int

    function State(): Directory
      reads this
    {
      Directory(parties, cache, now)
    }

    constructor (ttl: int, dir: Directory)
      ensures State() == dir && this.ttl == ttl
    {
      this.ttl := ttl;
      parties, cache, now := dir.parties, dir.cache, dir.now;
    }

    /** Time passes; cache entries expire by the clock alone. */
    method Wait(delay: nat)
      modifies this`now
      ensures State() == Step(old(State()), ttl, Call.Wait(delay))
    {
      now := now + delay;
    }

    method GetParticipantFspId(p: Party, fault: Fault) returns (reply: LookupReply)
      modifies this`cache
      ensures (reply, State()) == Directories.GetParticipantFspId(old(State()), ttl, p, fault)
    {
      if fault.CacheReadFails? {
        return Err(Unavailable);
      }
      var key := CacheKey(p);
      if key in cache && now < cache[key].expires {
        return Ok(Some(cache[key].record.fspId));
      }
      if fault.FindFails? {
        return Err(Unavailable);
      }
      var at := Find(parties, LookupQuery(p));
      if at == |parties| {
        return Ok(None);
      }
      if fault.CacheWriteFails? {
        return Err(Unavailable);
      }
      SetToCache(Record(parties[at].fspId, p));
      reply := Ok(Some(parties[at].fspId));
    }

    method AssociateParticipant(fspId: string, p: Party, fault: Fault) returns (reply: Reply)
      modifies this`parties, this`cache
      ensures (reply, State()) == Associate(old(State()), ttl, fspId, p, fault)
    {
      var query := DocumentOf(fspId, p);
      if fault.FindFails? {
        return Err(Unavailable);
      }
      var at := Find(parties, QueryOf(query));
      if at < |parties| {
        return Err(AlreadyExists);
      }
      if fault.InsertFails? {
        return Err(Unavailable);
      }
      parties := parties + [query];
      if fault.CacheWriteFails? {
        return Err(Unavailable);
      }
      SetToCache(Record(fspId, p));
      reply := Ok(());
    }

    method DisassociateParticipant(fspId: string, p: Party, fault: Fault) returns (reply: Reply)
      modifies this`parties, this`cache
      ensures (reply, State()) == Disassociate(old(State()), fspId, p, fault)
    {
      if fault.DeleteFails? {
        return Err(Unavailable);
      }
      var at := Find(parties, QueryOf(DocumentOf(fspId, p)));
      if at < |parties| {
        parties := parties[..at] + parties[at + 1..];
      }
      if fault.CacheDeleteFails? {
        return Err(Unavailable);
      }
      cache := cache - {CacheKey(p)};
      reply := Ok(());
    }

    method SetToCache(r: Record)
      modifies this`cache
      ensures State() == CacheSet(old(State()), ttl, r)
    {
      cache := cache[CacheKey(r.party) := CacheEntry(r, now + ttl)];
    }

    /** Pushes a condition for every search term given; with none the filter selects everything. */
    method Filter(c: Criteria, ghost matches: TextMatch) returns (conditions: seq<Condition>)
      ensures forall d :: HoldAll(d, conditions, matches) <==> Meets(d, c, matches)
    {
      conditions := [];
      if c.fspId.Truthy() {
        PushedCondition(conditions, FspIs(c.fspId.text), matches);
        conditions := conditions + [FspIs(c.fspId.text)];
      }
      if c.partyId.Truthy() {
        PushedCondition(conditions, PartyIdMatches(c.partyId.text), matches);
        conditions := conditions + [PartyIdMatches(c.partyId.text)];
      }
      if c.partyType.Truthy() {
        PushedCondition(conditions, PartyTypeIs(c.partyType.text), matches);
        conditions := conditions + [PartyTypeIs(c.partyType.text)];
      }
      if c.partySubType.Truthy() {
        PushedCondition(conditions, SubTypeMatches(c.partySubType.text), matches);
        conditions := conditions + [SubTypeMatches(c.partySubType.text)];
      }
      if c.currency.Truthy() {
        PushedCondition(conditions, CurrencyIs(c.currency.text), matches);
        conditions := conditions + [CurrencyIs(c.currency.text)];
      }
    }

    /** Pages through the documents that meet the search terms. */
    method SearchAssociations(c: Criteria, matches: TextMatch, pageIndex: int, pageSize: int, fault: SearchFault)
      returns (r: SearchResults<Document>)
      ensures r == Search(Matching(parties, c, matches), pageIndex, pageSize, fault)
    {
      var size, index := Min(pageSize, MAX_ENTRIES_PER_PAGE), Max(pageIndex, 0);
      r := SearchResults(size, index, Pages(0), []);
      var conditions := Filter(c, matches);
      var skip := index * size;
      if fault.PageFails? || skip < 0 {
        return;
      }
      var found := FindAll(parties, conditions, matches);
      FilterSelectsMatching(parties, conditions, c, matches);
      var result := Page(found, skip);
      r := r.(items := result);
      if fault.CountFails? {
        return;
      }
      r := r.(totalPages := CountPages(|found|, size));
      r := r.(pageSize := Max(size, |result|));
    }

    /**
     The three keyword lists, each filled with the distinct values of its field among the groups yielded before the
     aggregation fails, if it does.  The loop pushes the three objects again for every group, so the result repeats
     them.
     */
    method GetSearchKeywords(groups: seq<Group>, yielded: nat) returns (r: seq<Keyword>)
      requires forall g :: g in groups <==> exists d :: d in parties && GroupOf(d) == g
      requires yielded <= |groups|
      ensures yielded == 0 ==> r == []
      ensures yielded > 0 ==>
                && |r| >= 3 && r == Repeat(r[..3], yielded)
                && r[0].fieldName == "partyType" && r[1].fieldName == "currency" && r[2].fieldName == "fspId"
                && r[0].Distinct() && r[1].Distinct() && r[2].Distinct()
                && r[0].Terms() == (set g | g in groups[..yielded] :: Some(g.partyType))
                && r[1].Terms() == (set g | g in groups[..yielded] :: g.currency)
                && r[2].Terms() == (set g | g in groups[..yielded] :: Some(g.fspId))
      ensures yielded == |groups| && r != [] ==>
                && |r| >= 3
                && r[0].Terms() == (set d | d in parties :: Some(d.partyType))
                && r[1].Terms() == (set d | d in parties :: d.currency)
                && r[2].Terms() == (set d | d in parties :: Some(d.fspId))
    {
      r := [];
      var partyType := new Keyword("partyType");
      var currency := new Keyword("currency");
      var fspId := new Keyword("fspId");
      ghost var lists := [partyType, currency, fspId];
      for i := 0 to yielded
        invariant fresh(partyType) && fresh(currency) && fresh(fspId)
        invariant partyType != currency && partyType != fspId && currency != fspId
        invariant partyType.Distinct() && currency.Distinct() && fspId.Distinct()
        invariant r == Repeat(lists, i)
        invariant partyType.Terms() == (set g | g in groups[..i] :: Some(g.partyType))
        invariant currency.Terms() == (set g | g in groups[..i] :: g.currency)
        invariant fspId.Terms() == (set g | g in groups[..i] :: Some(g.fspId))
      {
        assert groups[..i + 1] == groups[..i] + [groups[i]];
        partyType.Add(Some(groups[i].partyType));
        currency.Add(groups[i].currency);
        fspId.Add(Some(groups[i].fspId));
        r := r + [partyType, currency, fspId];
      }
      assert groups[..|groups|] == groups;
      GroupsHoldTheValues(parties, groups);
      RepeatStarts(lists, yielded);
    }
  }
}
