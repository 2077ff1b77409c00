/**
 The builtin oracle's directory as a value: the `builtinOracleParties` collection in insertion order,
 the Redis cache, and the clock by which cache entries expire.  Every builtin adapter uses the same
 collection name and the same key prefix, so there is one directory however many adapters there are.
 */
module Directories {
  import opened Values
  import opened Sequences
  import opened CacheKeys

  datatype Document = Document(fspId: string, partyType: string, partyId: string,
                               partySubType: Option<string>, currency: Option<string>)

  /** A Mongo filter object; a field that was deleted from it matches everything. */
  datatype Query = Query(fspId: Option<string>, partyType: string, partyId: string,
                         partySubType: Option<string>, currency: Option<string>)

  datatype Record = Record(fspId: string, party: Party)

  datatype CacheEntry = CacheEntry(record: Record, expires: int)

  datatype Directory = Directory(parties: seq<Document>, cache: map<string, CacheEntry>, now: int)

  /** The awaited store call that fails, if any. */
  datatype Fault = NoFault | CacheReadFails | FindFails | InsertFails | DeleteFails | CacheWriteFails | CacheDeleteFails

  datatype StoreError = AlreadyExists | Unavailable

  type Reply = Result<(), StoreError>
  type LookupReply = Result<Option<string>, StoreError>

  // ---- Queries

  /** The object `_buildLookupQuery` builds; an association inserts this same object as its document. */
  function DocumentOf(fspId: string, p: Party): Document {
    Document(fspId, p.partyType, p.partyId, p.partySubType.Present(), p.currency.Present())
  }

  function QueryOf(d: Document): Query {
    Query(Some(d.fspId), d.partyType, d.partyId, d.partySubType, d.currency)
  }

  function LookupQuery(p: Party): Query {
    Query(None, p.partyType, p.partyId, p.partySubType.Present(), p.currency.Present())
  }

  predicate Agrees(wanted: Option<string>, stored: Option<string>) {
    wanted.Some? ==> stored == wanted
  }

  predicate Selects(q: Query, d: Document) {
    && Agrees(q.fspId, Some(d.fspId))
    && d.partyType == q.partyType
    && d.partyId == q.partyId
    && Agrees(q.partySubType, d.partySubType)
    && Agrees(q.currency, d.currency)
  }

  /** Position of the document `findOne(q)` returns, or the length of the collection. */
  function Find(docs: seq<Document>, q: Query): (i: nat)
    ensures i <= |docs|
    ensures forall k | 0 <= k < i :: !Selects(q, docs[k])
    ensures i < |docs| ==> Selects(q, docs[i])
  {
    First(docs, d => Selects(q, d))
  }

  /** What the collection alone answers to a lookup. */
  function DirectLookup(docs: seq<Document>, p: Party): Option<string> {
    var i := Find(docs, LookupQuery(p));
    if i < |docs| then Some(docs[i].fspId) else None
  }

  // ---- Cache

  function CacheGet(dir: Directory, p: Party): Option<string> {
    var k := CacheKey(p);
    if k in dir.cache && dir.now < dir.cache[k].expires then Some(dir.cache[k].record.fspId) else None
  }

  function CacheSet(dir: Directory, ttl: int, r: Record): Directory {
    dir.(cache := dir.cache[CacheKey(r.party) := CacheEntry(r, dir.now + ttl)])
  }

  function CacheDel(dir: Directory, p: Party): Directory {
    dir.(cache := dir.cache - {CacheKey(p)})
  }

  // ---- Operations

  function GetParticipantFspId(dir: Directory, ttl: int, p: Party, fault: Fault): (LookupReply, Directory) {
    if fault.CacheReadFails? then (Err(Unavailable), dir)
    else if CacheGet(dir, p).Some? then (Ok(CacheGet(dir, p)), dir)
    else if fault.FindFails? then (Err(Unavailable), dir)
    else
      var answer := DirectLookup(dir.parties, p);
      if answer.None? then (Ok(None), dir)
      else if fault.CacheWriteFails? then (Err(Unavailable), dir)
      else (Ok(answer), CacheSet(dir, ttl, Record(answer.value, p)))
  }

  function Associate(dir: Directory, ttl: int, fspId: string, p: Party, fault: Fault): (Reply, Directory) {
    var d := DocumentOf(fspId, p);
    if fault.FindFails? then (Err(Unavailable), dir)
    else if Find(dir.parties, QueryOf(d)) < |dir.parties| then (Err(AlreadyExists), dir)
    else if fault.InsertFails? then (Err(Unavailable), dir)
    else
      var inserted := dir.(parties := dir.parties + [d]);
      if fault.CacheWriteFails? then (Err(Unavailable), inserted)
      else (Ok(()), CacheSet(inserted, ttl, Record(fspId, p)))
  }

  function DeleteOne(docs: seq<Document>, q: Query): seq<Document> {
    Without(docs, Find(docs, q))
  }

  function Disassociate(dir: Directory, fspId: string, p: Party, fault: Fault): (Reply, Directory) {
    if fault.DeleteFails? then (Err(Unavailable), dir)
    else
      var deleted := dir.(parties := DeleteOne(dir.parties, QueryOf(DocumentOf(fspId, p))));
      if fault.CacheDeleteFails? then (Err(Unavailable), deleted)
      else (Ok(()), CacheDel(deleted, p))
  }

  // ---- Serial runs

  datatype Call =
    | GetCall(party: Party, fault: Fault)
    | AssociateCall(fspId: string, party: Party, fault: Fault)
    | DisassociateCall(fspId: string, party: Party, fault: Fault)
    | Wait(delay: nat)

  function Step(dir: Directory, ttl: int, c: Call): Directory {
    match c
    case GetCall(p, fault) => GetParticipantFspId(dir, ttl, p, fault).1
    case AssociateCall(f, p, fault) => Associate(dir, ttl, f, p, fault).1
    case DisassociateCall(f, p, fault) => Disassociate(dir, f, p, fault).1
    case Wait(delay) => dir.(now := dir.now + delay)
  }

  function Run(dir: Directory, ttl: int, calls: seq<Call>): Directory
    decreases |calls|
  {
    if calls == [] then dir else Run(Step(dir, ttl, calls[0]), ttl, calls[1..])
  }
}
