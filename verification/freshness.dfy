/**
 The builtin oracle with calls in flight: every await of a lookup, an association or a disassociation is a step
 of its own, and steps of different calls interleave freely.  A step happens when the store serves the awaited
 request; handing a lookup's answer to its caller is a further step.
 */
module InFlight {
  import opened Values
  import opened CacheKeys
  import opened Directories

  /** Where a call stands: the await it is about to have served. */
  datatype Stage =
    | ReadingCache(party: Party)
    | Finding(party: Party)
    | Caching(fspId: string, party: Party, answering: bool)  // answering: the call is a lookup
    | Returning(fspId: string, party: Party)
    | Checking(fspId: string, party: Party)
    | Inserting(fspId: string, party: Party)
    | Deleting(fspId: string, party: Party)
    | Evicting(party: Party)

  datatype Flight = Flight(stage: Stage, start: int)

  datatype World = World(dir: Directory, flights: map<nat, Flight>)

  datatype Move =
    | Begin(id: nat, stage: Stage)
    | Advance(id: nat)
    | Fail(id: nat)
    | Tick(delay: nat)

  predicate IsEntry(s: Stage) {
    s.ReadingCache? || s.Checking? || s.Deleting?
  }

  predicate Enabled(w: World, m: Move) {
    match m
    case Begin(id, stage) => id !in w.flights && IsEntry(stage)
    case Advance(id) => id in w.flights
    case Fail(id) => id in w.flights
    case Tick(_) => true
  }

  function Goto(w: World, id: nat, s: Stage): World
    requires id in w.flights
  {
    w.(flights := w.flights[id := w.flights[id].(stage := s)])
  }

  function WithParties(w: World, docs: seq<Document>): World {
    w.(dir := w.dir.(parties := docs))
  }

  function Finish(w: World, id: nat): World {
    w.(flights := w.flights - {id})
  }

  function Apply(w: World, ttl: int, m: Move): World
    requires Enabled(w, m)
  {
    match m
    case Begin(id, stage) => w.(flights := w.flights[id := Flight(stage, w.dir.now)])
    case Fail(id) => Finish(w, id)
    case Tick(delay) => w.(dir := w.dir.(now := w.dir.now + delay))
    case Advance(id) =>
      var docs := w.dir.parties;
      match w.flights[id].stage
      case ReadingCache(p) =>
        var hit := CacheGet(w.dir, p);
        Goto(w, id, if hit.Some? then Returning(hit.value, p) else Finding(p))
      case Finding(p) =>
        var answer := DirectLookup(docs, p);
        if answer.None? then Finish(w, id) else Goto(w, id, Caching(answer.value, p, true))
      case Caching(f, p, answering) =>
        var cached := w.(dir := CacheSet(w.dir, ttl, Record(f, p)));
        if answering then Goto(cached, id, Returning(f, p)) else Finish(cached, id)
      case Returning(_, _) => Finish(w, id)
      case Checking(f, p) =>
        if Find(docs, QueryOf(DocumentOf(f, p))) < |docs| then Finish(w, id) else Goto(w, id, Inserting(f, p))
      case Inserting(f, p) => Goto(WithParties(w, docs + [DocumentOf(f, p)]), id, Caching(f, p, false))
      case Deleting(f, p) => Goto(WithParties(w, DeleteOne(docs, QueryOf(DocumentOf(f, p)))), id, Evicting(p))
      case Evicting(p) => Finish(w.(dir := CacheDel(w.dir, p)), id)
  }

  /** The answer that a store's reply settles: a cache hit, or a found document once it is cached. */
  function Served(w: World, m: Move): Option<Record>
    requires Enabled(w, m)
  {
    if !m.Advance? then None
    else
      match w.flights[m.id].stage
      case ReadingCache(p) => if CacheGet(w.dir, p).Some? then Some(Record(CacheGet(w.dir, p).value, p)) else None
      case Caching(f, p, true) => Some(Record(f, p))
      case _ => None
  }

  /** The answer a move hands to the caller of a lookup. */
  function Delivered(w: World, m: Move): Option<Record>
    requires Enabled(w, m)
  {
    if m.Advance? && w.flights[m.id].stage.Returning?
    then Some(Record(w.flights[m.id].stage.fspId, w.flights[m.id].stage.party)) else None
  }

  /** Worlds and the moves between them. */
  ghost predicate IsTrace(ws: seq<World>, ttl: int, ms: seq<Move>) {
    && |ws| == |ms| + 1
    && forall i | 0 <= i < |ms| :: Enabled(ws[i], ms[i]) && ws[i + 1] == Apply(ws[i], ttl, ms[i])
  }

  predicate IsInitial(w: World) {
    w.dir.cache == map[] && w.flights == map[]
  }

  /** No call is in flight longer than `limit`. */
  ghost predicate Prompt(ws: seq<World>, limit: int) {
    forall i, id | 0 <= i < |ws| && id in ws[i].flights :: ws[i].dir.now <= ws[i].flights[id].start + limit
  }

  ghost predicate CleanCalls(ms: seq<Move>) {
    forall m | m in ms && m.Begin? :: Clean(m.stage.party)
  }

  /** A trace from an empty cache, of calls on clean parties, none longer in flight than `limit`. */
  ghost predicate IsRun(ws: seq<World>, ttl: int, ms: seq<Move>, limit: nat) {
    IsTrace(ws, ttl, ms) && IsInitial(ws[0]) && Prompt(ws, limit) && CleanCalls(ms)
  }
}

/** How old an answer of the builtin oracle can be. */
module Freshness {
  import opened Values
  import opened CacheKeys
  import opened Directories
  import opened InFlight

  /** Some live document answers a lookup of `r.party` with `r.fspId`. */
  ghost predicate Lives(dir: Directory, r: Record) {
    exists d :: d in dir.parties && d.fspId == r.fspId && Selects(LookupQuery(r.party), d)
  }

  /** At some world up to `i`, at time `t` or later, such a document was live. */
  ghost predicate LivedSince(ws: seq<World>, i: nat, r: Record, t: int)
    requires i < |ws|
  {
    exists j :: 0 <= j <= i && Lives(ws[j].dir, r) && t <= ws[j].dir.now
  }

  ghost predicate EntryIsFresh(ws: seq<World>, i: nat, age: int, k: string, e: CacheEntry)
    requires i < |ws|
  {
    Clean(e.record.party) && CacheKey(e.record.party) == k && LivedSince(ws, i, e.record, e.expires - age)
  }

  /** An answer about to be cached was picked up in flight; one about to be handed over may be `age` older. */
  ghost predicate FlightIsFresh(ws: seq<World>, i: nat, age: int, fl: Flight)
    requires i < |ws|
  {
    && Clean(fl.stage.party) && fl.start <= ws[i].dir.now
    && (fl.stage.Caching? ==> LivedSince(ws, i, Record(fl.stage.fspId, fl.stage.party), fl.start))
    && (fl.stage.Returning? ==> LivedSince(ws, i, Record(fl.stage.fspId, fl.stage.party), fl.start - age + 1))
  }

  ghost predicate EntriesAreFresh(ws: seq<World>, i: nat, age: int)
    requires i < |ws|
  {
    forall k | k in ws[i].dir.cache :: EntryIsFresh(ws, i, age, k, ws[i].dir.cache[k])
  }

  ghost predicate FlightsAreFresh(ws: seq<World>, i: nat, age: int)
    requires i < |ws|
  {
    forall id | id in ws[i].flights :: FlightIsFresh(ws, i, age, ws[i].flights[id])
  }

  /** Every cached answer and every answer on its way comes from a document live recently enough. */
  ghost predicate Inv(ws: seq<World>, i: nat, age: int)
    requires i < |ws|
  {
    EntriesAreFresh(ws, i, age) && FlightsAreFresh(ws, i, age)
  }

  lemma FreshnessGrows(ws: seq<World>, i: nat, age: int)
    requires i + 1 < |ws|
    ensures forall k, e | EntryIsFresh(ws, i, age, k, e) :: EntryIsFresh(ws, i + 1, age, k, e)
    ensures ws[i].dir.now <= ws[i + 1].dir.now ==>
              forall fl | FlightIsFresh(ws, i, age, fl) :: FlightIsFresh(ws, i + 1, age, fl)
  {
    forall r, t | LivedSince(ws, i, r, t) ensures LivedSince(ws, i + 1, r, t) {
      var j :| 0 <= j <= i && Lives(ws[j].dir, r) && t <= ws[j].dir.now;
    }
  }

  /** Only a call that carries an answer writes the cache. */
  lemma OnlyCachingWrites(w: World, ttl: int, m: Move, k: string)
    requires Enabled(w, m)
    requires var cache := Apply(w, ttl, m).dir.cache;
             k in cache && (k !in w.dir.cache || cache[k] != w.dir.cache[k])
    ensures m.Advance? && w.flights[m.id].stage.Caching?
    ensures var stage := w.flights[m.id].stage;
            && k == CacheKey(stage.party)
            && Apply(w, ttl, m).dir.cache[k] == CacheEntry(Record(stage.fspId, stage.party), w.dir.now + ttl)
  {
  }

  /** It does so at most `limit` after it picked the answer up. */
  lemma NewEntryIsFresh(ws: seq<World>, ttl: int, ms: seq<Move>, limit: nat, i: nat, k: string)
    requires IsTrace(ws, ttl, ms) && Prompt(ws, limit) && i < |ms| && Inv(ws, i, ttl + limit)
    requires k in ws[i + 1].dir.cache
    requires k !in ws[i].dir.cache || ws[i + 1].dir.cache[k] != ws[i].dir.cache[k]
    ensures EntryIsFresh(ws, i, ttl + limit, k, ws[i + 1].dir.cache[k])
  {
    OnlyCachingWrites(ws[i], ttl, ms[i], k);
    var fl := ws[i].flights[ms[i].id];
    assert FlightIsFresh(ws, i, ttl + limit, fl);
    assert ws[i].dir.now <= fl.start + limit;
    var j :| 0 <= j <= i && Lives(ws[j].dir, Record(fl.stage.fspId, fl.stage.party)) && fl.start <= ws[j].dir.now;
  }

  lemma StepKeepsInv(ws: seq<World>, ttl: int, ms: seq<Move>, limit: nat, i: nat)
    requires IsRun(ws, ttl, ms, limit) && ttl > 0 && i < |ms|
    requires Inv(ws, i, ttl + limit)
    ensures Inv(ws, i + 1, ttl + limit)
  {
    FreshnessGrows(ws, i, ttl + limit);
    var w, w' := ws[i], ws[i + 1];
    forall k | k in w'.dir.cache
      ensures EntryIsFresh(ws, i + 1, ttl + limit, k, w'.dir.cache[k])
    {
      if !(k in w.dir.cache && w'.dir.cache[k] == w.dir.cache[k]) {
        NewEntryIsFresh(ws, ttl, ms, limit, i, k);
      }
    }
    FlightsStayFresh(ws, ttl, ms, limit, i);
  }

  lemma FlightsStayFresh(ws: seq<World>, ttl: int, ms: seq<Move>, limit: nat, i: nat)
    requires IsTrace(ws, ttl, ms) && CleanCalls(ms) && ttl > 0 && i < |ms|
    requires Inv(ws, i, ttl + limit)
    ensures FlightsAreFresh(ws, i + 1, ttl + limit)
  {
    FreshnessGrows(ws, i, ttl + limit);
    var w, w', m := ws[i], ws[i + 1], ms[i];
    assert m in ms;
    forall id | id in w'.flights
      ensures FlightIsFresh(ws, i + 1, ttl + limit, w'.flights[id])
    {
      if id in w.flights {
        assert FlightIsFresh(ws, i, ttl + limit, w.flights[id]);
        if m == Advance(id) { AdvanceIsFresh(ws, ttl, ms, limit, i, id); }
      }
    }
  }

  /**
   Finding a document and inserting one pick an answer up while it is live; a cache hit picks up what the entry vouches
   for.
   */
  lemma AdvanceIsFresh(ws: seq<World>, ttl: int, ms: seq<Move>, limit: nat, i: nat, id: nat)
    requires IsTrace(ws, ttl, ms) && ttl > 0 && i < |ms| && ms[i] == Advance(id)
    requires Inv(ws, i, ttl + limit) && id in ws[i].flights && id in ws[i + 1].flights
    ensures FlightIsFresh(ws, i + 1, ttl + limit, ws[i + 1].flights[id])
  {
    var w, w', fl := ws[i], ws[i + 1], ws[i].flights[id];
    assert FlightIsFresh(ws, i, ttl + limit, fl);
    match fl.stage
    case ReadingCache(p) =>
      if CacheGet(w.dir, p).Some? { HitIsFresh(ws, ttl, limit, i, fl, p); }
    case Finding(p) =>
      var at := Find(w.dir.parties, LookupQuery(p));
      assert w.dir.parties[at] in w.dir.parties;
      assert Lives(w.dir, Record(w.dir.parties[at].fspId, p));
    case Inserting(f, p) =>
      assert DocumentOf(f, p) in w'.dir.parties;
      assert Lives(w'.dir, Record(f, p));
    case Caching(f, p, _) =>
      var j :| 0 <= j <= i && Lives(ws[j].dir, Record(f, p)) && fl.start <= ws[j].dir.now;
    case _ =>
  }

  /** A hit answers with what its entry was written for, less than a lifetime and `limit` after that was live. */
  lemma HitIsFresh(ws: seq<World>, ttl: int, limit: nat, i: nat, fl: Flight, p: Party)
    requires i < |ws| && EntriesAreFresh(ws, i, ttl + limit) && fl.start <= ws[i].dir.now
    requires Clean(p) && CacheGet(ws[i].dir, p).Some?
    ensures LivedSince(ws, i, Record(CacheGet(ws[i].dir, p).value, p), ws[i].dir.now - (ttl + limit) + 1)
    ensures LivedSince(ws, i, Record(CacheGet(ws[i].dir, p).value, p), fl.start - (ttl + limit) + 1)
  {
    var e := ws[i].dir.cache[CacheKey(p)];
    assert EntryIsFresh(ws, i, ttl + limit, CacheKey(p), e);
    KeyInjective(e.record.party, p);
    var j :| 0 <= j <= i && Lives(ws[j].dir, e.record) && e.expires - (ttl + limit) <= ws[j].dir.now;
    assert e.record == Record(CacheGet(ws[i].dir, p).value, p);
  }

  lemma {:induction false} InvHolds(ws: seq<World>, ttl: int, ms: seq<Move>, limit: nat, i: nat)
    requires IsRun(ws, ttl, ms, limit) && ttl > 0 && i < |ws|
    ensures Inv(ws, i, ttl + limit)
  {
    if i > 0 {
      InvHolds(ws, ttl, ms, limit, i - 1);
      StepKeepsInv(ws, ttl, ms, limit, i - 1);
    }
  }

  /** At some world up to `i`, less than `age` before it, a document answering `r` was live. */
  ghost predicate YoungerThan(ws: seq<World>, i: nat, r: Record, age: int)
    requires i < |ws|
  {
    LivedSince(ws, i, r, ws[i].dir.now - age + 1)
  }

  /**
   Concurrent freshness: whatever the interleaving and the failures, an answer that a store's reply settles comes from a
   matching document that was live less than `ttl + limit` before.  With calls that take no time the bound is `ttl`.
   */
  lemma ServedAnswersAreFresh(ws: seq<World>, ttl: int, ms: seq<Move>, limit: nat, i: nat)
    requires IsRun(ws, ttl, ms, limit) && ttl > 0 && i < |ms| && Served(ws[i], ms[i]).Some?
    ensures YoungerThan(ws, i, Served(ws[i], ms[i]).value, ttl + limit)
  {
    InvHolds(ws, ttl, ms, limit, i);
    var w, r, fl := ws[i], Served(ws[i], ms[i]).value, ws[i].flights[ms[i].id];
    assert FlightIsFresh(ws, i, ttl + limit, fl);
    if fl.stage.ReadingCache? {
      HitIsFresh(ws, ttl, limit, i, fl, r.party);
    } else {
      var j :| 0 <= j <= i && Lives(ws[j].dir, r) && fl.start <= ws[j].dir.now;
      assert w.dir.now <= fl.start + limit;
    }
  }

  /** The flight holds an answer that a step before `i` settled for it. */
  ghost predicate WasServed(ws: seq<World>, ms: seq<Move>, i: nat, id: nat, r: Record)
    requires i < |ws| == |ms| + 1 && forall k | 0 <= k < |ms| :: Enabled(ws[k], ms[k])
  {
    exists j :: 0 <= j < i && ms[j] == Advance(id) && Served(ws[j], ms[j]) == Some(r)
  }

  lemma {:induction false} ReturningWasServed(ws: seq<World>, ttl: int, ms: seq<Move>, i: nat, id: nat)
    requires IsTrace(ws, ttl, ms) && IsInitial(ws[0]) && i < |ws|
    requires id in ws[i].flights && ws[i].flights[id].stage.Returning?
    ensures WasServed(ws, ms, i, id, Record(ws[i].flights[id].stage.fspId, ws[i].flights[id].stage.party))
  {
    var w, m := ws[i - 1], ms[i - 1];
    var r := Record(ws[i].flights[id].stage.fspId, ws[i].flights[id].stage.party);
    if m == Advance(id) {
      assert Served(w, m) == Some(r);
    } else {
      assert id in w.flights && w.flights[id].stage == ws[i].flights[id].stage;
      ReturningWasServed(ws, ttl, ms, i - 1, id);
      var j :| 0 <= j < i - 1 && ms[j] == Advance(id) && Served(ws[j], ms[j]) == Some(r);
    }
  }

  /** Every answer handed to a caller was settled for that call before, by a store's reply. */
  lemma DeliveredWasServed(ws: seq<World>, ttl: int, ms: seq<Move>, i: nat)
    requires IsTrace(ws, ttl, ms) && IsInitial(ws[0]) && i < |ms| && Delivered(ws[i], ms[i]).Some?
    ensures WasServed(ws, ms, i, ms[i].id, Delivered(ws[i], ms[i]).value)
  {
    ReturningWasServed(ws, ttl, ms, i, ms[i].id);
  }

  /** Handed to its caller, an answer is less than `ttl + 2 * limit` old. */
  lemma DeliveredAnswersAreFresh(ws: seq<World>, ttl: int, ms: seq<Move>, limit: nat, i: nat)
    requires IsRun(ws, ttl, ms, limit) && ttl > 0 && i < |ms| && Delivered(ws[i], ms[i]).Some?
    ensures YoungerThan(ws, i, Delivered(ws[i], ms[i]).value, ttl + 2 * limit)
  {
    InvHolds(ws, ttl, ms, limit, i);
    var w, r, fl := ws[i], Delivered(ws[i], ms[i]).value, ws[i].flights[ms[i].id];
    assert FlightIsFresh(ws, i, ttl + limit, fl);
    assert w.dir.now <= fl.start + limit;
    var j :| 0 <= j <= i && Lives(ws[j].dir, r) && fl.start - (ttl + limit) + 1 <= ws[j].dir.now;
  }
}
