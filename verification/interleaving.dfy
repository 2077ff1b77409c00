/** The interleaved steps against the whole operations, and what interleaving costs. */
module Interleaving {
  import opened Values
  import opened CacheKeys
  import opened Directories
  import opened InFlight
  import opened Freshness

  predicate Hits(fault: Fault, s: Stage) {
    match s
    case ReadingCache(_) => fault.CacheReadFails?
    case Finding(_) => fault.FindFails?
    case Checking(_, _) => fault.FindFails?
    case Inserting(_, _) => fault.InsertFails?
    case Caching(_, _, _) => fault.CacheWriteFails?
    case Deleting(_, _) => fault.DeleteFails?
    case Evicting(_) => fault.CacheDeleteFails?
    case Returning(_, _) => false
  }

  function Remaining(s: Stage): nat {
    match s
    case ReadingCache(_) => 4
    case Finding(_) => 3
    case Checking(_, _) => 4
    case Inserting(_, _) => 3
    case Caching(_, _, _) => 2
    case Returning(_, _) => 1
    case Deleting(_, _) => 2
    case Evicting(_) => 1
  }

  /** One flight alone until it ends, and the answer it delivers. */
  function Drive(w: World, ttl: int, id: nat, fault: Fault): (World, Option<Record>)
    requires id in w.flights
    decreases Remaining(w.flights[id].stage)
  {
    var m := if Hits(fault, w.flights[id].stage) then Fail(id) else Advance(id);
    var next := Apply(w, ttl, m);
    if id in next.flights then Drive(next, ttl, id, fault) else (next, Delivered(w, m))
  }

  /** Uninterrupted, the steps of a call amount to the whole operation, fault for fault, whatever else is in flight. */
  lemma SoloLookupIsGet(w: World, ttl: int, id: nat, p: Party, fault: Fault)
    requires id !in w.flights
    ensures var (after, answer) := Drive(Apply(w, ttl, Begin(id, ReadingCache(p))), ttl, id, fault);
            var (reply, dir) := GetParticipantFspId(w.dir, ttl, p, fault);
            after == w.(dir := dir)
            && answer == if reply.Ok? && reply.value.Some? then Some(Record(reply.value.value, p)) else None
  {
    var w1 := Apply(w, ttl, Begin(id, ReadingCache(p)));
    assert w1.flights - {id} == w.flights;
    if fault.CacheReadFails? {
    } else if CacheGet(w.dir, p).Some? {
      SoloReturn(w, w.dir, w1.flights, ttl, id, CacheGet(w.dir, p).value, p, fault);
    } else {
      var w2 := Goto(w1, id, Finding(p));
      assert Drive(w1, ttl, id, fault) == Drive(w2, ttl, id, fault) && w2.flights - {id} == w.flights;
      if !fault.FindFails? && DirectLookup(w.dir.parties, p).Some? {
        SoloCaching(w, w2.flights, ttl, id, DirectLookup(w.dir.parties, p).value, p, fault);
      }
    }
  }

  lemma SoloReturn(w: World, dir: Directory, flights: map<nat, Flight>, ttl: int, id: nat, f: string, p: Party,
                   fault: Fault)
    requires id in flights && flights - {id} == w.flights
    ensures Drive(Goto(World(dir, flights), id, Returning(f, p)), ttl, id, fault)
            == (w.(dir := dir), Some(Record(f, p)))
  {
    assert Goto(World(dir, flights), id, Returning(f, p)).flights - {id} == w.flights;
  }

  lemma SoloCaching(w: World, flights: map<nat, Flight>, ttl: int, id: nat, f: string, p: Party, fault: Fault)
    requires id in flights && flights - {id} == w.flights
    ensures Drive(Goto(World(w.dir, flights), id, Caching(f, p, true)), ttl, id, fault) ==
            if fault.CacheWriteFails? then (w, None)
            else (w.(dir := CacheSet(w.dir, ttl, Record(f, p))), Some(Record(f, p)))
  {
    var w3 := Goto(World(w.dir, flights), id, Caching(f, p, true));
    assert w3.flights - {id} == w.flights;
    if !fault.CacheWriteFails? {
      var dir := CacheSet(w.dir, ttl, Record(f, p));
      assert Drive(w3, ttl, id, fault) == Drive(Goto(World(dir, w3.flights), id, Returning(f, p)), ttl, id, fault);
      SoloReturn(w, dir, w3.flights, ttl, id, f, p, fault);
    }
  }

  lemma SoloAssociation(w: World, ttl: int, id: nat, fspId: string, p: Party, fault: Fault)
    requires id !in w.flights
    ensures Drive(Apply(w, ttl, Begin(id, Checking(fspId, p))), ttl, id, fault).0
            == w.(dir := Associate(w.dir, ttl, fspId, p, fault).1)
  {
    var w1 := Apply(w, ttl, Begin(id, Checking(fspId, p)));
    assert w1.flights - {id} == w.flights;
    if !fault.FindFails? && Find(w.dir.parties, QueryOf(DocumentOf(fspId, p))) == |w.dir.parties| {
      SoloInsert(w, w1.flights, ttl, id, fspId, p, fault);
    }
  }

  lemma SoloInsert(w: World, flights: map<nat, Flight>, ttl: int, id: nat, fspId: string, p: Party, fault: Fault)
    requires id in flights && flights - {id} == w.flights
    ensures var inserted := w.dir.(parties := w.dir.parties + [DocumentOf(fspId, p)]);
            Drive(Goto(World(w.dir, flights), id, Inserting(fspId, p)), ttl, id, fault).0
            == w.(dir := if fault.InsertFails? then w.dir
                         else if fault.CacheWriteFails? then inserted
                         else CacheSet(inserted, ttl, Record(fspId, p)))
  {
    var w2 := Goto(World(w.dir, flights), id, Inserting(fspId, p));
    assert w2.flights - {id} == w.flights;
    if !fault.InsertFails? {
      var w3 := Apply(w2, ttl, Advance(id));
      assert Drive(w2, ttl, id, fault) == Drive(w3, ttl, id, fault) && w3.flights - {id} == w.flights;
    }
  }

  lemma SoloDisassociation(w: World, ttl: int, id: nat, fspId: string, p: Party, fault: Fault)
    requires id !in w.flights
    ensures Drive(Apply(w, ttl, Begin(id, Deleting(fspId, p))), ttl, id, fault).0
            == w.(dir := Disassociate(w.dir, fspId, p, fault).1)
  {
    var w1 := Apply(w, ttl, Begin(id, Deleting(fspId, p)));
    assert w1.flights - {id} == w.flights;
    if !fault.DeleteFails? {
      var w2 := Apply(w1, ttl, Advance(id));
      assert Drive(w1, ttl, id, fault) == Drive(w2, ttl, id, fault) && w2.flights - {id} == w.flights;
    }
  }

  /** A legal run in which `r` is backed by a live document at time 0 at the latest. */
  ghost predicate Story(ws: seq<World>, ttl: int, ms: seq<Move>, limit: nat, r: Record) {
    IsRun(ws, ttl, ms, limit) && forall j | 0 <= j < |ws| && Lives(ws[j].dir, r) :: ws[j].dir.now <= 0
  }

  lemma Continue(ws: seq<World>, ttl: int, ms: seq<Move>, limit: nat, r: Record, m: Move, after: World)
    returns (ws': seq<World>, ms': seq<Move>)
    requires Story(ws, ttl, ms, limit, r)
    requires Enabled(ws[|ms|], m) && after == Apply(ws[|ms|], ttl, m) && (m.Begin? ==> Clean(m.stage.party))
    requires forall id | id in after.flights :: after.dir.now <= after.flights[id].start + limit
    requires Lives(after.dir, r) ==> after.dir.now <= 0
    ensures Story(ws', ttl, ms', limit, r) && ws' == ws + [after] && ms' == ms + [m]
  {
    ws', ms' := ws + [after], ms + [m];
  }

  const GONE := Directory([], map[], 0)

  function Holder(r: Record): Flight {
    Flight(Caching(r.fspId, r.party, true), 0)
  }

  /** A lookup finds the document. */
  lemma AnswerInHand(ttl: int, limit: nat, r: Record) returns (ws: seq<World>, ms: seq<Move>)
    requires Clean(r.party)
    ensures Story(ws, ttl, ms, limit, r)
    ensures ws[|ms|] == World(Directory([DocumentOf(r.fspId, r.party)], map[], 0), map[0 := Holder(r)])
  {
    var d, p := DocumentOf(r.fspId, r.party), r.party;
    var stored := Directory([d], map[], 0);
    assert Find([d], LookupQuery(p)) == 0;
    ws, ms := [World(stored, map[])], [];
    ws, ms := Continue(ws, ttl, ms, limit, r, Begin(0, ReadingCache(p)),
                       World(stored, map[0 := Flight(ReadingCache(p), 0)]));
    ws, ms := Continue(ws, ttl, ms, limit, r, Advance(0), World(stored, map[0 := Flight(Finding(p), 0)]));
    ws, ms := Continue(ws, ttl, ms, limit, r, Advance(0), World(stored, map[0 := Holder(r)]));
  }

  /**
   While it holds the answer, a disassociation deletes the document and evicts a cache entry that is not there yet.
   */
  lemma AnswerOrphaned(ttl: int, limit: nat, r: Record) returns (ws: seq<World>, ms: seq<Move>)
    requires Clean(r.party)
    ensures Story(ws, ttl, ms, limit, r)
    ensures ws[|ms|] == World(GONE, map[0 := Holder(r)])
  {
    var d, p := DocumentOf(r.fspId, r.party), r.party;
    var stored := Directory([d], map[], 0);
    assert Find([d], QueryOf(d)) == 0;
    ws, ms := AnswerInHand(ttl, limit, r);
    ws, ms := Continue(ws, ttl, ms, limit, r, Begin(1, Deleting(r.fspId, p)),
                       World(stored, map[0 := Holder(r), 1 := Flight(Deleting(r.fspId, p), 0)]));
    ws, ms := Continue(ws, ttl, ms, limit, r, Advance(1),
                       World(GONE, map[0 := Holder(r), 1 := Flight(Evicting(p), 0)]));
    ws, ms := Continue(ws, ttl, ms, limit, r, Advance(1), World(GONE, map[0 := Holder(r)]));
  }

  /** The late answer is cached just before its call times out, and is returned to the lookup that made it. */
  lemma AnswerCachedLate(ttl: int, limit: nat, r: Record) returns (ws: seq<World>, ms: seq<Move>)
    requires Clean(r.party)
    ensures Story(ws, ttl, ms, limit, r)
    ensures ws[|ms|] == World(CacheSet(GONE.(now := limit), ttl, r), map[])
  {
    var returning := map[0 := Flight(Returning(r.fspId, r.party), 0)];
    var cached := CacheSet(GONE.(now := limit), ttl, r);
    ws, ms := AnswerOrphaned(ttl, limit, r);
    ws, ms := Continue(ws, ttl, ms, limit, r, Tick(limit), World(GONE.(now := limit), map[0 := Holder(r)]));
    ws, ms := Continue(ws, ttl, ms, limit, r, Advance(0), World(cached, returning));
    ws, ms := Continue(ws, ttl, ms, limit, r, Advance(0), World(cached, map[]));
  }

  /**
   Both bounds are attained: for every party, owner, lifetime and delay, some interleaving settles an answer of age
   `ttl + limit - 1` and delivers it at age `ttl + 2 * limit - 1`.
   */
  lemma BoundsAreTight(ttl: int, limit: nat, r: Record) returns (ws: seq<World>, ms: seq<Move>)
    requires ttl > 0 && Clean(r.party)
    ensures IsRun(ws, ttl, ms, limit) && |ms| > 2
    ensures var read, hand := |ms| - 3, |ms| - 1;
            && Served(ws[read], ms[read]) == Delivered(ws[hand], ms[hand]) == Some(r)
            && !YoungerThan(ws, read, r, ttl + limit - 1)
            && !YoungerThan(ws, hand, r, ttl + 2 * limit - 1)
  {
    ws, ms := AnswerCachedLate(ttl, limit, r);
    var cached := ws[|ms|].dir.(now := limit + ttl - 1);
    var late := cached.(now := limit + ttl - 1 + limit);
    var reading := Flight(ReadingCache(r.party), cached.now);
    var returning := Flight(Returning(r.fspId, r.party), cached.now);
    ws, ms := Continue(ws, ttl, ms, limit, r, Tick(ttl - 1), World(cached, map[]));
    ws, ms := Continue(ws, ttl, ms, limit, r, Begin(2, reading.stage), World(cached, map[2 := reading]));
    ws, ms := Continue(ws, ttl, ms, limit, r, Advance(2), World(cached, map[2 := returning]));
    ws, ms := Continue(ws, ttl, ms, limit, r, Tick(limit), World(late, map[2 := returning]));
    ws, ms := Continue(ws, ttl, ms, limit, r, Advance(2), World(late, map[]));
  }
}

/** The collection under interleaved associations: when no document comes to subsume another. */
module ConcurrentStore {
  import opened Values
  import opened Sequences
  import opened Directories
  import opened DirectoryProperties
  import opened InFlight

  predicate IsInserting(w: World, id: nat) {
    id in w.flights && w.flights[id].stage.Inserting?
  }

  /** The document an inserting flight is about to store. */
  function Pending(w: World, id: nat): Document
    requires IsInserting(w, id)
  {
    DocumentOf(w.flights[id].stage.fspId, w.flights[id].stage.party)
  }

  /** An insert keeps the collection non-subsuming exactly if its check, made again at that moment, would still pass. */
  lemma InsertKeepsNonSubsumingIff(w: World, ttl: int, id: nat)
    requires NonSubsuming(w.dir.parties) && IsInserting(w, id)
    ensures NonSubsuming(Apply(w, ttl, Advance(id)).dir.parties) <==>
            Find(w.dir.parties, QueryOf(Pending(w, id))) == |w.dir.parties|
  {
    var docs, d := w.dir.parties, Pending(w, id);
    var longer, at := docs + [d], Find(docs, QueryOf(d));
    assert Apply(w, ttl, Advance(id)).dir.parties == longer;
    assert forall k | 0 <= k < |docs| :: longer[k] == docs[k];
    if at < |docs| {
      assert Selects(QueryOf(longer[|docs|]), longer[at]);
    }
  }

  /** No two inserting flights are about to store documents of which one would subsume the other. */
  ghost predicate Compatible(w: World) {
    forall i, j | IsInserting(w, i) && IsInserting(w, j) && i != j :: !Selects(QueryOf(Pending(w, i)), Pending(w, j))
  }

  /** No inserting flight's query selects a stored document: its check still stands. */
  ghost predicate ChecksStand(w: World) {
    forall id | IsInserting(w, id) :: Find(w.dir.parties, QueryOf(Pending(w, id))) == |w.dir.parties|
  }

  lemma NotFoundInLonger(docs: seq<Document>, d: Document, q: Query)
    requires Find(docs, q) == |docs| && !Selects(q, d)
    ensures Find(docs + [d], q) == |docs| + 1
  {
    assert forall k | 0 <= k < |docs| :: (docs + [d])[k] == docs[k];
  }

  lemma NotFoundInShorter(docs: seq<Document>, at: nat, q: Query)
    requires Find(docs, q) == |docs|
    ensures Find(Without(docs, at), q) == |Without(docs, at)|
  {
  }

  /** An unselected query stays so after a step of a flight whose own document it does not select either. */
  lemma StepKeepsUnselected(w: World, ttl: int, id: nat, q: Query)
    requires id in w.flights && Find(w.dir.parties, q) == |w.dir.parties|
    requires IsInserting(w, id) ==> !Selects(q, Pending(w, id))
    ensures var docs := Apply(w, ttl, Advance(id)).dir.parties; Find(docs, q) == |docs|
  {
    match w.flights[id].stage
    case Inserting(_, _) => NotFoundInLonger(w.dir.parties, Pending(w, id), q);
    case Deleting(f, p) => NotFoundInShorter(w.dir.parties, Find(w.dir.parties, QueryOf(DocumentOf(f, p))), q);
    case _ =>
  }

  /** A flight that is inserting after a move was so before, unless the move was its own check, just passed. */
  lemma InsertingSince(w: World, ttl: int, m: Move, id: nat)
    requires Enabled(w, m) && IsInserting(Apply(w, ttl, m), id)
    ensures var w' := Apply(w, ttl, m);
            if m == Advance(id)
            then w'.dir == w.dir && Find(w.dir.parties, QueryOf(Pending(w', id))) == |w.dir.parties|
            else IsInserting(w, id) && Pending(w', id) == Pending(w, id)
  {
  }

  lemma MoveKeepsChecks(w: World, ttl: int, m: Move)
    requires Enabled(w, m) && ChecksStand(w) && Compatible(w)
    ensures ChecksStand(Apply(w, ttl, m))
  {
    var w' := Apply(w, ttl, m);
    forall id | IsInserting(w', id) ensures Find(w'.dir.parties, QueryOf(Pending(w', id))) == |w'.dir.parties| {
      InsertingSince(w, ttl, m, id);
      if m.Advance? && m.id != id {
        StepKeepsUnselected(w, ttl, m.id, QueryOf(Pending(w, id)));
      }
    }
  }

  lemma MoveKeepsNonSubsuming(w: World, ttl: int, m: Move)
    requires Enabled(w, m) && ChecksStand(w) && NonSubsuming(w.dir.parties)
    ensures NonSubsuming(Apply(w, ttl, m).dir.parties)
  {
    if m.Advance? {
      match w.flights[m.id].stage
      case Inserting(_, _) => InsertKeepsNonSubsumingIff(w, ttl, m.id);
      case Deleting(f, p) => DeleteKeepsNonSubsuming(w.dir.parties, Find(w.dir.parties, QueryOf(DocumentOf(f, p))));
      case _ =>
    }
  }

  /**
   Over every interleaving of lookups, associations and disassociations, failures included, in which no two inserts of
   overlapping documents are pending at once, the collection stays non-subsuming and every passed check stands.
   */
  lemma {:induction false} CompatibleInsertsKeepInvariant(ws: seq<World>, ttl: int, ms: seq<Move>, i: nat)
    requires IsTrace(ws, ttl, ms) && IsInitial(ws[0]) && NonSubsuming(ws[0].dir.parties)
    requires i < |ws| && forall w | w in ws :: Compatible(w)
    ensures NonSubsuming(ws[i].dir.parties) && ChecksStand(ws[i])
  {
    if i > 0 {
      CompatibleInsertsKeepInvariant(ws, ttl, ms, i - 1);
      MoveKeepsNonSubsuming(ws[i - 1], ttl, ms[i - 1]);
      MoveKeepsChecks(ws[i - 1], ttl, ms[i - 1]);
    }
  }

  predicate IsWriting(w: World, id: nat) {
    id in w.flights && (w.flights[id].stage.Checking? || w.flights[id].stage.Inserting?)
  }

  /** At most one association at a time is between its start and its insert. */
  ghost predicate OneWriter(w: World) {
    forall i, j | IsWriting(w, i) && IsWriting(w, j) :: i == j
  }

  /** A caller who lets one association at a time check and insert keeps the invariant, whatever else is in flight. */
  lemma OneWriterKeepsInvariant(ws: seq<World>, ttl: int, ms: seq<Move>, i: nat)
    requires IsTrace(ws, ttl, ms) && IsInitial(ws[0]) && NonSubsuming(ws[0].dir.parties)
    requires i < |ws| && forall w | w in ws :: OneWriter(w)
    ensures NonSubsuming(ws[i].dir.parties)
  {
    forall w | w in ws ensures Compatible(w) {
      assert forall id | IsInserting(w, id) :: IsWriting(w, id);
    }
    CompatibleInsertsKeepInvariant(ws, ttl, ms, i);
  }

  /**
   The check and the insert of an association are separate awaits, so two associations can store the same document
   twice.
   */
  lemma ConcurrentAssociationsDuplicate(ttl: int, fspId: string, p: Party) returns (ws: seq<World>, ms: seq<Move>)
    ensures IsTrace(ws, ttl, ms) && IsInitial(ws[0]) && ws[0].dir.parties == []
    ensures ws[|ms|].dir.parties == [DocumentOf(fspId, p), DocumentOf(fspId, p)]
  {
    ms := [Begin(0, Checking(fspId, p)), Begin(1, Checking(fspId, p)), Advance(0), Advance(1), Advance(0), Advance(1)];
    var w0 := World(Directory([], map[], 0), map[]);
    var w1 := Apply(w0, ttl, ms[0]);
    var w2 := Apply(w1, ttl, ms[1]);
    var w3 := Apply(w2, ttl, ms[2]);
    var w4 := Apply(w3, ttl, ms[3]);
    var w5 := Apply(w4, ttl, ms[4]);
    var w6 := Apply(w5, ttl, ms[5]);
    ws := [w0, w1, w2, w3, w4, w5, w6];
  }
}
