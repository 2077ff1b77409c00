/** Redelivering a batch: the set of stored documents as the messages write it. */
module Writes {
  import opened Values
  import opened Directories
  import opened DirectoryProperties
  import opened Registries
  import opened Events
  import opened EventProperties
  import opened Batches

  /** What a message does to the set of stored documents. */
  datatype Write = NoWrite | Put(doc: Document) | Drop(doc: Document)

  function ApplyWrite(docs: set<Document>, w: Write): set<Document> {
    match w
    case NoWrite => docs
    case Put(d) => docs + {d}
    case Drop(d) => docs - {d}
  }

  function ApplyAll(docs: set<Document>, ws: seq<Write>): set<Document> {
    if ws == [] then docs else ApplyWrite(ApplyAll(docs, ws[..|ws| - 1]), ws[|ws| - 1])
  }

  predicate Touches(w: Write, d: Document) {
    !w.NoWrite? && w.doc == d
  }

  /** The last write that touches a document decides whether it is stored; if none does, it stays as it was. */
  lemma {:induction false} LastWriteDecides(docs: set<Document>, ws: seq<Write>, d: Document, k: nat)
    requires k <= |ws| && forall j | k <= j < |ws| :: !Touches(ws[j], d)
    ensures k > 0 && Touches(ws[k - 1], d) ==> (d in ApplyAll(docs, ws) <==> ws[k - 1].Put?)
    ensures k == 0 ==> (d in ApplyAll(docs, ws) <==> d in docs)
  {
    if |ws| > k {
      assert !Touches(ws[|ws| - 1], d);
      assert forall j | 0 <= j < |ws| - 1 :: ws[..|ws| - 1][j] == ws[j];
      LastWriteDecides(docs, ws[..|ws| - 1], d, k);
    }
  }

  function LastTouch(ws: seq<Write>, d: Document): (k: nat)
    ensures k <= |ws| && forall j | k <= j < |ws| :: !Touches(ws[j], d)
    ensures k > 0 ==> Touches(ws[k - 1], d)
  {
    if ws == [] then 0 else if Touches(ws[|ws| - 1], d) then |ws| else LastTouch(ws[..|ws| - 1], d)
  }

  /** Writes that all occur among later ones leave no trace, whatever their order and number. */
  lemma RepeatedWritesVanish(docs: set<Document>, first: seq<Write>, again: seq<Write>)
    requires forall w | w in first :: w in again
    ensures ApplyAll(ApplyAll(docs, first), again) == ApplyAll(docs, again)
  {
    forall d ensures d in ApplyAll(ApplyAll(docs, first), again) <==> d in ApplyAll(docs, again) {
      var k := LastTouch(again, d);
      LastWriteDecides(docs, again, d, k);
      LastWriteDecides(ApplyAll(docs, first), again, d, k);
      if k == 0 {
        forall j | 0 <= j < |first| ensures !Touches(first[j], d) { assert first[j] in again; }
        LastWriteDecides(docs, first, d, 0);
      }
    }
  }

  // ---- Messages as writes

  function DocSet(docs: seq<Document>): set<Document> {
    set d | d in docs
  }

  predicate RoutesToBuiltin(reg: Registry, partyType: string, currency: Field) {
    var adapter := GetOracleAdapter(reg, partyType, currency, false);
    adapter.Ok? && adapter.value.kind.Builtin?
  }

  /** The write of a message when registry and participants are as given and nothing fails. */
  function WriteOf(reg: Registry, participants: string -> ParticipantReply, m: Message): Write {
    if m.payload.None? || !m.isDomainEvent then NoWrite
    else
      var owner, p := m.payload.value.ownerFspId, ReadBy(m.name, m.payload.value);
      if !owner.Truthy() || participants(owner.text) != Participant(owner.text, true, true) then NoWrite
      else if !RoutesToBuiltin(reg, p.partyType, p.currency) then NoWrite
      else if m.name.AssociationRequestReceived? then Put(DocumentOf(owner.text, p))
      else if m.name.DisassociateRequestReceived? then Drop(DocumentOf(owner.text, p))
      else NoWrite
  }

  predicate IsFullDocument(d: Document) {
    d.partySubType.Some? && d.currency.Some?
  }

  /** Nothing is written, or a document with every field. */
  predicate IsFull(w: Write) {
    w.NoWrite? || IsFullDocument(w.doc)
  }

  predicate FullySpecified(m: Message) {
    m.payload.Some? && (m.name.AssociationRequestReceived? || m.name.DisassociateRequestReceived?) ==>
      m.payload.value.party.Full()
  }

  /**
   What a write does to the collection itself: an insert unless a document is selected, a delete of the first selected.
   */
  function Act(docs: seq<Document>, w: Write): seq<Document> {
    match w
    case NoWrite => docs
    case Put(d) => if Find(docs, QueryOf(d)) < |docs| then docs else docs + [d]
    case Drop(d) => DeleteOne(docs, QueryOf(d))
  }

  /**
   No store or finder fails and the participants answer as given; remote oracles may answer anything, and metrics may
   throw once the work is done.
   */
  ghost predicate Reliable(t: Turn, participants: string -> ParticipantReply) {
    && !t.services.finderFails && t.services.fault.NoFault? && !t.services.throws.AtEntry?
    && forall id :: t.services.participants(id) == participants(id)
  }

  lemma AssociationActs(reg: Registry, dir: Directory, ttl: int, s: Services, m: Payload)
    requires !s.finderFails && s.fault.NoFault?
    ensures HandleAssociation(reg, dir, ttl, s, m).1.parties ==
            if IsValid(s, m.ownerFspId) && RoutesToBuiltin(reg, m.party.partyType, m.party.currency)
            then Act(dir.parties, Put(DocumentOf(m.ownerFspId.text, m.party))) else dir.parties
  {
  }

  lemma DisassociationActs(reg: Registry, dir: Directory, s: Services, m: Payload)
    requires !s.finderFails && s.fault.NoFault?
    ensures var p := m.party.OrNull();
            HandleDisassociation(reg, dir, s, m).1.parties ==
            if IsValid(s, m.ownerFspId) && RoutesToBuiltin(reg, p.partyType, p.currency)
            then Act(dir.parties, Drop(DocumentOf(m.ownerFspId.text, p))) else dir.parties
  {
  }

  /** A reliable turn does to the collection what its message's write does, wildcards and all. */
  lemma TurnActs(reg: Registry, dir: Directory, ttl: int, t: Turn, participants: string -> ParticipantReply)
    requires Reliable(t, participants)
    ensures AggregateHandler(reg, ttl)(dir, t).1.parties == Act(dir.parties, WriteOf(reg, participants, t.message))
  {
    var m, start := t.message, Delayed(dir, t.delay);
    HandlerHandles(reg, ttl, dir, t);
    if m.payload.Some? && m.isDomainEvent {
      if m.name.AssociationRequestReceived? {
        AssociationActs(reg, start, ttl, t.services, m.payload.value);
      } else if m.name.DisassociateRequestReceived? {
        DisassociationActs(reg, start, t.services, m.payload.value);
      } else {
        OnlyAssociationsWrite(reg, start, ttl, t.services, m);
      }
    }
  }

  lemma FullDocumentSelectsItself(d: Document, e: Document)
    requires IsFullDocument(d)
    ensures Selects(QueryOf(d), e) <==> e == d
  {
  }

  lemma FullPutActs(docs: seq<Document>, d: Document)
    requires IsFullDocument(d) && NoDuplicates(docs)
    ensures NoDuplicates(Act(docs, Put(d))) && DocSet(Act(docs, Put(d))) == DocSet(docs) + {d}
  {
    forall e | e in docs { FullDocumentSelectsItself(d, e); }
    var i := Find(docs, QueryOf(d));
    if i < |docs| { assert docs[i] in docs; }
  }

  lemma FullDropActs(docs: seq<Document>, d: Document)
    requires IsFullDocument(d) && NoDuplicates(docs)
    ensures NoDuplicates(Act(docs, Drop(d))) && DocSet(Act(docs, Drop(d))) == DocSet(docs) - {d}
  {
    forall e | e in docs { FullDocumentSelectsItself(d, e); }
    var i, rest := Find(docs, QueryOf(d)), DeleteOne(docs, QueryOf(d));
    if i < |docs| {
      assert docs[i] in docs;
      assert forall k | 0 <= k < |rest| :: rest[k] == docs[if k < i then k else k + 1];
    }
  }

  /** On a collection without duplicates a full write is the write of its document, and leaves no duplicates. */
  lemma FullWriteActs(docs: seq<Document>, w: Write)
    requires IsFull(w) && NoDuplicates(docs)
    ensures NoDuplicates(Act(docs, w)) && DocSet(Act(docs, w)) == ApplyWrite(DocSet(docs), w)
  {
    match w
    case NoWrite =>
    case Put(d) => FullPutActs(docs, d);
    case Drop(d) => FullDropActs(docs, d);
  }

  // ---- Batches as writes

  /** How messages are taken as writes on the set of documents. */
  type View = Message -> Write

  function StandardView(reg: Registry, participants: string -> ParticipantReply): View {
    m => WriteOf(reg, participants, m)
  }

  /** The number of messages a batch gets to handle. */
  function HandledCount(turns: seq<Turn>): (n: nat)
    ensures n <= |turns|
  {
    if turns == [] || turns[0].fault.BeforeHandling? then 0
    else if turns[0].fault.Smooth? then 1 + HandledCount(turns[1..])
    else 1
  }

  /** The writes of those messages. */
  function WritesOf(view: View, turns: seq<Turn>): (ws: seq<Write>)
    ensures |ws| == HandledCount(turns) && forall j | 0 <= j < |ws| :: ws[j] == view(turns[j].message)
  {
    if turns == [] || turns[0].fault.BeforeHandling? then []
    else if turns[0].fault.Smooth? then [view(turns[0].message)] + WritesOf(view, turns[1..])
    else [view(turns[0].message)]
  }

  lemma {:induction false} AllHandled(turns: seq<Turn>)
    requires AllSmooth(turns)
    ensures HandledCount(turns) == |turns|
  {
    if turns != [] { AllHandled(turns[1..]); }
  }

  lemma {:induction false} ApplyFirst(docs: set<Document>, w: Write, ws: seq<Write>)
    ensures ApplyAll(docs, [w] + ws) == ApplyAll(ApplyWrite(docs, w), ws)
  {
    if ws == [] {
      assert [w] + ws == [w];
      assert ApplyAll(docs, [w][..0]) == docs;
    } else {
      var init := ws[..|ws| - 1];
      assert ([w] + ws)[..|ws|] == [w] + init;
      ApplyFirst(docs, w, init);
    }
  }

  /** Where `inv` holds, each message of the turns acts as its view says and keeps `inv`. */
  ghost predicate IsSound(reg: Registry, participants: string -> ParticipantReply, turns: seq<Turn>,
                          view: View, inv: seq<Document> -> bool)
  {
    forall t, docs | t in turns && inv(docs) && NoDuplicates(docs) ::
      var after := Act(docs, WriteOf(reg, participants, t.message));
      inv(after) && NoDuplicates(after) && DocSet(after) == ApplyWrite(DocSet(docs), view(t.message))
  }

  ghost predicate AllReliable(turns: seq<Turn>, participants: string -> ParticipantReply) {
    forall t | t in turns :: Reliable(t, participants)
  }

  /** A batch does to the set of documents what the writes of its handled messages say, in order. */
  lemma {:induction false} BatchWrites(reg: Registry, dir: Directory, ttl: int, turns: seq<Turn>,
                                       participants: string -> ParticipantReply, view: View, inv: seq<Document> -> bool)
    requires AllReliable(turns, participants) && IsSound(reg, participants, turns, view, inv)
    requires NoDuplicates(dir.parties) && inv(dir.parties)
    ensures var after := Process(AggregateHandler(reg, ttl), dir, turns).2;
            NoDuplicates(after.parties) && inv(after.parties)
            && DocSet(after.parties) == ApplyAll(DocSet(dir.parties), WritesOf(view, turns))
    decreases |turns|
  {
    if turns != [] && !turns[0].fault.BeforeHandling? {
      TurnActs(reg, dir, ttl, turns[0], participants);
      var next := AggregateHandler(reg, ttl)(dir, turns[0]).1;
      var w := view(turns[0].message);
      assert turns[0] in turns;
      assert NoDuplicates(next.parties) && inv(next.parties)
             && DocSet(next.parties) == ApplyWrite(DocSet(dir.parties), w);
      if turns[0].fault.Smooth? {
        BatchWrites(reg, next, ttl, turns[1..], participants, view, inv);
        ApplyFirst(DocSet(dir.parties), w, WritesOf(view, turns[1..]));
      } else {
        ApplyFirst(DocSet(dir.parties), w, []);
        assert [w] + [] == [w];
      }
    }
  }

  /** Every message of the turns writes nothing, or is fully specified; and nothing fails. */
  ghost predicate ReliableBatch(reg: Registry, turns: seq<Turn>, participants: string -> ParticipantReply) {
    AllReliable(turns, participants) && forall t | t in turns :: IsFull(WriteOf(reg, participants, t.message))
  }

  lemma FullBatchIsSound(reg: Registry, participants: string -> ParticipantReply, turns: seq<Turn>)
    requires ReliableBatch(reg, turns, participants)
    ensures IsSound(reg, participants, turns, StandardView(reg, participants), docs => true)
  {
    forall t, docs | t in turns && NoDuplicates(docs) {
      FullWriteActs(docs, WriteOf(reg, participants, t.message));
    }
  }

  /**
   The last handled message that writes a document decides whether the batch leaves it stored; if none does it stays as
   it was.
   */
  lemma LastMessageDecides(reg: Registry, dir: Directory, ttl: int, turns: seq<Turn>,
                           participants: string -> ParticipantReply, d: Document, k: nat)
    requires ReliableBatch(reg, turns, participants) && NoDuplicates(dir.parties)
    requires k <= HandledCount(turns)
    requires forall j | k <= j < HandledCount(turns) :: !Touches(WriteOf(reg, participants, turns[j].message), d)
    requires k > 0 ==> Touches(WriteOf(reg, participants, turns[k - 1].message), d)
    ensures var after := Process(AggregateHandler(reg, ttl), dir, turns).2;
            d in after.parties <==>
            if k == 0 then d in dir.parties else turns[k - 1].message.name.AssociationRequestReceived?
  {
    var view := StandardView(reg, participants);
    FullBatchIsSound(reg, participants, turns);
    BatchWrites(reg, dir, ttl, turns, participants, view, docs => true);
    var ws := WritesOf(view, turns);
    LastWriteDecides(DocSet(dir.parties), ws, d, k);
    var after := Process(AggregateHandler(reg, ttl), dir, turns).2;
    assert d in after.parties <==> d in DocSet(after.parties);
    assert d in dir.parties <==> d in DocSet(dir.parties);
  }

  /**
   Redelivery is idempotent on the set of documents.  A first delivery handles messages of the batch, all or some, in
   any order, and may end in a throw anywhere; delivering the whole batch after it leaves the documents that the batch
   leaves on its own.  Times, lookups in between and remote answers may differ.
   */
  lemma RedeliveryIsIdempotent(reg: Registry, dir: Directory, ttl: int, first: seq<Turn>, again: seq<Turn>,
                               participants: string -> ParticipantReply)
    requires ReliableBatch(reg, first, participants) && ReliableBatch(reg, again, participants) && AllSmooth(again)
    requires forall t | t in first :: exists u :: u in again && u.message == t.message
    requires NoDuplicates(dir.parties)
    ensures var handle := AggregateHandler(reg, ttl);
            DocSet(Process(handle, Process(handle, dir, first).2, again).2.parties)
            == DocSet(Process(handle, dir, again).2.parties)
  {
    FullBatchIsSound(reg, participants, first);
    FullBatchIsSound(reg, participants, again);
    SoundRedelivery(reg, dir, ttl, first, again, participants, StandardView(reg, participants), docs => true);
  }

  lemma SoundRedelivery(reg: Registry, dir: Directory, ttl: int, first: seq<Turn>, again: seq<Turn>,
                        participants: string -> ParticipantReply, view: View, inv: seq<Document> -> bool)
    requires AllReliable(first, participants) && AllReliable(again, participants) && AllSmooth(again)
    requires IsSound(reg, participants, first, view, inv) && IsSound(reg, participants, again, view, inv)
    requires forall t | t in first :: exists u :: u in again && u.message == t.message
    requires NoDuplicates(dir.parties) && inv(dir.parties)
    ensures var handle := AggregateHandler(reg, ttl);
            DocSet(Process(handle, Process(handle, dir, first).2, again).2.parties)
            == DocSet(Process(handle, dir, again).2.parties)
  {
    var ws, us := WritesOf(view, first), WritesOf(view, again);
    BatchWrites(reg, dir, ttl, first, participants, view, inv);
    BatchWrites(reg, dir, ttl, again, participants, view, inv);
    BatchWrites(reg, Process(AggregateHandler(reg, ttl), dir, first).2, ttl, again, participants, view, inv);
    AllHandled(again);
    forall w | w in ws ensures w in us {
      var j :| 0 <= j < |ws| && ws[j] == w;
      assert first[j] in first;
      var u :| u in again && u.message == first[j].message;
      var i :| 0 <= i < |again| && again[i] == u;
      assert us[i] == w;
    }
    RepeatedWritesVanish(DocSet(dir.parties), ws, us);
  }
}

/** Exactly which messages may be redelivered. */
module Redelivery {
  import opened Values
  import opened Directories
  import opened DirectoryProperties
  import opened Registries
  import opened Events
  import opened Batches
  import opened Writes

  /** A fully specified disassociation of a document that `p` selects can be routed to a builtin oracle. */
  ghost predicate CanBeDropped(reg: Registry, p: Party) {
    exists c :: IsDroppingCurrency(reg, p, c)
  }

  predicate IsDroppingCurrency(reg: Registry, p: Party, c: string) {
    c != "" && (p.currency.Truthy() ==> p.currency.text == c) && RoutesToBuiltin(reg, p.partyType, Text(c))
  }

  /**
   The message writes nothing or is fully specified; or it is an association with a field left out whose documents no
   fully specified disassociation can reach through a builtin oracle.
   */
  ghost predicate Repeatable(reg: Registry, participants: string -> ParticipantReply, m: Message) {
    || IsFull(WriteOf(reg, participants, m))
    || (m.name.AssociationRequestReceived? && !CanBeDropped(reg, m.payload.value.party))
  }

  /** A batch, reliably handled to its end, of the message and fully specified ones. */
  ghost predicate IsBatchWith(turns: seq<Turn>, participants: string -> ParticipantReply, m: Message) {
    && AllSmooth(turns) && AllReliable(turns, participants)
    && forall t | t in turns :: t.message == m || FullySpecified(t.message)
  }

  /** Delivering the batch twice leaves the documents of delivering it once. */
  ghost predicate RedeliversCleanly(reg: Registry, ttl: int, dir: Directory, turns: seq<Turn>) {
    var handle := AggregateHandler(reg, ttl);
    var once := Process(handle, dir, turns).2;
    DocSet(Process(handle, once, turns).2.parties) == DocSet(once.parties)
  }

  /**
   A message may be redelivered, with whatever fully specified messages are in its batch, exactly if it is repeatable.
   */
  lemma RedeliveryIsCleanIff(reg: Registry, ttl: int, participants: string -> ParticipantReply, m: Message)
    ensures Repeatable(reg, participants, m) <==>
            forall dir: Directory, turns | NoDuplicates(dir.parties) && IsBatchWith(turns, participants, m) ::
              RedeliversCleanly(reg, ttl, dir, turns)
  {
    if Repeatable(reg, participants, m) {
      forall dir: Directory, turns | NoDuplicates(dir.parties) && IsBatchWith(turns, participants, m)
        ensures RedeliversCleanly(reg, ttl, dir, turns)
      {
        RepeatableRedelivers(reg, dir, ttl, participants, m, turns);
      }
    } else if m.name.DisassociateRequestReceived? {
      var dir, t := WildcardRedeliveryDeletesMore(reg, ttl, participants, m);
    } else {
      var dir, t, u := PartialAssociationComesBack(reg, ttl, participants, m);
    }
  }

  /**
   For a message that writes through a builtin oracle, and whose documents a full disassociation can reach if it is an
   association, that is exactly if it is fully specified.
   */
  lemma FullySpecifiedRedeliversIff(reg: Registry, ttl: int, participants: string -> ParticipantReply, m: Message)
    requires !WriteOf(reg, participants, m).NoWrite?
    requires m.name.AssociationRequestReceived? ==> CanBeDropped(reg, m.payload.value.party)
    ensures FullySpecified(m) <==>
            forall dir: Directory, turns | NoDuplicates(dir.parties) && IsBatchWith(turns, participants, m) ::
              RedeliversCleanly(reg, ttl, dir, turns)
  {
    RedeliveryIsCleanIff(reg, ttl, participants, m);
  }

  lemma FullySpecifiedWritesFull(reg: Registry, participants: string -> ParticipantReply, m: Message)
    requires FullySpecified(m)
    ensures IsFull(WriteOf(reg, participants, m))
  {
  }

  lemma RepeatableRedelivers(reg: Registry, dir: Directory, ttl: int, participants: string -> ParticipantReply,
                             m: Message, turns: seq<Turn>)
    requires Repeatable(reg, participants, m) && IsBatchWith(turns, participants, m) && NoDuplicates(dir.parties)
    ensures RedeliversCleanly(reg, ttl, dir, turns)
  {
    if IsFull(WriteOf(reg, participants, m)) {
      forall t | t in turns && t.message != m { FullySpecifiedWritesFull(reg, participants, t.message); }
      RedeliveryIsIdempotent(reg, dir, ttl, turns, turns, participants);
    } else {
      var d := WriteOf(reg, participants, m).doc;
      var taken := Find(dir.parties, QueryOf(d)) < |dir.parties|;
      var view := PartialView(reg, participants, m, taken);
      var inv := docs => StaysTaken(docs, d, taken);
      assert forall k | 0 <= k < |dir.parties| :: dir.parties[k] in dir.parties;
      forall t, docs | t in turns && inv(docs) && NoDuplicates(docs)
        ensures var after := Act(docs, WriteOf(reg, participants, t.message));
                inv(after) && NoDuplicates(after) && DocSet(after) == ApplyWrite(DocSet(docs), view(t.message))
      {
        PartialViewIsSound(reg, participants, m, t.message, docs, taken);
      }
      SoundRedelivery(reg, dir, ttl, turns, turns, participants, view, inv);
    }
  }

  /**
   The association refused for good if its query selects a document to begin with, and the insert of its document if
   not.
   */
  function PartialView(reg: Registry, participants: string -> ParticipantReply, m: Message, taken: bool): View {
    x => if x == m && taken then NoWrite else WriteOf(reg, participants, x)
  }

  ghost predicate StaysTaken(docs: seq<Document>, d: Document, taken: bool) {
    if taken then exists e :: e in docs && Selects(QueryOf(d), e)
    else forall e | e in docs && Selects(QueryOf(d), e) :: e == d
  }

  lemma PartialViewIsSound(reg: Registry, participants: string -> ParticipantReply, m: Message, x: Message,
                           docs: seq<Document>, taken: bool)
    requires !IsFull(WriteOf(reg, participants, m)) && Repeatable(reg, participants, m) && (x == m || FullySpecified(x))
    requires NoDuplicates(docs) && StaysTaken(docs, WriteOf(reg, participants, m).doc, taken)
    ensures var after := Act(docs, WriteOf(reg, participants, x));
            && StaysTaken(after, WriteOf(reg, participants, m).doc, taken) && NoDuplicates(after)
            && DocSet(after) == ApplyWrite(DocSet(docs), PartialView(reg, participants, m, taken)(x))
  {
    var d := WriteOf(reg, participants, m).doc;
    if x == m {
      var i := Find(docs, QueryOf(d));
      assert i < |docs| ==> docs[i] in docs;
      assert Selects(QueryOf(d), d);
    } else {
      var w := WriteOf(reg, participants, x);
      FullySpecifiedWritesFull(reg, participants, x);
      FullWriteActs(docs, w);
      if !w.NoWrite? { OtherDocumentsAreNotSelected(reg, participants, m, x); }
      forall e ensures e in Act(docs, w) <==> e in ApplyWrite(DocSet(docs), w) {
        assert e in Act(docs, w) <==> e in DocSet(Act(docs, w));
      }
    }
  }

  lemma OtherDocumentsAreNotSelected(reg: Registry, participants: string -> ParticipantReply, m: Message, x: Message)
    requires !IsFull(WriteOf(reg, participants, m)) && Repeatable(reg, participants, m)
    requires FullySpecified(x) && !WriteOf(reg, participants, x).NoWrite?
    ensures !Selects(QueryOf(WriteOf(reg, participants, m).doc), WriteOf(reg, participants, x).doc)
  {
    var p, q := m.payload.value.party, x.payload.value.party;
    if Selects(QueryOf(WriteOf(reg, participants, m).doc), WriteOf(reg, participants, x).doc) {
      assert IsDroppingCurrency(reg, p, q.currency.text);
    }
  }

  // ---- The other messages

  /** A turn of the message in which nothing fails. */
  lemma ReliableTurn(m: Message, participants: string -> ParticipantReply) returns (t: Turn)
    ensures t.message == m && t.fault.Smooth? && Reliable(t, participants)
  {
    t := Turn(m, 0, Services(participants, false, NoFault, Err(()), true, NoThrow), LoopFault.Smooth);
  }

  lemma OneTurn(reg: Registry, dir: Directory, ttl: int, t: Turn, participants: string -> ParticipantReply)
    requires Reliable(t, participants) && t.fault.Smooth?
    ensures Process(AggregateHandler(reg, ttl), dir, [t]).2.parties
            == Act(dir.parties, WriteOf(reg, participants, t.message))
  {
    TurnActs(reg, dir, ttl, t, participants);
    assert [t][1..] == [];
  }

  lemma TwoTurns(reg: Registry, dir: Directory, ttl: int, t: Turn, u: Turn, participants: string -> ParticipantReply)
    requires Reliable(t, participants) && t.fault.Smooth? && Reliable(u, participants) && u.fault.Smooth?
    ensures Process(AggregateHandler(reg, ttl), dir, [t, u]).2.parties ==
            Act(Act(dir.parties, WriteOf(reg, participants, t.message)), WriteOf(reg, participants, u.message))
  {
    TurnActs(reg, dir, ttl, t, participants);
    OneTurn(reg, AggregateHandler(reg, ttl)(dir, t).1, ttl, u, participants);
    assert [t, u][1..] == [u];
  }

  lemma OneTurnTwice(reg: Registry, dir: Directory, ttl: int, t: Turn, participants: string -> ParticipantReply)
    requires Reliable(t, participants) && t.fault.Smooth?
    ensures var w := WriteOf(reg, participants, t.message);
            var once := Act(dir.parties, w);
            RedeliversCleanly(reg, ttl, dir, [t]) <==> DocSet(Act(once, w)) == DocSet(once)
  {
    OneTurn(reg, dir, ttl, t, participants);
    OneTurn(reg, Process(AggregateHandler(reg, ttl), dir, [t]).2, ttl, t, participants);
  }

  lemma TwoTurnsTwice(reg: Registry, dir: Directory, ttl: int, t: Turn, u: Turn,
                      participants: string -> ParticipantReply)
    requires Reliable(t, participants) && t.fault.Smooth? && Reliable(u, participants) && u.fault.Smooth?
    ensures var v, w := WriteOf(reg, participants, t.message), WriteOf(reg, participants, u.message);
            var once := Act(Act(dir.parties, v), w);
            RedeliversCleanly(reg, ttl, dir, [t, u]) <==> DocSet(Act(Act(once, v), w)) == DocSet(once)
  {
    TwoTurns(reg, dir, ttl, t, u, participants);
    TwoTurns(reg, Process(AggregateHandler(reg, ttl), dir, [t, u]).2, ttl, t, u, participants);
  }

  /** The document with any field left out filled in. */
  function FilledDocument(d: Document, subType: string, currency: string): Document {
    d.(partySubType := if d.partySubType.Some? then d.partySubType else Some(subType),
       currency := if d.currency.Some? then d.currency else Some(currency))
  }

  lemma PartialDropRepeats(d: Document, e: Document, f: Document)
    requires !IsFullDocument(d) && e == FilledDocument(d, "x", "x") && f == FilledDocument(d, "y", "y")
    ensures e != f && Act([e, f], Drop(d)) == [f] && Act([f], Drop(d)) == []
  {
    assert Find([e, f], QueryOf(d)) == 0 && Find([f], QueryOf(d)) == 0;
  }

  /** A directory where nothing is cached. */
  function Uncached(docs: seq<Document>): Directory {
    Directory(docs, map[], 0)
  }

  lemma SingletonIsNotEmpty(d: Document)
    ensures DocSet([d]) != DocSet([])
  {
    assert d in DocSet([d]) && d !in DocSet([]);
  }

  lemma PairIsDistinct(d: Document, e: Document)
    requires d != e
    ensures NoDuplicates([d, e])
  {
  }

  lemma BatchOfOne(t: Turn, participants: string -> ParticipantReply)
    requires t.fault.Smooth? && Reliable(t, participants)
    ensures IsBatchWith([t], participants, t.message)
  {
  }

  lemma PartialDropDiffers(d: Document) returns (docs: seq<Document>)
    requires !IsFullDocument(d)
    ensures NoDuplicates(docs)
    ensures var once := Act(docs, Drop(d)); DocSet(Act(once, Drop(d))) != DocSet(once)
  {
    var e, f := FilledDocument(d, "x", "x"), FilledDocument(d, "y", "y");
    PartialDropRepeats(d, e, f);
    docs := [e, f];
    PairIsDistinct(e, f);
    var once := Act(docs, Drop(d));
    assert once == [f] && Act(once, Drop(d)) == [];
    SingletonIsNotEmpty(f);
  }

  lemma DropsTwice(reg: Registry, ttl: int, participants: string -> ParticipantReply, t: Turn, d: Document)
    returns (dir: Directory)
    requires Reliable(t, participants) && t.fault.Smooth?
    requires WriteOf(reg, participants, t.message) == Drop(d) && !IsFullDocument(d)
    ensures NoDuplicates(dir.parties) && !RedeliversCleanly(reg, ttl, dir, [t])
  {
    var docs := PartialDropDiffers(d);
    dir := Uncached(docs);
    OneTurnTwice(reg, dir, ttl, t, participants);
  }

  lemma PartialDisassociationDrops(reg: Registry, participants: string -> ParticipantReply, m: Message)
    requires m.name.DisassociateRequestReceived? && !IsFull(WriteOf(reg, participants, m))
    ensures WriteOf(reg, participants, m).Drop? && !IsFullDocument(WriteOf(reg, participants, m).doc)
  {
  }

  /** A disassociation that leaves a field out deletes one more matching document at each delivery. */
  lemma WildcardRedeliveryDeletesMore(reg: Registry, ttl: int, participants: string -> ParticipantReply, m: Message)
    returns (dir: Directory, t: Turn)
    requires m.name.DisassociateRequestReceived? && !IsFull(WriteOf(reg, participants, m))
    ensures t.message == m && NoDuplicates(dir.parties) && IsBatchWith([t], participants, m)
    ensures !RedeliversCleanly(reg, ttl, dir, [t])
  {
    PartialDisassociationDrops(reg, participants, m);
    t := ReliableTurn(m, participants);
    BatchOfOne(t, participants);
    dir := DropsTwice(reg, ttl, participants, t, WriteOf(reg, participants, m).doc);
  }

  /** The disassociation of a fully specified party. */
  function DropMessage(owner: Field, p: Party): Message {
    Message(true, DisassociateRequestReceived, Some(Payload(Null, Null, owner, p, "")), "", "")
  }

  lemma DropMessageDrops(reg: Registry, participants: string -> ParticipantReply, m: Message, c: string)
    requires m.name.AssociationRequestReceived? && !IsFull(WriteOf(reg, participants, m))
    requires IsDroppingCurrency(reg, m.payload.value.party, c)
    ensures var owner, q := m.payload.value.ownerFspId, Filled(m.payload.value.party, "x", c);
            owner.Text? && FullySpecified(DropMessage(owner, q))
            && WriteOf(reg, participants, DropMessage(owner, q)) == Drop(DocumentOf(owner.text, q))
  {
  }

  lemma PartialPutComesBack(d: Document, e: Document)
    requires !IsFullDocument(d) && IsFullDocument(e) && Selects(QueryOf(d), e)
    ensures Act(Act([e], Put(d)), Drop(e)) == [] && Act(Act([], Put(d)), Drop(e)) == [d]
  {
    assert Find([e], QueryOf(d)) == 0 && Find([e], QueryOf(e)) == 0;
    assert Act([], Put(d)) == [d] && Find([d], QueryOf(e)) == 1;
  }

  lemma PutThenDropTwice(reg: Registry, ttl: int, participants: string -> ParticipantReply, t: Turn, u: Turn,
                         d: Document, e: Document)
    requires Reliable(t, participants) && t.fault.Smooth? && Reliable(u, participants) && u.fault.Smooth?
    requires WriteOf(reg, participants, t.message) == Put(d) && WriteOf(reg, participants, u.message) == Drop(e)
    requires !IsFullDocument(d) && IsFullDocument(e) && Selects(QueryOf(d), e)
    ensures !RedeliversCleanly(reg, ttl, Uncached([e]), [t, u])
  {
    TwoTurnsTwice(reg, Uncached([e]), ttl, t, u, participants);
    PartialPutComesBack(d, e);
    SingletonIsNotEmpty(d);
  }

  lemma PartialAssociationPuts(reg: Registry, participants: string -> ParticipantReply, m: Message)
    requires m.name.AssociationRequestReceived? && !IsFull(WriteOf(reg, participants, m))
    ensures var d := DocumentOf(m.payload.value.ownerFspId.text, m.payload.value.party);
            WriteOf(reg, participants, m) == Put(d) && !IsFullDocument(d)
  {
  }

  lemma FilledIsSelected(f: string, p: Party, c: string)
    requires c != ""
    ensures var e := DocumentOf(f, Filled(p, "x", c));
            && IsFullDocument(e)
            && (!p.currency.Truthy() || p.currency.text == c ==> Selects(QueryOf(DocumentOf(f, p)), e))
  {
  }

  /**
   An association that leaves a field out is refused at the first delivery, because a more specific document is stored,
   and accepted at the second, because the batch has deleted that document.
   */
  lemma PartialAssociationComesBack(reg: Registry, ttl: int, participants: string -> ParticipantReply, m: Message)
    returns (dir: Directory, t: Turn, u: Turn)
    requires m.name.AssociationRequestReceived? && !IsFull(WriteOf(reg, participants, m))
    requires CanBeDropped(reg, m.payload.value.party)
    ensures t.message == m && u.message.name.DisassociateRequestReceived?
    ensures NoDuplicates(dir.parties) && IsBatchWith([t, u], participants, m)
    ensures !RedeliversCleanly(reg, ttl, dir, [t, u])
  {
    PartialAssociationPuts(reg, participants, m);
    var owner, p := m.payload.value.ownerFspId, m.payload.value.party;
    var c :| IsDroppingCurrency(reg, p, c);
    DropMessageDrops(reg, participants, m, c);
    FilledIsSelected(owner.text, p, c);
    var drop := DropMessage(owner, Filled(p, "x", c));
    var e := DocumentOf(owner.text, Filled(p, "x", c));
    t := ReliableTurn(m, participants);
    u := ReliableTurn(drop, participants);
    dir := Uncached([e]);
    PutThenDropTwice(reg, ttl, participants, t, u, DocumentOf(owner.text, p), e);
  }
}
