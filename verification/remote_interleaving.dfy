/**
 The HTTP oracle with calls in flight.  A call runs without interruption up to its only await, the file write:
 the map is checked and changed, and the text to write is made, in one step.  Writes then finish in any order.
 */
module RemoteInterleaving {
  import opened Values
  import opened Sequences
  import opened RemoteStore
  import opened RemoteRefinement
  import opened RemotePersistence

  /** The store and the contents of the writes in flight, oldest first. */
  datatype Busy = Busy(store: Store, writes: seq<seq<Association>>)

  datatype Move =
    | StartAssociate(fspId: string, party: Party)
    | StartDisassociate(fspId: string, party: Party)
    | FinishWrite(at: nat, ok: bool)

  function Change(b: Busy, entries: seq<Entry>): Busy {
    Busy(b.store.(entries := entries), b.writes + [ValuesOf(entries)])
  }

  predicate Inserts(b: Busy, m: Move) {
    m.StartAssociate? && !Has(b.store.entries, CreateKey(m.party))
  }

  predicate Removes(b: Busy, m: Move) {
    && m.StartDisassociate?
    && var i := IndexOf(b.store.entries, CreateKey(m.party));
       i < |b.store.entries| && b.store.entries[i].value.fspId == m.fspId
  }

  function Apply(b: Busy, m: Move): Busy {
    match m
    case StartAssociate(f, p) =>
      if Inserts(b, m) then Change(b, b.store.entries + [Entry(CreateKey(p), Association(f, p))]) else b
    case StartDisassociate(f, p) =>
      if Removes(b, m) then Change(b, Without(b.store.entries, IndexOf(b.store.entries, CreateKey(p)))) else b
    case FinishWrite(at, ok) =>
      if at < |b.writes| then
        Busy(if ok then b.store.(file := Saved(b.writes[at])) else b.store, Without(b.writes, at))
      else b
  }

  function Play(b: Busy, ms: seq<Move>): Busy
    decreases |ms|
  {
    if ms == [] then b else Play(Apply(b, ms[0]), ms[1..])
  }

  /** Uninterrupted, the two steps of a call amount to the whole call. */
  lemma SoloCalls(st: Store, fspId: string, p: Party, saves: bool)
    ensures Play(Busy(st, []), [StartAssociate(fspId, p), FinishWrite(0, saves)])
            == Busy(Associate(st, fspId, p, saves).1, [])
    ensures Play(Busy(st, []), [StartDisassociate(fspId, p), FinishWrite(0, saves)])
            == Busy(Disassociate(st, fspId, p, saves).1, [])
  {
    var finish := FinishWrite(0, saves);
    forall start | start == StartAssociate(fspId, p) || start == StartDisassociate(fspId, p)
      ensures Play(Busy(st, []), [start, finish]) == Apply(Apply(Busy(st, []), start), finish)
    {
      var next := Apply(Busy(st, []), start);
      assert [start, finish][1..] == [finish] && [finish][1..] == [];
      assert Play(next, [finish]) == Apply(next, finish);
    }
  }

  function Count(b: bool): nat {
    if b then 1 else 0
  }

  function InsertsOf(b: Busy, ms: seq<Move>, key: string): nat
    decreases |ms|
  {
    if ms == [] then 0
    else Count(Inserts(b, ms[0]) && CreateKey(ms[0].party) == key) + InsertsOf(Apply(b, ms[0]), ms[1..], key)
  }

  function RemovalsOf(b: Busy, ms: seq<Move>, key: string): nat
    decreases |ms|
  {
    if ms == [] then 0
    else Count(Removes(b, ms[0]) && CreateKey(ms[0].party) == key) + RemovalsOf(Apply(b, ms[0]), ms[1..], key)
  }

  lemma MoveKeepsKeys(b: Busy, m: Move)
    requires WellKeyed(b.store.entries)
    ensures WellKeyed(Apply(b, m).store.entries)
  {
    if Inserts(b, m) {
      AppendKeepsKeys(b.store.entries, Association(m.fspId, m.party));
    } else if Removes(b, m) {
      WithoutKeepsKeys(b.store.entries, IndexOf(b.store.entries, CreateKey(m.party)));
    }
  }

  lemma MoveKeepsCount(b: Busy, m: Move, key: string)
    requires WellKeyed(b.store.entries)
    ensures Count(Has(Apply(b, m).store.entries, key)) ==
            Count(Has(b.store.entries, key)) + Count(Inserts(b, m) && CreateKey(m.party) == key)
            - Count(Removes(b, m) && CreateKey(m.party) == key)
  {
    var entries := b.store.entries;
    if Inserts(b, m) {
      WithEntry(entries, Entry(CreateKey(m.party), Association(m.fspId, m.party)), key);
    } else if Removes(b, m) {
      WithoutEntry(entries, IndexOf(entries, CreateKey(m.party)), key);
    }
  }

  /** However calls interleave, under each key inserts and removals balance against what is stored before and after. */
  lemma {:induction false} InsertsBalanceRemovals(b: Busy, ms: seq<Move>, key: string)
    requires WellKeyed(b.store.entries)
    ensures WellKeyed(Play(b, ms).store.entries)
    ensures Count(Has(b.store.entries, key)) + InsertsOf(b, ms, key)
            == Count(Has(Play(b, ms).store.entries, key)) + RemovalsOf(b, ms, key)
    decreases |ms|
  {
    if ms != [] {
      MoveKeepsKeys(b, ms[0]);
      MoveKeepsCount(b, ms[0], key);
      InsertsBalanceRemovals(Apply(b, ms[0]), ms[1..], key);
    }
  }

  /** Between two removals of a key any number of concurrent associations insert it at most once. */
  lemma AtMostOneInsert(b: Busy, ms: seq<Move>, key: string)
    requires WellKeyed(b.store.entries) && RemovalsOf(b, ms, key) == 0
    ensures InsertsOf(b, ms, key) <= 1
    ensures Has(b.store.entries, key) ==> InsertsOf(b, ms, key) == 0
  {
    InsertsBalanceRemovals(b, ms, key);
  }

  /** The file holds the map as it is now; an oracle without a file starts empty. */
  predicate FileIsCurrent(st: Store) {
    st.file == Saved(ValuesOf(st.entries)) || (st.file.Missing? && st.entries == [])
  }

  /** The newest text on its way to the file, or else the file itself, is the current map. */
  predicate Tracks(b: Busy) {
    if b.writes == [] then FileIsCurrent(b.store) else b.writes[|b.writes| - 1] == ValuesOf(b.store.entries)
  }

  /**
   Of the writes in flight the newest finishes last, and then it succeeds; older ones may fail and overtake each other.
   */
  predicate NewestFinishesLast(b: Busy, m: Move) {
    m.FinishWrite? ==> m.at >= |b.writes| || m.at < |b.writes| - 1 || (|b.writes| == 1 && m.ok)
  }

  /** Where the newest write does not finish last or fails, the text left in its place says the same anyway. */
  predicate ContentsCoincide(b: Busy, m: Move) {
    && m.FinishWrite? && b.writes != [] && m.at == |b.writes| - 1
    && if |b.writes| == 1 then FileIsCurrent(b.store) else b.writes[m.at - 1] == b.writes[m.at]
  }

  /**
   A move keeps the current map the newest text exactly if the newest write is not overtaken or lost, or nothing hangs
   on it.
   */
  lemma MoveKeepsTracksIff(b: Busy, m: Move)
    requires Tracks(b)
    ensures Tracks(Apply(b, m)) <==> NewestFinishesLast(b, m) || ContentsCoincide(b, m)
  {
  }

  predicate AllNewestFinishLast(b: Busy, ms: seq<Move>)
    decreases |ms|
  {
    ms != [] ==> NewestFinishesLast(b, ms[0]) && AllNewestFinishLast(Apply(b, ms[0]), ms[1..])
  }

  /** If the newest write always finishes last and succeeds, then once none is in flight the file is the current map. */
  lemma {:induction false} NewestWriteLastIsDurable(b: Busy, ms: seq<Move>)
    requires Tracks(b) && AllNewestFinishLast(b, ms)
    ensures Tracks(Play(b, ms))
    ensures Play(b, ms).writes == [] ==> FileIsCurrent(Play(b, ms).store)
    decreases |ms|
  {
    if ms != [] {
      MoveKeepsTracksIff(b, ms[0]);
      NewestWriteLastIsDurable(Apply(b, ms[0]), ms[1..]);
    }
  }

  /** In particular if writes succeed and finish in the order they started. */
  lemma {:induction false} OrderedWritesAreDurable(b: Busy, ms: seq<Move>)
    requires Tracks(b) && forall m | m in ms && m.FinishWrite? :: m == FinishWrite(0, true)
    ensures AllNewestFinishLast(b, ms) && Tracks(Play(b, ms))
    decreases |ms|
  {
    if ms != [] {
      MoveKeepsTracksIff(b, ms[0]);
      OrderedWritesAreDurable(Apply(b, ms[0]), ms[1..]);
    }
  }

  /**
   If the newest write is overtaken they may not be: both calls return normally and the file has lost the second one's
   association.
   */
  lemma OvertakenWriteLosesAssociation(f: string, g: string, p: Party, q: Party)
    requires CreateKey(p) != CreateKey(q)
    ensures var moves := [StartAssociate(f, p), StartAssociate(g, q), FinishWrite(1, true), FinishWrite(0, true)];
            var after := Play(Busy(Store([], Missing), []), moves);
            after.writes == [] && |after.store.entries| == 2 && after.store.file == Saved([Association(f, p)])
  {
    var ms := [StartAssociate(f, p), StartAssociate(g, q), FinishWrite(1, true), FinishWrite(0, true)];
    var b0 := Busy(Store([], Missing), []);
    var one := [Entry(CreateKey(p), Association(f, p))];
    var two := one + [Entry(CreateKey(q), Association(g, q))];
    assert ValuesOf(one) == [Association(f, p)];
    var b1 := Busy(Store(one, Missing), [ValuesOf(one)]);
    var b2 := Busy(Store(two, Missing), [ValuesOf(one), ValuesOf(two)]);
    var b3 := Busy(Store(two, Saved(ValuesOf(two))), [ValuesOf(one)]);
    assert Apply(b0, ms[0]) == b1 && Apply(b1, ms[1]) == b2;
    assert Apply(b2, ms[2]) == b3 && Apply(b3, ms[3]) == Busy(Store(two, Saved(ValuesOf(one))), []);
    assert Play(b3, ms[3..]) == Apply(b3, ms[3]);
    assert Play(b2, ms[2..]) == Play(b3, ms[3..]) by { assert ms[2..][1..] == ms[3..]; }
    assert Play(b1, ms[1..]) == Play(b2, ms[2..]) by { assert ms[1..][1..] == ms[2..]; }
  }
}
