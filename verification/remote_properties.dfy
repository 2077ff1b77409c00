/** The dash-joined map answers like a map from the party itself. */
module RemoteRefinement {
  import opened Values
  import opened Separators
  import opened Sequences
  import opened RemoteStore

  /** What the oracle tells parties apart by; the sub type plays no part. */
  datatype Identity = Identity(partyId: string, partyType: string, currency: Option<string>)

  function IdentityOf(p: Party): Identity {
    Identity(p.partyId, p.partyType, if p.currency.Text? then Some(p.currency.text) else None)
  }

  /** No dash in the party type or currency, and no currency spelt like an absent one; `partyId` may hold dashes. */
  predicate Clean(p: Party) {
    '-' !in p.partyType && (p.currency.Text? ==> '-' !in p.currency.text && p.currency.text != "NULL")
  }

  lemma SameKeyIff(p: Party, q: Party)
    requires Clean(p) && Clean(q)
    ensures CreateKey(p) == CreateKey(q) <==> IdentityOf(p) == IdentityOf(q)
  {
    if CreateKey(p) == CreateKey(q) {
      SplitAtLast(p.partyId + "-" + p.partyType, CurrencyText(p.currency),
                  q.partyId + "-" + q.partyType, CurrencyText(q.currency), '-');
      SplitAtLast(p.partyId, p.partyType, q.partyId, q.partyType, '-');
    }
  }

  type Owners = map<Identity, string>

  function ModelStep(m: Owners, c: Call): (Answer, Owners) {
    match c
    case GetCall(p) =>
      (if IdentityOf(p) in m then Found(m[IdentityOf(p)]) else NotAssociated, m)
    case AssociateCall(f, p, saves) =>
      if IdentityOf(p) in m then (Duplicate, m)
      else (if saves then Done else SaveFailed, m[IdentityOf(p) := f])
    case DisassociateCall(f, p, saves) =>
      if IdentityOf(p) in m && m[IdentityOf(p)] == f then (if saves then Done else SaveFailed, m - {IdentityOf(p)})
      else (NoSuchAssociation, m)
  }

  function ModelRun(m: Owners, calls: seq<Call>): seq<Answer>
    decreases |calls|
  {
    if calls == [] then []
    else [ModelStep(m, calls[0]).0] + ModelRun(ModelStep(m, calls[0]).1, calls[1..])
  }

  ghost predicate UniqueKeys(entries: seq<Entry>) {
    forall i, j | 0 <= i < j < |entries| :: entries[i].key != entries[j].key
  }

  /** Under every clean party, the entries and the model hold the same owner or none. */
  ghost predicate Represents(entries: seq<Entry>, m: Owners) {
    && UniqueKeys(entries)
    && forall p | Clean(p) :: SameOwner(entries, m, p)
  }

  predicate SameOwner(entries: seq<Entry>, m: Owners, p: Party) {
    var i := IndexOf(entries, CreateKey(p));
    if i < |entries| then IdentityOf(p) in m && m[IdentityOf(p)] == entries[i].value.fspId else IdentityOf(p) !in m
  }

  lemma WithoutEntry(entries: seq<Entry>, at: nat, key: string)
    requires UniqueKeys(entries) && at < |entries|
    ensures UniqueKeys(Without(entries, at))
    ensures var rest, i := Without(entries, at), IndexOf(entries, key);
            var j := IndexOf(rest, key);
            if key == entries[at].key || i == |entries| then j == |rest| else j < |rest| && rest[j] == entries[i]
  {
    var rest, i := Without(entries, at), IndexOf(entries, key);
    assert forall k | 0 <= k < |rest| :: rest[k] == entries[if k < at then k else k + 1];
    if key != entries[at].key && i < |entries| {
      assert rest[if i < at then i else i - 1] == entries[i];
    }
  }

  lemma WithEntry(entries: seq<Entry>, e: Entry, key: string)
    requires !Has(entries, e.key)
    ensures var i := IndexOf(entries, key);
            IndexOf(entries + [e], key) == if i == |entries| && key != e.key then |entries| + 1 else i
  {
    assert (entries + [e])[|entries|] == e;
    assert forall k | 0 <= k < |entries| :: (entries + [e])[k] == entries[k];
  }

  lemma InsertRefines(entries: seq<Entry>, m: Owners, fspId: string, p: Party)
    requires Represents(entries, m) && Clean(p) && !Has(entries, CreateKey(p))
    ensures Represents(entries + [Entry(CreateKey(p), Association(fspId, p))], m[IdentityOf(p) := fspId])
  {
    var e := Entry(CreateKey(p), Association(fspId, p));
    forall q | Clean(q) ensures SameOwner(entries + [e], m[IdentityOf(p) := fspId], q) {
      assert SameOwner(entries, m, q);
      SameKeyIff(p, q);
      WithEntry(entries, e, CreateKey(q));
    }
  }

  lemma DeleteRefines(entries: seq<Entry>, m: Owners, p: Party)
    requires Represents(entries, m) && Clean(p) && Has(entries, CreateKey(p))
    ensures Represents(Without(entries, IndexOf(entries, CreateKey(p))), m - {IdentityOf(p)})
  {
    var at := IndexOf(entries, CreateKey(p));
    WithoutEntry(entries, at, CreateKey(p));
    forall q | Clean(q) ensures SameOwner(Without(entries, at), m - {IdentityOf(p)}, q) {
      assert SameOwner(entries, m, q);
      SameKeyIff(p, q);
      WithoutEntry(entries, at, CreateKey(q));
    }
  }

  lemma StepRefines(st: Store, m: Owners, c: Call)
    requires Represents(st.entries, m) && Clean(c.party)
    ensures Step(st, c).0 == ModelStep(m, c).0
    ensures Represents(Step(st, c).1.entries, ModelStep(m, c).1)
  {
    var p := c.party;
    assert SameOwner(st.entries, m, p);
    match c
    case GetCall(_) =>
    case AssociateCall(f, _, _) => if !Has(st.entries, CreateKey(p)) { InsertRefines(st.entries, m, f, p); }
    case DisassociateCall(_, _, _) => if Has(st.entries, CreateKey(p)) { DeleteRefines(st.entries, m, p); }
  }

  /**
   For every sequence of calls on clean parties, whatever saves fail, the answers are those of a map from identities to
   owners.
   */
  lemma {:induction false} RunRefines(st: Store, m: Owners, calls: seq<Call>)
    requires Represents(st.entries, m) && forall c | c in calls :: Clean(c.party)
    ensures Run(st, calls).0 == ModelRun(m, calls)
    decreases |calls|
  {
    if calls != [] {
      StepRefines(st, m, calls[0]);
      RunRefines(Step(st, calls[0]).1, ModelStep(m, calls[0]).1, calls[1..]);
    }
  }

  /** In particular from the empty oracle. */
  lemma FreshRunRefines(file: File, calls: seq<Call>)
    requires forall c | c in calls :: Clean(c.party)
    ensures Run(Store([], file), calls).0 == ModelRun(map[], calls)
  {
    assert Represents([], map[]);
    RunRefines(Store([], file), map[], calls);
  }

  /** No dash anywhere, and a currency that is given and not spelt like an absent one. */
  predicate Unambiguous(p: Party) {
    '-' !in p.partyId && Clean(p) && p.currency.Text?
  }

  /** Another identity under the same key. */
  ghost predicate CollidesWith(p: Party, q: Party) {
    IdentityOf(q) != IdentityOf(p) && CreateKey(q) == CreateKey(p)
  }

  /** Exactly the unambiguous parties share their key with no other identity. */
  lemma KeyIsUniqueIff(p: Party)
    ensures Unambiguous(p) <==> !exists q :: CollidesWith(p, q)
  {
    if Unambiguous(p) {
      forall q | CreateKey(q) == CreateKey(p) ensures IdentityOf(q) == IdentityOf(p) { UnambiguousKeyIsUnique(p, q); }
    } else {
      var q := Collision(p);
      assert CollidesWith(p, q);
    }
  }

  /** For one, a currency spelt "NULL" is taken for an absent one; for another, a dash moves text between the fields. */
  lemma UncleanPartiesCollide()
    ensures CollidesWith(Party("MSISDN", "1", Null, Null), Party("MSISDN", "1", Null, Text("NULL")))
    ensures CollidesWith(Party("a-b", "1", Null, Null), Party("b", "1-a", Null, Null))
  {
    assert "1" + "-" + "a-b" == "1-a" + "-" + "b";
  }

  lemma DashesInKey(p: Party)
    ensures multiset(CreateKey(p))['-'] ==
            2 + multiset(p.partyId)['-'] + multiset(p.partyType)['-'] + multiset(CurrencyText(p.currency))['-']
  {
    assert multiset("-")['-'] == 1;
  }

  lemma UnambiguousKeyIsUnique(p: Party, q: Party)
    requires Unambiguous(p) && CreateKey(q) == CreateKey(p)
    ensures IdentityOf(q) == IdentityOf(p)
  {
    DashesInKey(p);
    DashesInKey(q);
    var c, d := CurrencyText(p.currency), CurrencyText(q.currency);
    SplitAtLast(p.partyId + "-" + p.partyType, c, q.partyId + "-" + q.partyType, d, '-');
    SplitAtLast(p.partyId, p.partyType, q.partyId, q.partyType, '-');
  }

  lemma MoveDash(a: string, b: string, x: string, y: string)
    ensures x + "-" + y + "-" + a + "-" + b == x + "-" + (y + "-" + a) + "-" + b
    ensures a + "-" + (x + "-" + y) + "-" + b == a + "-" + x + "-" + y + "-" + b
    ensures a + "-" + b + "-" + (x + "-" + y) == a + "-" + (b + "-" + x) + "-" + y
  {
  }

  /** A party of another identity with the same key, for every party that is not unambiguous. */
  lemma Collision(p: Party) returns (q: Party)
    requires !Unambiguous(p)
    ensures CollidesWith(p, q)
  {
    if !p.currency.Text? {
      q := p.(currency := Text("NULL"));
    } else if p.currency.text == "NULL" {
      q := p.(currency := Null);
    } else if '-' in p.partyId {
      var c := Cut(p.partyId, '-');
      MoveDash(p.partyType, p.currency.text, c.0, c.1);
      q := p.(partyId := c.0, partyType := c.1 + "-" + p.partyType);
    } else if '-' in p.partyType {
      var c := Cut(p.partyType, '-');
      MoveDash(p.partyId, p.currency.text, c.0, c.1);
      q := p.(partyId := p.partyId + "-" + c.0, partyType := c.1);
    } else {
      var c := Cut(p.currency.text, '-');
      MoveDash(p.partyId, p.partyType, c.0, c.1);
      q := p.(partyType := p.partyType + "-" + c.0, currency := Text(c.1));
    }
  }
}

/** Saving and loading. */
module RemotePersistence {
  import opened Values
  import opened Sequences
  import opened RemoteStore
  import opened RemoteRefinement

  /** Every record's recomputed key is the key it is stored under, and keys are unique. */
  ghost predicate WellKeyed(entries: seq<Entry>) {
    UniqueKeys(entries) && forall i | 0 <= i < |entries| :: entries[i].key == CreateKey(entries[i].value.party)
  }

  lemma StepKeepsKeys(st: Store, c: Call)
    requires WellKeyed(st.entries)
    ensures WellKeyed(Step(st, c).1.entries)
  {
    var at := IndexOf(st.entries, CreateKey(c.party));
    if c.AssociateCall? && at == |st.entries| {
      AppendKeepsKeys(st.entries, Association(c.fspId, c.party));
    } else if c.DisassociateCall? && at < |st.entries| {
      WithoutKeepsKeys(st.entries, at);
    }
  }

  lemma AppendKeepsKeys(entries: seq<Entry>, a: Association)
    requires WellKeyed(entries) && !Has(entries, CreateKey(a.party))
    ensures WellKeyed(entries + [Entry(CreateKey(a.party), a)])
  {
  }

  lemma WithoutKeepsKeys(entries: seq<Entry>, at: nat)
    requires WellKeyed(entries)
    ensures WellKeyed(Without(entries, at))
  {
  }

  lemma {:induction false} KeysInvariant(st: Store, calls: seq<Call>)
    requires WellKeyed(st.entries)
    ensures WellKeyed(Run(st, calls).1.entries)
    decreases |calls|
  {
    if calls != [] {
      StepKeepsKeys(st, calls[0]);
      KeysInvariant(Step(st, calls[0]).1, calls[1..]);
    }
  }

  /** The same map as JSON gives it back: same keys, same order, undefined fields turned into null. */
  function RestoredEntries(entries: seq<Entry>): (r: seq<Entry>)
    ensures |r| == |entries| && forall i | 0 <= i < |r| :: r[i] == Entry(entries[i].key, Restored(entries[i].value))
  {
    if entries == [] then []
    else
      var e := entries[|entries| - 1];
      RestoredEntries(entries[..|entries| - 1]) + [Entry(e.key, Restored(e.value))]
  }

  lemma RestoredIsNew(entries: seq<Entry>, a: Association)
    requires forall i | 0 <= i < |entries| :: entries[i].key != CreateKey(a.party)
    ensures LoadOne(RestoredEntries(entries), a) == RestoredEntries(entries) + [Entry(CreateKey(a.party), Restored(a))]
  {
  }

  lemma LoadAppended(records: seq<Association>, a: Association)
    ensures Load(records + [a]) == LoadOne(Load(records), a)
  {
    assert (records + [a])[..|records|] == records;
  }

  /** Loading what a well-keyed map saved rebuilds it, in its order. */
  lemma {:induction false} LoadRebuilds(entries: seq<Entry>)
    requires WellKeyed(entries)
    ensures Load(ValuesOf(entries)) == RestoredEntries(entries)
  {
    if entries != [] {
      var init, e := entries[..|entries| - 1], entries[|entries| - 1];
      LoadRebuilds(init);
      LoadAppended(ValuesOf(init), e.value);
      RestoredIsNew(init, e.value);
    }
  }

  lemma {:induction false} LoadIsWellKeyed(records: seq<Association>)
    ensures WellKeyed(Load(records))
    ensures forall i | 0 <= i < |Load(records)| :: Restored(Load(records)[i].value) == Load(records)[i].value
  {
    if records != [] {
      var loaded, a := Load(records[..|records| - 1]), Restored(records[|records| - 1]);
      LoadIsWellKeyed(records[..|records| - 1]);
      if !Has(loaded, CreateKey(a.party)) { AppendKeepsKeys(loaded, a); }
    }
  }

  /** For any record list, load after save after load is load. */
  lemma LoadSaveLoad(records: seq<Association>)
    ensures Load(ValuesOf(Load(records))) == Load(records)
  {
    LoadIsWellKeyed(records);
    LoadRebuilds(Load(records));
  }

  /** Position of the first record of the file under `key`. */
  function FirstRecord(records: seq<Association>, key: string): (i: nat)
    ensures i <= |records|
    ensures forall k | 0 <= k < i :: CreateKey(records[k].party) != key
    ensures i < |records| ==> CreateKey(records[i].party) == key
  {
    First(records, (a: Association) => CreateKey(a.party) == key)
  }

  lemma FirstRecordOfPrefix(records: seq<Association>, key: string)
    requires records != []
    ensures var last := |records| - 1;
            FirstRecord(records, key) ==
            if FirstRecord(records[..last], key) < last || CreateKey(records[last].party) == key
            then FirstRecord(records[..last], key) else last + 1
  {
    assert forall k | 0 <= k < |records| - 1 :: records[k] == records[..|records| - 1][k];
  }

  /** The record keeps its owner and every field the file gives; what the file leaves out is null. */
  predicate IsLoadedFrom(loaded: Association, a: Association) {
    var p, q := a.party, loaded.party;
    && loaded.fspId == a.fspId && q.partyType == p.partyType && q.partyId == p.partyId
    && q.partySubType == (if p.partySubType.Undefined? then Null else p.partySubType)
    && q.currency == (if p.currency.Undefined? then Null else p.currency)
  }

  /** Under each key, the loaded map holds the first record of the file with that key, or nothing. */
  lemma {:induction false} FirstRecordWins(records: seq<Association>, key: string)
    ensures var first, at := FirstRecord(records, key), IndexOf(Load(records), key);
            if first == |records| then at == |Load(records)|
            else at < |Load(records)| && IsLoadedFrom(Load(records)[at].value, records[first])
  {
    if records != [] {
      var last := |records| - 1;
      FirstRecordWins(records[..last], key);
      FirstRecordOfPrefix(records, key);
      var loaded := Load(records[..last]);
      var entry := Entry(CreateKey(records[last].party), Restored(records[last]));
      if !Has(loaded, entry.key) {
        WithEntry(loaded, entry, key);
      }
    }
  }

  // ---- Durability

  /**
   A normal return of a change leaves the file equal to the map; every other answer leaves the file alone, and refusals
   the map too.
   */
  lemma AnswerTellsEffect(st: Store, c: Call)
    ensures var (answer, after) := Step(st, c);
            match answer
            case Done => after.file == Saved(ValuesOf(after.entries))
            case SaveFailed => after.file == st.file && after.entries != st.entries
            case _ => after == st
  {
    if c.DisassociateCall? {
      var at := IndexOf(st.entries, CreateKey(c.party));
      assert at < |st.entries| ==> |Without(st.entries, at)| < |st.entries|;
    }
  }

  lemma {:induction false} NothingSaved(st: Store, calls: seq<Call>)
    requires Done !in Run(st, calls).0
    ensures Run(st, calls).1.file == st.file
    ensures SaveFailed !in Run(st, calls).0 ==> Run(st, calls).1.entries == st.entries
    decreases |calls|
  {
    if calls != [] {
      AnswerTellsEffect(st, calls[0]);
      assert Run(st, calls).0[1..] == Run(Step(st, calls[0]).1, calls[1..]).0;
      NothingSaved(Step(st, calls[0]).1, calls[1..]);
    }
  }

  /** Call `k` is the latest of the run that saved. */
  ghost predicate LatestSave(st: Store, calls: seq<Call>, k: nat) {
    var answers := Run(st, calls).0;
    k < |answers| && answers[k] == Done && forall j | k < j < |answers| :: answers[j] != Done
  }

  lemma LatestSaveOfTail(st: Store, calls: seq<Call>, k: nat)
    requires LatestSave(st, calls, k) && k > 0
    ensures calls != [] && LatestSave(Step(st, calls[0]).1, calls[1..], k - 1)
    ensures var rest := Run(Step(st, calls[0]).1, calls[1..]).0;
            forall j | 0 <= j < |rest| :: rest[j] == Run(st, calls).0[j + 1]
  {
    var answers, rest := Run(st, calls).0, Run(Step(st, calls[0]).1, calls[1..]).0;
    assert forall j | 0 <= j < |rest| :: rest[j] == answers[j + 1];
  }

  lemma FirstCallSavedLast(st: Store, calls: seq<Call>)
    requires LatestSave(st, calls, 0)
    ensures calls != [] && Run(st, calls).1.file == Saved(ValuesOf(Step(st, calls[0]).1.entries))
    ensures (forall j | 0 < j < |Run(st, calls).0| :: Run(st, calls).0[j] != SaveFailed) ==>
            Run(st, calls).1.entries == Step(st, calls[0]).1.entries
  {
    var next := Step(st, calls[0]).1;
    var answers, rest := Run(st, calls).0, Run(next, calls[1..]).0;
    assert forall j | 0 <= j < |rest| :: rest[j] == answers[j + 1];
    AnswerTellsEffect(st, calls[0]);
    NothingSaved(next, calls[1..]);
  }

  /**
   The file holds the map as the latest successful save left it, and the current map if no later change failed to save.
   */
  lemma {:induction false} Durability(st: Store, calls: seq<Call>, k: nat)
    requires LatestSave(st, calls, k)
    ensures k < |calls| && Run(st, calls).1.file == Saved(ValuesOf(Run(st, calls[..k + 1]).1.entries))
    ensures (forall j | k < j < |Run(st, calls).0| :: Run(st, calls).0[j] != SaveFailed) ==>
            Run(st, calls).1.entries == Run(st, calls[..k + 1]).1.entries
    decreases |calls|
  {
    AnswersMatchCalls(st, calls);
    var next := Step(st, calls[0]).1;
    assert Run(st, calls[..k + 1]).1 == Run(next, calls[..k + 1][1..]).1;
    if k == 0 {
      FirstCallSavedLast(st, calls);
      assert calls[..1][1..] == [];
    } else {
      LatestSaveOfTail(st, calls, k);
      Durability(next, calls[1..], k - 1);
      assert calls[..k + 1][1..] == calls[1..][..k];
    }
  }

  lemma {:induction false} AnswersMatchCalls(st: Store, calls: seq<Call>)
    ensures |Run(st, calls).0| == |calls|
    decreases |calls|
  {
    if calls != [] { AnswersMatchCalls(Step(st, calls[0]).1, calls[1..]); }
  }

  lemma RestoredIsLoaded(entries: seq<Entry>)
    ensures var restored := RestoredEntries(entries);
            |restored| == |entries| && forall i | 0 <= i < |restored| ::
              restored[i].key == entries[i].key && IsLoadedFrom(restored[i].value, entries[i].value)
  {
  }

  /** After a restart the oracle holds, key for key and in order, what the latest successful save held. */
  lemma RestartRecoversLatestSave(st: Store, calls: seq<Call>, k: nat)
    requires WellKeyed(st.entries) && LatestSave(st, calls, k)
    ensures k < |calls|
    ensures Init(Run(st, calls).1, true)
            == (true, Run(st, calls).1.(entries := RestoredEntries(Run(st, calls[..k + 1]).1.entries)))
    ensures var saved, after := Run(st, calls[..k + 1]).1.entries, Init(Run(st, calls).1, true).1.entries;
            |after| == |saved| && forall i | 0 <= i < |after| ::
              after[i].key == saved[i].key && IsLoadedFrom(after[i].value, saved[i].value)
  {
    Durability(st, calls, k);
    KeysInvariant(st, calls[..k + 1]);
    LoadRebuilds(Run(st, calls[..k + 1]).1.entries);
    RestoredIsLoaded(Run(st, calls[..k + 1]).1.entries);
  }

  lemma RestoredIndex(entries: seq<Entry>, key: string)
    ensures IndexOf(RestoredEntries(entries), key) == IndexOf(entries, key)
  {
    var restored := RestoredEntries(entries);
    assert forall k | 0 <= k < |entries| :: restored[k].key == entries[k].key;
  }

  lemma RestoredAnswers(entries: seq<Entry>, file: File, file': File, p: Party)
    ensures GetParticipantFspId(Store(RestoredEntries(entries), file), p)
            == GetParticipantFspId(Store(entries, file'), p)
  {
    RestoredIndex(entries, CreateKey(p));
  }

  /** So it answers every lookup as it did after that save. */
  lemma RestartAnswersAsSaved(st: Store, calls: seq<Call>, k: nat, p: Party)
    requires WellKeyed(st.entries) && LatestSave(st, calls, k)
    ensures k < |calls|
    ensures GetParticipantFspId(Init(Run(st, calls).1, true).1, p) == GetParticipantFspId(Run(st, calls[..k + 1]).1, p)
  {
    RestartRecoversLatestSave(st, calls, k);
    var saved := Run(st, calls[..k + 1]).1;
    RestoredAnswers(saved.entries, Run(st, calls).1.file, saved.file, p);
  }

  /**
   Start-up succeeds exactly if there is no file, or it can be read and is JSON other than null.  Without a file the
   oracle stays as it is; otherwise it answers every lookup with the owner in the first record of the file under the
   party's key, and knows nothing if there is none.
   */
  lemma InitAnswers(st: Store, readable: bool, p: Party)
    ensures var (ok, after) := Init(st, readable);
            && (ok <==> st.file.Missing? || (readable && !st.file.Corrupt? && !st.file.NullText?))
            && after.file == st.file
            && if st.file.Missing? then after == st
               else if !ok || !st.file.Saved? then after.entries == []
               else
                 var records := st.file.associations;
                 var first := FirstRecord(records, CreateKey(p));
                 GetParticipantFspId(after, p)
                 == if first < |records| then Found(records[first].fspId) else NotAssociated
  {
    if st.file.Saved? { FirstRecordWins(st.file.associations, CreateKey(p)); }
  }

  /**
   A change that fails to save is not undone: the retry is refused as a duplicate, and a restart forgets the
   association.
   */
  lemma FailedSaveBlocksRetry(fspId: string, p: Party)
    ensures var st := Store([], Missing);
            var failed := Associate(st, fspId, p, false);
            failed.0 == SaveFailed && Associate(failed.1, fspId, p, true).0 == Duplicate
            && GetParticipantFspId(failed.1, p) == Found(fspId)
            && GetParticipantFspId(Init(Store([], failed.1.file), true).1, p) == NotAssociated
  {
    var entries := [Entry(CreateKey(p), Association(fspId, p))];
    assert IndexOf(entries, CreateKey(p)) == 0;
    assert IndexOf([], CreateKey(p)) == 0;
  }
}
