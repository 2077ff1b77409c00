/**
 The HTTP oracle's store: an insertion-ordered map from a dash-joined key to an association, saved whole to a file
 after every change.  First the transitions as functions, then the class that performs them in place.
 */
module RemoteStore {
  import opened Values
  import opened Sequences

  datatype Association = Association(fspId: string, party: Party)

  datatype Entry = Entry(key: string, value: Association)

  /**
   What the file holds: nothing yet, no text, text that is not JSON, JSON's null, other JSON without a list, or saved
   associations.
   */
  datatype File = Missing | Blank | Corrupt | NullText | Listless | Saved(associations: seq<Association>)

  datatype Store = Store(entries: seq<Entry>, file: File)

  datatype Answer =
    | Found(fspId: string)
    | NotAssociated
    | Done
    | Duplicate
    | NoSuchAssociation
    | SaveFailed

  function CurrencyText(f: Field): string {
    if f.Text? then f.text else "NULL"
  }

  function CreateKey(p: Party): string {
    p.partyId + "-" + p.partyType + "-" + CurrencyText(p.currency)
  }

  /** Position of the entry under `key`, or the number of entries. */
  function IndexOf(entries: seq<Entry>, key: string): (i: nat)
    ensures i <= |entries|
    ensures forall k | 0 <= k < i :: entries[k].key != key
    ensures i < |entries| ==> entries[i].key == key
  {
    First(entries, (e: Entry) => e.key == key)
  }

  predicate Has(entries: seq<Entry>, key: string) {
    IndexOf(entries, key) < |entries|
  }

  /** `Array.from(map.values())` */
  function ValuesOf(entries: seq<Entry>): (vs: seq<Association>)
    ensures |vs| == |entries| && forall i | 0 <= i < |vs| :: vs[i] == entries[i].value
  {
    if entries == [] then [] else ValuesOf(entries[..|entries| - 1]) + [entries[|entries| - 1].value]
  }

  /** A record read back: JSON leaves undefined fields out, and the loader turns what is left out into null. */
  function Restored(a: Association): Association {
    a.(party := a.party.OrNull())
  }

  function LoadOne(entries: seq<Entry>, a: Association): seq<Entry> {
    var key := CreateKey(Restored(a).party);
    if Has(entries, key) then entries else entries + [Entry(key, Restored(a))]
  }

  /** The map a list of records is loaded into; the first record under a key wins. */
  function Load(records: seq<Association>): seq<Entry> {
    if records == [] then [] else LoadOne(Load(records[..|records| - 1]), records[|records| - 1])
  }

  function GetParticipantFspId(st: Store, p: Party): Answer {
    var i := IndexOf(st.entries, CreateKey(p));
    if i < |st.entries| then Found(st.entries[i].value.fspId) else NotAssociated
  }

  function Save(st: Store, saves: bool): (Answer, Store) {
    if saves then (Done, st.(file := Saved(ValuesOf(st.entries)))) else (SaveFailed, st)
  }

  function Associate(st: Store, fspId: string, p: Party, saves: bool): (Answer, Store) {
    if Has(st.entries, CreateKey(p)) then (Duplicate, st)
    else Save(st.(entries := st.entries + [Entry(CreateKey(p), Association(fspId, p))]), saves)
  }

  function Disassociate(st: Store, fspId: string, p: Party, saves: bool): (Answer, Store) {
    var i := IndexOf(st.entries, CreateKey(p));
    if i < |st.entries| && st.entries[i].value.fspId == fspId
    then Save(st.(entries := Without(st.entries, i)), saves)
    else (NoSuchAssociation, st)
  }

  /** `init`: load the file if there is one; false when it cannot be read or parsed, or holds JSON's null. */
  function Init(st: Store, readable: bool): (bool, Store) {
    if st.file.Missing? then (true, st)
    else if !readable || st.file.Corrupt? || st.file.NullText? then (false, st.(entries := []))
    else (true, st.(entries := if st.file.Saved? then Load(st.file.associations) else []))
  }

  datatype Call =
    | GetCall(party: Party)
    | AssociateCall(fspId: string, party: Party, saves: bool)
    | DisassociateCall(fspId: string, party: Party, saves: bool)

  function Step(st: Store, c: Call): (Answer, Store) {
    match c
    case GetCall(p) => (GetParticipantFspId(st, p), st)
    case AssociateCall(f, p, saves) => Associate(st, f, p, saves)
    case DisassociateCall(f, p, saves) => Disassociate(st, f, p, saves)
  }

  /** The answers of a serial run, and the store after it. */
  function Run(st: Store, calls: seq<Call>): (seq<Answer>, Store)
    decreases |calls|
  {
    if calls == [] then ([], st)
    else
      var (answer, next) := Step(st, calls[0]);
      var (answers, last) := Run(next, calls[1..]);
      ([answer] + answers, last)
  }
}

module RemoteOracles {
  import opened Values
  import opened RemoteStore

  class RemoteOracle {
    var associations: seq<Entry>
    var file: File

    function State(): Store
      reads this
    {
      Store(associations, file)
    }

    constructor (file: File)
      ensures State() == Store([], file)
    {
      associations := [];
      this.file := file;
    }

    method Init(readable: bool) returns (ok: bool)
      modifies this`associations
      ensures (ok, State()) == RemoteStore.Init(old(State()), readable)
    {
      if file.Missing? {
        return true;
      }
      ok := LoadFromFile(readable);
    }

    method LoadFromFile(readable: bool) returns (ok: bool)
      requires !file.Missing?
      modifies this`associations
      ensures (ok, State()) == RemoteStore.Init(old(State()), readable)
    {
      associations := [];
      if !readable || file.Corrupt? || file.NullText? {
        return false;
      }
      if file.Saved? {
        var records := file.associations;
        for i := 0 to |records|
          invariant associations == Load(records[..i])
          invariant file == old(file)
        {
          assert records[..i + 1][..i] == records[..i];
          var newAssociation := Restored(records[i]);
          var key := CreateKey(newAssociation.party);
          var at := IndexOf(associations, key);
          if at == |associations| {
            associations := associations + [Entry(key, newAssociation)];
          }
        }
        assert records[..|records|] == records;
      }
      ok := true;
    }

    method SaveToFile(saves: bool) returns (r: Answer)
      modifies this`file
      ensures (r, State()) == Save(old(State()), saves)
    {
      if !saves {
        return SaveFailed;
      }
      file := Saved(ValuesOf(associations));
      r := Done;
    }

    method GetParticipantFspId(p: Party) returns (r: Answer)
      ensures r == RemoteStore.GetParticipantFspId(State(), p)
    {
      var at := IndexOf(associations, CreateKey(p));
      if at < |associations| {
        return Found(associations[at].value.fspId);
      }
      r := NotAssociated;
    }

    method AssociateParticipant(fspId: string, p: Party, saves: bool) returns (r: Answer)
      modifies this
      ensures (r, State()) == Associate(old(State()), fspId, p, saves)
    {
      var key := CreateKey(p);
      var at := IndexOf(associations, key);
      if at < |associations| {
        return Duplicate;
      }
      associations := associations + [Entry(key, Association(fspId, p))];
      r := SaveToFile(saves);
    }

    method DisassociateParticipant(fspId: string, p: Party, saves: bool) returns (r: Answer)
      modifies this
      ensures (r, State()) == Disassociate(old(State()), fspId, p, saves)
    {
      var at := IndexOf(associations, CreateKey(p));
      if at < |associations| && associations[at].value.fspId == fspId {
        associations := associations[..at] + associations[at + 1..];
        r := SaveToFile(saves);
      } else {
        r := NoSuchAssociation;
      }
    }
  }
}
