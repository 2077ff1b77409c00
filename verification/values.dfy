/** Values shared by every component: options, results, JavaScript's absent fields, and parties. */
module Values {

  datatype Option<+T> = None | Some(value: T)

  datatype Result<+T, +E> = Ok(value: T) | Err(error: E)

  /** A field of declared type `string | null`; a message may also leave it out altogether. */
  datatype Field = Undefined | Null | Text(text: string) {

    /** JavaScript truthiness: the test behind `if (!currency)`. */
    predicate Truthy() {
      Text? && text != ""
    }

    /** `field ?? null` */
    function OrNull(): Field {
      if Undefined? then Null else this
    }

    /** What `${field}` puts into a template string. */
    function Render(): string {
      match this
      case Undefined => "undefined"
      case Null => "null"
      case Text(s) => s
    }

    /** The value a stored object keeps: falsy fields are deleted from it. */
    function Present(): Option<string> {
      if Truthy() then Some(text) else None
    }
  }

  /** The four arguments that identify a party in every oracle call. */
  datatype Party = Party(partyType: string, partyId: string, partySubType: Field, currency: Field) {

    /** Every optional field is given, so nothing acts as a wildcard. */
    predicate Full() {
      partySubType.Truthy() && currency.Truthy()
    }

    /** The party as the handlers that write `?? null` read it. */
    function OrNull(): Party {
      Party(partyType, partyId, partySubType.OrNull(), currency.OrNull())
    }
  }
}

/** First match and removal by position: `findOne`, `find`, `deleteOne`. */
module Sequences {

  /** The position of the first element satisfying `p`, or the length when there is none. */
  function First<T>(s: seq<T>, p: T -> bool): (i: nat)
    ensures i <= |s|
    ensures forall k | 0 <= k < i :: !p(s[k])
    ensures i < |s| ==> p(s[i])
  {
    if s == [] || p(s[0]) then 0 else 1 + First(s[1..], p)
  }

  /** `s` without its element at position `i`; `s` itself when there is no such position. */
  function Without<T>(s: seq<T>, i: nat): (r: seq<T>)
    ensures i < |s| ==> |r| == |s| - 1
    ensures i < |s| ==> forall k | 0 <= k < |r| :: r[k] == s[if k < i then k else k + 1]
    ensures i >= |s| ==> r == s
    ensures forall x | x in r :: x in s
    ensures i < |s| ==> forall x | x in s && x != s[i] :: x in r
  {
    if i < |s| then
      var r := s[..i] + s[i + 1..];
      assert forall x | x in s && x != s[i] :: x in r by {
        forall x | x in s && x != s[i] ensures x in r {
          var k :| 0 <= k < |s| && s[k] == x;
          assert r[if k < i then k else k - 1] == x;
        }
      }
      r
    else s
  }
}

/** Cutting joined text apart again. */
module Separators {

  lemma SplitAtFirst(a: string, x: string, b: string, y: string, sep: char)
    requires sep !in a && sep !in b
    requires a + [sep] + x == b + [sep] + y
    ensures a == b && x == y
  {
    var s := a + [sep] + x;
    assert s[|a|] == sep && s[|b|] == sep;
    assert a == s[..|a|] == b;
    assert x == s[|a| + 1..] == y;
  }

  lemma SplitAtLast(x: string, a: string, y: string, b: string, sep: char)
    requires sep !in a && sep !in b
    requires x + [sep] + a == y + [sep] + b
    ensures x == y && a == b
  {
    var s := x + [sep] + a;
    assert s[|x|] == sep && s[|y|] == sep;
    assert |x| == |y| by {
      assert forall i | |x| < i < |s| :: s[i] == a[i - |x| - 1];
      assert forall i | |y| < i < |s| :: s[i] == b[i - |y| - 1];
    }
    assert x == s[..|x|] == y;
    assert a == s[|x| + 1..] == b;
  }

  /** The text before and after the first separator. */
  function Cut(s: string, sep: char): (c: (string, string))
    requires sep in s
    ensures s == c.0 + [sep] + c.1
  {
    if s[0] == sep then ("", s[1..])
    else
      var c := Cut(s[1..], sep);
      ([s[0]] + c.0, c.1)
  }
}
