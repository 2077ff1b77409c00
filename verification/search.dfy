/** Paging through the associations that match a search; the page limit is fixed while the page size is the caller's. */
module Pagination {

  const MAX_ENTRIES_PER_PAGE := 100
  const LIMIT := 20

  function Min(a: int, b: int): int {
    if a < b then a else b
  }

  function Max(a: int, b: int): int {
    if a < b then b else a
  }

  /** `find(filter, {skip, limit})` over the matches in their order. */
  function Page<T>(ms: seq<T>, skip: nat): seq<T> {
    ms[Min(skip, |ms|)..Min(skip + LIMIT, |ms|)]
  }

  /** `Math.ceil(total / size)` */
  function TotalPages(total: nat, size: int): nat
    requires size >= 1
  {
    (total + size - 1) / size
  }

  /** A page count as JavaScript's division gives it. */
  datatype PageCount = Pages(n: int) | Infinite | NotANumber

  function CountPages(total: nat, size: int): PageCount {
    if size >= 1 then Pages(TotalPages(total, size))
    else if size < 0 then Pages(-(total / -size))
    else if total == 0 then NotANumber
    else Infinite
  }

  datatype SearchResults<T> = SearchResults(pageSize: int, pageIndex: int, totalPages: PageCount, items: seq<T>)

  datatype SearchFault = Smooth | PageFails | CountFails

  /**
   The two finds of a search, over the matches of its filter.  A failed find, or one refused for a negative skip, is
   logged and leaves the defaults.
   */
  function Search<T>(ms: seq<T>, pageIndex: int, pageSize: int, fault: SearchFault): SearchResults<T> {
    var size, index := Min(pageSize, MAX_ENTRIES_PER_PAGE), Max(pageIndex, 0);
    if fault.PageFails? || index * size < 0 then SearchResults(size, index, Pages(0), [])
    else
      var page := Page(ms, index * size);
      if fault.CountFails? then SearchResults(size, index, Pages(0), page)
      else SearchResults(Max(size, |page|), index, CountPages(|ms|, size), page)
  }

  /** `ceil(total / size)` for any size but zero: the one integer within less than one of the quotient from above. */
  predicate IsCeiling(n: int, total: nat, size: int)
    requires size != 0
  {
    if size > 0 then (n - 1) * size < total <= n * size else n * size <= total < (n - 1) * size
  }

  lemma CountIsCeiling(total: nat, size: int)
    ensures size != 0 ==> CountPages(total, size).Pages? && IsCeiling(CountPages(total, size).n, total, size)
    ensures size == 0 ==> CountPages(total, size) == if total == 0 then NotANumber else Infinite
  {
    if size > 0 {
      Division(total + size - 1, size);
    } else if size < 0 {
      Division(total, -size);
    }
  }

  /** What a search returns, for every page index, page size and failing find. */
  lemma SearchReturns<T>(ms: seq<T>, pageIndex: int, pageSize: int, fault: SearchFault)
    ensures var r := Search(ms, pageIndex, pageSize, fault);
            var size, index := if pageSize < 100 then pageSize else 100, if pageIndex < 0 then 0 else pageIndex;
            var skip := index * size;
            && r.pageIndex == index
            && if fault.PageFails? || skip < 0 then r.items == [] && r.totalPages == Pages(0) && r.pageSize == size
               else
                 && |r.items| == (if |ms| <= skip then 0 else if |ms| - skip < 20 then |ms| - skip else 20)
                 && (forall j | 0 <= j < |r.items| :: r.items[j] == ms[skip + j])
                 && if fault.CountFails? then r.totalPages == Pages(0) && r.pageSize == size
                    else
                      && r.pageSize == (if size < |r.items| then |r.items| else size)
                      && (size == 0 ==> r.totalPages == if ms == [] then NotANumber else Infinite)
                      && (size != 0 ==> r.totalPages.Pages? && IsCeiling(r.totalPages.n, |ms|, size))
  {
    CountIsCeiling(|ms|, if pageSize < 100 then pageSize else 100);
  }

  /** Match `i` is among the items of page `q`. */
  predicate OnPage(i: nat, q: nat, size: int) {
    q * size <= i < q * size + LIMIT
  }

  /** A page holds exactly the matches of its window, in order. */
  lemma PageHolds<T>(ms: seq<T>, q: nat, size: int, i: nat)
    requires size >= 1
    ensures i < |ms| && OnPage(i, q, size) ==>
            i - q * size < |Page(ms, q * size)| && Page(ms, q * size)[i - q * size] == ms[i]
    ensures i < |Page(ms, q * size)| ==> q * size + i < |ms| && OnPage(q * size + i, q, size)
  {
  }

  lemma Spaced(a: int, b: int, c: int)
    requires a < b && c >= 0
    ensures a * c + c <= b * c
  {
    assert (b - a - 1) * c >= 0;
  }

  lemma Division(a: int, c: int)
    requires c >= 1
    ensures a / c * c <= a < a / c * c + c
    ensures a == a / c * c + a % c
  {
  }

  lemma SkipIsInRange(total: nat, q: nat, size: int)
    requires size >= 1
    ensures q * size < total <==> q < TotalPages(total, size)
  {
    var t := TotalPages(total, size);
    Division(total + size - 1, size);
    if q < t {
      Spaced(q, t, size);
    } else if t < q {
      Spaced(t, q, size);
    }
  }

  /** `totalPages` counts the non-empty pages. */
  lemma NonEmptyIff<T>(ms: seq<T>, q: nat, size: int)
    requires size >= 1
    ensures Page(ms, q * size) != [] <==> q < TotalPages(|ms|, size)
  {
    SkipIsInRange(|ms|, q, size);
  }

  lemma PageOfMatch(i: nat, q: nat, size: int)
    requires size >= 1
    ensures OnPage(i, q, size) ==> i % size < LIMIT
    ensures i % size < LIMIT ==> OnPage(i, i / size, size)
  {
    Division(i, size);
    if size > LIMIT && OnPage(i, q, size) {
      if q < i / size { Spaced(q, i / size, size); }
      if i / size < q { Spaced(i / size, q, size); }
    }
  }

  /** A match is served on some page exactly when its offset into its block of `size` is below the fixed limit. */
  lemma ServedIff<T>(ms: seq<T>, size: int, i: nat)
    requires size >= 1 && i < |ms|
    ensures (exists q: nat :: q < TotalPages(|ms|, size) && OnPage(i, q, size)) <==> i % size < LIMIT
  {
    PageOfMatch(i, i / size, size);
    Division(i, size);
    SkipIsInRange(|ms|, i / size, size);
    forall q: nat | OnPage(i, q, size) ensures i % size < LIMIT { PageOfMatch(i, q, size); }
  }

  function FirstPages<T>(ms: seq<T>, n: nat, size: int): seq<T>
    requires size >= 1
  {
    if n == 0 then [] else FirstPages(ms, n - 1, size) + Page(ms, (n - 1) * size)
  }

  lemma {:induction false} FirstPagesArePrefix<T>(ms: seq<T>, n: nat)
    ensures FirstPages(ms, n, LIMIT) == ms[..Min(n * LIMIT, |ms|)]
  {
    if n > 0 {
      FirstPagesArePrefix(ms, n - 1);
      var skip := (n - 1) * LIMIT;
      assert Page(ms, skip) == ms[Min(skip, |ms|)..Min(skip + LIMIT, |ms|)] && skip + LIMIT == n * LIMIT;
    }
  }

  /** With page size 20 the pages, one after the other, are the matches: nothing is lost, repeated or reordered. */
  lemma PagesPartition<T>(ms: seq<T>)
    ensures FirstPages(ms, TotalPages(|ms|, LIMIT), LIMIT) == ms
  {
    FirstPagesArePrefix(ms, TotalPages(|ms|, LIMIT));
  }
}

/** Which associations a search or a listing shows. */
module Searching {
  import opened Values
  import opened Directories

  /** An association as `getAllAssociations` lists it, without its sub type. */
  datatype Listed = Listed(partyId: string, fspId: string, partyType: string, currency: Option<string>)

  function ListAll(docs: seq<Document>): (r: seq<Listed>)
    ensures |r| == |docs| && forall i | 0 <= i < |r| ::
            r[i] == Listed(docs[i].partyId, docs[i].fspId, docs[i].partyType, docs[i].currency)
  {
    seq(|docs|, i requires 0 <= i < |docs| =>
      Listed(docs[i].partyId, docs[i].fspId, docs[i].partyType, docs[i].currency))
  }

  /** The search terms; a falsy one is no condition. */
  datatype Criteria = Criteria(fspId: Field, partyId: Field, partyType: Field, partySubType: Field, currency: Field)

  /** Whether a stored text matches a search text, as a case-insensitive regular expression. */
  type TextMatch = (string, string) -> bool

  predicate Meets(d: Document, c: Criteria, matches: TextMatch) {
    && (c.fspId.Truthy() ==> d.fspId == c.fspId.text)
    && (c.partyId.Truthy() ==> matches(d.partyId, c.partyId.text))
    && (c.partyType.Truthy() ==> d.partyType == c.partyType.text)
    && (c.partySubType.Truthy() ==> d.partySubType.Some? && matches(d.partySubType.value, c.partySubType.text))
    && (c.currency.Truthy() ==> d.currency == Some(c.currency.text))
  }

  /** The documents that meet the criteria, in stored order. */
  function Matching(docs: seq<Document>, c: Criteria, matches: TextMatch): seq<Document> {
    if docs == [] then []
    else (if Meets(docs[0], c, matches) then [docs[0]] else []) + Matching(docs[1..], c, matches)
  }

  /** The matches are the documents that meet the criteria, as often as they are stored. */
  lemma {:induction false} MatchingCounts(docs: seq<Document>, c: Criteria, matches: TextMatch, d: Document)
    ensures multiset(Matching(docs, c, matches))[d] == if Meets(d, c, matches) then multiset(docs)[d] else 0
  {
    if docs != [] {
      MatchingCounts(docs[1..], c, matches, d);
      assert docs == [docs[0]] + docs[1..];
    }
  }

  /** They come in stored order: those of a part of the collection before those of what is stored after it. */
  lemma {:induction false} MatchingKeepsOrder(docs: seq<Document>, more: seq<Document>, c: Criteria, matches: TextMatch)
    ensures Matching(docs + more, c, matches) == Matching(docs, c, matches) + Matching(more, c, matches)
  {
    if docs == [] {
      assert docs + more == more;
    } else {
      MatchingKeepsOrder(docs[1..], more, c, matches);
      assert (docs + more)[1..] == docs[1..] + more;
    }
  }

  /** One member of the filter's `$and` list. */
  datatype Condition =
    | FspIs(text: string)
    | PartyIdMatches(text: string)
    | PartyTypeIs(text: string)
    | SubTypeMatches(text: string)
    | CurrencyIs(text: string)

  predicate Holds(d: Document, x: Condition, matches: TextMatch) {
    match x
    case FspIs(text) => d.fspId == text
    case PartyIdMatches(text) => matches(d.partyId, text)
    case PartyTypeIs(text) => d.partyType == text
    case SubTypeMatches(text) => d.partySubType.Some? && matches(d.partySubType.value, text)
    case CurrencyIs(text) => d.currency == Some(text)
  }

  predicate HoldAll(d: Document, xs: seq<Condition>, matches: TextMatch) {
    forall x | x in xs :: Holds(d, x, matches)
  }

  /** What `find` returns for the filter. */
  function FindAll(docs: seq<Document>, xs: seq<Condition>, matches: TextMatch): seq<Document> {
    if docs == [] then []
    else (if HoldAll(docs[0], xs, matches) then [docs[0]] else []) + FindAll(docs[1..], xs, matches)
  }

  lemma PushedCondition(xs: seq<Condition>, x: Condition, matches: TextMatch)
    ensures forall d :: HoldAll(d, xs + [x], matches) <==> HoldAll(d, xs, matches) && Holds(d, x, matches)
  {
    assert forall y :: y in xs + [x] <==> y in xs || y == x;
  }

  lemma {:induction false} FilterSelectsMatching(docs: seq<Document>, xs: seq<Condition>, c: Criteria,
                                                 matches: TextMatch)
    requires forall d :: HoldAll(d, xs, matches) <==> Meets(d, c, matches)
    ensures FindAll(docs, xs, matches) == Matching(docs, c, matches)
  {
    if docs != [] { FilterSelectsMatching(docs[1..], xs, c, matches); }
  }

  /** The distinct combinations the aggregation of `getSearchKeywords` yields. */
  datatype Group = Group(partyType: string, currency: Option<string>, fspId: string)

  function GroupOf(d: Document): Group {
    Group(d.partyType, d.currency, d.fspId)
  }

  /** The values of a field among the groups are its values among the documents. */
  lemma GroupsHoldTheValues(docs: seq<Document>, groups: seq<Group>)
    requires forall g :: g in groups <==> exists d :: d in docs && GroupOf(d) == g
    ensures (set g | g in groups :: Some(g.partyType)) == (set d | d in docs :: Some(d.partyType))
    ensures (set g | g in groups :: g.currency) == (set d | d in docs :: d.currency)
    ensures (set g | g in groups :: Some(g.fspId)) == (set d | d in docs :: Some(d.fspId))
  {
    forall d | d in docs ensures GroupOf(d) in groups {}
  }

  function Repeat<T>(s: seq<T>, n: nat): (r: seq<T>)
    ensures |r| == n * |s|
  {
    if n == 0 then [] else Repeat(s, n - 1) + s
  }

  lemma {:induction false} RepeatStarts<T>(s: seq<T>, n: nat)
    ensures n > 0 ==> |Repeat(s, n)| >= |s| && Repeat(s, n)[..|s|] == s
  {
    if n > 1 {
      RepeatStarts(s, n - 1);
      assert Repeat(s, n)[..|s|] == Repeat(s, n - 1)[..|s|];
    }
  }

  class Keyword {
    const fieldName: string
    var distinctTerms: seq<Option<string>>

    constructor (fieldName: string)
      ensures this.fieldName == fieldName && distinctTerms == []
    {
      this.fieldName := fieldName;
      distinctTerms := [];
    }

    ghost predicate Distinct()
      reads this
    {
      forall i, j | 0 <= i < j < |distinctTerms| :: distinctTerms[i] != distinctTerms[j]
    }

    function Terms(): set<Option<string>>
      reads this
    {
      set t | t in distinctTerms
    }

    method Add(term: Option<string>)
      requires Distinct()
      modifies this
      ensures Distinct() && Terms() == old(Terms()) + {term}
    {
      if term !in distinctTerms {
        distinctTerms := distinctTerms + [term];
      }
    }
  }
}
