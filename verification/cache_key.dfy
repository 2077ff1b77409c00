/** The Redis key under which the builtin oracle caches an answer, and when it identifies the party. */
module CacheKeys {
  import opened Values
  import opened Separators

  const PREFIX := "mongoOracleProviderRepo"

  function Join(a: string, b: string, c: string, d: string): string {
    a + "_" + b + "_" + c + "_" + d
  }

  function CacheKey(p: Party): string {
    PREFIX + "_" + Join(p.partyType, p.partyId, p.partySubType.Render(), p.currency.Render())
  }

  /** A field whose rendering cannot be mistaken for a separator or for an absent field. */
  predicate PlainField(f: Field) {
    f.Text? ==> '_' !in f.text && f.text != "null" && f.text != "undefined"
  }

  /** Parties whose keys can be told apart; `partyId` may hold underscores. */
  predicate Clean(p: Party) {
    '_' !in p.partyType && PlainField(p.partySubType) && PlainField(p.currency)
  }

  lemma SameTail(start: string, x: string, y: string)
    requires start + x == start + y
    ensures x == y
  {
    assert x == (start + x)[|start|..] == y;
  }

  /** Cutting the joined text at its first separator and at its last two gives the four parts back. */
  lemma SplitJoin(a: string, b: string, c: string, d: string, a': string, b': string, c': string, d': string)
    requires Join(a, b, c, d) == Join(a', b', c', d')
    requires '_' !in a && '_' !in c && '_' !in d && '_' !in a' && '_' !in c' && '_' !in d'
    ensures a == a' && b == b' && c == c' && d == d'
  {
    SplitAtLast(a + "_" + b + "_" + c, d, a' + "_" + b' + "_" + c', d', '_');
    SplitAtLast(a + "_" + b, c, a' + "_" + b', c', '_');
    SplitAtFirst(a, b, a', b', '_');
  }

  lemma RenderInjective(f: Field, g: Field)
    requires PlainField(f) && PlainField(g) && f.Render() == g.Render()
    ensures f == g
  {
  }

  lemma RenderHasNoSeparator(f: Field)
    requires PlainField(f)
    ensures '_' !in f.Render()
  {
  }

  /** The joined key determines the party: cut at the first underscore after the prefix and at the last two. */
  lemma KeyInjective(p: Party, q: Party)
    requires Clean(p) && Clean(q) && CacheKey(p) == CacheKey(q)
    ensures p == q
  {
    SameTail(PREFIX + "_", Join(p.partyType, p.partyId, p.partySubType.Render(), p.currency.Render()),
             Join(q.partyType, q.partyId, q.partySubType.Render(), q.currency.Render()));
    RenderHasNoSeparator(p.currency); RenderHasNoSeparator(q.currency);
    RenderHasNoSeparator(p.partySubType); RenderHasNoSeparator(q.partySubType);
    SplitJoin(p.partyType, p.partyId, p.partySubType.Render(), p.currency.Render(),
              q.partyType, q.partyId, q.partySubType.Render(), q.currency.Render());
    RenderInjective(p.partySubType, q.partySubType);
    RenderInjective(p.currency, q.currency);
  }

  /** No separator anywhere, and no optional field absent or spelt like an absent one. */
  predicate Unambiguous(p: Party) {
    '_' !in p.partyId && Clean(p) && p.partySubType.Text? && p.currency.Text?
  }

  ghost predicate SharesKey(p: Party, q: Party) {
    q != p && CacheKey(q) == CacheKey(p)
  }

  /** Exactly the unambiguous parties have a key that no other arguments produce. */
  lemma KeyIsUniqueIff(p: Party)
    ensures Unambiguous(p) <==> !exists q :: SharesKey(p, q)
  {
    if Unambiguous(p) {
      forall q | CacheKey(q) == CacheKey(p) ensures q == p { UnambiguousKeyIsUnique(p, q); }
    } else {
      var q := Collision(p);
      assert SharesKey(p, q);
    }
  }

  lemma UnambiguousKeyIsUnique(p: Party, q: Party)
    requires Unambiguous(p) && CacheKey(q) == CacheKey(p)
    ensures p == q
  {
    var sub, cur := q.partySubType.Render(), q.currency.Render();
    SameTail(PREFIX + "_", Join(p.partyType, p.partyId, p.partySubType.text, p.currency.text),
             Join(q.partyType, q.partyId, sub, cur));
    SeparatorsInJoin(p.partyType, p.partyId, p.partySubType.text, p.currency.text);
    SeparatorsInJoin(q.partyType, q.partyId, sub, cur);
    SplitJoin(p.partyType, p.partyId, p.partySubType.text, p.currency.text, q.partyType, q.partyId, sub, cur);
  }

  lemma SeparatorsInJoin(a: string, b: string, c: string, d: string)
    ensures multiset(Join(a, b, c, d))['_']
            == 3 + multiset(a)['_'] + multiset(b)['_'] + multiset(c)['_'] + multiset(d)['_']
  {
    assert multiset("_")['_'] == 1;
  }

  lemma MoveSeparator(a: string, b: string, c: string, x: string, y: string)
    ensures Join(x + "_" + y, a, b, c) == Join(x, y + "_" + a, b, c)
    ensures Join(a, x + "_" + y, b, c) == Join(a + "_" + x, y, b, c)
    ensures Join(a, b, x + "_" + y, c) == Join(a, b + "_" + x, y, c)
    ensures Join(a, b, c, x + "_" + y) == Join(a, b, c + "_" + x, y)
  {
    assert x + "_" + y + "_" + a == x + "_" + (y + "_" + a);
    assert a + "_" + (x + "_" + y) == a + "_" + x + "_" + y;
    assert a + "_" + b + "_" + (x + "_" + y) == a + "_" + (b + "_" + x) + "_" + y;
    assert a + "_" + b + "_" + c + "_" + (x + "_" + y) == a + "_" + b + "_" + (c + "_" + x) + "_" + y;
  }

  /** Other arguments with the same key, for every party that is not unambiguous. */
  lemma Collision(p: Party) returns (q: Party)
    requires !Unambiguous(p)
    ensures q != p && CacheKey(q) == CacheKey(p)
  {
    var sub, cur := p.partySubType, p.currency;
    if !sub.Text? {
      q := p.(partySubType := Text(sub.Render()));
    } else if !cur.Text? {
      q := p.(currency := Text(cur.Render()));
    } else if sub.text == "null" || sub.text == "undefined" {
      q := p.(partySubType := if sub.text == "null" then Null else Undefined);
    } else if cur.text == "null" || cur.text == "undefined" {
      q := p.(currency := if cur.text == "null" then Null else Undefined);
    } else if '_' in p.partyType {
      var c := Cut(p.partyType, '_');
      MoveSeparator(p.partyId, sub.text, cur.text, c.0, c.1);
      q := Party(c.0, c.1 + "_" + p.partyId, sub, cur);
    } else if '_' in p.partyId {
      var c := Cut(p.partyId, '_');
      MoveSeparator(p.partyType, sub.text, cur.text, c.0, c.1);
      q := Party(p.partyType + "_" + c.0, c.1, sub, cur);
    } else if '_' in sub.text {
      var c := Cut(sub.text, '_');
      MoveSeparator(p.partyType, p.partyId, cur.text, c.0, c.1);
      q := Party(p.partyType, p.partyId + "_" + c.0, Text(c.1), cur);
    } else {
      var c := Cut(cur.text, '_');
      MoveSeparator(p.partyType, p.partyId, sub.text, c.0, c.1);
      q := Party(p.partyType, p.partyId, Text(sub.text + "_" + c.0), Text(c.1));
    }
  }
}
