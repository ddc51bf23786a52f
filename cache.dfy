/**
 * The cache step of a download: the cached response record, the defensive
 * decoding of a cache item, and the cache key of a (locale, domain, query).
 */
module PhraseCache {
  import opened Wrappers
  import opened OptionMaps
  import opened PhpSort

  /** `PhraseCachedResponse`: what a previous download left behind. */
  datatype CachedResponse = CachedResponse(etag: string, modified: string, content: string)

  /** What a cache item holds: a cached response, or a null or any other value. */
  datatype CacheSlot = Stored(response: CachedResponse) | Foreign

  type CacheItems = map<string, CacheSlot>

  /** `getCache`: only a hit holding a cached response counts; a miss, a null or a foreign value is none. */
  function GetCache(items: CacheItems, key: string): (r: Option<CachedResponse>)
    ensures r.Some? <==> key in items && items[key].Stored?
    ensures r.Some? ==> items[key] == Stored(r.value)
  {
    if key in items && items[key].Stored? then Some(items[key].response) else None
  }

  /**
   * `key`: the locale, the domain and the digest of the query options sorted
   * by value. The digest (`sha1(serialize(...))`) is a parameter.
   */
  function CacheKey(locale: string, domain: string, options: OptionMap, digest: OptionMap -> string): string
  {
    locale + "." + domain + "." + digest(SortByValue(options))
  }

  /** The key starts with the locale and the domain, and the digest sees the options only after sorting. */
  lemma CacheKeyShape(locale: string, domain: string, options: OptionMap, digest: OptionMap -> string)
    ensures var key := CacheKey(locale, domain, options, digest);
      && key[..|locale| + 1] == locale + "."
      && key[|locale| + 1..|locale| + |domain| + 2] == domain + "."
      && key[|locale| + |domain| + 2..] == digest(SortByValue(options))
      && Sorted(SortByValue(options)) && multiset(SortByValue(options)) == multiset(options)
  {
    SortByValueSorted(options);
  }

  /** Two orderings of the same entries give the same key, as long as no two values rank equal. */
  lemma CacheKeyReorder(locale: string, domain: string, o1: OptionMap, o2: OptionMap, digest: OptionMap -> string)
    requires multiset(o1) == multiset(o2) && Untied(o1)
    ensures CacheKey(locale, domain, o1, digest) == CacheKey(locale, domain, o2, digest)
  {
    SortByValueReorder(o1, o2);
  }

  const SortOrderOne: OptionMap := [
    ("file_format", Str("symfony_xliff")),
    ("include_empty_translations", Str("1")),
    ("tags", Arr([])),
    ("format_options", Arr([("enclose_in_cdata", "1")]))
  ]

  const SortOrderTwo: OptionMap := [
    ("include_empty_translations", Str("1")),
    ("file_format", Str("symfony_xliff")),
    ("format_options", Arr([("enclose_in_cdata", "1")])),
    ("tags", Arr([]))
  ]

  lemma SortOrderOneUntied()
    ensures Untied(SortOrderOne)
  {
    var m := SortOrderOne;
    assert StrLess("1", "symfony_xliff");
    forall x, y | x in m && y in m && x != y
      ensures ValueLess(x.1, y.1) || ValueLess(y.1, x.1)
    {
      assert x == m[0] || x == m[1] || x == m[2] || x == m[3];
      assert y == m[0] || y == m[1] || y == m[2] || y == m[3];
    }
  }

  /** The two option orders of the cache key data set give one key. */
  lemma CacheKeyTestOrders(digest: OptionMap -> string)
    ensures CacheKey("en_GB", "messages", SortOrderOne, digest) == CacheKey("en_GB", "messages", SortOrderTwo, digest)
  {
    var m1 := SortOrderOne;
    var m2 := SortOrderTwo;
    assert m2 == [m1[1], m1[0], m1[3], m1[2]];
    calc {
      multiset(m2);
      multiset([m1[1], m1[0]]) + multiset([m1[3], m1[2]]);
      { assert m1 == [m1[0], m1[1]] + [m1[2], m1[3]]; }
      multiset(m1);
    }
    SortOrderOneUntied();
    CacheKeyReorder("en_GB", "messages", m1, m2, digest);
  }

  /** Two entries with equal values keep their given order under the stable sort. */
  lemma TiedPairKeepsOrder(a: (string, Value), b: (string, Value))
    requires a.1 == b.1
    ensures SortByValue([a, b]) == [a, b]
  {
    ValueLessIrreflexive(a.1);
    assert [a, b][..1] == [a];
    assert SortByValue([a]) == [a] by {
      assert [a][..0] == [];
    }
    assert Insert(b, [a]) == [a] + Insert(b, []);
  }

  /**
   * Two options set to the same value keep their given order, so the same
   * entries in another order can reach the digest differently.
   */
  lemma TiedValuesKeepOrder()
    ensures var e1 := ("include_translated_keys", Str("1"));
      var e2 := ("use_last_reviewed_version", Str("1"));
      SortByValue([e1, e2]) == [e1, e2] && SortByValue([e2, e1]) == [e2, e1]
  {
    var e1 := ("include_translated_keys", Str("1"));
    var e2 := ("use_last_reviewed_version", Str("1"));
    TiedPairKeepsOrder(e1, e2);
    TiedPairKeepsOrder(e2, e1);
  }
}
