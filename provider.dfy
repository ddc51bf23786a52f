/**
 * `PhraseProvider` and the objects it drives: the transport, the error log,
 * the cache pool, the process-wide locale directory and the two option
 * sets. Every operation is a method that changes those objects step by step
 * and is proved to end in the state, with the result, that the matching
 * specification function gives for the state it started in.
 */
module Provider {
  import opened Wrappers
  import opened OptionMaps
  import opened PhraseCache
  import opened Failures
  import opened Locales
  import opened ReadConfigs
  import opened WriteConfigs
  import opened EngineModel
  import opened DirectorySpec
  import opened ReadSpec
  import opened WriteSpec
  import opened DeleteSpec

  /** The HTTP client: the responses still to come and the requests issued so far. */
  class Transport {
    var script: seq<Response>
    var trace: seq<Request>

    constructor (script: seq<Response>)
      ensures this.script == script && trace == []
    {
      this.script := script;
      trace := [];
    }

    /** One request: it joins the trace and takes the next response, if any is left. */
    method Issue(q: Request) returns (resp: Option<Response>)
      modifies this
      ensures trace == old(trace) + [q]
      ensures old(script) == [] ==> resp.None? && script == []
      ensures old(script) != [] ==> resp == Some(old(script)[0]) && script == old(script)[1..]
    {
      trace := trace + [q];
      if script == [] {
        resp := None;
      } else {
        resp := Some(script[0]);
        script := script[1..];
      }
    }
  }

  /** The logger: the error lines written so far. */
  class Logger {
    var entries: seq<LogEntry>

    constructor ()
      ensures entries == []
    {
      entries := [];
    }

    method Error(entry: LogEntry)
      modifies this
      ensures entries == old(entries) + [entry]
    {
      entries := entries + [entry];
    }
  }

  /** The cache pool. */
  class CachePool {
    var items: CacheItems

    constructor (items: CacheItems)
      ensures this.items == items
    {
      this.items := items;
    }

    /** `set` on the item, then `save`: the key now holds the cached response. */
    method Save(key: string, response: CachedResponse)
      modifies this
      ensures items == old(items)[key := Stored(response)]
    {
      items := items[key := Stored(response)];
    }
  }

  /** The static `$phraseLocales` map, as one object shared by every provider. */
  class LocaleDirectory {
    var entries: Directory

    constructor ()
      ensures entries == map[]
    {
      entries := map[];
    }

    /** Stores a record under its name, replacing any earlier one. */
    method Store(record: LocaleRecord)
      modifies this
      ensures entries == old(entries)[record.name := record]
    {
      entries := entries[record.name := record];
    }
  }

  class PhraseProvider {
    const transport: Transport
    const logger: Logger
    const cache: CachePool
    const directory: LocaleDirectory
    const readConfig: ReadConfig
    const writeConfig: WriteConfig
    const defaultLocale: string
    /** `sha1(serialize(...))` of the cache key. */
    const digest: OptionMap -> string
    /** The listeners of the read and write events. */
    const onRead: ReadBag -> ReadBag
    const onWrite: WriteBag -> WriteBag

    constructor (transport: Transport, logger: Logger, cache: CachePool, directory: LocaleDirectory,
                 readConfig: ReadConfig, writeConfig: WriteConfig, defaultLocale: string,
                 digest: OptionMap -> string, onRead: ReadBag -> ReadBag, onWrite: WriteBag -> WriteBag)
      ensures this.transport == transport && this.logger == logger && this.cache == cache
      ensures this.directory == directory && this.readConfig == readConfig && this.writeConfig == writeConfig
      ensures this.defaultLocale == defaultLocale && this.digest == digest
      ensures this.onRead == onRead && this.onWrite == onWrite
    {
      this.transport := transport;
      this.logger := logger;
      this.cache := cache;
      this.directory := directory;
      this.readConfig := readConfig;
      this.writeConfig := writeConfig;
      this.defaultLocale := defaultLocale;
      this.digest := digest;
      this.onRead := onRead;
      this.onWrite := onWrite;
    }

    /** The state of every object the provider works on. */
    ghost function World(): World
      reads transport, logger, cache, directory, readConfig, writeConfig
    {
      EngineModel.World(directory.entries, transport.script, transport.trace, cache.items, logger.entries, readConfig.options, writeConfig.options)
    }

    function Context(): Ctx
    {
      Ctx(defaultLocale, readConfig.fallbackEnabled, digest, onRead, onWrite)
    }

    /** `resetPhraseLocales` */
    method ResetPhraseLocales()
      modifies directory
      ensures World() == ResetSpec(old(World()))
    {
      directory.entries := map[];
    }

    /** `initLocales`: request page after page until the pagination header has no next page. */
    method InitLocales() returns (r: Result<(), Failure>)
      modifies transport, logger, directory
      ensures Step(World(), r) == InitFrom(old(World()), 1)
    {
      ghost var total := InitFrom(World(), 1);
      var page: Option<int> := Some(1);
      while page.Some?
        invariant page.Some? ==> InitFrom(World(), page.value) == total
        invariant page.None? ==> Step(World(), Success(())) == total
        decreases |transport.script| + (if page.Some? then 1 else 0)
      {
        ghost var w := World();
        var resp := transport.Issue(ListLocales(PerPage, page.value));
        ghost var sent := Send(w, ListLocales(PerPage, page.value));
        assert World() == sent.w && resp == sent.resp;
        if resp.None? {
          return Failure(TransportExhausted);
        }
        var res := resp.value;
        if res.status != 200 {
          logger.Error(LogEntry(InitSite, "", res.body));
          return Failure(Provider(Classify(res.status, res.headers, "Unable to get locales from phrase.")));
        }
        if !res.payload.LocaleList? {
          return Failure(Undecodable);
        }
        var records := res.payload.records;
        for k := 0 to |records|
          modifies directory
          invariant StoreAll(directory.entries, records[k..]) == StoreAll(sent.w.directory, records)
        {
          assert records[k..][1..] == records[k + 1..];
          directory.Store(records[k]);
        }
        assert World() == sent.w.(directory := StoreAll(sent.w.directory, records));
        page := res.nextPage;
      }
      r := Success(());
    }

    /** `createLocale`: one POST; on 201 the decoded record is stored under its own name. */
    method CreateLocale(code: string) returns (r: Result<(), Failure>)
      modifies transport, logger, directory
      ensures Step(World(), r) == CreateSpec(old(World()), Context(), code)
    {
      ghost var w := World();
      var q := Request.CreateLocale(code, code, code == ToPhraseLocale(defaultLocale));
      var resp := transport.Issue(q);
      ghost var sent := Send(w, q);
      assert World() == sent.w && resp == sent.resp;
      if resp.None? {
        return Failure(TransportExhausted);
      }
      var res := resp.value;
      if res.status != 201 {
        logger.Error(LogEntry(CreateSite, code, res.body));
        return Failure(Provider(Classify(res.status, res.headers, "Unable to create locale phrase.")));
      }
      if !res.payload.LocaleObject? {
        return Failure(Undecodable);
      }
      directory.Store(res.payload.record);
      r := Success(());
    }

    /** `getLocale` */
    method GetLocale(locale: string) returns (r: Result<string, Failure>)
      modifies transport, logger, directory
      ensures Step(World(), r) == GetLocaleSpec(old(World()), Context(), locale)
    {
      ghost var w := World();
      if directory.entries == map[] {
        var init := InitLocales();
        if init.Failure? {
          return Failure(init.error);
        }
      }
      var code := ToPhraseLocale(locale);
      if code !in directory.entries {
        var created := CreateLocale(code);
        if created.Failure? {
          return Failure(created.error);
        }
      }
      if code !in directory.entries {
        return Failure(TypeError("id of " + code));
      }
      r := Success(directory.entries[code].id);
    }

    /** One (locale, domain) download of `read`: tag the query, look the cache up, send, and handle the response. */
    method ReadOne(locale: string, localeId: string, domain: string) returns (r: Result<Loaded, Failure>)
      modifies transport, logger, cache, readConfig
      ensures Step(World(), r) == ReadDomain(old(World()), Context(), locale, localeId, domain)
    {
      ghost var w := World();
      var query := TagQuery(locale, domain);
      var key := CacheKey(locale, domain, query, digest);
      var cached := GetCache(cache.items, key);
      var q := Download(localeId, query, IfNoneMatch(cached));
      ghost var sent := Send(w.(readOptions := query), q);
      var resp := transport.Issue(q);
      assert World() == sent.w && resp == sent.resp;
      r := ReceiveOne(resp, locale, domain, key, cached);
    }

    /** `withTag`, then `withFallbackLocale` when fallback is enabled and the locale has a fallback. */
    method TagQuery(locale: string, domain: string) returns (query: OptionMap)
      modifies readConfig
      ensures query == readConfig.options
      ensures query == DownloadQuery(old(World()), Context(), locale, domain)
    {
      var config := readConfig.WithTag(domain);
      var fallback := if readConfig.IsFallbackLocaleEnabled() then FallbackOf(directory.entries, locale) else None;
      if fallback.Some? {
        config := readConfig.WithFallbackLocale(fallback.value);
      }
      query := readConfig.GetOptions();
    }

    /** What `read` does with the response to one download. */
    method ReceiveOne(resp: Option<Response>, locale: string, domain: string, key: string, cached: Option<CachedResponse>) returns (r: Result<Loaded, Failure>)
      modifies logger, cache
      ensures Step(World(), r) == Receive(Sent(old(World()), resp), Context(), locale, domain, key, cached)
    {
      if resp.None? {
        return Failure(TransportExhausted);
      }
      var res := resp.value;
      if res.status != 200 && res.status != 304 {
        logger.Error(LogEntry(ReadSite, locale, res.body));
        return Failure(Provider(Classify(res.status, res.headers, "Unable to get translations from phrase.")));
      }
      if res.status == 304 && cached.None? {
        return Failure(Redirection(304));
      }
      var content := if res.status == 304 then cached.value.content else res.body;
      if !readConfig.IsFallbackLocaleEnabled() {
        if "etag" !in res.headers || "last-modified" !in res.headers {
          return Failure(TypeError("cached response header"));
        }
        cache.Save(key, CachedResponse(res.headers["etag"], res.headers["last-modified"], content));
      }
      r := Success(Loaded(locale, domain, content));
    }

    /** `read`: locale by locale, domain by domain; the first error ends it. */
    method Read(domains: seq<string>, locales: seq<string>) returns (r: Result<ReadBag, Failure>)
      modifies transport, logger, cache, directory, readConfig
      ensures Step(World(), r) == ReadAll(old(World()), Context(), domains, locales)
    {
      ghost var total := ReadLocales(World(), Context(), locales, domains, 0, []);
      var bag: ReadBag := [];
      for i := 0 to |locales|
        invariant ReadLocales(World(), Context(), locales, domains, i, bag) == total
      {
        ghost var wi := World();
        ghost var bi := bag;
        var localeId := GetLocale(locales[i]);
        if localeId.Failure? {
          return Failure(localeId.error);
        }
        ghost var inner := ReadDomains(World(), Context(), locales[i], localeId.value, domains, 0, bag);
        assert total == if inner.r.Failure? then Step(inner.w, Failure(inner.r.error))
                        else ReadLocales(inner.w, Context(), locales, domains, i + 1, inner.r.value);
        for j := 0 to |domains|
          invariant ReadDomains(World(), Context(), locales[i], localeId.value, domains, j, bag) == inner
        {
          var loaded := ReadOne(locales[i], localeId.value, domains[j]);
          if loaded.Failure? {
            return Failure(loaded.error);
          }
          bag := bag + [loaded.value];
        }
      }
      r := Success(onRead(bag));
    }

    /** One non-empty domain of `write`: resolve the remote locale id, then upload. */
    method UploadOne(locale: string, domain: string) returns (r: Result<(), Failure>)
      modifies transport, logger, directory, writeConfig
      ensures Step(World(), r) == UploadDomain(old(World()), Context(), locale, domain)
    {
      var localeId := GetLocale(locale);
      if localeId.Failure? {
        return Failure(localeId.error);
      }
      r := PostOne(domain, locale, localeId.value);
    }

    /** The upload itself: tag the write options with the domain and the locale id, and POST them with the file. */
    method PostOne(domain: string, locale: string, localeId: string) returns (r: Result<(), Failure>)
      modifies transport, logger, writeConfig
      ensures Step(World(), r) == Post(old(World()), domain, locale, localeId)
    {
      ghost var w := World();
      var fields := TagFields(domain, localeId);
      var q := Upload(fields, domain, locale);
      ghost var sent := Send(w.(writeOptions := fields), q);
      var resp := transport.Issue(q);
      assert World() == sent.w && resp == sent.resp;
      if resp.None? {
        return Failure(TransportExhausted);
      }
      var res := resp.value;
      if res.status != 201 {
        logger.Error(LogEntry(UploadSite, domain, res.body));
        return Failure(Provider(Classify(res.status, res.headers, "Unable to upload translations to phrase.")));
      }
      r := Success(());
    }

    /** `withTag($domain)->withLocale($phraseLocale)->getOptions()` */
    method TagFields(domain: string, localeId: string) returns (fields: OptionMap)
      modifies writeConfig
      ensures fields == writeConfig.options
      ensures fields == UploadFields(old(writeConfig.options), domain, localeId)
    {
      var tagged := writeConfig.WithTag(domain);
      var located := tagged.WithLocale(localeId);
      fields := located.GetOptions();
    }

    /** `write`: the listener may replace the bag; then every non-empty domain of every catalogue is uploaded. */
    method Write(bag: WriteBag) returns (r: Result<(), Failure>)
      modifies transport, logger, directory, writeConfig
      ensures Step(World(), r) == WriteAll(old(World()), Context(), bag)
    {
      var catalogues := onWrite(bag);
      ghost var total := WriteCatalogues(World(), Context(), catalogues, 0);
      for i := 0 to |catalogues|
        invariant WriteCatalogues(World(), Context(), catalogues, i) == total
      {
        var catalogue := catalogues[i];
        ghost var inner := WriteDomains(World(), Context(), catalogue, 0);
        assert total == if inner.r.Failure? then inner else WriteCatalogues(inner.w, Context(), catalogues, i + 1);
        for j := 0 to |catalogue.domains|
          invariant WriteDomains(World(), Context(), catalogue, j) == inner
        {
          var domain := catalogue.domains[j];
          if |domain.messages| > 0 {
            var uploaded := UploadOne(catalogue.locale, domain.name);
            if uploaded.Failure? {
              return Failure(uploaded.error);
            }
          }
        }
      }
      r := Success(());
    }

    /** `delete`: gather the keys, drop repeats, escape them, and delete them one by one. */
    method Delete(bag: WriteBag) returns (r: Result<(), Failure>)
      modifies transport, logger
      ensures Step(World(), r) == DeleteAll(old(World()), bag)
    {
      var keys := GatherKeys(bag);
      var names := EscapeAll(Unique(keys, []));
      r := DeleteNames(names);
    }

    /** The message keys of every domain of every catalogue, in order. */
    static method GatherKeys(bag: WriteBag) returns (keys: seq<string>)
      ensures keys == CollectKeys(bag)
    {
      keys := [];
      for i := 0 to |bag|
        invariant keys + CollectKeys(bag[i..]) == CollectKeys(bag)
      {
        var domainKeys := GatherDomainKeys(bag[i].domains);
        CollectKeysFrom(bag, i);
        AppendAssoc(keys, domainKeys, CollectKeys(bag[i + 1..]));
        keys := keys + domainKeys;
      }
      assert bag[|bag|..] == [];
    }

    /** The message keys of the domains of one catalogue, domain after domain. */
    static method GatherDomainKeys(domains: seq<Domain>) returns (keys: seq<string>)
      ensures keys == DomainKeys(domains)
    {
      keys := [];
      assert domains[0..] == domains;
      for j := 0 to |domains|
        invariant keys + DomainKeys(domains[j..]) == DomainKeys(domains)
      {
        DomainKeysFrom(domains, j);
        AppendAssoc(keys, Keys(domains[j].messages), DomainKeys(domains[j + 1..]));
        keys := keys + Keys(domains[j].messages);
      }
      assert domains[|domains|..] == [];
    }

    /** One DELETE per name; a status other than 200 is logged under the name and ends the loop. */
    method DeleteNames(names: seq<string>) returns (r: Result<(), Failure>)
      modifies transport, logger
      ensures Step(World(), r) == DeleteFrom(old(World()), names, 0)
    {
      ghost var total := DeleteFrom(World(), names, 0);
      for k := 0 to |names|
        invariant DeleteFrom(World(), names, k) == total
      {
        ghost var w := World();
        var q := DeleteRequest(names[k]);
        var resp := transport.Issue(q);
        ghost var sent := Send(w, q);
        assert World() == sent.w && resp == sent.resp;
        if resp.None? {
          return Failure(TransportExhausted);
        }
        var res := resp.value;
        if res.status != 200 {
          logger.Error(LogEntry(DeleteSite, names[k], res.body));
          return Failure(Provider(Classify(res.status, res.headers, "Unable to delete key in phrase.")));
        }
      }
      r := Success(());
    }
  }
}
