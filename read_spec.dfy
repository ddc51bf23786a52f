/**
 * `read`: for each locale, then each domain, one download answered from the
 * transport or, on a 304, from the cache; the cache is written back when
 * fallback is disabled.
 */
module ReadSpec {
  import opened Wrappers
  import opened OptionMaps
  import opened PhraseCache
  import opened Failures
  import opened Locales
  import opened EngineModel
  import opened DirectorySpec

  /**
   * The query of one download: the read options as they stand, tagged with
   * the domain and, when fallback is enabled and the locale has one, given
   * the fallback's name. A fallback set for an earlier locale is never cleared.
   */
  function DownloadQuery(w: World, ctx: Ctx, locale: string, domain: string): OptionMap
  {
    var tagged := Put(w.readOptions, "tags", Str(domain));
    var fallback := if ctx.fallbackEnabled then FallbackOf(w.directory, locale) else None;
    if fallback.Some? then Put(tagged, "fallback_locale_id", Str(fallback.value)) else tagged
  }

  function DownloadKey(w: World, ctx: Ctx, locale: string, domain: string): string
  {
    CacheKey(locale, domain, DownloadQuery(w, ctx, locale, domain), ctx.digest)
  }

  /** The `If-None-Match` value: the etag of a usable cached response, if any. */
  function IfNoneMatch(cached: Option<CachedResponse>): Option<string>
  {
    if cached.Some? then Some(cached.value.etag) else None
  }

  /** One (locale, domain) download of `read`. */
  function ReadDomain(w: World, ctx: Ctx, locale: string, localeId: string, domain: string): Step<Loaded>
  {
    var query := DownloadQuery(w, ctx, locale, domain);
    var key := DownloadKey(w, ctx, locale, domain);
    var cached := GetCache(w.cache, key);
    Receive(Send(w.(readOptions := query), Download(localeId, query, IfNoneMatch(cached))), ctx, locale, domain, key, cached)
  }

  /** What `read` does with the response to one download. */
  function Receive(s: Sent, ctx: Ctx, locale: string, domain: string, key: string, cached: Option<CachedResponse>): Step<Loaded>
  {
    if s.resp.None? then Step(s.w, Failure(TransportExhausted))
    else
      var resp := s.resp.value;
      if resp.status != 200 && resp.status != 304 then Raise(s.w, ReadSite, locale, resp, "Unable to get translations from phrase.")
      else if resp.status == 304 && cached.None? then Step(s.w, Failure(Redirection(304)))
      else
        var content := if resp.status == 304 then cached.value.content else resp.body;
        var loaded := Loaded(locale, domain, content);
        if ctx.fallbackEnabled then Step(s.w, Success(loaded))
        else if "etag" !in resp.headers || "last-modified" !in resp.headers then Step(s.w, Failure(TypeError("cached response header")))
        else
          var entry := Stored(CachedResponse(resp.headers["etag"], resp.headers["last-modified"], content));
          Step(s.w.(cache := s.w.cache[key := entry]), Success(loaded))
  }

  /** Handling a response changes only the log and the cache. */
  lemma ReceiveFrame(s: Sent, ctx: Ctx, locale: string, domain: string, key: string, cached: Option<CachedResponse>)
    ensures var t := Receive(s, ctx, locale, domain, key, cached);
      && t.w == s.w.(log := t.w.log, cache := t.w.cache)
      && LogsOnce(s.w, t)
      && (t.r.Success? ==> t.r.value.locale == locale && t.r.value.domain == domain)
  {
  }

  /** The domains of one locale from index `j` on, appending to `bag`; the first error ends the loop. */
  function ReadDomains(w: World, ctx: Ctx, locale: string, localeId: string, domains: seq<string>, j: nat, bag: ReadBag): Step<ReadBag>
    requires j <= |domains|
    decreases |domains| - j
  {
    if j == |domains| then Step(w, Success(bag))
    else
      var s := ReadDomain(w, ctx, locale, localeId, domains[j]);
      if s.r.Failure? then Step(s.w, Failure(s.r.error))
      else ReadDomains(s.w, ctx, locale, localeId, domains, j + 1, bag + [s.r.value])
  }

  /** The locales from index `i` on: resolve the remote id, then read every domain. */
  function ReadLocales(w: World, ctx: Ctx, locales: seq<string>, domains: seq<string>, i: nat, bag: ReadBag): Step<ReadBag>
    requires i <= |locales|
    decreases |locales| - i
  {
    if i == |locales| then Step(w, Success(bag))
    else
      var g := GetLocaleSpec(w, ctx, locales[i]);
      if g.r.Failure? then Step(g.w, Failure(g.r.error))
      else
        var s := ReadDomains(g.w, ctx, locales[i], g.r.value, domains, 0, bag);
        if s.r.Failure? then Step(s.w, Failure(s.r.error))
        else ReadLocales(s.w, ctx, locales, domains, i + 1, s.r.value)
  }

  /** `read`: every locale, every domain, then the listener of the read event may replace the bag. */
  function ReadAll(w: World, ctx: Ctx, domains: seq<string>, locales: seq<string>): Step<ReadBag>
  {
    var s := ReadLocales(w, ctx, locales, domains, 0, []);
    if s.r.Success? then Step(s.w, Success(ctx.onRead(s.r.value))) else s
  }

  /** The (locale, domain) pair of each loaded file. */
  function Targets(bag: ReadBag): (t: seq<(string, string)>)
    ensures |t| == |bag|
    ensures forall i :: 0 <= i < |bag| ==> t[i] == (bag[i].locale, bag[i].domain)
  {
    if bag == [] then [] else [(bag[0].locale, bag[0].domain)] + Targets(bag[1..])
  }

  function Row(locale: string, domains: seq<string>): (t: seq<(string, string)>)
    ensures |t| == |domains|
    ensures forall i :: 0 <= i < |domains| ==> t[i] == (locale, domains[i])
  {
    if domains == [] then [] else [(locale, domains[0])] + Row(locale, domains[1..])
  }

  /** Locale-major, domain-minor order. */
  function Pairs(locales: seq<string>, domains: seq<string>): seq<(string, string)>
  {
    if locales == [] then [] else Row(locales[0], domains) + Pairs(locales[1..], domains)
  }

  /**
   * The download: `If-None-Match` carries the etag exactly when the cache item
   * holds a cached response; the query is the tagged read options, which
   * stay set for later downloads; the directory is untouched.
   */
  lemma ReadDomainRequest(w: World, ctx: Ctx, locale: string, localeId: string, domain: string)
    ensures var s := ReadDomain(w, ctx, locale, localeId, domain);
      var cached := GetCache(w.cache, DownloadKey(w, ctx, locale, domain));
      && Extends(w, s.w)
      && Issued(w, s.w) == [Download(localeId, DownloadQuery(w, ctx, locale, domain), IfNoneMatch(cached))]
      && (IfNoneMatch(cached).Some? <==> DownloadKey(w, ctx, locale, domain) in w.cache && w.cache[DownloadKey(w, ctx, locale, domain)].Stored?)
      && s.w.readOptions == DownloadQuery(w, ctx, locale, domain)
      && s.w.directory == w.directory
      && s.w.writeOptions == w.writeOptions
      && LogsOnce(w, s)
  {
    var query := DownloadQuery(w, ctx, locale, domain);
    var key := DownloadKey(w, ctx, locale, domain);
    var cached := GetCache(w.cache, key);
    var sent := Send(w.(readOptions := query), Download(localeId, query, IfNoneMatch(cached)));
    ReceiveFrame(sent, ctx, locale, domain, key, cached);
  }

  /** The frame of one download, as the loops need it. */
  lemma ReadDomainFrame(w: World, ctx: Ctx, locale: string, localeId: string, domain: string)
    ensures var s := ReadDomain(w, ctx, locale, localeId, domain);
      && Extends(w, s.w)
      && s.w.directory == w.directory
      && LogsOnce(w, s)
      && (s.r.Success? ==> s.r.value.locale == locale && s.r.value.domain == domain)
  {
    var query := DownloadQuery(w, ctx, locale, domain);
    var key := DownloadKey(w, ctx, locale, domain);
    var cached := GetCache(w.cache, key);
    var sent := Send(w.(readOptions := query), Download(localeId, query, IfNoneMatch(cached)));
    ReceiveFrame(sent, ctx, locale, domain, key, cached);
  }

  /** The query sets 'tags' to the domain. */
  lemma DownloadQueryTag(w: World, ctx: Ctx, locale: string, domain: string)
    ensures Get(DownloadQuery(w, ctx, locale, domain), "tags") == Some(Str(domain))
  {
    var tagged := Put(w.readOptions, "tags", Str(domain));
    PutGet(w.readOptions, "tags", Str(domain), "tags");
    var fallback := if ctx.fallbackEnabled then FallbackOf(w.directory, locale) else None;
    if fallback.Some? {
      PutGet(tagged, "fallback_locale_id", Str(fallback.value), "tags");
    }
  }

  /**
   * 'fallback_locale_id' is the locale's fallback when fallback is enabled and
   * it has one, and otherwise whatever an earlier download left there.
   */
  lemma DownloadQueryFallback(w: World, ctx: Ctx, locale: string, domain: string)
    ensures Get(DownloadQuery(w, ctx, locale, domain), "fallback_locale_id") ==
      if ctx.fallbackEnabled && FallbackOf(w.directory, locale).Some?
      then Some(Str(FallbackOf(w.directory, locale).value))
      else Get(w.readOptions, "fallback_locale_id")
  {
    var tagged := Put(w.readOptions, "tags", Str(domain));
    PutGet(w.readOptions, "tags", Str(domain), "fallback_locale_id");
    var fallback := if ctx.fallbackEnabled then FallbackOf(w.directory, locale) else None;
    if fallback.Some? {
      PutGet(tagged, "fallback_locale_id", Str(fallback.value), "fallback_locale_id");
    }
  }

  /** Every other read option is left as it was. */
  lemma DownloadQueryOthers(w: World, ctx: Ctx, locale: string, domain: string, k: string)
    requires k != "tags" && k != "fallback_locale_id"
    ensures Get(DownloadQuery(w, ctx, locale, domain), k) == Get(w.readOptions, k)
  {
    var tagged := Put(w.readOptions, "tags", Str(domain));
    PutGet(w.readOptions, "tags", Str(domain), k);
    var fallback := if ctx.fallbackEnabled then FallbackOf(w.directory, locale) else None;
    if fallback.Some? {
      PutGet(tagged, "fallback_locale_id", Str(fallback.value), k);
    }
  }

  lemma DownloadQueryNoDup(w: World, ctx: Ctx, locale: string, domain: string)
    requires NoDupKeys(w.readOptions)
    ensures NoDupKeys(DownloadQuery(w, ctx, locale, domain))
  {
    var tagged := Put(w.readOptions, "tags", Str(domain));
    PutNoDup(w.readOptions, "tags", Str(domain));
    var fallback := if ctx.fallbackEnabled then FallbackOf(w.directory, locale) else None;
    if fallback.Some? {
      PutNoDup(tagged, "fallback_locale_id", Str(fallback.value));
    }
  }

  /**
   * The outcome of a download: only 200 and 304 are accepted; a 304 loads
   * the cached content and a 200 the response body; a 304 without a cached
   * response is refused.
   */
  lemma ReadDomainContent(w: World, ctx: Ctx, locale: string, localeId: string, domain: string)
    ensures var s := ReadDomain(w, ctx, locale, localeId, domain);
      var cached := GetCache(w.cache, DownloadKey(w, ctx, locale, domain));
      s.r.Success? ==>
        && w.script != []
        && (w.script[0].status == 200 || w.script[0].status == 304)
        && s.r.value.locale == locale && s.r.value.domain == domain
        && s.r.value.content == (if w.script[0].status == 304 then cached.value.content else w.script[0].body)
    ensures var s := ReadDomain(w, ctx, locale, localeId, domain);
      w.script != [] && w.script[0].status != 200 && w.script[0].status != 304 ==>
        s.r == Failure(Provider(Classify(w.script[0].status, w.script[0].headers, "Unable to get translations from phrase.")))
        && s.w.log == w.log + [LogEntry(ReadSite, locale, w.script[0].body)]
    ensures var s := ReadDomain(w, ctx, locale, localeId, domain);
      var cached := GetCache(w.cache, DownloadKey(w, ctx, locale, domain));
      w.script != [] && w.script[0].status == 304 && cached.None? ==> s.r == Failure(Redirection(304))
  {
  }

  /**
   * The cache write-back: with fallback disabled a successful download stores
   * the response's etag and last-modified with the loaded content under the
   * key; with fallback enabled, or on any error, the cache is unchanged.
   */
  lemma ReadDomainCache(w: World, ctx: Ctx, locale: string, localeId: string, domain: string)
    ensures var s := ReadDomain(w, ctx, locale, localeId, domain);
      var key := DownloadKey(w, ctx, locale, domain);
      && (s.r.Failure? || ctx.fallbackEnabled ==> s.w.cache == w.cache)
      && (s.r.Success? && !ctx.fallbackEnabled ==>
            && "etag" in w.script[0].headers && "last-modified" in w.script[0].headers
            && s.w.cache == w.cache[key := Stored(CachedResponse(w.script[0].headers["etag"], w.script[0].headers["last-modified"], s.r.value.content))])
  {
  }

  /** The loop over domains only extends the trace, logs at most once, and leaves the directory alone. */
  lemma {:induction false} ReadDomainsFrame(w: World, ctx: Ctx, locale: string, localeId: string, domains: seq<string>, j: nat, bag: ReadBag)
    requires j <= |domains|
    ensures var s := ReadDomains(w, ctx, locale, localeId, domains, j, bag);
      Extends(w, s.w) && LogsOnce(w, s) && s.w.directory == w.directory
    decreases |domains| - j
  {
    if j < |domains| {
      var s := ReadDomain(w, ctx, locale, localeId, domains[j]);
      ReadDomainFrame(w, ctx, locale, localeId, domains[j]);
      if s.r.Success? {
        var t := ReadDomains(s.w, ctx, locale, localeId, domains, j + 1, bag + [s.r.value]);
        ReadDomainsFrame(s.w, ctx, locale, localeId, domains, j + 1, bag + [s.r.value]);
        ExtendsTrans(w, s.w, t.w);
      }
    }
  }

  /** The domains of one locale are read in the given order. */
  lemma {:induction false} ReadDomainsOrder(w: World, ctx: Ctx, locale: string, localeId: string, domains: seq<string>, j: nat, bag: ReadBag)
    requires j <= |domains|
    ensures var s := ReadDomains(w, ctx, locale, localeId, domains, j, bag);
      s.r.Success? ==> Targets(s.r.value) == Targets(bag) + Row(locale, domains[j..])
    decreases |domains| - j
  {
    if j < |domains| {
      var s := ReadDomain(w, ctx, locale, localeId, domains[j]);
      ReadDomainFrame(w, ctx, locale, localeId, domains[j]);
      if s.r.Success? {
        var t := ReadDomains(s.w, ctx, locale, localeId, domains, j + 1, bag + [s.r.value]);
        ReadDomainsOrder(s.w, ctx, locale, localeId, domains, j + 1, bag + [s.r.value]);
        if t.r.Success? {
          assert Targets(bag + [s.r.value]) == Targets(bag) + [(locale, domains[j])];
          assert Row(locale, domains[j..]) == [(locale, domains[j])] + Row(locale, domains[j + 1..]);
        }
      }
    } else {
      assert Row(locale, domains[j..]) == [];
    }
  }

  lemma {:induction false} PairsSuffix(locales: seq<string>, domains: seq<string>, i: nat)
    requires i < |locales|
    ensures Pairs(locales[i..], domains) == Row(locales[i], domains) + Pairs(locales[i + 1..], domains)
  {
    assert locales[i..][1..] == locales[i + 1..];
  }

  /** The loop over locales only extends the trace, and logs at most once, just before it raises. */
  lemma {:induction false} ReadLocalesFrame(w: World, ctx: Ctx, locales: seq<string>, domains: seq<string>, i: nat, bag: ReadBag)
    requires i <= |locales|
    ensures var s := ReadLocales(w, ctx, locales, domains, i, bag);
      Extends(w, s.w) && LogsOnce(w, s)
    decreases |locales| - i
  {
    if i < |locales| {
      var g := GetLocaleSpec(w, ctx, locales[i]);
      GetLocaleFrame(w, ctx, locales[i]);
      if g.r.Success? {
        var s := ReadDomains(g.w, ctx, locales[i], g.r.value, domains, 0, bag);
        ReadDomainsFrame(g.w, ctx, locales[i], g.r.value, domains, 0, bag);
        ExtendsTrans(w, g.w, s.w);
        if s.r.Success? {
          var t := ReadLocales(s.w, ctx, locales, domains, i + 1, s.r.value);
          ReadLocalesFrame(s.w, ctx, locales, domains, i + 1, s.r.value);
          ExtendsTrans(w, s.w, t.w);
        }
      }
    }
  }

  /** The number of downloads among the requests. */
  function Downloads(qs: seq<Request>): nat
  {
    if qs == [] then 0 else (if qs[0].Download? then 1 else 0) + Downloads(qs[1..])
  }

  lemma {:induction false} DownloadsAppend(a: seq<Request>, b: seq<Request>)
    ensures Downloads(a + b) == Downloads(a) + Downloads(b)
  {
    if a == [] {
      assert a + b == b;
    } else {
      assert (a + b)[0] == a[0] && (a + b)[1..] == a[1..] + b;
      DownloadsAppend(a[1..], b);
    }
  }

  lemma {:induction false} NoDownloads(qs: seq<Request>)
    requires forall i :: 0 <= i < |qs| ==> qs[i].ListLocales? || qs[i].CreateLocale?
    ensures Downloads(qs) == 0
  {
    if qs != [] {
      NoDownloads(qs[1..]);
    }
  }

  /** A successful domain loop issues exactly one download per domain read, and nothing else. */
  lemma {:induction false} ReadDomainsCount(w: World, ctx: Ctx, locale: string, localeId: string, domains: seq<string>, j: nat, bag: ReadBag)
    requires j <= |domains|
    ensures var s := ReadDomains(w, ctx, locale, localeId, domains, j, bag);
      s.r.Success? ==> |Issued(w, s.w)| == Downloads(Issued(w, s.w)) == |domains| - j
    decreases |domains| - j
  {
    if j < |domains| {
      var s := ReadDomain(w, ctx, locale, localeId, domains[j]);
      ReadDomainRequest(w, ctx, locale, localeId, domains[j]);
      if s.r.Success? {
        var t := ReadDomains(s.w, ctx, locale, localeId, domains, j + 1, bag + [s.r.value]);
        ReadDomainsCount(s.w, ctx, locale, localeId, domains, j + 1, bag + [s.r.value]);
        if t.r.Success? {
          ReadDomainsFrame(s.w, ctx, locale, localeId, domains, j + 1, bag + [s.r.value]);
          ExtendsTrans(w, s.w, t.w);
          DownloadsAppend(Issued(w, s.w), Issued(s.w, t.w));
          assert Downloads(Issued(w, s.w)) == 1;
        }
      }
    } else {
      assert Issued(w, w) == [];
    }
  }

  /** The download of `domain` from `u` failed, and `s` is its state and error. */
  ghost predicate DownloadFails(u: World, ctx: Ctx, locale: string, localeId: string, domain: string, s: Step<ReadBag>)
  {
    var t := ReadDomain(u, ctx, locale, localeId, domain);
    t.r.Failure? && s == Step(t.w, Failure(t.r.error))
  }

  /**
   * The domain loop fails only through one download: that of domain `d`,
   * started after exactly one request for each domain before it, failed, and
   * the loop ends in its state with its error, issuing nothing after it.
   */
  lemma {:induction false} ReadDomainsStops(w: World, ctx: Ctx, locale: string, localeId: string, domains: seq<string>, j: nat, bag: ReadBag)
    requires j <= |domains|
    ensures var s := ReadDomains(w, ctx, locale, localeId, domains, j, bag);
      s.r.Failure? ==>
        exists d, u :: j <= d < |domains| && Extends(w, u) && |Issued(w, u)| == d - j
          && DownloadFails(u, ctx, locale, localeId, domains[d], s)
    decreases |domains| - j
  {
    var s := ReadDomains(w, ctx, locale, localeId, domains, j, bag);
    if j < |domains| && s.r.Failure? {
      var s1 := ReadDomain(w, ctx, locale, localeId, domains[j]);
      if s1.r.Failure? {
        assert Issued(w, w) == [];
        assert DownloadFails(w, ctx, locale, localeId, domains[j], s);
      } else {
        ReadDomainsStops(s1.w, ctx, locale, localeId, domains, j + 1, bag + [s1.r.value]);
        var d, u :| j + 1 <= d < |domains| && Extends(s1.w, u) && |Issued(s1.w, u)| == d - (j + 1)
          && DownloadFails(u, ctx, locale, localeId, domains[d], s);
        ReadDomainRequest(w, ctx, locale, localeId, domains[j]);
        ExtendsTrans(w, s1.w, u);
      }
    }
  }

  /**
   * Locale `locale` from `u` ended the loop in `s`: either its remote id
   * could not be resolved, or one of its downloads failed after one request
   * for each domain before it.
   */
  ghost predicate LocaleFails(u: World, ctx: Ctx, locale: string, domains: seq<string>, s: Step<ReadBag>)
  {
    var g := GetLocaleSpec(u, ctx, locale);
    if g.r.Failure? then s == Step(g.w, Failure(g.r.error))
    else
      exists d, v :: 0 <= d < |domains| && Extends(g.w, v) && |Issued(g.w, v)| == d
        && DownloadFails(v, ctx, locale, g.r.value, domains[d], s)
  }

  /** One locale read in full: its lookup issues no download, its domain loop one per domain. */
  lemma LocaleCount(w: World, ctx: Ctx, locale: string, domains: seq<string>, bag: ReadBag)
    ensures var g := GetLocaleSpec(w, ctx, locale);
      g.r.Success? ==>
        var s1 := ReadDomains(g.w, ctx, locale, g.r.value, domains, 0, bag);
        s1.r.Success? ==> Extends(w, s1.w) && Downloads(Issued(w, s1.w)) == |domains|
  {
    var g := GetLocaleSpec(w, ctx, locale);
    if g.r.Success? {
      var s1 := ReadDomains(g.w, ctx, locale, g.r.value, domains, 0, bag);
      GetLocaleFacts(w, ctx, locale);
      NoDownloads(Issued(w, g.w));
      ReadDomainsFrame(g.w, ctx, locale, g.r.value, domains, 0, bag);
      ReadDomainsCount(g.w, ctx, locale, g.r.value, domains, 0, bag);
      ExtendsTrans(w, g.w, s1.w);
      DownloadsAppend(Issued(w, g.w), Issued(g.w, s1.w));
    }
  }

  lemma DownloadsCompose(w1: World, w2: World, w3: World, n: nat, k: nat)
    requires Extends(w1, w2) && Downloads(Issued(w1, w2)) == n
    requires Extends(w2, w3) && Downloads(Issued(w2, w3)) == k * n
    ensures Extends(w1, w3) && Downloads(Issued(w1, w3)) == (k + 1) * n
  {
    ExtendsTrans(w1, w2, w3);
    DownloadsAppend(Issued(w1, w2), Issued(w2, w3));
  }

  /** Locale `c` from `u`, reached from `w` after `c - i` locales' worth of downloads, ended the loop in `s`. */
  ghost predicate StopsAt(w: World, ctx: Ctx, locales: seq<string>, domains: seq<string>, i: nat, s: Step<ReadBag>)
  {
    exists c, u :: i <= c < |locales| && Extends(w, u) && Downloads(Issued(w, u)) == (c - i) * |domains|
      && LocaleFails(u, ctx, locales[c], domains, s)
  }

  /** A locale whose lookup or domain loop fails ends the locale loop right there. */
  lemma LocaleFailsHere(w: World, ctx: Ctx, locales: seq<string>, domains: seq<string>, i: nat, bag: ReadBag)
    requires i < |locales|
    ensures var g := GetLocaleSpec(w, ctx, locales[i]);
      var s := ReadLocales(w, ctx, locales, domains, i, bag);
      (g.r.Failure? || ReadDomains(g.w, ctx, locales[i], g.r.value, domains, 0, bag).r.Failure?) ==>
        StopsAt(w, ctx, locales, domains, i, s)
  {
    var g := GetLocaleSpec(w, ctx, locales[i]);
    var s := ReadLocales(w, ctx, locales, domains, i, bag);
    if g.r.Success? {
      ReadDomainsStops(g.w, ctx, locales[i], g.r.value, domains, 0, bag);
    }
    if g.r.Failure? || ReadDomains(g.w, ctx, locales[i], g.r.value, domains, 0, bag).r.Failure? {
      assert Issued(w, w) == [];
      assert Extends(w, w) && Downloads(Issued(w, w)) == (i - i) * |domains| && LocaleFails(w, ctx, locales[i], domains, s);
    }
  }

  /** A stop after the next locale is a stop of the loop that read that locale in full first. */
  lemma StopsAtShift(w: World, w1: World, ctx: Ctx, locales: seq<string>, domains: seq<string>, i: nat, s: Step<ReadBag>)
    requires i < |locales|
    requires Extends(w, w1) && Downloads(Issued(w, w1)) == |domains|
    requires StopsAt(w1, ctx, locales, domains, i + 1, s)
    ensures StopsAt(w, ctx, locales, domains, i, s)
  {
    var c, u :| i + 1 <= c < |locales| && Extends(w1, u) && Downloads(Issued(w1, u)) == (c - (i + 1)) * |domains|
      && LocaleFails(u, ctx, locales[c], domains, s);
    DownloadsCompose(w, w1, u, |domains|, c - (i + 1));
  }

  /**
   * The locale loop fails only through one locale: locale `c`, started after
   * exactly the downloads of every locale before it, failed (see
   * `LocaleFails`), and the loop ends in that failure's state.
   */
  lemma {:induction false} ReadLocalesStops(w: World, ctx: Ctx, locales: seq<string>, domains: seq<string>, i: nat, bag: ReadBag)
    requires i <= |locales|
    ensures var s := ReadLocales(w, ctx, locales, domains, i, bag);
      s.r.Failure? ==> StopsAt(w, ctx, locales, domains, i, s)
    decreases |locales| - i
  {
    var s := ReadLocales(w, ctx, locales, domains, i, bag);
    if i < |locales| && s.r.Failure? {
      var g := GetLocaleSpec(w, ctx, locales[i]);
      LocaleFailsHere(w, ctx, locales, domains, i, bag);
      if g.r.Success? && ReadDomains(g.w, ctx, locales[i], g.r.value, domains, 0, bag).r.Success? {
        var s1 := ReadDomains(g.w, ctx, locales[i], g.r.value, domains, 0, bag);
        ReadLocalesStops(s1.w, ctx, locales, domains, i + 1, s1.r.value);
        LocaleCount(w, ctx, locales[i], domains, bag);
        StopsAtShift(w, s1.w, ctx, locales, domains, i, s);
      }
    }
  }

  /**
   * `read` fails only through one locale: locale `c`, started after exactly
   * the downloads of every locale before it, failed, and `read` ends in
   * that failure's state; the listener of the read event is not called.
   */
  lemma ReadAllStops(w: World, ctx: Ctx, domains: seq<string>, locales: seq<string>)
    ensures var s := ReadAll(w, ctx, domains, locales);
      s.r.Failure? ==> StopsAt(w, ctx, locales, domains, 0, s)
  {
    ReadLocalesStops(w, ctx, locales, domains, 0, []);
  }

  /** A successful download answered its one request. */
  lemma ReadDomainAnswered(w: World, ctx: Ctx, locale: string, localeId: string, domain: string)
    ensures var s := ReadDomain(w, ctx, locale, localeId, domain);
      s.r.Success? ==> Answered(w, s.w)
  {
    var query := DownloadQuery(w, ctx, locale, domain);
    var key := DownloadKey(w, ctx, locale, domain);
    var cached := GetCache(w.cache, key);
    var q := Download(localeId, query, IfNoneMatch(cached));
    var sent := Send(w.(readOptions := query), q);
    ReceiveFrame(sent, ctx, locale, domain, key, cached);
    if w.script != [] {
      SendAnswered(w.(readOptions := query), q);
    }
  }

  /** A successful domain loop answered every request it issued. */
  lemma {:induction false} ReadDomainsAnswered(w: World, ctx: Ctx, locale: string, localeId: string, domains: seq<string>, j: nat, bag: ReadBag)
    requires j <= |domains|
    ensures var s := ReadDomains(w, ctx, locale, localeId, domains, j, bag);
      s.r.Success? ==> Answered(w, s.w)
    decreases |domains| - j
  {
    if j == |domains| {
      assert Issued(w, w) == [];
    } else {
      var s := ReadDomain(w, ctx, locale, localeId, domains[j]);
      if s.r.Success? {
        ReadDomainAnswered(w, ctx, locale, localeId, domains[j]);
        ReadDomainsAnswered(s.w, ctx, locale, localeId, domains, j + 1, bag + [s.r.value]);
        var t := ReadDomains(s.w, ctx, locale, localeId, domains, j + 1, bag + [s.r.value]);
        if t.r.Success? {
          AnsweredTrans(w, s.w, t.w);
        }
      }
    }
  }

  /** A successful locale loop answered every request it issued. */
  lemma {:induction false} ReadLocalesAnswered(w: World, ctx: Ctx, locales: seq<string>, domains: seq<string>, i: nat, bag: ReadBag)
    requires i <= |locales|
    ensures var s := ReadLocales(w, ctx, locales, domains, i, bag);
      s.r.Success? ==> Answered(w, s.w)
    decreases |locales| - i
  {
    if i == |locales| {
      assert Issued(w, w) == [];
    } else {
      var g := GetLocaleSpec(w, ctx, locales[i]);
      if g.r.Success? {
        var s := ReadDomains(g.w, ctx, locales[i], g.r.value, domains, 0, bag);
        if s.r.Success? {
          GetLocaleAnswered(w, ctx, locales[i]);
          ReadDomainsAnswered(g.w, ctx, locales[i], g.r.value, domains, 0, bag);
          AnsweredTrans(w, g.w, s.w);
          ReadLocalesAnswered(s.w, ctx, locales, domains, i + 1, s.r.value);
          var t := ReadLocales(s.w, ctx, locales, domains, i + 1, s.r.value);
          if t.r.Success? {
            AnsweredTrans(w, s.w, t.w);
          }
        }
      }
    }
  }

  /**
   * A successful `read` answered every request it issued, in order: no
   * download whose transport ran dry is passed over.
   */
  lemma ReadAllAnswered(w: World, ctx: Ctx, domains: seq<string>, locales: seq<string>)
    ensures var s := ReadAll(w, ctx, domains, locales);
      s.r.Success? ==> Answered(w, s.w)
  {
    ReadLocalesAnswered(w, ctx, locales, domains, 0, []);
  }

  /** `read` iterates locale-major, then domain-minor. */
  lemma {:induction false} ReadLocalesOrder(w: World, ctx: Ctx, locales: seq<string>, domains: seq<string>, i: nat, bag: ReadBag)
    requires i <= |locales|
    ensures var s := ReadLocales(w, ctx, locales, domains, i, bag);
      s.r.Success? ==> Targets(s.r.value) == Targets(bag) + Pairs(locales[i..], domains)
    decreases |locales| - i
  {
    if i < |locales| {
      var g := GetLocaleSpec(w, ctx, locales[i]);
      if g.r.Success? {
        var s := ReadDomains(g.w, ctx, locales[i], g.r.value, domains, 0, bag);
        ReadDomainsOrder(g.w, ctx, locales[i], g.r.value, domains, 0, bag);
        if s.r.Success? {
          var t := ReadLocales(s.w, ctx, locales, domains, i + 1, s.r.value);
          ReadLocalesOrder(s.w, ctx, locales, domains, i + 1, s.r.value);
          if t.r.Success? {
            assert domains[0..] == domains;
            PairsSuffix(locales, domains, i);
          }
        }
      }
    } else {
      assert locales[i..] == [];
    }
  }

  /** What `read` returns is the listener's view of the bag loaded in locale-major order. */
  lemma ReadAllOrder(w: World, ctx: Ctx, domains: seq<string>, locales: seq<string>)
    ensures var s := ReadLocales(w, ctx, locales, domains, 0, []);
      && LogsOnce(w, ReadAll(w, ctx, domains, locales))
      && (ReadAll(w, ctx, domains, locales).r.Success? <==> s.r.Success?)
      && (s.r.Success? ==>
            && Targets(s.r.value) == Pairs(locales, domains)
            && ReadAll(w, ctx, domains, locales).r.value == ctx.onRead(s.r.value))
  {
    ReadLocalesFrame(w, ctx, locales, domains, 0, []);
    ReadLocalesOrder(w, ctx, locales, domains, 0, []);
    assert locales[0..] == locales;
  }
}
