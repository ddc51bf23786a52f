/**
 * The state the provider works on, as one value: the locale directory, the
 * transport (responses still to come and requests issued so far), the cache
 * pool, the error log and the two option sets. Every operation of the
 * provider is specified as a function from one such state to the next.
 */
module EngineModel {
  import opened Wrappers
  import opened OptionMaps
  import opened PhraseCache
  import opened Failures
  import opened Locales

  /** The decoded JSON body of a response, when there is one. */
  datatype Payload = NoJson | LocaleList(records: seq<LocaleRecord>) | LocaleObject(record: LocaleRecord)

  /**
   * One response of the transport: status, first value of each header, raw
   * body, decoded body, and the `next_page` of the decoded `pagination` header.
   */
  datatype Response = Response(status: int, headers: map<string, string>, body: string, payload: Payload, nextPage: Option<int>)

  /** The requests the provider issues. */
  datatype Request =
    | ListLocales(perPage: int, page: int)
    | CreateLocale(name: string, code: string, isDefault: bool)
    | Download(localeId: string, query: OptionMap, ifNoneMatch: Option<string>)
    /** The form fields, and the domain and catalogue locale the attached file is named after. */
    | Upload(fields: OptionMap, domain: string, locale: string)
    | DeleteKey(q: string)

  /** Which call site wrote an error log line. */
  datatype Site = InitSite | CreateSite | ReadSite | UploadSite | DeleteSite

  /** An error log line: its call site, the locale, domain or key it names, and the response body. */
  datatype LogEntry = LogEntry(site: Site, subject: string, body: string)

  datatype World = World(
    directory: Directory,
    script: seq<Response>,
    trace: seq<Request>,
    cache: CacheItems,
    log: seq<LogEntry>,
    readOptions: OptionMap,
    writeOptions: OptionMap)

  /** The state after an operation, and its result or the error it raised. */
  datatype Step<T> = Step(w: World, r: Result<T, Failure>)

  /** A downloaded file, as the loader receives it. */
  datatype Loaded = Loaded(locale: string, domain: string, content: string)

  type ReadBag = seq<Loaded>

  datatype Domain = Domain(name: string, messages: seq<(string, string)>)

  datatype Catalogue = Catalogue(locale: string, domains: seq<Domain>)

  type WriteBag = seq<Catalogue>

  /**
   * What the provider is configured with: the default locale, the read
   * option set's fallback flag, the digest of the cache key, and the event
   * listeners, each of which may replace the bag.
   */
  datatype Ctx = Ctx(
    defaultLocale: string,
    fallbackEnabled: bool,
    digest: OptionMap -> string,
    onRead: ReadBag -> ReadBag,
    onWrite: WriteBag -> WriteBag)

  datatype Sent = Sent(w: World, resp: Option<Response>)

  /** One request: it joins the trace and takes the next response, if any is left. */
  function Send(w: World, q: Request): (s: Sent)
    ensures s.w.trace == w.trace + [q]
    ensures s.resp.Some? <==> w.script != []
    ensures s.resp.Some? ==> s.resp.value == w.script[0] && |s.w.script| == |w.script| - 1
    ensures s.w == w.(script := s.w.script, trace := s.w.trace)
  {
    var w1 := w.(trace := w.trace + [q]);
    if w.script == [] then Sent(w1, None) else Sent(w1.(script := w.script[1..]), Some(w.script[0]))
  }

  /** Log the response body once, then raise the classified error. */
  function Raise<T>(w: World, site: Site, subject: string, resp: Response, message: string): Step<T>
  {
    Step(w.(log := w.log + [LogEntry(site, subject, resp.body)]), Failure(Provider(Classify(resp.status, resp.headers, message))))
  }

  /** A provider error comes with exactly one new log line; every other outcome leaves the log alone. */
  ghost predicate LogsOnce<T>(w: World, s: Step<T>)
  {
    if s.r.Failure? && s.r.error.Provider?
    then |s.w.log| == |w.log| + 1 && s.w.log[..|w.log|] == w.log
    else s.w.log == w.log
  }

  lemma RaiseLogsOnce<T>(w: World, site: Site, subject: string, resp: Response, message: string)
    ensures LogsOnce(w, Raise<T>(w, site, subject, resp, message))
    ensures Raise<T>(w, site, subject, resp, message).w.log[|w.log|] == LogEntry(site, subject, resp.body)
  {
  }

  /** Requests issued since state `w`. */
  function Issued(w: World, w': World): seq<Request>
  {
    if |w.trace| <= |w'.trace| then w'.trace[|w.trace|..] else []
  }

  /** The trace only grows. */
  ghost predicate Extends(w: World, w': World)
  {
    |w.trace| <= |w'.trace| && w'.trace[..|w.trace|] == w.trace
  }

  lemma ExtendsTrans(w1: World, w2: World, w3: World)
    requires Extends(w1, w2) && Extends(w2, w3)
    ensures Extends(w1, w3)
    ensures Issued(w1, w3) == Issued(w1, w2) + Issued(w2, w3)
  {
    assert w3.trace[..|w1.trace|] == w3.trace[..|w2.trace|][..|w1.trace|];
    assert w3.trace[|w1.trace|..] == w3.trace[|w1.trace|..|w2.trace|] + w3.trace[|w2.trace|..];
    assert w3.trace[|w1.trace|..|w2.trace|] == w2.trace[|w1.trace|..];
  }

  /** Every request issued between the two states took the next response of the script, in order. */
  ghost predicate Answered(w: World, w': World)
  {
    && Extends(w, w')
    && |Issued(w, w')| <= |w.script|
    && w'.script == w.script[|Issued(w, w')|..]
  }

  lemma AnsweredTrans(w1: World, w2: World, w3: World)
    requires Answered(w1, w2) && Answered(w2, w3)
    ensures Answered(w1, w3)
  {
    ExtendsTrans(w1, w2, w3);
    assert w1.script[|Issued(w1, w2)|..][|Issued(w2, w3)|..] == w1.script[|Issued(w1, w3)|..];
  }

  /** A request that took a response is answered. */
  lemma SendAnswered(w: World, q: Request)
    requires w.script != []
    ensures Answered(w, Send(w, q).w)
  {
    assert Issued(w, Send(w, q).w) == [q];
  }
}
