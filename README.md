# Phrase translation provider — a Dafny model

This project models the core of the Phrase translation provider for the
Symfony translation component. The provider keeps a process-wide directory
of the remote locales of a Phrase project. It fills that directory by paging
through the locales endpoint, and creates a locale that is missing. Its three
operations are:

- **read**: one download per (locale, domain). The download carries an
  `If-None-Match` header taken from the cache, answers a 304 from the cache,
  and writes the cache back when fallback locales are off.
- **write**: one multipart upload per non-empty (catalogue, domain). The
  upload is tagged with the domain and addressed to the remote locale id.
- **delete**: one search-and-delete request per distinct message key. Each
  key is escaped for the search syntax first.

Any response status the operation does not accept is logged once. It is then
turned into a rate-limit, client or server error. The read and write option
sets are built once from the connection string's options. `ReadConfig` and
`WriteConfig` then update them in place, request by request.

The model has two layers:

- **A specification layer.** All the state the provider touches is one
  `World` value: the locale directory, the transport script and trace, the
  cache items, the error log and both option sets. Every operation is a
  function from one `World` to the next, together with its result. The
  lemmas are about these functions.
- **An imperative layer.** The `Provider` module copies the program's
  objects: a `PhraseProvider` class whose methods loop and update their
  collaborators in place. Each method is proved to produce exactly the state
  and result of its specification function.

The modules are:

- `OptionMaps`: PHP string-keyed arrays.
- `PhpSort`: `array_multisort` on one array.
- `PhraseCache`: cached responses and the cache key.
- `Failures`: errors and their classification.
- `Locales`: locale records and code translation.
- `EngineModel`: the state.
- `DirectorySpec`, `ReadSpec`, `WriteSpec`, `DeleteSpec`: the operations.
- `ReadConfigs`, `WriteConfigs`: the option sets.
- `Provider`: the classes.

Where the description of the system and the code differ, the model follows
the code. `key()` calls `array_multisort($options)`. With a single array
argument, that sorts the entries by **value**, not by key. Two orderings of
the same options are proved to give one cache key when no two values rank
equal (`PhraseCache.CacheKeyReorder`). Tied values keep their given order
(`PhraseCache.TiedValuesKeepOrder`), so differently ordered ties can give
different keys.

As a second example, the delete log line names the **escaped** key, because
that is the variable being formatted.

## Model

| member | source | states |
|---|---|---|
| Failures.Classify | src/PhraseProvider.php:297-309 | the error keeps the status. It is a rate limit exactly for 429, the caller's message exactly for other statuses up to 500, and "Provider server error." exactly above 500. The rate-limit text embeds the limit and reset headers |
| Failures.ClassifyExamples | tests/PhraseProviderTest.php:1144-1160 | 400, 429 (with headers 1000 and 60) and 503 give the three messages. 500 is still a client error and 501 a server error |
| Locales.ToPhraseLocale | src/PhraseProvider.php:311-314 | same length as the input; every '_' becomes '-' and every other character is kept |
| Locales.ToPhraseLocaleIdempotent | src/PhraseProvider.php:311-314 | no '_' is left, so translating twice is translating once |
| Locales.ToPhraseLocaleExample | src/PhraseProvider.php:311-314 | "nl_NL" becomes "nl-NL" and "en_GB" becomes "en-GB" |
| Locales.LastNamed | src/PhraseProvider.php:286-288 | gives a record of the list with that name; gives none exactly when no record has the name |
| Locales.StoreAllLookup | src/PhraseProvider.php:286-288 | after storing a page, a name is known iff it was known before or the page lists it. It then holds the last record listed under it, or else its old record |
| Locales.FallbackOf | src/PhraseProvider.php:235-240 | gives a fallback iff the translated code is in the directory and its record has a fallback. It is then that fallback's name |
| OptionMaps.Keys | src/Config/ReadConfig.php:93-96 | the keys of an option set, position by position |
| OptionMaps.Get | src/Config/ReadConfig.php:102 | none iff the key is absent; otherwise an entry of the set holds that key and value |
| OptionMaps.GetEntry | src/Config/ReadConfig.php:102 | in a set without duplicate keys, looking up the key of an entry gives that entry's value |
| OptionMaps.PutGet | src/Config/ReadConfig.php:71-76 | after `$a[$k] = $v`, the key holds the new value and every other key its old value |
| OptionMaps.PutKeys | src/Config/ReadConfig.php:71-76 | an existing key keeps its position; a new key goes last |
| OptionMaps.PutNoDup | src/Config/ReadConfig.php:83-88 | assignment never creates a duplicate key |
| OptionMaps.PutEntries | src/Config/WriteConfig.php:65-77 | every entry after an assignment was there before or is the new one |
| OptionMaps.Without | src/Config/ReadConfig.php:109 | a key survives iff it was present and is not dropped |
| OptionMaps.WithoutTwice | src/Config/ReadConfig.php:109 | dropping in two rounds is dropping the union once |
| OptionMaps.RemoveKeysGet | src/Config/ReadConfig.php:109 | after `unset`, dropped keys are absent and every other key keeps its value |
| OptionMaps.RemoveKeysKeys | src/Config/ReadConfig.php:109 | `unset` keeps the remaining keys in their order |
| OptionMaps.RemoveKeysNoDup | src/Config/WriteConfig.php:92 | `unset` never creates a duplicate key |
| OptionMaps.RemoveKeysEntries | src/Config/WriteConfig.php:92 | every entry left after `unset` was already present |
| OptionMaps.KeysDistinct | src/Config/ReadConfig.php:114 | a set has no duplicate key iff its key list has no repeat |
| OptionMaps.WithoutDistinct | src/Config/ReadConfig.php:109 | filtering a list without repeats leaves a list without repeats |
| OptionMaps.MergeGet | src/Config/ReadConfig.php:114 | in `array_merge($a, $b)`, a key of `$b` takes `$b`'s value and any other key keeps `$a`'s |
| OptionMaps.MergeKeys | src/Config/ReadConfig.php:114 | `array_merge` lists `$a`'s keys in order, then the new keys of `$b` in theirs |
| OptionMaps.MergeNoDup | src/Config/WriteConfig.php:95 | `array_merge` onto a set without duplicates has none |
| OptionMaps.MergeEntries | src/Config/WriteConfig.php:95 | every entry of the merge is an entry of one of the two sets |
| PhpSort.Insert | src/PhraseProvider.php:215 | one insertion step adds exactly the new entry to the multiset of entries |
| PhpSort.SortByValue | src/PhraseProvider.php:215 | the sorted options are a permutation of the options |
| PhpSort.InsertSorted | src/PhraseProvider.php:215 | inserting into a value-sorted list keeps it sorted |
| PhpSort.SortByValueSorted | src/PhraseProvider.php:215 | the result is in non-decreasing order of values |
| PhpSort.SortedUnique | src/PhraseProvider.php:215 | two sorted permutations of the same untied entries are equal |
| PhpSort.SortByValueReorder | src/PhraseProvider.php:215 | reordering untied entries does not change the sorted result |
| PhpSort.StrLessTotal | src/PhraseProvider.php:215 | two different strings are ordered one way or the other |
| PhpSort.StrLessTransitive | src/PhraseProvider.php:215 | the string order is transitive |
| PhpSort.ValueLessTransitive | src/PhraseProvider.php:215 | the value order is transitive |
| PhraseCache.GetCache | src/PhraseProvider.php:201-208 | a cached response is found iff the item is a hit holding a `PhraseCachedResponse`. That response is returned; a miss or a foreign value gives nothing |
| PhraseCache.CacheKeyShape | src/PhraseProvider.php:213-218 | the key is the locale, '.', the domain, '.', then the digest of the sorted options. The sorted options are ordered and a permutation of the given ones |
| PhraseCache.CacheKeyReorder | src/PhraseProvider.php:213-218 | two orderings of the same untied options give the same key |
| PhraseCache.SortOrderOneUntied | src/Config/ReadConfig.php:53-60 | the read defaults have no two equally ranked values |
| PhraseCache.CacheKeyTestOrders | tests/PhraseProviderTest.php:421-446 | the two option orders of the cache key data set give one key |
| PhraseCache.TiedPairKeepsOrder | src/PhraseProvider.php:215 | two entries with equal values keep their given order |
| PhraseCache.TiedValuesKeepOrder | src/PhraseProvider.php:213-218 | two options both set to '1' reach the digest in the order given, whichever order that is |
| EngineModel.Send | src/PhraseProvider.php:97-100 | one request joins the trace and takes the next response iff one is left. Nothing else in the state changes |
| EngineModel.RaiseLogsOnce | src/PhraseProvider.php:103-105 | a raised error appends exactly one log line naming the call site, the subject and the response body |
| EngineModel.ExtendsTrans | src/PhraseProvider.php:76-124 | the trace only grows across consecutive steps, and the requests of the whole are the requests of the parts |
| DirectorySpec.ResetSpec | src/PhraseProvider.php:196-199 | the directory is emptied, and nothing else changes |
| DirectorySpec.InitFromFacts | src/PhraseProvider.php:267-295 | listing touches only the directory, the transport and the log, and logs once before it raises. Its first request is page `page` at 100 per page, and every request is a 100-per-page listing |
| DirectorySpec.InitFromConsumes | src/PhraseProvider.php:271-294 | a successful listing takes one response per request, from the front of the script |
| DirectorySpec.InitFromPages | src/PhraseProvider.php:286-288 | after a successful listing, the directory holds the records of every page consumed, stored in order |
| DirectorySpec.InitFromFollows | src/PhraseProvider.php:271-294 | a successful listing issues one request per response consumed. The first asks for the given page, each later one for the `next_page` the previous response named. Every page was answered 200 with a list, and the last names no further page |
| DirectorySpec.InitFromAnswered | src/PhraseProvider.php:271-294 | a successful listing answered every request it issued, in order |
| DirectorySpec.InitTwoPages | tests/PhraseProviderTest.php:515-573 | the paginated data set asks for pages 1 and 2 and stops; its directory holds its one record |
| DirectorySpec.InitOnePage | src/PhraseProvider.php:290-294 | without a next page the listing stops after page 1 and stores that page's records |
| DirectorySpec.CreateFacts | src/PhraseProvider.php:242-265 | creation sends exactly one request with name and code `code`. `default` is true iff the code is the translated default locale. Success iff the response is a 201 with a record, which is then stored under its name; on failure the directory is unchanged |
| DirectorySpec.CreateExample | tests/PhraseProviderTest.php:576-600 | with default locale en_GB, creating nl_NL sends name and code "nl-NL", not default |
| DirectorySpec.GetLocaleKnown | src/PhraseProvider.php:220-233 | a code already in the directory returns its id with no request |
| DirectorySpec.GetLocaleListsFirst | src/PhraseProvider.php:222-224 | an empty directory is listed first, from page 1 |
| DirectorySpec.GetLocaleCreatesOnce | src/PhraseProvider.php:220-233 | the requests of `getLocale`: only listings while an empty directory is listed (none for a non-empty one). A failed listing ends the call. Then, if the code is still absent, exactly one creation of it, with `default` set iff it is the translated default locale; if present, nothing more |
| DirectorySpec.GetLocaleFacts | src/PhraseProvider.php:220-233 | `getLocale` touches only the directory side. What it returns is the id stored under the translated code |
| DirectorySpec.GetLocaleFrame | src/PhraseProvider.php:220-233 | `getLocale` leaves the cache and both option sets alone and logs at most once |
| DirectorySpec.GetLocaleAnswered | src/PhraseProvider.php:220-233 | a successful `getLocale` answered every request it issued, in order |
| ReadSpec.ReceiveFrame | src/PhraseProvider.php:102-116 | handling a download's response changes only the log and the cache. A loaded file names the requested locale and domain |
| ReadSpec.ReadDomainRequest | src/PhraseProvider.php:86-100 | one download request carries the tagged query, which stays set. It sends `If-None-Match` iff the cache holds a response under the key, and leaves the directory and the write options alone |
| ReadSpec.ReadDomainFrame | src/PhraseProvider.php:85-117 | one download extends the trace, keeps the directory, and logs at most once |
| ReadSpec.DownloadQueryTag | src/PhraseProvider.php:86 | the query's 'tags' is the domain |
| ReadSpec.DownloadQueryFallback | src/PhraseProvider.php:88-90 | 'fallback_locale_id' is the locale's fallback when fallback is enabled and one exists, and otherwise what the options already held |
| ReadSpec.DownloadQueryOthers | src/PhraseProvider.php:86-90 | every other option is unchanged |
| ReadSpec.DownloadQueryNoDup | src/PhraseProvider.php:86-90 | tagging never duplicates a key |
| ReadSpec.ReadDomainContent | src/PhraseProvider.php:102-109 | only 200 and 304 succeed. A 304 loads the cached content and a 200 the body. Any other status is logged once and classified with the read message, and a 304 without a cache entry fails |
| ReadSpec.ReadDomainCache | src/PhraseProvider.php:111-116 | with fallback off, a success stores the response's etag and last-modified with the content under the key. Otherwise the cache is unchanged |
| ReadSpec.ReadDomainsFrame | src/PhraseProvider.php:85-117 | the domain loop extends the trace, keeps the directory, and logs at most once |
| ReadSpec.ReadDomainsOrder | src/PhraseProvider.php:85-117 | on success the loaded files follow the domains in order |
| ReadSpec.ReadLocalesFrame | src/PhraseProvider.php:81-118 | the locale loop extends the trace and logs at most once |
| ReadSpec.ReadLocalesOrder | src/PhraseProvider.php:81-118 | on success the loaded files are locale-major, domain-minor |
| ReadSpec.ReadAllOrder | src/PhraseProvider.php:76-124 | `read` succeeds iff its loops do, and logs at most once. It returns the read listener's view of the bag, which holds every (locale, domain) pair in order |
| ReadSpec.ReadDomainsCount | src/PhraseProvider.php:85-117 | a successful domain loop issues exactly one download per domain, and nothing else |
| ReadSpec.ReadDomainsStops | src/PhraseProvider.php:85-117 | the domain loop fails only when the download of some domain `d` fails. That download started after one request per earlier domain. The loop ends in its state, with its error, and issues nothing after it |
| ReadSpec.ReadLocalesStops | src/PhraseProvider.php:81-118 | the locale loop fails only through locale `c`, started after every earlier locale's downloads. Either its id lookup failed, or one of its downloads failed after one request per earlier domain. The loop ends in that failure's state, with its error |
| ReadSpec.ReadAllStops | src/PhraseProvider.php:76-124 | a failed `read` is the failure of one id lookup or one download, at the point above. It ends in that step's state and the read listener is not called |
| ReadSpec.ReadDomainAnswered | src/PhraseProvider.php:97-106 | a successful download answered its one request |
| ReadSpec.ReadDomainsAnswered | src/PhraseProvider.php:85-117 | a successful domain loop answered every request it issued, in order |
| ReadSpec.ReadLocalesAnswered | src/PhraseProvider.php:81-118 | a successful locale loop answered every request it issued, in order |
| ReadSpec.ReadAllAnswered | src/PhraseProvider.php:76-124 | a successful `read` answered every request it issued, in order, so no download that found the transport dry was passed over |
| ReadSpec.Targets | src/PhraseProvider.php:109 | the (locale, domain) pair of each loaded file, in order |
| ReadSpec.Row | src/PhraseProvider.php:85 | the pairs of one locale with each domain, in order |
| ReadConfigs.ReadDefaultsKeys | src/Config/ReadConfig.php:53-60 | the read defaults list file_format, include_empty_translations, tags, format_options |
| ReadConfigs.ReadDefaultsWellFormed | src/Config/ReadConfig.php:53-60 | the defaults have no duplicate key |
| ReadConfigs.EnforceFacts | src/Config/ReadConfig.php:105-107 | the override keeps the keys and their order |
| ReadConfigs.EnforceGet | src/Config/ReadConfig.php:105-107 | a given include_empty_translations becomes '1' iff fallback is exactly '1'; nothing else changes |
| ReadConfigs.UnprotectedFacts | src/Config/ReadConfig.php:109 | the protected keys are dropped and the rest keep their order |
| ReadConfigs.UnprotectedGet | src/Config/ReadConfig.php:109 | a protected key is absent; any other key keeps the overridden value |
| ReadConfigs.UnprotectedFormat | src/Config/ReadConfig.php:109-111 | format_options is neither dropped nor overridden |
| ReadConfigs.AssembleFacts | src/Config/ReadConfig.php:111-114 | the defaults' keys come first, then the caller's other keys in order, with no duplicate |
| ReadConfigs.AssembleGet | src/Config/ReadConfig.php:111-114 | each value comes from the nested merge, the caller's options or the defaults, in that order of priority |
| ReadConfigs.ReadFromDsnFails | src/Config/ReadConfig.php:111 | `fromDsn` fails iff the caller's format_options is a plain string |
| ReadConfigs.BuildReadShape | src/Config/ReadConfig.php:98-117 | a successful result is the defaults merged under the unprotected caller options |
| ReadConfigs.ReadFromDsnKeys | src/Config/ReadConfig.php:98-117 | the keys are the defaults', then the caller's neither-protected-nor-default keys in order |
| ReadConfigs.ReadValueSource | src/Config/ReadConfig.php:98-117 | each value other than format_options is the caller's unprotected value or the default |
| ReadConfigs.ReadProtectedValue | src/Config/ReadConfig.php:109 | a protected key takes its default, or is absent, whatever the caller gave |
| ReadConfigs.ReadFileFormatForced | src/Config/ReadConfig.php:109-114 | file_format is always symfony_xliff |
| ReadConfigs.ReadTagsCleared | src/Config/ReadConfig.php:109-114 | tags is always the empty list |
| ReadConfigs.ReadIncludeEmpty | src/Config/ReadConfig.php:102-114 | include_empty_translations is '1' when fallback is exactly '1' and the caller gave one; otherwise the caller's value, else '1' |
| ReadConfigs.ReadCallerValue | src/Config/ReadConfig.php:114 | every other caller key keeps the caller's value |
| ReadConfigs.FormatOptionsMerge | src/Config/ReadConfig.php:111 | enclose_in_cdata comes first and defaults to '1'; the caller's nested keys win and follow in their order |
| ReadConfigs.CallerFormatOf | src/Config/ReadConfig.php:111 | the nested entries merged are the caller's own format_options, or none |
| ReadConfigs.ReadFormatOptions | src/Config/ReadConfig.php:111-114 | format_options of the result is that nested merge |
| ReadConfigs.UnprotectedWellFormed | src/Config/ReadConfig.php:109 | dropping keys keeps a well-formed set well-formed |
| ReadConfigs.AssembleWellFormed | src/Config/ReadConfig.php:111-114 | the merges keep it well-formed |
| ReadConfigs.ReadFromDsnWellFormed | src/Config/ReadConfig.php:98-117 | a successful result from well-formed options is well-formed |
| ReadConfigs.ReadFallbackFlag | src/Config/ReadConfig.php:102-116 | the flag is the boolean cast of fallback_locale_enabled, '0' when absent. So absent and '0' disable it, and '1' enables it |
| ReadConfigs.FallbackTruthyNotForced | src/Config/ReadConfig.php:102-116 | 'true' enables fallback yet keeps a caller's include_empty_translations of '0' |
| ReadConfigs.ReadFromEmptyDsn | src/Config/ReadConfig.php:98-117 | no read options give exactly the defaults, with fallback off |
| ReadConfigs.ReadConfig.FromDsn | src/Config/ReadConfig.php:98-117 | a new object holding the built options and flag, or the error |
| ReadConfigs.ReadConfig.WithTag | src/Config/ReadConfig.php:71-76 | returns the same object; tags is set to the tag, every other key keeps its value, and a new key goes last |
| ReadConfigs.ReadConfig.WithFallbackLocale | src/Config/ReadConfig.php:83-88 | returns the same object; fallback_locale_id is set, every other key keeps its value, and a new key goes last |
| WriteConfigs.WriteDefaultsFacts | src/Config/WriteConfig.php:52-55 | the write defaults list file_format, update_translations, without duplicates |
| WriteConfigs.WriteFromDsnKeys | src/Config/WriteConfig.php:87-98 | the keys are the defaults', then the caller's other unprotected keys in order, with no duplicate |
| WriteConfigs.WriteValueSource | src/Config/WriteConfig.php:87-98 | each value is the caller's unprotected value or the default |
| WriteConfigs.WriteFileFormatForced | src/Config/WriteConfig.php:92-95 | file_format is always symfony_xliff |
| WriteConfigs.WriteDroppedKey | src/Config/WriteConfig.php:92 | tags, locale_id and file given by the caller are absent |
| WriteConfigs.WriteUpdateTranslations | src/Config/WriteConfig.php:95 | update_translations is the caller's value, '1' when absent |
| WriteConfigs.WriteCallerValue | src/Config/WriteConfig.php:95 | every other caller key keeps its value |
| WriteConfigs.WriteFromDsnWellFormed | src/Config/WriteConfig.php:87-98 | well-formed options give a well-formed result |
| WriteConfigs.WriteFromEmptyDsn | src/Config/WriteConfig.php:87-98 | no write options give exactly the defaults |
| WriteConfigs.WriteConfig.FromDsn | src/Config/WriteConfig.php:87-98 | a new object holding the built options |
| WriteConfigs.WriteConfig.WithTag | src/Config/WriteConfig.php:65-70 | returns the same object; tags is set, every other key keeps its value, and a new key goes last |
| WriteConfigs.WriteConfig.WithLocale | src/Config/WriteConfig.php:72-77 | returns the same object; locale_id is set, every other key keeps its value, and a new key goes last |
| WriteSpec.UploadFieldsFacts | src/PhraseProvider.php:148 | the fields set tags to the domain and locale_id to the remote id, and keep every other write option, with no duplicate |
| WriteSpec.PostFacts | src/PhraseProvider.php:148-161 | one upload is one request carrying those fields, which stay set. Success iff the status is 201; any other status is logged once under the domain and classified with the upload message |
| WriteSpec.UploadDomainFrame | src/PhraseProvider.php:143-161 | one domain extends the trace, logs at most once, and tags its upload with the domain |
| WriteSpec.UploadDomainUploads | src/PhraseProvider.php:143-161 | at most one upload, always on success. It is addressed to the id stored under the translated locale code |
| WriteSpec.WriteDomainsFrame | src/PhraseProvider.php:138-162 | the domain loop extends the trace and logs at most once |
| WriteSpec.WriteDomainsUploads | src/PhraseProvider.php:138-162 | the uploads follow the catalogue's non-empty domains: all of them on success, a prefix on error |
| WriteSpec.WriteCataloguesFrame | src/PhraseProvider.php:136-163 | the catalogue loop extends the trace and logs at most once |
| WriteSpec.WriteCataloguesUploads | src/PhraseProvider.php:136-163 | the uploads are the non-empty (domain, locale) pairs in order, cut short by an error |
| WriteSpec.WriteAllUploads | src/PhraseProvider.php:126-164 | `write` uploads once per non-empty pair of the listener's bag, in order, each tagged with its domain. An error stops it after at most one log line |
| WriteSpec.WriteDomainsStops | src/PhraseProvider.php:138-162 | the domain loop fails only when the step of some non-empty domain `d` fails. That step started after exactly the uploads of the non-empty domains before `d`. The loop ends in that step's state, with its error, and issues nothing after it |
| WriteSpec.WriteCataloguesStops | src/PhraseProvider.php:136-163 | the catalogue loop fails only when the domain loop of some catalogue `c` fails. That loop started after exactly the uploads of the catalogues before `c`, and the catalogue loop ends in its state |
| WriteSpec.WriteAllStops | src/PhraseProvider.php:126-164 | a failed `write` is the failure of one step, for a non-empty domain of the listener's bag. That step started after exactly the uploads of every non-empty pair before it. `write` ends in that step's state, with its error, and no request follows it |
| WriteSpec.UploadDomainAnswered | src/PhraseProvider.php:143-161 | a successful step answered every request it issued, in order |
| WriteSpec.WriteDomainsAnswered | src/PhraseProvider.php:138-162 | a successful domain loop answered every request it issued, in order |
| WriteSpec.WriteCataloguesAnswered | src/PhraseProvider.php:136-163 | a successful catalogue loop answered every request it issued, in order |
| WriteSpec.WriteAllAnswered | src/PhraseProvider.php:126-164 | a successful `write` answered every request it issued, in order, so no step that found the transport dry was passed over |
| WriteSpec.EmptyDomainsSilent | src/PhraseProvider.php:139-141 | a catalogue whose remaining domains are empty is written with no request and no change |
| WriteSpec.EmptyBagSilent | src/PhraseProvider.php:136-163 | a bag whose domains are all empty is written with no request and no change |
| DeleteSpec.EscapeAll | src/PhraseProvider.php:179 | one escaped name per key, position by position |
| DeleteSpec.DeleteRequests | src/PhraseProvider.php:182-186 | one `name:` query per name, position by position |
| DeleteSpec.FirstOccurrencesIn | src/PhraseProvider.php:178 | the first occurrences hold exactly the keys of the list |
| DeleteSpec.UniqueFromPrefix | src/PhraseProvider.php:178 | deduplicating the rest of a list after its prefix's first occurrences gives the first occurrences of the whole |
| DeleteSpec.UniqueFirstOccurrences | src/PhraseProvider.php:178 | `array_unique` keeps exactly the first occurrence of each key, in order |
| DeleteSpec.UniqueFacts | src/PhraseProvider.php:178 | the result has no repeat, holds exactly the kept and given keys, and extends what was kept |
| DeleteSpec.UniqueDistinct | src/PhraseProvider.php:178 | the result is without repeats and holds the same keys |
| DeleteSpec.UniqueOfDistinct | src/PhraseProvider.php:178 | a list without repeats is left as it is |
| DeleteSpec.UniqueIdempotent | src/PhraseProvider.php:178 | deduplicating twice is deduplicating once |
| DeleteSpec.EscapeRoundTrip | src/PhraseProvider.php:179 | unescaping an escaped key gives back the key |
| DeleteSpec.EscapeShape | src/PhraseProvider.php:179 | the escaped name is no shorter, and every separator in it has two backslashes in front |
| DeleteSpec.EscapeAppend | src/PhraseProvider.php:179 | escaping distributes over concatenation |
| DeleteSpec.EscapePlain | src/PhraseProvider.php:179 | a key without separators is its own escape |
| DeleteSpec.DeleteFromFrame | src/PhraseProvider.php:181-193 | the delete loop touches only the transport and the log, and logs at most once |
| DeleteSpec.DeleteFromTrace | src/PhraseProvider.php:181-193 | the requests follow the names in order: all on success, a non-empty prefix on error |
| DeleteSpec.DeleteOneFacts | src/PhraseProvider.php:182-191 | one deletion sends one `name:` request; it succeeds exactly when a 200 response is left; a missing response fails without a log line; another status logs the name and the body once and raises the classified error |
| DeleteSpec.DeleteFromSucceeds | src/PhraseProvider.php:181-193 | the loop succeeds exactly when a 200 response is left for every remaining name |
| DeleteSpec.DeleteFromStopsTrace | src/PhraseProvider.php:181-193 | at the first name whose response is missing or not 200 the loop fails, having requested exactly the names up to and including it |
| DeleteSpec.DeleteFromStops | src/PhraseProvider.php:181-193 | at that stop, a missing response gives `TransportExhausted` and no log line; another status gives the classified error and one log line under that name |
| DeleteSpec.DeleteFromLog | src/PhraseProvider.php:188-191 | a rejected deletion logs one line, under the escaped name last requested |
| DeleteSpec.DeleteAllRequests | src/PhraseProvider.php:166-194 | `delete` requests the distinct keys escaped, in first-occurrence order: every one of them on success, a non-empty prefix on error. It touches nothing but the transport and the log |
| DeleteSpec.DeleteAllSucceeds | src/PhraseProvider.php:166-194 | `delete` succeeds exactly when a 200 response is left for every distinct key |
| DeleteSpec.DeleteAllStops | src/PhraseProvider.php:166-194 | `delete` stops at the first distinct key whose response is missing or not 200: it has requested the escaped keys up to and including that one, in first-occurrence order, and none after; a rejection is logged once under that name with the classified error |
| DeleteSpec.DeleteNamesDistinct | src/PhraseProvider.php:178-179 | no two deletions name the same key |
| DeleteSpec.TestBagKeys | tests/PhraseProviderTest.php:650-666 | the delete data set's keys, catalogue by catalogue, with the shared key twice |
| DeleteSpec.DeleteTestNames | tests/PhraseProviderTest.php:650-687 | the shared key is deleted once, before the other key |
| DeleteSpec.DeleteTestEscapeFirst | tests/PhraseProviderTest.php:669-671 | "delete this,erroneous:key" escapes its space, comma and colon |
| DeleteSpec.DeleteTestEscapeSecond | tests/PhraseProviderTest.php:679-680 | "another:erroneous:key" escapes both colons |
| DeleteSpec.DeleteTestScenario | tests/PhraseProviderTest.php:650-698 | with two accepted deletions, `delete` succeeds with exactly those two escaped requests |
| Provider.Transport.Issue | src/PhraseProvider.php:97-100 | the request joins the trace; the next response is taken from the script, none when it is empty |
| Provider.CachePool.Save | src/PhraseProvider.php:114-115 | the key now holds the cached response |
| Provider.LocaleDirectory.Store | src/PhraseProvider.php:264 | the record is stored under its name, replacing any earlier one |
| Provider.PhraseProvider.ResetPhraseLocales | src/PhraseProvider.php:196-199 | the state after the call is `ResetSpec` of the state before |
| Provider.PhraseProvider.InitLocales | src/PhraseProvider.php:267-295 | the loop over pages ends in the state and result of `InitFrom` from page 1 |
| Provider.PhraseProvider.CreateLocale | src/PhraseProvider.php:242-265 | state and result are `CreateSpec`'s |
| Provider.PhraseProvider.GetLocale | src/PhraseProvider.php:220-233 | state and result are `GetLocaleSpec`'s |
| Provider.PhraseProvider.TagQuery | src/PhraseProvider.php:86-90 | the read config now holds the download query, which is returned |
| Provider.PhraseProvider.ReceiveOne | src/PhraseProvider.php:102-116 | state and result are `Receive`'s for the given response |
| Provider.PhraseProvider.ReadOne | src/PhraseProvider.php:86-116 | state and result are `ReadDomain`'s |
| Provider.PhraseProvider.Read | src/PhraseProvider.php:76-124 | the nested loops end in the state and result of `ReadAll` |
| Provider.PhraseProvider.TagFields | src/PhraseProvider.php:148 | the write config now holds the upload fields, which are returned |
| Provider.PhraseProvider.PostOne | src/PhraseProvider.php:148-161 | state and result are `Post`'s |
| Provider.PhraseProvider.UploadOne | src/PhraseProvider.php:143-161 | state and result are `UploadDomain`'s |
| Provider.PhraseProvider.Write | src/PhraseProvider.php:126-164 | the nested loops end in the state and result of `WriteAll` |
| Provider.PhraseProvider.GatherKeys | src/PhraseProvider.php:168-176 | the keys of every domain of every catalogue, in order |
| Provider.PhraseProvider.GatherDomainKeys | src/PhraseProvider.php:172-175 | the keys of every domain of one catalogue, in order |
| Provider.PhraseProvider.DeleteNames | src/PhraseProvider.php:181-193 | the loop ends in the state and result of `DeleteFrom` |
| Provider.PhraseProvider.Delete | src/PhraseProvider.php:166-194 | state and result are `DeleteAll`'s |

## Left out

- HTTP transport, multipart encoding and JSON decoding are not modelled. The client is a finite script of responses, each carrying a decoded payload, and a request made after the script runs out fails with `TransportExhausted`. This also bounds the pagination loop.
- `sha1(serialize(...))` is a parameter (`digest`) of the cache key. Serialisation and hashing are not modelled.
- The cache pool is a map from keys to items, so every key can be looked up. `getItem` throws `InvalidArgumentException` (src/PhraseProvider.php:74, :93) for a key that holds one of the PSR-6 reserved characters `{}()/\@:`. That happens when a locale or domain name holds such a character, and then `read` fails before it requests that download. This error path is not modelled, so `ReadDomain`, `ReadAll` and `PhraseProvider.Read` never fail this way.
- The XLIFF loader and dumper, the file part of an upload, and its date-stamped file name are left out. A loaded file is its locale, domain and raw content. An upload records its fields, domain and catalogue locale.
- Log lines record their call site, their subject and the response body, not the formatted text.
- The event dispatcher is modelled as two listener functions that may replace the bag.
- `__toString` and the endpoint, the factory and DSN parsing are left out. The option sets start from already parsed `read` and `write` option maps.
- Concurrency and the static directory shared across provider instances are left out. The directory is one object that every provider method uses.
- PhpSort.ValueLess: PHP 8 comparison is restricted to the values an option set holds: strings compare lexicographically, every string is below every array, and arrays compare by their count. Numeric-string comparison, and the comparison of two arrays with the same count, are not modelled.
- PHP integer keys, arrays nested more than one level, and the numeric-string-to-integer key conversion in `array_keys` are not modelled.
- The translator bag is a sequence of catalogues. Merging catalogues by locale and ICU message domains are not modelled.
- PhraseCache.CacheKeyReorder: only orderings without tied values are proved to give one key, because `array_multisort` sorts by value and keeps tied values in their given order (see `PhraseCache.TiedValuesKeepOrder`).
- DeleteSpec.DeleteFromTrace: states the requests only. When the loop succeeds and where it stops are stated by `DeleteSpec.DeleteFromSucceeds` and `DeleteSpec.DeleteFromStops`.
- DeleteSpec.DeleteAllRequests: the same; `DeleteSpec.DeleteAllSucceeds` and `DeleteSpec.DeleteAllStops` state success and the stop point.
- ReadSpec.ReadLocalesOrder: states the order only on success. When the loop fails and where it stops is stated by `ReadSpec.ReadLocalesStops`, and that a success answered every request by `ReadSpec.ReadLocalesAnswered`.
- ReadSpec.ReadAllOrder: ties the success of `read` to that of its loops. `ReadSpec.ReadAllStops` says how they fail and `ReadSpec.ReadAllAnswered` what a success took.
- WriteSpec.WriteCataloguesUploads: states the uploads, not when the loop fails. `WriteSpec.WriteCataloguesStops` and `WriteSpec.WriteCataloguesAnswered` do.
- WriteSpec.WriteAllUploads: states the uploads, not when `write` fails. `WriteSpec.WriteAllStops` says that it ends at the one failed step, and `WriteSpec.WriteAllAnswered` that a success answered every request.
- WriteSpec.WriteAllStops: the converse, that a failing step always fails the loop, is covered only in part. An ignored error status would still appear as a log line (`LogsOnce`), and an ignored dry transport as an unanswered request (`WriteSpec.WriteAllAnswered`). An ignored decoding error or missing locale id is excluded only by the definition of `WriteAll`.
- ReadSpec.ReadAllStops: the same holds for `read`. An ignored decoding error, refused 304, missing cache header or missing locale id is excluded only by the definition of `ReadAll`.
- Response headers keep only their first value. A missing `etag` or `last-modified` on a response whose download is cached is a `TypeError`, as under strict types. A missing rate-limit header is formatted as the empty string.
- A 304 answered to a request without `If-None-Match` fails with `Redirection(304)`, which is what `getContent()` throws for a 3xx status.
