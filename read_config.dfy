/**
 * The read option set: the query parameters of every download request,
 * built once from the connection's `read` options and then adjusted per
 * request by `WithTag` and `WithFallbackLocale`.
 */
module ReadConfigs {
  import opened Wrappers
  import opened OptionMaps

  const FormatOptionDefaults: seq<(string, string)> := [("enclose_in_cdata", "1")]

  const ReadDefaults: OptionMap := [
    ("file_format", Str("symfony_xliff")),
    ("include_empty_translations", Str("1")),
    ("tags", Arr([])),
    ("format_options", Arr(FormatOptionDefaults))
  ]

  const ReadDefaultKeys: seq<string> := ["file_format", "include_empty_translations", "tags", "format_options"]

  /** Keys the caller cannot set through the connection options. */
  const ReadProtected: seq<string> := ["file_format", "tags", "tag", "fallback_locale_id", "fallback_locale_enabled"]

  datatype ReadSettings = ReadSettings(options: OptionMap, fallbackEnabled: bool)

  /** `array_merge` refuses a `format_options` that is not an array. */
  datatype ConfigError = FormatOptionsNotArray

  /** PHP's `(bool)` cast of an option value. */
  function Truthy(v: Value): bool
  {
    match v
    case Str(s) => s != "" && s != "0"
    case Arr(e) => e != []
  }

  /** With fallback enabled as exactly '1', a given `include_empty_translations` becomes '1'. */
  function EnforceEmptyTranslations(read: OptionMap): OptionMap
  {
    if Get(read, "fallback_locale_enabled") == Some(Str("1")) && "include_empty_translations" in Keys(read)
    then Put(read, "include_empty_translations", Str("1"))
    else read
  }

  /** The caller's options without the protected keys. */
  function Unprotected(read: OptionMap): OptionMap
  {
    RemoveKeys(EnforceEmptyTranslations(read), ReadProtected)
  }

  /** `ReadConfig::fromDsn` */
  function BuildRead(read: OptionMap): Result<ReadSettings, ConfigError>
  {
    var fallback := GetOr(read, "fallback_locale_enabled", Str("0"));
    var options := Unprotected(read);
    match GetOr(options, "format_options", Arr([]))
    case Str(_) => Failure(FormatOptionsNotArray)
    case Arr(callerFormat) => Success(ReadSettings(Assemble(options, callerFormat), Truthy(fallback)))
  }

  /** The defaults merged under the caller's options, `format_options` merged one level down. */
  function Assemble(options: OptionMap, callerFormat: seq<(string, string)>): OptionMap
  {
    Merge(ReadDefaults, WithFormat(options, callerFormat))
  }

  function WithFormat(options: OptionMap, callerFormat: seq<(string, string)>): OptionMap
  {
    Put(options, "format_options", Arr(Merge(FormatOptionDefaults, callerFormat)))
  }

  lemma ReadDefaultsKeys()
    ensures Keys(ReadDefaults) == ReadDefaultKeys
  {
    assert Keys(ReadDefaults)[0] == "file_format";
    assert Keys(ReadDefaults)[1] == "include_empty_translations";
    assert Keys(ReadDefaults)[2] == "tags";
    assert Keys(ReadDefaults)[3] == "format_options";
  }

  lemma ReadDefaultsWellFormed()
    ensures WellFormed(ReadDefaults)
  {
    assert Keys(FormatOptionDefaults) == ["enclose_in_cdata"];
  }

  lemma EnforceFacts(read: OptionMap)
    requires NoDupKeys(read)
    ensures NoDupKeys(EnforceEmptyTranslations(read))
    ensures Keys(EnforceEmptyTranslations(read)) == Keys(read)
  {
    if EnforceEmptyTranslations(read) != read {
      PutNoDup(read, "include_empty_translations", Str("1"));
      PutKeys(read, "include_empty_translations", Str("1"));
    }
  }

  lemma EnforceGet(read: OptionMap, k: string)
    ensures Get(EnforceEmptyTranslations(read), k) ==
      if k == "include_empty_translations" && Get(read, "fallback_locale_enabled") == Some(Str("1")) && k in Keys(read)
      then Some(Str("1"))
      else Get(read, k)
  {
    PutGet(read, "include_empty_translations", Str("1"), k);
  }

  lemma UnprotectedFacts(read: OptionMap)
    requires NoDupKeys(read)
    ensures NoDupKeys(Unprotected(read))
    ensures Keys(Unprotected(read)) == Without(Keys(read), ReadProtected)
  {
    EnforceFacts(read);
    RemoveKeysNoDup(EnforceEmptyTranslations(read), ReadProtected);
    RemoveKeysKeys(EnforceEmptyTranslations(read), ReadProtected);
  }

  lemma UnprotectedGet(read: OptionMap, k: string)
    ensures Get(Unprotected(read), k) == if k in ReadProtected then None else Get(EnforceEmptyTranslations(read), k)
  {
    RemoveKeysGet(EnforceEmptyTranslations(read), ReadProtected, k);
  }

  lemma AssembleFacts(options: OptionMap, callerFormat: seq<(string, string)>)
    requires NoDupKeys(options)
    ensures NoDupKeys(Assemble(options, callerFormat))
    ensures Keys(Assemble(options, callerFormat)) == ReadDefaultKeys + Without(Keys(options), ReadDefaultKeys)
  {
    var fo := Arr(Merge(FormatOptionDefaults, callerFormat));
    var w := WithFormat(options, callerFormat);
    ReadDefaultsKeys();
    ReadDefaultsWellFormed();
    PutNoDup(options, "format_options", fo);
    PutKeys(options, "format_options", fo);
    MergeKeys(ReadDefaults, w);
    MergeNoDup(ReadDefaults, w);
    if "format_options" !in Keys(options) {
      WithoutAppendDropped(Keys(options), ReadDefaultKeys, "format_options");
    }
  }

  lemma AssembleGet(options: OptionMap, callerFormat: seq<(string, string)>, k: string)
    requires NoDupKeys(options)
    ensures Get(Assemble(options, callerFormat), k) ==
      if k == "format_options" then Some(Arr(Merge(FormatOptionDefaults, callerFormat)))
      else if k in Keys(options) then Get(options, k)
      else Get(ReadDefaults, k)
  {
    var fo := Arr(Merge(FormatOptionDefaults, callerFormat));
    var w := WithFormat(options, callerFormat);
    PutNoDup(options, "format_options", fo);
    PutKeys(options, "format_options", fo);
    MergeGet(ReadDefaults, w, k);
    PutGet(options, "format_options", fo, k);
  }

  lemma {:induction false} WithoutAppendDropped(ks: seq<string>, drop: seq<string>, x: string)
    requires x in drop
    ensures Without(ks + [x], drop) == Without(ks, drop)
  {
    if ks == [] {
      assert [] + [x] == [x];
    } else {
      assert (ks + [x])[0] == ks[0] && (ks + [x])[1..] == ks[1..] + [x];
      WithoutAppendDropped(ks[1..], drop, x);
    }
  }

  /** `fromDsn` fails exactly when the caller's `format_options` is a plain string. */
  lemma ReadFromDsnFails(read: OptionMap)
    ensures BuildRead(read).Failure? <==> Get(read, "format_options").Some? && Get(read, "format_options").value.Str?
  {
    UnprotectedFormat(read);
  }

  /** 'format_options' is not protected and not overridden. */
  lemma UnprotectedFormat(read: OptionMap)
    ensures Get(Unprotected(read), "format_options") == Get(read, "format_options")
  {
    UnprotectedGet(read, "format_options");
    EnforceGet(read, "format_options");
  }

  /** The caller's nested 'format_options' entries, an empty list when absent. */
  function CallerFormat(read: OptionMap): seq<(string, string)>
  {
    var v := GetOr(Unprotected(read), "format_options", Arr([]));
    if v.Arr? then v.entries else []
  }

  lemma BuildReadShape(read: OptionMap)
    requires BuildRead(read).Success?
    ensures BuildRead(read).value.options == Assemble(Unprotected(read), CallerFormat(read))
  {
  }

  /** The result's keys: the defaults first, in their order, then the caller's unprotected keys in theirs. */
  lemma ReadFromDsnKeys(read: OptionMap)
    requires NoDupKeys(read) && BuildRead(read).Success?
    ensures NoDupKeys(BuildRead(read).value.options)
    ensures Keys(BuildRead(read).value.options) == ReadDefaultKeys + Without(Keys(read), ReadProtected + ReadDefaultKeys)
  {
    BuildReadShape(read);
    UnprotectedFacts(read);
    AssembleFacts(Unprotected(read), CallerFormat(read));
    WithoutTwice(Keys(read), ReadProtected, ReadDefaultKeys);
  }

  /** Where a value of a successful result comes from. */
  lemma ReadValueSource(read: OptionMap, k: string)
    requires NoDupKeys(read) && BuildRead(read).Success?
    requires k != "format_options"
    ensures Get(BuildRead(read).value.options, k) ==
      if k in Keys(read) && k !in ReadProtected then Get(EnforceEmptyTranslations(read), k) else Get(ReadDefaults, k)
  {
    BuildReadShape(read);
    UnprotectedFacts(read);
    AssembleGet(Unprotected(read), CallerFormat(read), k);
    UnprotectedGet(read, k);
  }

  /** A protected key takes its default, or is absent, whatever the caller gave. */
  lemma ReadProtectedValue(read: OptionMap, k: string)
    requires NoDupKeys(read) && BuildRead(read).Success?
    requires k in ReadProtected
    ensures Get(BuildRead(read).value.options, k) == Get(ReadDefaults, k)
  {
    ReadValueSource(read, k);
  }

  /** 'file_format' is always 'symfony_xliff'. */
  lemma ReadFileFormatForced(read: OptionMap)
    requires NoDupKeys(read) && BuildRead(read).Success?
    ensures Get(BuildRead(read).value.options, "file_format") == Some(Str("symfony_xliff"))
  {
    ReadProtectedValue(read, "file_format");
  }

  /** 'tags' is always the empty list; a tag is only ever set per request. */
  lemma ReadTagsCleared(read: OptionMap)
    requires NoDupKeys(read) && BuildRead(read).Success?
    ensures Get(BuildRead(read).value.options, "tags") == Some(Arr([]))
  {
    ReadProtectedValue(read, "tags");
  }

  /** 'include_empty_translations' is '1' when fallback is exactly '1', else the caller's value, else '1'. */
  lemma ReadIncludeEmpty(read: OptionMap)
    requires NoDupKeys(read) && BuildRead(read).Success?
    ensures Get(BuildRead(read).value.options, "include_empty_translations") ==
      if Get(read, "fallback_locale_enabled") == Some(Str("1")) then Some(Str("1"))
      else Some(GetOr(read, "include_empty_translations", Str("1")))
  {
    var k := "include_empty_translations";
    assert k !in ReadProtected;
    assert Get(ReadDefaults, k) == Some(Str("1"));
    ReadValueSource(read, k);
    EnforceGet(read, k);
  }

  /** Every other caller key keeps the caller's value. */
  lemma ReadCallerValue(read: OptionMap, k: string)
    requires NoDupKeys(read) && BuildRead(read).Success?
    requires k !in ReadProtected && k !in ReadDefaultKeys
    ensures Get(BuildRead(read).value.options, k) == Get(read, k)
  {
    ReadDefaultsKeys();
    ReadValueSource(read, k);
    EnforceGet(read, k);
  }

  /** The nested merge: 'enclose_in_cdata' comes first and defaults to '1'; the caller's keys win and follow in their order. */
  lemma FormatOptionsMerge(caller: seq<(string, string)>)
    requires NoDupKeys(caller)
    ensures NoDupKeys(Merge(FormatOptionDefaults, caller))
    ensures Keys(Merge(FormatOptionDefaults, caller)) == ["enclose_in_cdata"] + Without(Keys(caller), ["enclose_in_cdata"])
    ensures Get(Merge(FormatOptionDefaults, caller), "enclose_in_cdata") == Some(GetOr(caller, "enclose_in_cdata", "1"))
    ensures forall k :: k in Keys(caller) ==> Get(Merge(FormatOptionDefaults, caller), k) == Get(caller, k)
  {
    assert Keys(FormatOptionDefaults) == ["enclose_in_cdata"];
    MergeNoDup(FormatOptionDefaults, caller);
    MergeKeys(FormatOptionDefaults, caller);
    MergeGet(FormatOptionDefaults, caller, "enclose_in_cdata");
    forall k | k in Keys(caller) ensures Get(Merge(FormatOptionDefaults, caller), k) == Get(caller, k) {
      MergeGet(FormatOptionDefaults, caller, k);
    }
  }

  /** The nested entries merged are the caller's own 'format_options', or none. */
  lemma CallerFormatOf(read: OptionMap)
    requires BuildRead(read).Success?
    ensures GetOr(read, "format_options", Arr([])).Arr?
    ensures CallerFormat(read) == GetOr(read, "format_options", Arr([])).entries
    ensures WellFormed(read) ==> NoDupKeys(CallerFormat(read))
  {
    UnprotectedFormat(read);
    if Get(read, "format_options").Some? {
      assert ("format_options", Get(read, "format_options").value) in read;
    }
  }

  /** 'format_options' of the result is the nested merge of the defaults and the caller's entries. */
  lemma ReadFormatOptions(read: OptionMap)
    requires NoDupKeys(read) && BuildRead(read).Success?
    ensures Get(BuildRead(read).value.options, "format_options") == Some(Arr(Merge(FormatOptionDefaults, CallerFormat(read))))
  {
    BuildReadShape(read);
    UnprotectedFacts(read);
    AssembleGet(Unprotected(read), CallerFormat(read), "format_options");
  }

  lemma UnprotectedWellFormed(read: OptionMap)
    requires WellFormed(read)
    ensures WellFormed(Unprotected(read))
  {
    UnprotectedFacts(read);
    RemoveKeysEntries(EnforceEmptyTranslations(read), ReadProtected);
    PutEntries(read, "include_empty_translations", Str("1"));
  }

  lemma AssembleWellFormed(options: OptionMap, callerFormat: seq<(string, string)>)
    requires WellFormed(options) && NoDupKeys(callerFormat)
    ensures WellFormed(Assemble(options, callerFormat))
  {
    AssembleFacts(options, callerFormat);
    FormatOptionsMerge(callerFormat);
    ReadDefaultsWellFormed();
    var fo := Arr(Merge(FormatOptionDefaults, callerFormat));
    PutEntries(options, "format_options", fo);
    MergeEntries(ReadDefaults, WithFormat(options, callerFormat));
  }

  /** A successful result is again a well-formed option set. */
  lemma ReadFromDsnWellFormed(read: OptionMap)
    requires WellFormed(read) && BuildRead(read).Success?
    ensures WellFormed(BuildRead(read).value.options)
  {
    BuildReadShape(read);
    UnprotectedWellFormed(read);
    CallerFormatOf(read);
    AssembleWellFormed(Unprotected(read), CallerFormat(read));
  }

  /** `isFallbackLocaleEnabled` is the boolean cast of 'fallback_locale_enabled', '0' when absent. */
  lemma ReadFallbackFlag(read: OptionMap)
    requires BuildRead(read).Success?
    ensures BuildRead(read).value.fallbackEnabled == Truthy(GetOr(read, "fallback_locale_enabled", Str("0")))
    ensures Get(read, "fallback_locale_enabled") == None ==> !BuildRead(read).value.fallbackEnabled
    ensures Get(read, "fallback_locale_enabled") == Some(Str("0")) ==> !BuildRead(read).value.fallbackEnabled
    ensures Get(read, "fallback_locale_enabled") == Some(Str("1")) ==> BuildRead(read).value.fallbackEnabled
  {
  }

  /**
   * The override compares with '1' while the flag is a boolean cast: the value
   * 'true' enables fallback but keeps a caller's 'include_empty_translations' of '0'.
   */
  lemma FallbackTruthyNotForced()
    ensures var read := [("include_empty_translations", Str("0")), ("fallback_locale_enabled", Str("true"))];
      && BuildRead(read).Success?
      && BuildRead(read).value.fallbackEnabled
      && Get(BuildRead(read).value.options, "include_empty_translations") == Some(Str("0"))
  {
    var read := [("include_empty_translations", Str("0")), ("fallback_locale_enabled", Str("true"))];
    assert Get(read, "fallback_locale_enabled") == Some(Str("true"));
    assert Get(read, "include_empty_translations") == Some(Str("0"));
    assert Get(read, "format_options") == None;
    ReadFromDsnFails(read);
    ReadIncludeEmpty(read);
  }

  /** With no read options at all the result is exactly the defaults, fallback off. */
  lemma ReadFromEmptyDsn()
    ensures BuildRead([]) == Success(ReadSettings(ReadDefaults, false))
  {
    assert Unprotected([]) == [];
    assert Merge(FormatOptionDefaults, []) == FormatOptionDefaults;
    var w := WithFormat([], []);
    assert w == [("format_options", Arr(FormatOptionDefaults))];
    var v := Arr(FormatOptionDefaults);
    assert Put(ReadDefaults[3..], "format_options", v) == ReadDefaults[3..];
    assert Put(ReadDefaults[2..], "format_options", v) == [ReadDefaults[2]] + ReadDefaults[3..];
    assert Put(ReadDefaults[1..], "format_options", v) == [ReadDefaults[1]] + ReadDefaults[2..];
    assert Put(ReadDefaults, "format_options", v) == [ReadDefaults[0]] + ReadDefaults[1..];
    assert Merge(ReadDefaults, w) == Merge(ReadDefaults, []);
  }

  /** The read option set of the provider: updated in place by the fluent `with` methods. */
  class ReadConfig {
    var options: OptionMap
    const fallbackEnabled: bool

    constructor (settings: ReadSettings)
      ensures options == settings.options && fallbackEnabled == settings.fallbackEnabled
    {
      options := settings.options;
      fallbackEnabled := settings.fallbackEnabled;
    }

    /** `ReadConfig::fromDsn` */
    static method FromDsn(read: OptionMap) returns (r: Result<ReadConfig, ConfigError>)
      ensures BuildRead(read).Failure? ==> r == Failure(BuildRead(read).error)
      ensures BuildRead(read).Success? ==>
        && r.Success? && fresh(r.value)
        && r.value.options == BuildRead(read).value.options
        && r.value.fallbackEnabled == BuildRead(read).value.fallbackEnabled
    {
      match BuildRead(read)
      case Failure(e) =>
        r := Failure(e);
      case Success(settings) =>
        var config := new ReadConfig(settings);
        r := Success(config);
    }

    function GetOptions(): OptionMap
      reads this
    {
      options
    }

    function IsFallbackLocaleEnabled(): bool
    {
      fallbackEnabled
    }

    /** Sets 'tags' and nothing else. */
    method WithTag(tag: string) returns (self: ReadConfig)
      modifies this
      ensures self == this
      ensures options == Put(old(options), "tags", Str(tag))
      ensures Get(options, "tags") == Some(Str(tag))
      ensures forall k :: k != "tags" ==> Get(options, k) == Get(old(options), k)
      ensures Keys(options) == if "tags" in Keys(old(options)) then Keys(old(options)) else Keys(old(options)) + ["tags"]
      ensures NoDupKeys(old(options)) ==> NoDupKeys(options)
    {
      forall k ensures Get(Put(options, "tags", Str(tag)), k) == if k == "tags" then Some(Str(tag)) else Get(options, k) {
        PutGet(options, "tags", Str(tag), k);
      }
      PutKeys(options, "tags", Str(tag));
      if NoDupKeys(options) {
        PutNoDup(options, "tags", Str(tag));
      }
      options := Put(options, "tags", Str(tag));
      self := this;
    }

    /** Sets 'fallback_locale_id' and nothing else; a new key goes last. */
    method WithFallbackLocale(locale: string) returns (self: ReadConfig)
      modifies this
      ensures self == this
      ensures options == Put(old(options), "fallback_locale_id", Str(locale))
      ensures Get(options, "fallback_locale_id") == Some(Str(locale))
      ensures forall k :: k != "fallback_locale_id" ==> Get(options, k) == Get(old(options), k)
      ensures Keys(options) == if "fallback_locale_id" in Keys(old(options)) then Keys(old(options)) else Keys(old(options)) + ["fallback_locale_id"]
      ensures NoDupKeys(old(options)) ==> NoDupKeys(options)
    {
      forall k ensures Get(Put(options, "fallback_locale_id", Str(locale)), k) == if k == "fallback_locale_id" then Some(Str(locale)) else Get(options, k) {
        PutGet(options, "fallback_locale_id", Str(locale), k);
      }
      PutKeys(options, "fallback_locale_id", Str(locale));
      if NoDupKeys(options) {
        PutNoDup(options, "fallback_locale_id", Str(locale));
      }
      options := Put(options, "fallback_locale_id", Str(locale));
      self := this;
    }
  }
}
