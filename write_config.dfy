/**
 * The write option set: the form fields of every upload request, built once
 * from the connection's `write` options and then completed per upload by
 * `WithTag` and `WithLocale`.
 */
module WriteConfigs {
  import opened Wrappers
  import opened OptionMaps

  const WriteDefaults: OptionMap := [
    ("file_format", Str("symfony_xliff")),
    ("update_translations", Str("1"))
  ]

  const WriteDefaultKeys: seq<string> := ["file_format", "update_translations"]

  /** Keys the caller cannot set through the connection options. */
  const WriteProtected: seq<string> := ["file_format", "tags", "locale_id", "file"]

  /** `WriteConfig::fromDsn` */
  function BuildWrite(write: OptionMap): OptionMap
  {
    Merge(WriteDefaults, RemoveKeys(write, WriteProtected))
  }

  lemma WriteDefaultsFacts()
    ensures Keys(WriteDefaults) == WriteDefaultKeys
    ensures WellFormed(WriteDefaults)
  {
    assert Keys(WriteDefaults)[0] == "file_format";
    assert Keys(WriteDefaults)[1] == "update_translations";
  }

  /** The result's keys: the defaults first, then the caller's unprotected keys in their order. */
  lemma WriteFromDsnKeys(write: OptionMap)
    requires NoDupKeys(write)
    ensures NoDupKeys(BuildWrite(write))
    ensures Keys(BuildWrite(write)) == WriteDefaultKeys + Without(Keys(write), WriteProtected + WriteDefaultKeys)
  {
    var options := RemoveKeys(write, WriteProtected);
    WriteDefaultsFacts();
    RemoveKeysNoDup(write, WriteProtected);
    RemoveKeysKeys(write, WriteProtected);
    MergeKeys(WriteDefaults, options);
    MergeNoDup(WriteDefaults, options);
    WithoutTwice(Keys(write), WriteProtected, WriteDefaultKeys);
  }

  /** Where a value of the result comes from. */
  lemma WriteValueSource(write: OptionMap, k: string)
    requires NoDupKeys(write)
    ensures Get(BuildWrite(write), k) ==
      if k in Keys(write) && k !in WriteProtected then Get(write, k) else Get(WriteDefaults, k)
  {
    var options := RemoveKeys(write, WriteProtected);
    RemoveKeysNoDup(write, WriteProtected);
    RemoveKeysKeys(write, WriteProtected);
    MergeGet(WriteDefaults, options, k);
    RemoveKeysGet(write, WriteProtected, k);
  }

  /** 'file_format' is always 'symfony_xliff'. */
  lemma WriteFileFormatForced(write: OptionMap)
    requires NoDupKeys(write)
    ensures Get(BuildWrite(write), "file_format") == Some(Str("symfony_xliff"))
  {
    WriteValueSource(write, "file_format");
  }

  /** 'tags', 'locale_id' and 'file' given by the caller never reach the upload. */
  lemma WriteDroppedKey(write: OptionMap, k: string)
    requires NoDupKeys(write)
    requires k in WriteProtected && k != "file_format"
    ensures Get(BuildWrite(write), k) == None
  {
    WriteValueSource(write, k);
    WriteDefaultsFacts();
  }

  /** 'update_translations' is the caller's value, '1' when the caller gave none. */
  lemma WriteUpdateTranslations(write: OptionMap)
    requires NoDupKeys(write)
    ensures Get(BuildWrite(write), "update_translations") == Some(GetOr(write, "update_translations", Str("1")))
  {
    WriteValueSource(write, "update_translations");
  }

  /** Every other caller key keeps the caller's value, nested arrays included. */
  lemma WriteCallerValue(write: OptionMap, k: string)
    requires NoDupKeys(write)
    requires k !in WriteProtected && k !in WriteDefaultKeys
    ensures Get(BuildWrite(write), k) == Get(write, k)
  {
    WriteDefaultsFacts();
    WriteValueSource(write, k);
  }

  /** A well-formed option set stays well-formed. */
  lemma WriteFromDsnWellFormed(write: OptionMap)
    requires WellFormed(write)
    ensures WellFormed(BuildWrite(write))
  {
    WriteFromDsnKeys(write);
    WriteDefaultsFacts();
    RemoveKeysEntries(write, WriteProtected);
    MergeEntries(WriteDefaults, RemoveKeys(write, WriteProtected));
  }

  /** With no write options at all the result is exactly the defaults. */
  lemma WriteFromEmptyDsn()
    ensures BuildWrite([]) == WriteDefaults
  {
  }

  /** The write option set of the provider: updated in place by the fluent `with` methods. */
  class WriteConfig {
    var options: OptionMap

    constructor (options: OptionMap)
      ensures this.options == options
    {
      this.options := options;
    }

    /** `WriteConfig::fromDsn` */
    static method FromDsn(write: OptionMap) returns (config: WriteConfig)
      ensures fresh(config) && config.options == BuildWrite(write)
    {
      config := new WriteConfig(BuildWrite(write));
    }

    function GetOptions(): OptionMap
      reads this
    {
      options
    }

    /** Sets 'tags' and nothing else; a new key goes last. */
    method WithTag(tag: string) returns (self: WriteConfig)
      modifies this
      ensures self == this
      ensures options == Put(old(options), "tags", Str(tag))
      ensures Get(options, "tags") == Some(Str(tag))
      ensures forall k :: k != "tags" ==> Get(options, k) == Get(old(options), k)
      ensures Keys(options) == if "tags" in Keys(old(options)) then Keys(old(options)) else Keys(old(options)) + ["tags"]
      ensures NoDupKeys(old(options)) ==> NoDupKeys(options)
    {
      forall k ensures Get(Put(options, "tags", Str(tag)), k) == if k == "tags" then Some(Str(tag)) else Get(options, k) {
        PutGet(options, "tags", Str(tag), k);
      }
      PutKeys(options, "tags", Str(tag));
      if NoDupKeys(options) {
        PutNoDup(options, "tags", Str(tag));
      }
      options := Put(options, "tags", Str(tag));
      self := this;
    }

    /** Sets 'locale_id' and nothing else; a new key goes last. */
    method WithLocale(locale: string) returns (self: WriteConfig)
      modifies this
      ensures self == this
      ensures options == Put(old(options), "locale_id", Str(locale))
      ensures Get(options, "locale_id") == Some(Str(locale))
      ensures forall k :: k != "locale_id" ==> Get(options, k) == Get(old(options), k)
      ensures Keys(options) == if "locale_id" in Keys(old(options)) then Keys(old(options)) else Keys(old(options)) + ["locale_id"]
      ensures NoDupKeys(old(options)) ==> NoDupKeys(options)
    {
      forall k ensures Get(Put(options, "locale_id", Str(locale)), k) == if k == "locale_id" then Some(Str(locale)) else Get(options, k) {
        PutGet(options, "locale_id", Str(locale), k);
      }
      PutKeys(options, "locale_id", Str(locale));
      if NoDupKeys(options) {
        PutNoDup(options, "locale_id", Str(locale));
      }
      options := Put(options, "locale_id", Str(locale));
      self := this;
    }
  }
}
