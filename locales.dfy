/** Remote locale records, the local-to-remote code translation, and directory updates. */
module Locales {
  import opened Wrappers

  datatype LocaleRef = LocaleRef(id: string, name: string, code: string)

  /** A decoded locale record as the locales endpoint returns it. */
  datatype LocaleRecord = LocaleRecord(id: string, name: string, code: string, fallback: Option<LocaleRef>)

  /** The directory of known remote locales, keyed by locale name. */
  type Directory = map<string, LocaleRecord>

  /** `toPhraseLocale`: every '_' becomes '-'. */
  function ToPhraseLocale(locale: string): (code: string)
    ensures |code| == |locale|
    ensures forall i :: 0 <= i < |locale| ==> code[i] == if locale[i] == '_' then '-' else locale[i]
  {
    if locale == [] then []
    else [if locale[0] == '_' then '-' else locale[0]] + ToPhraseLocale(locale[1..])
  }

  /** No '_' is left, so translating twice changes nothing. */
  lemma ToPhraseLocaleIdempotent(locale: string)
    ensures '_' !in ToPhraseLocale(locale)
    ensures ToPhraseLocale(ToPhraseLocale(locale)) == ToPhraseLocale(locale)
  {
    var code := ToPhraseLocale(locale);
    assert forall i :: 0 <= i < |code| ==> code[i] != '_';
  }

  lemma ToPhraseLocaleExample()
    ensures ToPhraseLocale("nl_NL") == "nl-NL"
    ensures ToPhraseLocale("en_GB") == "en-GB"
  {
  }

  /** Storing records one after the other, each under its `name`. */
  function StoreAll(d: Directory, records: seq<LocaleRecord>): Directory
    decreases |records|
  {
    if records == [] then d else StoreAll(d[records[0].name := records[0]], records[1..])
  }

  /** The last record in the list with the given name. */
  function LastNamed(records: seq<LocaleRecord>, name: string): (r: Option<LocaleRecord>)
    ensures r.Some? ==> r.value in records && r.value.name == name
    ensures r.None? <==> forall i :: 0 <= i < |records| ==> records[i].name != name
    decreases |records|
  {
    if records == [] then None
    else if records[|records| - 1].name == name then Some(records[|records| - 1])
    else LastNamed(records[..|records| - 1], name)
  }

  lemma {:induction false} LastNamedCons(x: LocaleRecord, rest: seq<LocaleRecord>, name: string)
    ensures LastNamed([x] + rest, name) ==
      if LastNamed(rest, name).Some? then LastNamed(rest, name)
      else if x.name == name then Some(x) else None
    decreases |rest|
  {
    var s := [x] + rest;
    if rest != [] {
      assert s[|s| - 1] == rest[|rest| - 1];
      assert s[..|s| - 1] == [x] + rest[..|rest| - 1];
      LastNamedCons(x, rest[..|rest| - 1], name);
    } else {
      assert s[..|s| - 1] == [];
    }
  }

  /** After storing, each name holds the last record listed under it, or what it held before. */
  lemma {:induction false} StoreAllLookup(d: Directory, records: seq<LocaleRecord>, name: string)
    ensures name in StoreAll(d, records) <==> name in d || LastNamed(records, name).Some?
    ensures name in StoreAll(d, records) ==>
      StoreAll(d, records)[name] == if LastNamed(records, name).Some? then LastNamed(records, name).value else d[name]
    decreases |records|
  {
    if records != [] {
      assert records == [records[0]] + records[1..];
      LastNamedCons(records[0], records[1..], name);
      StoreAllLookup(d[records[0].name := records[0]], records[1..], name);
    }
  }

  /** `getFallbackLocale`: the name of the fallback of the translated code, if it has one. */
  function FallbackOf(d: Directory, locale: string): (r: Option<string>)
    ensures r.Some? <==> ToPhraseLocale(locale) in d && d[ToPhraseLocale(locale)].fallback.Some?
    ensures r.Some? ==> r.value == d[ToPhraseLocale(locale)].fallback.value.name
  {
    var code := ToPhraseLocale(locale);
    if code in d && d[code].fallback.Some? then Some(d[code].fallback.value.name) else None
  }
}
