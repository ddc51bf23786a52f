/**
 * PHP arrays with string keys, as used for the read and write option sets:
 * an ordered sequence of (key, value) entries. `Put` is `$a[$k] = $v`
 * (replace in place, or append a new key), `RemoveKeys` is `unset`, and
 * `Merge` is `array_merge` (first position of a key, last value).
 */
module OptionMaps {
  import opened Wrappers

  /** An option value: a string, or a nested array of string entries. */
  datatype Value = Str(s: string) | Arr(entries: seq<(string, string)>)

  type OMap<V> = seq<(string, V)>

  type OptionMap = OMap<Value>

  function Keys<V>(m: OMap<V>): (ks: seq<string>)
    ensures |ks| == |m|
    ensures forall i :: 0 <= i < |m| ==> ks[i] == m[i].0
  {
    if m == [] then [] else [m[0].0] + Keys(m[1..])
  }

  /** A PHP array never holds a key twice. */
  ghost predicate NoDupKeys<V>(m: OMap<V>)
  {
    forall i, j :: 0 <= i < j < |m| ==> m[i].0 != m[j].0
  }

  /** An option set as the connection string parser produces it: no key twice, at either level. */
  ghost predicate WellFormed(m: OptionMap)
  {
    && NoDupKeys(m)
    && forall x :: x in m && x.1.Arr? ==> NoDupKeys(x.1.entries)
  }

  /** `$a[$k] ?? null` */
  function Get<V>(m: OMap<V>, k: string): (r: Option<V>)
    ensures r.None? <==> k !in Keys(m)
    ensures r.Some? ==> (k, r.value) in m
  {
    if m == [] then None
    else if m[0].0 == k then Some(m[0].1)
    else Get(m[1..], k)
  }

  /** `$a[$k] ?? $default` */
  function GetOr<V>(m: OMap<V>, k: string, default: V): V
  {
    match Get(m, k)
    case Some(v) => v
    case None => default
  }

  lemma {:induction false} GetEntry<V>(m: OMap<V>, i: nat)
    requires NoDupKeys(m) && i < |m|
    ensures Get(m, m[i].0) == Some(m[i].1)
  {
    if i > 0 {
      GetEntry(m[1..], i - 1);
    }
  }

  /** `$a[$k] = $v`: an existing key keeps its position, a new key is appended. */
  function Put<V>(m: OMap<V>, k: string, v: V): OMap<V>
  {
    if m == [] then [(k, v)]
    else if m[0].0 == k then [(k, v)] + m[1..]
    else [m[0]] + Put(m[1..], k, v)
  }

  /** After `$a[$k] = $v`, `$k` holds `$v` and every other key its old value. */
  lemma {:induction false} PutGet<V>(m: OMap<V>, k: string, v: V, j: string)
    ensures Get(Put(m, k, v), j) == if j == k then Some(v) else Get(m, j)
  {
    if m != [] && m[0].0 != k {
      PutGet(m[1..], k, v, j);
      assert ([m[0]] + Put(m[1..], k, v))[1..] == Put(m[1..], k, v);
    } else if m != [] {
      assert ([(k, v)] + m[1..])[1..] == m[1..];
    }
  }

  /** An existing key keeps its position; a new key goes last. */
  lemma {:induction false} PutKeys<V>(m: OMap<V>, k: string, v: V)
    ensures Keys(Put(m, k, v)) == if k in Keys(m) then Keys(m) else Keys(m) + [k]
  {
    if m != [] && m[0].0 != k {
      PutKeys(m[1..], k, v);
      assert ([m[0]] + Put(m[1..], k, v))[1..] == Put(m[1..], k, v);
      assert Keys(m) == [m[0].0] + Keys(m[1..]);
    } else if m != [] {
      assert ([(k, v)] + m[1..])[1..] == m[1..];
    }
  }

  lemma PutNoDup<V>(m: OMap<V>, k: string, v: V)
    requires NoDupKeys(m)
    ensures NoDupKeys(Put(m, k, v))
  {
    var r := Put(m, k, v);
    PutKeys(m, k, v);
    assert Keys(r) == if k in Keys(m) then Keys(m) else Keys(m) + [k];
    forall i, j | 0 <= i < j < |r| ensures r[i].0 != r[j].0 {
      assert Keys(r)[i] == r[i].0 && Keys(r)[j] == r[j].0;
      if k !in Keys(m) && j == |m| {
        assert Keys(m)[i] == m[i].0;
      } else {
        assert Keys(m)[i] == m[i].0 && Keys(m)[j] == m[j].0;
      }
    }
  }

  /** The keys of `ks` that are not in `drop`, in their order. */
  function Without(ks: seq<string>, drop: seq<string>): (r: seq<string>)
    ensures forall x :: x in r <==> x in ks && x !in drop
  {
    if ks == [] then []
    else if ks[0] in drop then Without(ks[1..], drop)
    else [ks[0]] + Without(ks[1..], drop)
  }

  lemma {:induction false} WithoutIgnores(ks: seq<string>, drop: seq<string>, x: string)
    requires x !in ks
    ensures Without(ks, drop + [x]) == Without(ks, drop)
  {
    if ks != [] {
      WithoutIgnores(ks[1..], drop, x);
    }
  }

  lemma {:induction false} WithoutTwice(ks: seq<string>, d1: seq<string>, d2: seq<string>)
    ensures Without(Without(ks, d1), d2) == Without(ks, d1 + d2)
  {
    if ks != [] {
      WithoutTwice(ks[1..], d1, d2);
      if ks[0] !in d1 {
        assert ([ks[0]] + Without(ks[1..], d1))[1..] == Without(ks[1..], d1);
      }
    }
  }

  lemma WithoutCons(k: string, ks: seq<string>, drop: seq<string>)
    ensures Without([k] + ks, drop) == if k in drop then Without(ks, drop) else [k] + Without(ks, drop)
  {
    assert ([k] + ks)[0] == k && ([k] + ks)[1..] == ks;
  }

  lemma AppendAssoc(x: seq<string>, y: seq<string>, z: seq<string>)
    ensures (x + y) + z == x + (y + z)
  {
  }

  /** `unset($a[$k1], $a[$k2], ...)` */
  function RemoveKeys<V>(m: OMap<V>, drop: seq<string>): OMap<V>
  {
    if m == [] then []
    else if m[0].0 in drop then RemoveKeys(m[1..], drop)
    else [m[0]] + RemoveKeys(m[1..], drop)
  }

  /** Unset keys are gone; every other key keeps its value. */
  lemma {:induction false} RemoveKeysGet<V>(m: OMap<V>, drop: seq<string>, j: string)
    ensures Get(RemoveKeys(m, drop), j) == if j in drop then None else Get(m, j)
  {
    if m != [] {
      RemoveKeysGet(m[1..], drop, j);
      if m[0].0 !in drop {
        assert ([m[0]] + RemoveKeys(m[1..], drop))[1..] == RemoveKeys(m[1..], drop);
      }
    }
  }

  /** The remaining keys keep their relative order. */
  lemma {:induction false} RemoveKeysKeys<V>(m: OMap<V>, drop: seq<string>)
    ensures Keys(RemoveKeys(m, drop)) == Without(Keys(m), drop)
  {
    if m != [] {
      RemoveKeysKeys(m[1..], drop);
      assert Keys(m) == [m[0].0] + Keys(m[1..]);
      if m[0].0 !in drop {
        assert ([m[0]] + RemoveKeys(m[1..], drop))[1..] == RemoveKeys(m[1..], drop);
      }
    }
  }

  /** A sequence of keys without repetitions. */
  ghost predicate Distinct(ks: seq<string>)
  {
    forall i, j :: 0 <= i < j < |ks| ==> ks[i] != ks[j]
  }

  lemma KeysDistinct<V>(m: OMap<V>)
    ensures NoDupKeys(m) <==> Distinct(Keys(m))
  {
    var ks := Keys(m);
    if NoDupKeys(m) {
      forall i, j | 0 <= i < j < |ks| ensures ks[i] != ks[j] {
        assert ks[i] == m[i].0 && ks[j] == m[j].0;
      }
    }
    if Distinct(ks) {
      forall i, j | 0 <= i < j < |m| ensures m[i].0 != m[j].0 {
        assert ks[i] == m[i].0 && ks[j] == m[j].0;
      }
    }
  }

  lemma {:induction false} WithoutDistinct(ks: seq<string>, drop: seq<string>)
    requires Distinct(ks)
    ensures Distinct(Without(ks, drop))
  {
    if ks != [] {
      WithoutDistinct(ks[1..], drop);
      var rest := Without(ks[1..], drop);
      if ks[0] !in drop {
        var r := [ks[0]] + rest;
        assert ks[0] !in ks[1..];
        forall i, j | 0 <= i < j < |r| ensures r[i] != r[j] {
          if i == 0 {
            assert r[j] in rest;
          } else {
            assert r[i] == rest[i - 1] && r[j] == rest[j - 1];
          }
        }
      }
    }
  }

  lemma RemoveKeysNoDup<V>(m: OMap<V>, drop: seq<string>)
    requires NoDupKeys(m)
    ensures NoDupKeys(RemoveKeys(m, drop))
  {
    KeysDistinct(m);
    RemoveKeysKeys(m, drop);
    WithoutDistinct(Keys(m), drop);
    KeysDistinct(RemoveKeys(m, drop));
  }

  lemma HeadKeyFresh<V>(b: OMap<V>)
    requires NoDupKeys(b) && b != []
    ensures b[0].0 !in Keys(b[1..])
  {
    forall i | 0 <= i < |b[1..]| ensures Keys(b[1..])[i] != b[0].0 {
      assert Keys(b[1..])[i] == b[i + 1].0;
    }
  }

  /** `array_merge($a, $b)` for string keys. */
  function Merge<V>(a: OMap<V>, b: OMap<V>): OMap<V>
    decreases |b|
  {
    if b == [] then a else Merge(Put(a, b[0].0, b[0].1), b[1..])
  }

  /** A key of `$b` takes `$b`'s value; any other key keeps `$a`'s. */
  lemma {:induction false} MergeGet<V>(a: OMap<V>, b: OMap<V>, j: string)
    requires NoDupKeys(b)
    ensures Get(Merge(a, b), j) == if j in Keys(b) then Get(b, j) else Get(a, j)
    decreases |b|
  {
    if b != [] {
      var k := b[0].0;
      assert Keys(b) == [k] + Keys(b[1..]);
      HeadKeyFresh(b);
      MergeGet(Put(a, k, b[0].1), b[1..], j);
      PutGet(a, k, b[0].1, j);
    }
  }

  /** Keys of `$a` first, in their order, then the new keys of `$b` in theirs. */
  lemma {:induction false} MergeKeys<V>(a: OMap<V>, b: OMap<V>)
    requires NoDupKeys(b)
    ensures Keys(Merge(a, b)) == Keys(a) + Without(Keys(b), Keys(a))
    decreases |b|
  {
    if b != [] {
      var k := b[0].0;
      var a' := Put(a, k, b[0].1);
      assert Keys(b) == [k] + Keys(b[1..]);
      HeadKeyFresh(b);
      var kb := Keys(b[1..]);
      MergeKeys(a', b[1..]);
      PutKeys(a, k, b[0].1);
      WithoutCons(k, kb, Keys(a));
      if k !in Keys(a) {
        WithoutIgnores(kb, Keys(a), k);
        AppendAssoc(Keys(a), [k], Without(kb, Keys(a)));
      }
    }
  }

  lemma {:induction false} MergeNoDup<V>(a: OMap<V>, b: OMap<V>)
    requires NoDupKeys(a)
    ensures NoDupKeys(Merge(a, b))
    decreases |b|
  {
    if b != [] {
      PutNoDup(a, b[0].0, b[0].1);
      MergeNoDup(Put(a, b[0].0, b[0].1), b[1..]);
    }
  }

  /** Every entry after `$a[$k] = $v` was there before, or is the new one. */
  lemma {:induction false} PutEntries<V>(m: OMap<V>, k: string, v: V)
    ensures forall x :: x in Put(m, k, v) ==> x in m || x == (k, v)
  {
    if m != [] && m[0].0 != k {
      PutEntries(m[1..], k, v);
    }
  }

  lemma {:induction false} RemoveKeysEntries<V>(m: OMap<V>, drop: seq<string>)
    ensures forall x :: x in RemoveKeys(m, drop) ==> x in m
  {
    if m != [] {
      RemoveKeysEntries(m[1..], drop);
    }
  }

  /** Every entry of `array_merge($a, $b)` is an entry of `$a` or of `$b`. */
  lemma {:induction false} MergeEntries<V>(a: OMap<V>, b: OMap<V>)
    ensures forall x :: x in Merge(a, b) ==> x in a || x in b
    decreases |b|
  {
    if b != [] {
      PutEntries(a, b[0].0, b[0].1);
      MergeEntries(Put(a, b[0].0, b[0].1), b[1..]);
    }
  }
}
