/**
 * `array_multisort($options)` with a single array argument: a stable sort of
 * the entries by their VALUE (string keys travel with their values). The
 * value order is PHP 8's comparison restricted to the values an option set
 * holds: strings compare lexicographically, every string is smaller than
 * every array, and arrays compare by their number of entries.
 */
module PhpSort {
  import opened OptionMaps

  /** Lexicographic order on strings. */
  predicate StrLess(a: string, b: string)
  {
    if a == [] then b != []
    else if b == [] then false
    else if a[0] < b[0] then true
    else if a[0] == b[0] then StrLess(a[1..], b[1..])
    else false
  }

  lemma {:induction false} StrLessIrreflexive(a: string)
    ensures !StrLess(a, a)
  {
    if a != [] {
      StrLessIrreflexive(a[1..]);
    }
  }

  lemma {:induction false} StrLessTransitive(a: string, b: string, c: string)
    requires StrLess(a, b) && StrLess(b, c)
    ensures StrLess(a, c)
  {
    if a != [] && b != [] && c != [] && a[0] == b[0] && b[0] == c[0] {
      StrLessTransitive(a[1..], b[1..], c[1..]);
    }
  }

  lemma {:induction false} StrLessTotal(a: string, b: string)
    requires a != b
    ensures StrLess(a, b) || StrLess(b, a)
  {
    if a != [] && b != [] && a[0] == b[0] {
      assert a == [a[0]] + a[1..] && b == [b[0]] + b[1..];
      StrLessTotal(a[1..], b[1..]);
    }
  }

  /** PHP 8 `<` on option values, as described above. */
  predicate ValueLess(x: Value, y: Value)
  {
    match (x, y)
    case (Str(a), Str(b)) => StrLess(a, b)
    case (Str(_), Arr(_)) => true
    case (Arr(_), Str(_)) => false
    case (Arr(a), Arr(b)) => |a| < |b|
  }

  lemma ValueLessIrreflexive(x: Value)
    ensures !ValueLess(x, x)
  {
    if x.Str? {
      StrLessIrreflexive(x.s);
    }
  }

  lemma ValueLessTransitive(x: Value, y: Value, z: Value)
    requires ValueLess(x, y) && ValueLess(y, z)
    ensures ValueLess(x, z)
  {
    if x.Str? && y.Str? && z.Str? {
      StrLessTransitive(x.s, y.s, z.s);
    }
  }

  /** Entries in non-decreasing order of their values. */
  ghost predicate Sorted(s: OptionMap)
  {
    forall i, j :: 0 <= i < j < |s| ==> !ValueLess(s[j].1, s[i].1)
  }

  /** Inserts `e` after every entry whose value is not greater than its own. */
  function Insert(e: (string, Value), s: OptionMap): (r: OptionMap)
    ensures multiset(r) == multiset(s) + multiset{e}
  {
    if s == [] then [e]
    else if ValueLess(e.1, s[0].1) then [e] + s
    else
      assert s == [s[0]] + s[1..];
      [s[0]] + Insert(e, s[1..])
  }

  /** Stable insertion sort: equal-ranked entries keep their relative order. */
  function SortByValue(m: OptionMap): (r: OptionMap)
    ensures multiset(r) == multiset(m)
  {
    if m == [] then []
    else
      assert m == m[..|m| - 1] + [m[|m| - 1]];
      Insert(m[|m| - 1], SortByValue(m[..|m| - 1]))
  }

  lemma {:induction false} InsertSorted(e: (string, Value), s: OptionMap)
    requires Sorted(s)
    ensures Sorted(Insert(e, s))
  {
    var r := Insert(e, s);
    if s == [] {
    } else if ValueLess(e.1, s[0].1) {
      forall i, j | 0 <= i < j < |r| ensures !ValueLess(r[j].1, r[i].1) {
        if i == 0 {
          assert r[j] == s[j - 1];
          if ValueLess(s[j - 1].1, e.1) {
            ValueLessTransitive(s[j - 1].1, e.1, s[0].1);
            if j - 1 == 0 {
              ValueLessIrreflexive(s[0].1);
            }
          }
        } else {
          assert r[i] == s[i - 1] && r[j] == s[j - 1];
        }
      }
    } else {
      var rest := Insert(e, s[1..]);
      InsertSorted(e, s[1..]);
      forall i, j | 0 <= i < j < |r| ensures !ValueLess(r[j].1, r[i].1) {
        if i == 0 {
          assert r[j] == rest[j - 1];
          assert r[j] in multiset(rest);
          assert r[j] == e || r[j] in multiset(s[1..]);
          if r[j] != e {
            var k :| 0 <= k < |s[1..]| && s[1..][k] == r[j];
            assert s[k + 1] == r[j];
          }
        } else {
          assert r[i] == rest[i - 1] && r[j] == rest[j - 1];
        }
      }
    }
  }

  lemma {:induction false} SortByValueSorted(m: OptionMap)
    ensures Sorted(SortByValue(m))
  {
    if m != [] {
      SortByValueSorted(m[..|m| - 1]);
      InsertSorted(m[|m| - 1], SortByValue(m[..|m| - 1]));
    }
  }

  /** No two different entries have equally ranked values. */
  ghost predicate Untied(m: OptionMap)
  {
    forall x, y :: x in m && y in m && x != y ==> ValueLess(x.1, y.1) || ValueLess(y.1, x.1)
  }

  lemma SortedHeads(s: OptionMap, t: OptionMap)
    requires Sorted(s) && Sorted(t) && multiset(s) == multiset(t) && Untied(s)
    requires s != [] && t != []
    ensures s[0] == t[0]
  {
    assert s[0] in multiset(t) && t[0] in multiset(s);
    var j :| 0 <= j < |t| && t[j] == s[0];
    var i :| 0 <= i < |s| && s[i] == t[0];
    assert j != 0 ==> !ValueLess(s[0].1, t[0].1);
    assert i != 0 ==> !ValueLess(t[0].1, s[0].1);
    assert s[0] in s && t[0] in s;
  }

  lemma SortedTails(s: OptionMap, t: OptionMap)
    requires multiset(s) == multiset(t) && Untied(s) && s != [] && t != [] && s[0] == t[0]
    ensures multiset(s[1..]) == multiset(t[1..]) && Untied(s[1..])
  {
    assert s == [s[0]] + s[1..] && t == [t[0]] + t[1..];
    assert multiset(s) == multiset{s[0]} + multiset(s[1..]);
    assert multiset(t) == multiset{t[0]} + multiset(t[1..]);
    assert multiset(s[1..]) == multiset(s) - multiset{s[0]};
    assert multiset(t[1..]) == multiset(t) - multiset{t[0]};
    forall x, y | x in s[1..] && y in s[1..] && x != y
      ensures ValueLess(x.1, y.1) || ValueLess(y.1, x.1)
    {
      assert x in s && y in s;
    }
  }

  /** A sorted permutation of untied entries is unique. */
  lemma {:induction false} SortedUnique(s: OptionMap, t: OptionMap)
    requires Sorted(s) && Sorted(t) && multiset(s) == multiset(t) && Untied(s)
    ensures s == t
  {
    assert |t| == |multiset(t)| == |multiset(s)| == |s|;
    if s != [] {
      SortedHeads(s, t);
      SortedTails(s, t);
      SortedUnique(s[1..], t[1..]);
      assert s == [s[0]] + s[1..] && t == [t[0]] + t[1..];
    }
  }

  /** Reordering untied entries does not change the sorted result. */
  lemma SortByValueReorder(m1: OptionMap, m2: OptionMap)
    requires multiset(m1) == multiset(m2) && Untied(m1)
    ensures SortByValue(m1) == SortByValue(m2)
  {
    var s1, s2 := SortByValue(m1), SortByValue(m2);
    SortByValueSorted(m1);
    SortByValueSorted(m2);
    forall x, y | x in s1 && y in s1 && x != y
      ensures ValueLess(x.1, y.1) || ValueLess(y.1, x.1)
    {
      assert x in multiset(m1) && y in multiset(m1);
    }
    SortedUnique(s1, s2);
  }
}
