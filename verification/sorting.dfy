/** The sorting the evaluator applies to its outputs: `sort.Strings` for the
    free-text and broker-code lists and `sort.SliceStable` keyed on a string
    field for the URI and price lists. Both are modelled by one stable
    insertion sort on a string key; for plain strings the key is the string. */
module Sorting {
  import opened Text

  /** Non-decreasing by `key` under Go's string order. */
  predicate SortedBy<T>(s: seq<T>, key: T -> string) {
    forall i, j :: 0 <= i < j < |s| ==> !Less(key(s[j]), key(s[i]))
  }

  /** Inserts `x` after every element whose key is not above `key(x)`. */
  function InsertBy<T>(x: T, s: seq<T>, key: T -> string): (r: seq<T>)
    ensures |r| == |s| + 1
  {
    if s == [] || Less(key(x), key(s[0])) then [x] + s
    else [s[0]] + InsertBy(x, s[1..], key)
  }

  /** Stable sort on `key`. */
  function SortBy<T>(s: seq<T>, key: T -> string): (r: seq<T>)
    ensures |r| == |s|
  {
    if s == [] then []
    else InsertBy(s[|s| - 1], SortBy(s[..|s| - 1], key), key)
  }

  /** The sort key of a plain string: the string itself. */
  function StringKey(s: string): string { s }

  /** `sort.Strings`. */
  function SortStrings(s: seq<string>): (r: seq<string>)
    ensures |r| == |s|
  {
    SortBy(s, StringKey)
  }

  /** Inserting adds `x` and nothing else. */
  lemma {:induction false} InsertByPermutes<T>(x: T, s: seq<T>, key: T -> string)
    ensures multiset(InsertBy(x, s, key)) == multiset(s) + multiset{x}
  {
    if s != [] && !Less(key(x), key(s[0])) {
      InsertByPermutes(x, s[1..], key);
      assert s == [s[0]] + s[1..];
    }
  }

  /** Sorting only rearranges. */
  lemma {:induction false} SortByPermutes<T>(s: seq<T>, key: T -> string)
    ensures multiset(SortBy(s, key)) == multiset(s)
  {
    if s != [] {
      SortByPermutes(s[..|s| - 1], key);
      InsertByPermutes(s[|s| - 1], SortBy(s[..|s| - 1], key), key);
      assert s == s[..|s| - 1] + [s[|s| - 1]];
    }
  }

  lemma {:induction false} InsertBySorted<T>(x: T, s: seq<T>, key: T -> string)
    requires SortedBy(s, key)
    ensures SortedBy(InsertBy(x, s, key), key)
  {
    if s == [] {
    } else if Less(key(x), key(s[0])) {
      forall j | 0 <= j < |s|
        ensures !Less(key(s[j]), key(x))
      {
        LessAsymmetric(key(x), key(s[0]));
        LessIrreflexive(key(s[0]));
        NotLessTransitive(key(x), key(s[0]), key(s[j]));
      }
      var r := [x] + s;
      forall i, j | 0 <= i < j < |r|
        ensures !Less(key(r[j]), key(r[i]))
      {
        if i > 0 {
          assert r[i] == s[i - 1] && r[j] == s[j - 1];
        }
      }
    } else {
      InsertBySorted(x, s[1..], key);
      InsertByPermutes(x, s[1..], key);
      var t := InsertBy(x, s[1..], key);
      forall j | 0 <= j < |t|
        ensures !Less(key(t[j]), key(s[0]))
      {
        assert t[j] in multiset(t);
        assert t[j] == x || t[j] in multiset(s[1..]);
        if t[j] != x {
          var k :| 0 <= k < |s[1..]| && s[1..][k] == t[j];
          assert s[k + 1] == t[j];
        }
      }
    }
  }

  lemma {:induction false} SortBySorted<T>(s: seq<T>, key: T -> string)
    ensures SortedBy(SortBy(s, key), key)
  {
    if s != [] {
      SortBySorted(s[..|s| - 1], key);
      InsertBySorted(s[|s| - 1], SortBy(s[..|s| - 1], key), key);
    }
  }

  /** The head of a sorted list of strings is not above any of its elements. */
  lemma SortedHeadLeast(a: seq<string>, x: string)
    requires SortedBy(a, StringKey) && x in a
    ensures !Less(x, a[0])
  {
    var i :| 0 <= i < |a| && a[i] == x;
    if i > 0 {
      assert !Less(StringKey(a[i]), StringKey(a[0]));
    } else {
      LessIrreflexive(x);
    }
  }

  lemma SortedTail<T>(s: seq<T>, key: T -> string)
    requires SortedBy(s, key) && s != []
    ensures SortedBy(s[1..], key)
  {
    forall i, j | 0 <= i < j < |s| - 1
      ensures !Less(key(s[1..][j]), key(s[1..][i]))
    {
      assert s[1..][j] == s[j + 1] && s[1..][i] == s[i + 1];
    }
  }

  lemma TailMultiset<T>(s: seq<T>)
    requires s != []
    ensures multiset(s[1..]) == multiset(s) - multiset{s[0]}
  {
    assert s == [s[0]] + s[1..];
  }

  /** A sorted list of strings is determined by its elements: the outputs of
      `sort.Strings` do not depend on the order of the input. */
  lemma {:induction false} SortedStringsUnique(a: seq<string>, b: seq<string>)
    requires SortedBy(a, StringKey) && SortedBy(b, StringKey)
    requires multiset(a) == multiset(b)
    ensures a == b
  {
    if a != [] {
      assert a[0] in multiset(b) && b[0] in multiset(a);
      SortedHeadLeast(b, a[0]);
      SortedHeadLeast(a, b[0]);
      LessTotal(a[0], b[0]);
      TailMultiset(a);
      TailMultiset(b);
      SortedTail(a, StringKey);
      SortedTail(b, StringKey);
      assert a == [a[0]] + a[1..];
      assert b == [b[0]] + b[1..];
      SortedStringsUnique(a[1..], b[1..]);
    }
  }

  /** `sort.Strings` returns the sorted arrangement of its input, and equal
      inputs up to reordering give equal outputs. */
  lemma SortStringsCanonical(a: seq<string>, b: seq<string>)
    requires multiset(a) == multiset(b)
    ensures SortedBy(SortStrings(a), StringKey)
    ensures SortStrings(a) == SortStrings(b)
  {
    SortBySorted(a, StringKey);
    SortBySorted(b, StringKey);
    SortByPermutes(a, StringKey);
    SortByPermutes(b, StringKey);
    SortedStringsUnique(SortStrings(a), SortStrings(b));
  }

  // ---------- Stability ----------

  /** The elements of `s` whose key is `k`, in their order in `s`. */
  function WithKey<T>(s: seq<T>, key: T -> string, k: string): (r: seq<T>)
    ensures |r| <= |s|
  {
    if s == [] then [] else (if key(s[0]) == k then [s[0]] else []) + WithKey(s[1..], key, k)
  }

  lemma {:induction false} WithKeyAppend<T>(s: seq<T>, x: T, key: T -> string, k: string)
    ensures WithKey(s + [x], key, k) == WithKey(s, key, k) + (if key(x) == k then [x] else [])
  {
    if s == [] {
      assert [x][1..] == [];
    } else {
      assert (s + [x])[1..] == s[1..] + [x];
      WithKeyAppend(s[1..], x, key, k);
    }
  }

  /** No element of a sorted list whose first key is above `k` has key `k`. */
  lemma {:induction false} WithKeyAbove<T>(s: seq<T>, key: T -> string, k: string)
    requires SortedBy(s, key)
    requires s != [] && Less(k, key(s[0]))
    ensures WithKey(s, key, k) == []
  {
    LessIrreflexive(k);
    if |s| > 1 {
      assert !Less(key(s[1]), key(s[0]));
      LessTotal(key(s[0]), key(s[1]));
      if key(s[0]) != key(s[1]) {
        LessTransitive(k, key(s[0]), key(s[1]));
      }
      WithKeyAbove(s[1..], key, k);
    }
  }

  lemma {:induction false} WithKeyInsert<T>(x: T, s: seq<T>, key: T -> string, k: string)
    requires SortedBy(s, key)
    ensures WithKey(InsertBy(x, s, key), key, k) == WithKey(s, key, k) + (if key(x) == k then [x] else [])
  {
    if s == [] {
      assert ([x] + s)[1..] == [];
    } else if Less(key(x), key(s[0])) {
      assert ([x] + s)[1..] == s;
      if key(x) == k {
        WithKeyAbove(s, key, k);
      }
    } else {
      var t := InsertBy(x, s[1..], key);
      var u := [s[0]] + t;
      var head := if key(s[0]) == k then [s[0]] else [];
      var extra := if key(x) == k then [x] else [];
      SortedTail(s, key);
      WithKeyInsert(x, s[1..], key, k);
      assert InsertBy(x, s, key) == u;
      assert u[0] == s[0] && u[1..] == t;
      assert WithKey(u, key, k) == head + WithKey(t, key, k);
      assert WithKey(s, key, k) == head + WithKey(s[1..], key, k);
      AppendAssociative(head, WithKey(s[1..], key, k), extra);
    }
  }

  /** Stability of `sort.SliceStable`: for every key, the elements carrying it
      keep their input order. */
  lemma {:induction false} SortByStable<T>(s: seq<T>, key: T -> string, k: string)
    ensures WithKey(SortBy(s, key), key, k) == WithKey(s, key, k)
  {
    if s != [] {
      var init, last := s[..|s| - 1], s[|s| - 1];
      SortByStable(init, key, k);
      SortBySorted(init, key);
      WithKeyInsert(last, SortBy(init, key), key, k);
      assert s == init + [last];
      WithKeyAppend(init, last, key, k);
    }
  }
}
