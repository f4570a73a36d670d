/** The array operations the storefront's JavaScript relies on, over Dafny
    sequences: `filter`, `find`, `map`-replace by key, `[...new Set(xs)]`
    and a stable `sort` by a numeric key. */
module Seqs {
  import opened Options

  // ---------------------------------------------------------------------
  // Array.prototype.filter

  /** The elements of `s` that satisfy `f`, in their original order. */
  function Filter<T(==,!new)>(f: T -> bool, s: seq<T>): (r: seq<T>)
    ensures |r| <= |s|
    ensures forall x :: x in r <==> x in s && f(x)
  {
    if s == [] then [] else (if f(s[0]) then [s[0]] else []) + Filter(f, s[1..])
  }

  /** `a` occurs in `b` as an order-preserving subsequence. */
  predicate SubseqOf<T(==,!new)>(a: seq<T>, b: seq<T>)
    decreases |b|
  {
    if a == [] then true
    else if b == [] then false
    else (a[0] == b[0] && SubseqOf(a[1..], b[1..])) || SubseqOf(a, b[1..])
  }

  lemma {:induction false} FilterConcat<T(!new)>(f: T -> bool, a: seq<T>, b: seq<T>)
    ensures Filter(f, a + b) == Filter(f, a) + Filter(f, b)
  {
    if a == [] {
      assert a + b == b;
    } else {
      assert (a + b)[0] == a[0];
      assert (a + b)[1..] == a[1..] + b;
      FilterConcat(f, a[1..], b);
    }
  }

  /** A filter that every element passes is the identity. */
  lemma {:induction false} FilterAll<T(!new)>(f: T -> bool, s: seq<T>)
    requires forall x :: x in s ==> f(x)
    ensures Filter(f, s) == s
  {
    if s != [] {
      assert s[0] in s;
      FilterAll(f, s[1..]);
    }
  }

  /** A filter that no element passes yields nothing. */
  lemma {:induction false} FilterNone<T(!new)>(f: T -> bool, s: seq<T>)
    requires forall x :: x in s ==> !f(x)
    ensures Filter(f, s) == []
  {
    if s != [] {
      assert s[0] in s;
      FilterNone(f, s[1..]);
    }
  }

  /** Filters that agree on every element give the same result. */
  lemma {:induction false} FilterExt<T(!new)>(f: T -> bool, g: T -> bool, s: seq<T>)
    requires forall x :: x in s ==> f(x) == g(x)
    ensures Filter(f, s) == Filter(g, s)
  {
    if s != [] {
      assert s[0] in s;
      FilterExt(f, g, s[1..]);
    }
  }

  /** A filter keeps every element it accepts with its full multiplicity. */
  lemma {:induction false} FilterMultiset<T(!new)>(f: T -> bool, s: seq<T>, x: T)
    ensures multiset(Filter(f, s))[x] == if f(x) then multiset(s)[x] else 0
  {
    if s != [] {
      FilterMultiset(f, s[1..], x);
      assert s == [s[0]] + s[1..];
    }
  }

  lemma {:induction false} FilterIsSubseq<T(!new)>(f: T -> bool, s: seq<T>)
    ensures SubseqOf(Filter(f, s), s)
  {
    if s != [] {
      FilterIsSubseq(f, s[1..]);
      var r := Filter(f, s);
      if f(s[0]) {
        assert r[0] == s[0] && r[1..] == Filter(f, s[1..]);
      } else {
        assert r == Filter(f, s[1..]);
        if r != [] {
          assert SubseqOf(r, s[1..]);
        }
      }
    }
  }

  lemma {:induction false} SubseqTrans<T(!new)>(a: seq<T>, b: seq<T>, c: seq<T>)
    requires SubseqOf(a, b) && SubseqOf(b, c)
    ensures SubseqOf(a, c)
    decreases |c|
  {
    if a != [] {
      assert b != [] && c != [];
      if SubseqOf(b, c[1..]) {
        SubseqTrans(a, b, c[1..]);
      } else if a[0] == b[0] && SubseqOf(a[1..], b[1..]) {
        SubseqTrans(a[1..], b[1..], c[1..]);
      } else {
        SubseqTrans(a, b[1..], c[1..]);
      }
    }
  }

  lemma {:induction false} SubseqRefl<T(!new)>(s: seq<T>)
    ensures SubseqOf(s, s)
  {
    if s != [] {
      SubseqRefl(s[1..]);
    }
  }

  // ---------------------------------------------------------------------
  // Array.prototype.find / findIndex

  /** Index of the first element satisfying `f`, or None. */
  function FindIndex<T>(f: T -> bool, s: seq<T>): (r: Option<nat>)
    ensures r.Some? ==> r.value < |s| && f(s[r.value]) && forall j :: 0 <= j < r.value ==> !f(s[j])
    ensures r.None? ==> forall j :: 0 <= j < |s| ==> !f(s[j])
  {
    if s == [] then None
    else if f(s[0]) then Some(0)
    else match FindIndex(f, s[1..])
      case Some(i) => Some(i + 1)
      case None => None
  }

  /** The first element a filter keeps is the one `find` returns. */
  lemma {:induction false} FilterHeadIsFind<T(!new)>(f: T -> bool, s: seq<T>)
    ensures Filter(f, s) != [] <==> FindIndex(f, s).Some?
    ensures FindIndex(f, s).Some? ==> Filter(f, s)[0] == s[FindIndex(f, s).value]
  {
    if s == [] {
    } else if f(s[0]) {
      assert Filter(f, s) == [s[0]] + Filter(f, s[1..]);
    } else {
      FilterHeadIsFind(f, s[1..]);
      var m := FindIndex(f, s[1..]);
      assert m.Some? ==> FindIndex(f, s) == Some(m.value + 1) && s[1..][m.value] == s[m.value + 1];
    }
  }

  /** Appending never changes an existing first match. */
  lemma {:induction false} FindIndexAppend<T>(f: T -> bool, a: seq<T>, b: seq<T>)
    ensures FindIndex(f, a + b) ==
      match FindIndex(f, a)
      case Some(i) => Some(i)
      case None => match FindIndex(f, b) case Some(j) => Some(|a| + j) case None => None
  {
    if a == [] {
      assert a + b == b;
    } else {
      assert (a + b)[0] == a[0];
      assert (a + b)[1..] == a[1..] + b;
      FindIndexAppend(f, a[1..], b);
    }
  }

  // ---------------------------------------------------------------------
  // Collections keyed by an identifier (json-server records keyed by `id`)

  /** No two elements share a key. */
  predicate DistinctBy<T, K(==)>(key: T -> K, s: seq<T>)
  {
    forall i, j :: 0 <= i < j < |s| ==> key(s[i]) != key(s[j])
  }

  predicate HasKey<T, K(==)>(key: T -> K, s: seq<T>, k: K)
  {
    exists i :: 0 <= i < |s| && key(s[i]) == k
  }

  /** The filter callback `x => key(x) === k`. */
  function KeyIs<T, K(==)>(key: T -> K, k: K): T -> bool
  {
    x => key(x) == k
  }

  /** The filter callback `x => !ks.has(key(x))`. */
  function KeyNotIn<T, K(==)>(key: T -> K, ks: set<K>): T -> bool
  {
    x => key(x) !in ks
  }

  /** Every element whose key is `x`'s is replaced by `x`: a PUT of a
      record to its own URL. */
  function ReplaceBy<T, K(==)>(key: T -> K, s: seq<T>, x: T): (r: seq<T>)
    ensures |r| == |s|
    ensures forall i :: 0 <= i < |s| ==> key(r[i]) == key(s[i])
    ensures forall i :: 0 <= i < |s| && key(s[i]) != key(x) ==> r[i] == s[i]
  {
    seq(|s|, i requires 0 <= i < |s| => if key(s[i]) == key(x) then x else s[i])
  }

  /** Updating one position is splicing the new element in. */
  lemma UpdateIsSplice<T>(s: seq<T>, k: nat, x: T)
    requires k < |s|
    ensures s[k := x] == s[..k] + [x] + s[k+1..]
  {
  }

  /** A non-empty list is its initial part and its last element. */
  lemma InitLast<T>(s: seq<T>)
    requires |s| > 0
    ensures s == s[..|s| - 1] + [s[|s| - 1]]
  {
  }

  /** A list is its prefix, one element and its suffix. */
  lemma SplitAt<T>(s: seq<T>, k: nat)
    requires k < |s|
    ensures s == s[..k] + [s[k]] + s[k+1..]
  {
  }

  /** With distinct keys, a replacement touches exactly one position. */
  lemma ReplaceAt<T, K>(key: T -> K, s: seq<T>, k: nat, x: T)
    requires DistinctBy(key, s) && k < |s| && key(s[k]) == key(x)
    ensures ReplaceBy(key, s, x) == s[..k] + [x] + s[k+1..]
  {
    var r := ReplaceBy(key, s, x);
    var t := s[..k] + [x] + s[k+1..];
    assert |r| == |t|;
    forall i | 0 <= i < |s|
      ensures r[i] == t[i]
    {
      if i != k {
        assert key(s[i]) != key(s[k]);
      }
    }
  }

  /** Filtering drops a single rejected element lying between two runs
      that pass. */
  lemma FilterDropsOne<T(!new)>(f: T -> bool, a: seq<T>, y: T, b: seq<T>)
    requires forall x :: x in a ==> f(x)
    requires forall x :: x in b ==> f(x)
    requires !f(y)
    ensures Filter(f, a + [y] + b) == a + b
  {
    calc {
      Filter(f, a + [y] + b);
      { FilterConcat(f, a + [y], b); }
      Filter(f, a + [y]) + Filter(f, b);
      { FilterConcat(f, a, [y]); }
      Filter(f, a) + Filter(f, [y]) + Filter(f, b);
      { FilterAll(f, a); FilterAll(f, b); FilterNone(f, [y]); }
      a + [] + b;
    }
    assert a + [] + b == a + b;
  }

  /** With distinct keys, the key at position `k` occurs nowhere else. */
  lemma KeyOnlyAt<T, K>(key: T -> K, s: seq<T>, k: nat)
    requires DistinctBy(key, s) && k < |s|
    ensures forall x :: x in s[..k] ==> key(x) != key(s[k])
    ensures forall x :: x in s[k+1..] ==> key(x) != key(s[k])
  {
    forall x | x in s[..k] ensures key(x) != key(s[k])
    {
      var j :| 0 <= j < k && s[..k][j] == x;
      assert s[j] == x;
    }
    forall x | x in s[k+1..] ensures key(x) != key(s[k])
    {
      var j :| 0 <= j < |s[k+1..]| && s[k+1..][j] == x;
      assert s[k + 1 + j] == x;
    }
  }

  /** Dropping the last element keeps the keys distinct. */
  lemma DistinctByInit<T, K>(key: T -> K, s: seq<T>)
    requires DistinctBy(key, s) && |s| > 0
    ensures DistinctBy(key, s[..|s| - 1])
  {
    var p := s[..|s| - 1];
    forall i, j | 0 <= i < j < |p| ensures key(p[i]) != key(p[j])
    {
      assert p[i] == s[i] && p[j] == s[j];
    }
  }

  /** With distinct keys, removing one element's key removes just that
      position. */
  lemma RemoveKeyAt<T(!new), K>(key: T -> K, s: seq<T>, k: nat)
    requires DistinctBy(key, s) && k < |s|
    ensures Filter(KeyNotIn(key, {key(s[k])}), s) == s[..k] + s[k+1..]
  {
    var f := KeyNotIn(key, {key(s[k])});
    KeyOnlyAt(key, s, k);
    SplitAt(s, k);
    FilterDropsOne(f, s[..k], s[k], s[k+1..]);
  }

  /** Filtering a collection with distinct keys keeps the keys distinct. */
  lemma {:induction false} FilterDistinctBy<T(!new), K>(key: T -> K, f: T -> bool, s: seq<T>)
    requires DistinctBy(key, s)
    ensures DistinctBy(key, Filter(f, s))
  {
    if s != [] {
      FilterDistinctBy(key, f, s[1..]);
      var rest := Filter(f, s[1..]);
      if f(s[0]) {
        var r := Filter(f, s);
        assert r == [s[0]] + rest;
        forall i, j | 0 <= i < j < |r|
          ensures key(r[i]) != key(r[j])
        {
          if i == 0 {
            assert r[j] in s[1..];
            var m :| 0 <= m < |s[1..]| && s[1..][m] == r[j];
            assert s[m + 1] == r[j];
          } else {
            assert r[i] == rest[i - 1] && r[j] == rest[j - 1];
          }
        }
      }
    }
  }

  /** A key is still present after removing other keys. */
  lemma {:induction false} HasKeyAfterFilter<T(!new), K>(key: T -> K, ks: set<K>, s: seq<T>, k: K)
    requires HasKey(key, s, k) && k !in ks
    ensures HasKey(key, Filter(KeyNotIn(key, ks), s), k)
  {
    var i :| 0 <= i < |s| && key(s[i]) == k;
    assert s[i] in Filter(KeyNotIn(key, ks), s);
    var r := Filter(KeyNotIn(key, ks), s);
    var j :| 0 <= j < |r| && r[j] == s[i];
  }

  /** Removing the keys `ks` and then the key `k` removes `ks + {k}`. */
  lemma {:induction false} RemoveKeysStep<T(!new), K>(key: T -> K, ks: set<K>, k: K, s: seq<T>)
    ensures Filter(KeyNotIn(key, {k}), Filter(KeyNotIn(key, ks), s)) == Filter(KeyNotIn(key, ks + {k}), s)
  {
    var one, many, both := KeyNotIn(key, {k}), KeyNotIn(key, ks), KeyNotIn(key, ks + {k});
    if s != [] {
      RemoveKeysStep(key, ks, k, s[1..]);
      var head := if many(s[0]) then [s[0]] else [];
      assert Filter(many, s) == head + Filter(many, s[1..]);
      FilterConcat(one, head, Filter(many, s[1..]));
      assert Filter(one, head) == if both(s[0]) then [s[0]] else [];
    }
  }

  // ---------------------------------------------------------------------
  // [...new Set(xs)]: the distinct values in order of first occurrence

  predicate NoDups<T(==,!new)>(s: seq<T>)
  {
    forall i, j :: 0 <= i < j < |s| ==> s[i] != s[j]
  }

  /** Without duplicates, dropping the last element leaves a list without
      duplicates that does not hold the last element. */
  lemma NoDupsInit<T(!new)>(s: seq<T>)
    requires NoDups(s) && |s| > 0
    ensures NoDups(s[..|s| - 1]) && s[|s| - 1] !in s[..|s| - 1]
  {
    var p := s[..|s| - 1];
    forall i | 0 <= i < |p| ensures p[i] != s[|s| - 1] && p[i] == s[i]
    {
    }
  }

  /** Filtering a list without duplicates leaves one without duplicates,
      one element shorter for each element dropped. */
  lemma {:induction false} FilterNoDups<T(!new)>(f: T -> bool, s: seq<T>)
    requires NoDups(s)
    ensures NoDups(Filter(f, s))
  {
    if s != [] {
      assert NoDups(s[1..]) by {
        forall i, j | 0 <= i < j < |s[1..]| ensures s[1..][i] != s[1..][j] {
          assert s[1..][i] == s[i + 1] && s[1..][j] == s[j + 1];
        }
      }
      FilterNoDups(f, s[1..]);
      assert s[0] !in s[1..] by {
        forall j | 0 <= j < |s[1..]| ensures s[1..][j] != s[0] {
          assert s[1..][j] == s[j + 1];
        }
      }
    }
  }

  /** Position of the first occurrence of `x`. */
  function FirstIndex<T(==,!new)>(s: seq<T>, x: T): (i: nat)
    requires x in s
    ensures i < |s| && s[i] == x && forall j :: 0 <= j < i ==> s[j] != x
  {
    if s[0] == x then 0 else 1 + FirstIndex(s[1..], x)
  }

  /** A Set built by adding the elements of `s` from left to right. */
  function Distinct<T(==,!new)>(s: seq<T>): (r: seq<T>)
    ensures forall x :: x in r <==> x in s
    ensures NoDups(r)
  {
    if s == [] then []
    else
      var d := Distinct(s[..|s| - 1]);
      var x := s[|s| - 1];
      assert s == s[..|s| - 1] + [x];
      if x in d then d else d + [x]
  }

  lemma FirstIndexPrefix<T(!new)>(p: seq<T>, x: T, y: T)
    requires y in p
    ensures y in p + [x] && FirstIndex(p + [x], y) == FirstIndex(p, y)
  {
    var i := FirstIndex(p, y);
    var k := FirstIndex(p + [x], y);
    assert (p + [x])[i] == y;
    assert k <= i;
    assert p[k] == (p + [x])[k];
  }

  /** The Set's iteration order is the order of first occurrence. */
  lemma {:induction false} DistinctFirstOccurrenceOrder<T(!new)>(s: seq<T>)
    ensures forall i, j :: 0 <= i < j < |Distinct(s)| ==>
      FirstIndex(s, Distinct(s)[i]) < FirstIndex(s, Distinct(s)[j])
  {
    if s != [] {
      var p, x := s[..|s| - 1], s[|s| - 1];
      assert s == p + [x];
      DistinctFirstOccurrenceOrder(p);
      var d, r := Distinct(p), Distinct(s);
      forall i, j | 0 <= i < j < |r|
        ensures FirstIndex(s, r[i]) < FirstIndex(s, r[j])
      {
        assert r[i] in d;
        FirstIndexPrefix(p, x, r[i]);
        if x in d {
          assert r == d;
          FirstIndexPrefix(p, x, r[j]);
        } else {
          assert r == d + [x];
          if j < |d| {
            FirstIndexPrefix(p, x, r[j]);
          } else {
            assert r[j] == x && x !in p;
            var k := FirstIndex(s, x);
            assert k == |p|;
          }
        }
      }
    }
  }

  // ---------------------------------------------------------------------
  // A stable sort by a numeric key, as Array.prototype.sort with the
  // comparator `(a, b) => key(a) - key(b)`

  predicate SortedBy<T>(key: T -> real, s: seq<T>)
  {
    forall i, j :: 0 <= i < j < |s| ==> key(s[i]) <= key(s[j])
  }

  /** Insert `x` after every element whose key is at most `x`'s. */
  function InsertBy<T>(key: T -> real, t: seq<T>, x: T): seq<T>
  {
    if t == [] then [x]
    else if key(t[|t| - 1]) <= key(x) then t + [x]
    else InsertBy(key, t[..|t| - 1], x) + [t[|t| - 1]]
  }

  /** Insertion sort, inserting the elements from left to right. */
  function SortBy<T>(key: T -> real, s: seq<T>): seq<T>
  {
    if s == [] then [] else InsertBy(key, SortBy(key, s[..|s| - 1]), s[|s| - 1])
  }

  lemma {:induction false} InsertByMultiset<T>(key: T -> real, t: seq<T>, x: T)
    ensures multiset(InsertBy(key, t, x)) == multiset(t) + multiset{x}
  {
    if t != [] && key(t[|t| - 1]) > key(x) {
      InsertByMultiset(key, t[..|t| - 1], x);
      assert t == t[..|t| - 1] + [t[|t| - 1]];
    }
  }

  lemma {:induction false} InsertBySorted<T>(key: T -> real, t: seq<T>, x: T)
    requires SortedBy(key, t)
    ensures SortedBy(key, InsertBy(key, t, x))
  {
    if t != [] && key(t[|t| - 1]) > key(x) {
      var init, last := t[..|t| - 1], t[|t| - 1];
      InsertBySorted(key, init, x);
      InsertByMultiset(key, init, x);
      var u := InsertBy(key, init, x);
      forall i | 0 <= i < |u|
        ensures key(u[i]) <= key(last)
      {
        assert u[i] in multiset(u);
        if u[i] != x {
          assert u[i] in multiset(init);
          var m :| 0 <= m < |init| && init[m] == u[i];
          assert t[m] == init[m];
        }
      }
    }
  }

  /** Filtering a single element. */
  lemma FilterSingle<T(!new)>(f: T -> bool, x: T)
    ensures Filter(f, [x]) == if f(x) then [x] else []
  {
    assert [x][1..] == [];
  }

  /** Among elements of one key, insertion keeps the existing order and puts
      the new element last. */
  lemma {:induction false} InsertByStable<T(!new)>(key: T -> real, t: seq<T>, x: T, v: real)
    ensures Filter(KeyIs(key, v), InsertBy(key, t, x)) ==
            Filter(KeyIs(key, v), t) + Filter(KeyIs(key, v), [x])
  {
    var f := KeyIs(key, v);
    if t == [] {
      assert InsertBy(key, t, x) == [x];
    } else if key(t[|t| - 1]) <= key(x) {
      assert InsertBy(key, t, x) == t + [x];
      FilterConcat(f, t, [x]);
    } else {
      var init, last := t[..|t| - 1], t[|t| - 1];
      InsertByStable(key, init, x, v);
      assert t == init + [last];
      InsertBeforeLastStable(key, init, last, x, v);
    }
  }

  /** The step of InsertByStable where `x` goes before the last element. */
  lemma InsertBeforeLastStable<T(!new)>(key: T -> real, init: seq<T>, last: T, x: T, v: real)
    requires key(last) > key(x)
    requires Filter(KeyIs(key, v), InsertBy(key, init, x)) ==
             Filter(KeyIs(key, v), init) + Filter(KeyIs(key, v), [x])
    ensures Filter(KeyIs(key, v), InsertBy(key, init + [last], x)) ==
            Filter(KeyIs(key, v), init + [last]) + Filter(KeyIs(key, v), [x])
  {
    var f := KeyIs(key, v);
    var t := init + [last];
    assert t[..|t| - 1] == init && t[|t| - 1] == last;
    var u := InsertBy(key, init, x);
    FilterSingle(f, x);
    FilterSingle(f, last);
    assert Filter(f, [x]) == [] || Filter(f, [last]) == [];
    calc {
      Filter(f, InsertBy(key, t, x));
      Filter(f, u + [last]);
      { FilterConcat(f, u, [last]); }
      Filter(f, u) + Filter(f, [last]);
      Filter(f, init) + Filter(f, [x]) + Filter(f, [last]);
      { SwapEmpty(Filter(f, init), Filter(f, [x]), Filter(f, [last])); }
      Filter(f, init) + Filter(f, [last]) + Filter(f, [x]);
      { FilterConcat(f, init, [last]); }
      Filter(f, t) + Filter(f, [x]);
    }
  }

  /** Two lists of which one is empty can be appended in either order. */
  lemma SwapEmpty<T>(a: seq<T>, b: seq<T>, c: seq<T>)
    requires b == [] || c == []
    ensures a + b + c == a + c + b
  {
  }

  /** SortBy returns a sorted list. */
  lemma {:induction false} SortBySorted<T>(key: T -> real, s: seq<T>)
    ensures SortedBy(key, SortBy(key, s))
  {
    if s != [] {
      var p, x := s[..|s| - 1], s[|s| - 1];
      SortBySorted(key, p);
      InsertBySorted(key, SortBy(key, p), x);
    }
  }

  /** SortBy returns a permutation of its input. */
  lemma {:induction false} SortByPermutes<T>(key: T -> real, s: seq<T>)
    ensures multiset(SortBy(key, s)) == multiset(s)
  {
    if s != [] {
      var p, x := s[..|s| - 1], s[|s| - 1];
      calc {
        multiset(SortBy(key, s));
        multiset(InsertBy(key, SortBy(key, p), x));
        { InsertByMultiset(key, SortBy(key, p), x); }
        multiset(SortBy(key, p)) + multiset{x};
        { SortByPermutes(key, p); }
        multiset(p) + multiset{x};
        multiset(p + [x]);
        { assert s == p + [x]; }
        multiset(s);
      }
    }
  }

  /** SortBy returns a sorted permutation of its input. */
  lemma SortBySpec<T>(key: T -> real, s: seq<T>)
    ensures SortedBy(key, SortBy(key, s))
    ensures multiset(SortBy(key, s)) == multiset(s)
  {
    SortBySorted(key, s);
    SortByPermutes(key, s);
  }

  /** SortBy is stable: the elements of each key keep their input order. */
  lemma {:induction false} SortByStable<T(!new)>(key: T -> real, s: seq<T>, v: real)
    ensures Filter(KeyIs(key, v), SortBy(key, s)) == Filter(KeyIs(key, v), s)
  {
    if s != [] {
      var p, x := s[..|s| - 1], s[|s| - 1];
      assert s == p + [x];
      SortByStable(key, p, v);
      InsertByStable(key, SortBy(key, p), x, v);
      FilterConcat(KeyIs(key, v), p, [x]);
    }
  }
}
