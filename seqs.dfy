/**
 * Sequence helpers shared by the storefront and the admin dashboard:
 * JavaScript's Array.prototype.filter, a stable descending sort (what
 * Array.prototype.sort does with a `b.k - a.k` comparator) and sums.
 */
module Seqs {

  predicate Distinct<T(==)>(s: seq<T>) {
    forall i, j :: 0 <= i < j < |s| ==> s[i] != s[j]
  }

  /** No two elements of `s` share a key. */
  predicate DistinctBy<T, K(==)>(s: seq<T>, key: T -> K) {
    forall i, j :: 0 <= i < j < |s| ==> key(s[i]) != key(s[j])
  }

  /** `r` can be obtained from `s` by deleting elements, keeping the order of the rest. */
  predicate SubsequenceOf<T(==)>(r: seq<T>, s: seq<T>)
    decreases |s|
  {
    if r == [] then true
    else if s == [] then false
    else (r[0] == s[0] && SubsequenceOf(r[1..], s[1..])) || SubsequenceOf(r, s[1..])
  }

  /** A prefix one element longer is the shorter prefix and that element. */
  lemma PrefixStep<T>(s: seq<T>, i: int)
    requires 0 <= i < |s|
    ensures s[..i + 1] == s[..i] + [s[i]]
  {
  }

  /** Appending a prefix one element longer appends that element. */
  lemma AppendPrefixStep<T>(a: seq<T>, s: seq<T>, j: int)
    requires 0 <= j < |s|
    ensures a + s[..j + 1] == (a + s[..j]) + [s[j]]
  {
    assert s[..j + 1] == s[..j] + [s[j]];
  }

  lemma {:induction false} SubsequenceOfSelf<T>(s: seq<T>)
    ensures SubsequenceOf(s, s)
  {
    if s != [] {
      SubsequenceOfSelf(s[1..]);
    }
  }

  lemma {:induction false} SubsequenceTransitive<T>(a: seq<T>, b: seq<T>, c: seq<T>)
    requires SubsequenceOf(a, b) && SubsequenceOf(b, c)
    ensures SubsequenceOf(a, c)
    decreases |c|
  {
    if a == [] {
    } else if SubsequenceOf(b, c[1..]) {
      SubsequenceTransitive(a, b, c[1..]);
    } else {
      assert b[0] == c[0] && SubsequenceOf(b[1..], c[1..]);
      if a[0] == b[0] && SubsequenceOf(a[1..], b[1..]) {
        SubsequenceTransitive(a[1..], b[1..], c[1..]);
      } else {
        SubsequenceTransitive(a, b[1..], c[1..]);
      }
    }
  }

  /** The elements of `s` that satisfy `p`, in their original order. */
  function Filter<T>(s: seq<T>, p: T -> bool): (r: seq<T>)
    ensures |r| <= |s|
    ensures forall k :: 0 <= k < |r| ==> r[k] in s && p(r[k])
    ensures forall k :: 0 <= k < |s| && p(s[k]) ==> s[k] in r
    ensures SubsequenceOf(r, s)
  {
    if s == [] then []
    else if p(s[0]) then [s[0]] + Filter(s[1..], p)
    else Filter(s[1..], p)
  }

  lemma {:induction false} FilterAppend<T>(a: seq<T>, b: seq<T>, p: T -> bool)
    ensures Filter(a + b, p) == Filter(a, p) + Filter(b, p)
  {
    if a == [] {
      assert a + b == b;
    } else {
      assert (a + b)[1..] == a[1..] + b;
      FilterAppend(a[1..], b, p);
    }
  }

  function SumBy<T>(s: seq<T>, f: T -> int): int {
    if s == [] then 0 else f(s[0]) + SumBy(s[1..], f)
  }

  lemma {:induction false} SumByAppend<T>(a: seq<T>, b: seq<T>, f: T -> int)
    ensures SumBy(a + b, f) == SumBy(a, f) + SumBy(b, f)
  {
    if a == [] {
      assert a + b == b;
    } else {
      assert (a + b)[1..] == a[1..] + b;
      SumByAppend(a[1..], b, f);
    }
  }

  predicate SortedDesc<T>(s: seq<T>, key: T -> int) {
    forall i, j :: 0 <= i < j < |s| ==> key(s[i]) >= key(s[j])
  }

  /** Inserts `x` before the first element whose key is not larger, so `x` precedes its equals. */
  function InsertDesc<T>(x: T, s: seq<T>, key: T -> int): (r: seq<T>)
    requires SortedDesc(s, key)
    ensures |r| == |s| + 1
    ensures multiset(r) == multiset(s) + multiset{x}
    ensures forall k :: 0 <= k < |r| ==> r[k] == x || r[k] in s
    ensures SortedDesc(r, key)
  {
    if s == [] || key(x) >= key(s[0]) then [x] + s
    else
      var rest := InsertDesc(x, s[1..], key);
      InsertBehindHead(x, s, key, rest);
      [s[0]] + rest
  }

  /** Putting the head of `s` back in front of `x` inserted into the tail. */
  lemma InsertBehindHead<T>(x: T, s: seq<T>, key: T -> int, rest: seq<T>)
    requires SortedDesc(s, key) && s != [] && key(x) < key(s[0])
    requires SortedDesc(rest, key)
    requires forall k :: 0 <= k < |rest| ==> rest[k] == x || rest[k] in s[1..]
    requires multiset(rest) == multiset(s[1..]) + multiset{x}
    ensures SortedDesc([s[0]] + rest, key)
    ensures multiset([s[0]] + rest) == multiset(s) + multiset{x}
    ensures forall k :: 0 <= k < |[s[0]] + rest| ==> ([s[0]] + rest)[k] == x || ([s[0]] + rest)[k] in s
  {
    var r := [s[0]] + rest;
    forall k | 0 <= k < |rest| ensures key(s[0]) >= key(rest[k]) {
      if rest[k] != x {
        var m :| 0 <= m < |s[1..]| && s[1..][m] == rest[k];
        assert s[m + 1] == rest[k];
      }
    }
    forall i, j | 0 <= i < j < |r| ensures key(r[i]) >= key(r[j]) {
      assert r[j] == rest[j - 1];
      if i > 0 {
        assert r[i] == rest[i - 1];
      }
    }
    assert s == [s[0]] + s[1..];
    forall k | 0 <= k < |r| ensures r[k] == x || r[k] in s {
      if k > 0 {
        assert r[k] == rest[k - 1];
      }
    }
  }

  /**
   * Stable sort by non-increasing key: elements with equal keys keep their
   * relative order, as JavaScript's sort does since ES2019.
   */
  function SortDesc<T>(s: seq<T>, key: T -> int): (r: seq<T>)
    ensures |r| == |s|
    ensures multiset(r) == multiset(s)
    ensures SortedDesc(r, key)
  {
    if s == [] then []
    else
      assert s == [s[0]] + s[1..];
      InsertDesc(s[0], SortDesc(s[1..], key), key)
  }

  lemma {:induction false} InsertDescSum<T>(x: T, s: seq<T>, key: T -> int, f: T -> int)
    requires SortedDesc(s, key)
    ensures SumBy(InsertDesc(x, s, key), f) == f(x) + SumBy(s, f)
  {
    if s == [] || key(x) >= key(s[0]) {
      assert ([x] + s)[1..] == s;
    } else {
      InsertDescSum(x, s[1..], key, f);
      assert ([s[0]] + InsertDesc(x, s[1..], key))[1..] == InsertDesc(x, s[1..], key);
    }
  }

  /** Sorting does not change a sum over the elements. */
  lemma {:induction false} SortDescSum<T>(s: seq<T>, key: T -> int, f: T -> int)
    ensures SumBy(SortDesc(s, key), f) == SumBy(s, f)
  {
    if s != [] {
      SortDescSum(s[1..], key, f);
      InsertDescSum(s[0], SortDesc(s[1..], key), key, f);
    }
  }

  lemma DistinctByTail<T, K>(s: seq<T>, name: T -> K)
    requires DistinctBy(s, name) && s != []
    ensures DistinctBy(s[1..], name)
    ensures forall y :: y in s[1..] ==> name(y) != name(s[0])
  {
    forall i, j | 0 <= i < j < |s[1..]| ensures name(s[1..][i]) != name(s[1..][j]) {
      assert s[1..][i] == s[i + 1] && s[1..][j] == s[j + 1];
    }
    forall y | y in s[1..] ensures name(y) != name(s[0]) {
      var k :| 0 <= k < |s[1..]| && s[1..][k] == y;
      assert s[k + 1] == y;
    }
  }

  lemma DistinctByCons<T, K>(y: T, s: seq<T>, name: T -> K)
    requires DistinctBy(s, name)
    requires forall z :: z in s ==> name(z) != name(y)
    ensures DistinctBy([y] + s, name)
  {
    var r := [y] + s;
    forall i, j | 0 <= i < j < |r| ensures name(r[i]) != name(r[j]) {
      assert r[j] == s[j - 1];
      if i > 0 {
        assert r[i] == s[i - 1];
      }
    }
  }

  lemma {:induction false} InsertDescDistinct<T, K>(x: T, s: seq<T>, key: T -> int, name: T -> K)
    requires SortedDesc(s, key)
    requires DistinctBy(s, name)
    requires forall y :: y in s ==> name(y) != name(x)
    ensures DistinctBy(InsertDesc(x, s, key), name)
  {
    if s == [] || key(x) >= key(s[0]) {
      DistinctByCons(x, s, name);
    } else {
      DistinctByTail(s, name);
      InsertDescDistinct(x, s[1..], key, name);
      var rest := InsertDesc(x, s[1..], key);
      forall z | z in rest ensures name(z) != name(s[0]) {
        var k :| 0 <= k < |rest| && rest[k] == z;
      }
      DistinctByCons(s[0], rest, name);
    }
  }

  /** Sorting keeps the keys of a sequence distinct when they were distinct. */
  lemma {:induction false} SortDescDistinct<T, K>(s: seq<T>, key: T -> int, name: T -> K)
    requires DistinctBy(s, name)
    ensures DistinctBy(SortDesc(s, key), name)
  {
    if s != [] {
      DistinctByTail(s, name);
      SortDescDistinct(s[1..], key, name);
      var sorted := SortDesc(s[1..], key);
      forall y | y in sorted ensures name(y) != name(s[0]) {
        assert y in multiset(s[1..]);
      }
      InsertDescDistinct(s[0], sorted, key, name);
    }
  }

  /** Filtering twice is filtering once by both conditions. */
  lemma {:induction false} FilterFuse<T>(s: seq<T>, p: T -> bool, q: T -> bool, pq: T -> bool)
    requires forall x :: pq(x) == (p(x) && q(x))
    ensures Filter(Filter(s, p), q) == Filter(s, pq)
  {
    if s != [] {
      FilterFuse(s[1..], p, q, pq);
      if p(s[0]) {
        assert Filter(s, p)[1..] == Filter(s[1..], p);
      }
    }
  }

  /** A filter every element passes keeps the whole sequence. */
  lemma {:induction false} FilterKeepsAll<T>(s: seq<T>, p: T -> bool)
    requires forall x :: p(x)
    ensures Filter(s, p) == s
  {
    if s != [] {
      FilterKeepsAll(s[1..], p);
      assert s == [s[0]] + s[1..];
    }
  }

  /** Filtering keeps every element `p` accepts as often as it occurs, and no other. */
  lemma {:induction false} FilterCount<T>(s: seq<T>, p: T -> bool, x: T)
    ensures multiset(Filter(s, p))[x] == if p(x) then multiset(s)[x] else 0
  {
    if s != [] {
      FilterCount(s[1..], p, x);
      assert s == [s[0]] + s[1..];
      assert multiset(s) == multiset{s[0]} + multiset(s[1..]);
      if p(s[0]) {
        assert multiset(Filter(s, p)) == multiset{s[0]} + multiset(Filter(s[1..], p));
      }
    }
  }

  lemma FilterCounts<T>(s: seq<T>, p: T -> bool)
    ensures forall x :: multiset(Filter(s, p))[x] == if p(x) then multiset(s)[x] else 0
  {
    forall x {
      FilterCount(s, p, x);
    }
  }

  /** Two filters no element passes both of select at most the whole sequence between them. */
  lemma {:induction false} DisjointFiltersFit<T>(s: seq<T>, p: T -> bool, q: T -> bool)
    requires forall k :: 0 <= k < |s| ==> !(p(s[k]) && q(s[k]))
    ensures |Filter(s, p)| + |Filter(s, q)| <= |s|
  {
    if s != [] {
      assert forall k :: 0 <= k < |s[1..]| ==> s[1..][k] == s[k + 1];
      DisjointFiltersFit(s[1..], p, q);
    }
  }

  function Unit<T>(x: T): int {
    1
  }

  lemma {:induction false} LengthIsUnitSum<T>(s: seq<T>)
    ensures SumBy(s, Unit) == |s|
  {
    if s != [] {
      LengthIsUnitSum(s[1..]);
    }
  }

  /**
   * The distinct keys of `s` in order of first appearance: the key order of
   * a JavaScript Map filled from `s`.
   */
  function Keys<T>(s: seq<T>, key: T -> string): (r: seq<string>)
    decreases |s|
  {
    if s == [] then []
    else
      var prev := Keys(s[..|s| - 1], key);
      var x := key(s[|s| - 1]);
      if x in prev then prev else prev + [x]
  }

  lemma {:induction false} KeysDistinct<T>(s: seq<T>, key: T -> string)
    ensures Distinct(Keys(s, key))
    decreases |s|
  {
    if s != [] {
      KeysDistinct(s[..|s| - 1], key);
    }
  }

  lemma {:induction false} KeysCoverElements<T>(s: seq<T>, key: T -> string)
    ensures forall k :: 0 <= k < |s| ==> key(s[k]) in Keys(s, key)
    decreases |s|
  {
    if s != [] {
      var prefix := s[..|s| - 1];
      KeysCoverElements(prefix, key);
      forall k | 0 <= k < |s| ensures key(s[k]) in Keys(s, key) {
        if k < |prefix| {
          assert prefix[k] == s[k];
        }
      }
    }
  }

  /** Some element of `s` has key `x`. */
  predicate KeyOfSome<T>(s: seq<T>, key: T -> string, x: string) {
    exists k :: 0 <= k < |s| && key(s[k]) == x
  }

  lemma {:induction false} KeysComeFromElements<T>(s: seq<T>, key: T -> string)
    ensures forall j :: 0 <= j < |Keys(s, key)| ==> KeyOfSome(s, key, Keys(s, key)[j])
    decreases |s|
  {
    if s != [] {
      var prefix := s[..|s| - 1];
      var prev := Keys(prefix, key);
      var r := Keys(s, key);
      KeysComeFromElements(prefix, key);
      forall j | 0 <= j < |r| ensures KeyOfSome(s, key, r[j]) {
        if j < |prev| {
          assert KeyOfSome(prefix, key, prev[j]);
          var k :| 0 <= k < |prefix| && key(prefix[k]) == prev[j];
          assert prefix[k] == s[k];
        } else {
          assert key(s[|s| - 1]) == r[j];
        }
      }
    }
  }

  /** The keys are distinct, and they are exactly the keys of the elements. */
  lemma KeysFacts<T>(s: seq<T>, key: T -> string)
    ensures Distinct(Keys(s, key))
    ensures forall k :: 0 <= k < |s| ==> key(s[k]) in Keys(s, key)
    ensures forall j :: 0 <= j < |Keys(s, key)| ==> KeyOfSome(s, key, Keys(s, key)[j])
  {
    KeysDistinct(s, key);
    KeysCoverElements(s, key);
    KeysComeFromElements(s, key);
  }

  function HasKey<T>(key: T -> string, k: string): T -> bool {
    x => key(x) == k
  }

  lemma HasKeyMeans<T>(key: T -> string, k: string)
    ensures forall x :: HasKey(key, k)(x) <==> key(x) == k
  {
  }

  lemma HasKeyApply<T>(key: T -> string, k: string, x: T)
    ensures HasKey(key, k)(x) == (key(x) == k)
  {
  }

  /** The sum of `f` over the group of each key in `keys`, added up. */
  function GroupTotal<T>(s: seq<T>, key: T -> string, keys: seq<string>, f: T -> int): int {
    if keys == [] then 0
    else SumBy(Filter(s, HasKey(key, keys[0])), f) + GroupTotal(s, key, keys[1..], f)
  }

  lemma FilterSingle<T>(x: T, p: T -> bool)
    ensures Filter([x], p) == if p(x) then [x] else []
  {
    assert [x][1..] == [];
  }

  lemma {:induction false} GroupTotalAppend<T>(s: seq<T>, x: T, key: T -> string, keys: seq<string>, f: T -> int)
    requires Distinct(keys)
    ensures GroupTotal(s + [x], key, keys, f) == GroupTotal(s, key, keys, f) + (if key(x) in keys then f(x) else 0)
  {
    if keys != [] {
      assert Distinct(keys[1..]) by {
        forall i, j | 0 <= i < j < |keys[1..]| ensures keys[1..][i] != keys[1..][j] {
          assert keys[1..][i] == keys[i + 1] && keys[1..][j] == keys[j + 1];
        }
      }
      GroupTotalAppend(s, x, key, keys[1..], f);
      var p := HasKey(key, keys[0]);
      FilterAppend(s, [x], p);
      FilterSingle(x, p);
      SumByAppend(Filter(s, p), Filter([x], p), f);
      assert key(x) in keys <==> key(x) == keys[0] || key(x) in keys[1..];
      assert key(x) == keys[0] ==> key(x) !in keys[1..];
      assert Filter([x], p) == [] ==> SumBy(Filter([x], p), f) == 0;
    }
  }

  /** Summing group by group over keys that cover `s` once each gives the sum over `s`. */
  lemma {:induction false} GroupTotalCovers<T>(s: seq<T>, key: T -> string, keys: seq<string>, f: T -> int)
    requires Distinct(keys)
    requires forall k :: 0 <= k < |s| ==> key(s[k]) in keys
    ensures GroupTotal(s, key, keys, f) == SumBy(s, f)
    decreases |s|
  {
    if s == [] {
      GroupTotalOfEmpty(key, keys, f);
    } else {
      var prefix := s[..|s| - 1];
      assert s == prefix + [s[|s| - 1]];
      assert forall k :: 0 <= k < |prefix| ==> prefix[k] == s[k];
      GroupTotalCovers(prefix, key, keys, f);
      GroupTotalAppend(prefix, s[|s| - 1], key, keys, f);
      SumByAppend(prefix, [s[|s| - 1]], f);
    }
  }

  lemma {:induction false} GroupTotalOfEmpty<T>(key: T -> string, keys: seq<string>, f: T -> int)
    ensures GroupTotal([], key, keys, f) == 0
  {
    if keys != [] {
      GroupTotalOfEmpty(key, keys[1..], f);
    }
  }

  lemma {:induction false} FilterNone<T>(s: seq<T>, p: T -> bool)
    requires forall k :: 0 <= k < |s| ==> !p(s[k])
    ensures Filter(s, p) == []
  {
    if s != [] {
      assert forall k :: 0 <= k < |s[1..]| ==> s[1..][k] == s[k + 1];
      FilterNone(s[1..], p);
    }
  }
}
