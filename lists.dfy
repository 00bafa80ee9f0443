/** The list transforms every collection controller applies to its rows:
    `filter` on a key to delete, `map` with a key test to replace, and
    spread-append to add. The key is the row's `id`, or a progress task's
    `title`. */
module Lists {

  /** `s.filter(x => key(x) !== k)`. */
  function Without<T, K(==)>(s: seq<T>, key: T -> K, k: K): (r: seq<T>)
    ensures |r| <= |s|
    ensures forall x :: x in r ==> x in s && key(x) != k
  {
    if s == [] then []
    else if key(s[0]) == k then Without(s[1..], key, k)
    else [s[0]] + Without(s[1..], key, k)
  }

  /** `s.map(x => key(x) === k ? v : x)`. */
  function ReplaceWhere<T, K(==)>(s: seq<T>, key: T -> K, k: K, v: T): (r: seq<T>)
    ensures |r| == |s|
    ensures forall i :: 0 <= i < |s| ==> r[i] == if key(s[i]) == k then v else s[i]
  {
    if s == [] then []
    else [if key(s[0]) == k then v else s[0]] + ReplaceWhere(s[1..], key, k, v)
  }

  /** The keys of `s`, in list order. */
  function Keys<T, K>(s: seq<T>, key: T -> K): (r: seq<K>)
    ensures |r| == |s| && forall i :: 0 <= i < |s| ==> r[i] == key(s[i])
  {
    seq(|s|, i requires 0 <= i < |s| => key(s[i]))
  }

  /** No two rows of `s` share a key. */
  ghost predicate DistinctKeys<T, K>(s: seq<T>, key: T -> K)
  {
    forall i, j :: 0 <= i < j < |s| ==> key(s[i]) != key(s[j])
  }

  /** `r` is `s` with some elements dropped and the others in their order. */
  ghost predicate Subsequence<T>(r: seq<T>, s: seq<T>)
    decreases |s|
  {
    r == [] || (s != [] && ((r[0] == s[0] && Subsequence(r[1..], s[1..])) || Subsequence(r, s[1..])))
  }

  /** Deleting keeps the other rows in their original order. */
  lemma {:induction false} WithoutIsSubsequence<T, K>(s: seq<T>, key: T -> K, k: K)
    ensures Subsequence(Without(s, key, k), s)
  {
    if s != [] {
      WithoutIsSubsequence(s[1..], key, k);
      var rest := Without(s[1..], key, k);
      if key(s[0]) != k {
        assert ([s[0]] + rest)[1..] == rest;
      }
    }
  }

  /** Deleting removes every row with key `k` and keeps every copy of every
      other row. */
  lemma {:induction false} WithoutCount<T, K>(s: seq<T>, key: T -> K, k: K, x: T)
    ensures multiset(Without(s, key, k))[x] == if key(x) == k then 0 else multiset(s)[x]
  {
    if s == [] {
    } else {
      WithoutCount(s[1..], key, k, x);
      assert s == [s[0]] + s[1..];
      assert multiset(s) == multiset([s[0]]) + multiset(s[1..]);
      if key(s[0]) != k {
        var rest := Without(s[1..], key, k);
        assert multiset([s[0]] + rest) == multiset([s[0]]) + multiset(rest);
      }
    }
  }

  /** After deleting `k` no row carries `k`. */
  lemma WithoutRemovesKey<T, K>(s: seq<T>, key: T -> K, k: K)
    ensures k !in Keys(Without(s, key, k), key)
  {
    var r := Without(s, key, k);
    assert forall i :: 0 <= i < |r| ==> r[i] in r;
  }

  /** Deleting a key no row carries changes nothing. */
  lemma {:induction false} WithoutAbsent<T, K>(s: seq<T>, key: T -> K, k: K)
    requires k !in Keys(s, key)
    ensures Without(s, key, k) == s
  {
    if s != [] {
      assert key(s[0]) == Keys(s, key)[0];
      assert Keys(s[1..], key) == Keys(s, key)[1..];
      WithoutAbsent(s[1..], key, k);
      assert s == [s[0]] + s[1..];
    }
  }

  /** Deleting twice is deleting once. */
  lemma WithoutIdempotent<T, K>(s: seq<T>, key: T -> K, k: K)
    ensures Without(Without(s, key, k), key, k) == Without(s, key, k)
  {
    WithoutRemovesKey(s, key, k);
    WithoutAbsent(Without(s, key, k), key, k);
  }

  /** Deleting keeps keys distinct. */
  lemma {:induction false} WithoutKeepsDistinct<T, K>(s: seq<T>, key: T -> K, k: K)
    requires DistinctKeys(s, key)
    ensures DistinctKeys(Without(s, key, k), key)
  {
    if s != [] {
      WithoutKeepsDistinct(s[1..], key, k);
      var rest := Without(s[1..], key, k);
      if key(s[0]) != k {
        var r := [s[0]] + rest;
        forall i, j | 0 <= i < j < |r| ensures key(r[i]) != key(r[j]) {
          if i == 0 {
            assert r[j] in rest;
            var m :| 0 <= m < |s[1..]| && s[1..][m] == r[j];
            assert s[m + 1] == r[j];
          } else {
            assert r[i] == rest[i - 1] && r[j] == rest[j - 1];
          }
        }
      }
    }
  }

  /** Adding a row and then deleting its key removes it together with every
      older row that had the same key. */
  lemma {:induction false} WithoutAppended<T, K>(s: seq<T>, key: T -> K, v: T)
    ensures Without(s + [v], key, key(v)) == Without(s, key, key(v))
  {
    if s == [] {
      assert [v][1..] == [];
    } else {
      assert (s + [v])[1..] == s[1..] + [v];
      WithoutAppended(s[1..], key, v);
    }
  }

  /** Replacing with a row that keeps the key leaves the key sequence as it
      was. */
  lemma ReplaceKeepsKeys<T, K>(s: seq<T>, key: T -> K, k: K, v: T)
    requires key(v) == k
    ensures Keys(ReplaceWhere(s, key, k, v), key) == Keys(s, key)
  {
    var r := ReplaceWhere(s, key, k, v);
    assert forall i :: 0 <= i < |s| ==> Keys(r, key)[i] == Keys(s, key)[i];
  }

  /** Replacing with a row that keeps the key keeps keys distinct. */
  lemma ReplaceKeepsDistinct<T, K>(s: seq<T>, key: T -> K, k: K, v: T)
    requires key(v) == k
    requires DistinctKeys(s, key)
    ensures DistinctKeys(ReplaceWhere(s, key, k, v), key)
  {
    var r := ReplaceWhere(s, key, k, v);
    assert forall i :: 0 <= i < |s| ==> key(r[i]) == key(s[i]);
  }

  /** Appending a row whose key is new keeps keys distinct. */
  lemma AppendFreshKeepsDistinct<T, K>(s: seq<T>, key: T -> K, v: T)
    requires DistinctKeys(s, key)
    requires key(v) !in Keys(s, key)
    ensures DistinctKeys(s + [v], key)
  {
    var r := s + [v];
    forall i, j | 0 <= i < j < |r| ensures key(r[i]) != key(r[j]) {
      if j == |s| {
        assert Keys(s, key)[i] == key(r[i]);
      }
    }
  }
}
