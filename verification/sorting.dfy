/** Stable sorting in descending order of a numeric key: what
    `arr.sort((a, b) => key(b) - key(a))` computes (the ECMAScript sort is stable)
    and what the database's `.sort({ field: -1 })` is taken to compute. */
module Sorting {
  import Seqs

  /** Keys never increase along `s`. */
  predicate SortedDesc<T>(s: seq<T>, key: T -> real)
  {
    forall i, j :: 0 <= i < j < |s| ==> key(s[i]) >= key(s[j])
  }

  /** Every element of a subsequence is an element of the whole. */
  lemma {:induction false} SubsequenceMember<T>(a: seq<T>, s: seq<T>, i: nat)
    requires Seqs.IsSubsequence(a, s)
    requires i < |a|
    ensures a[i] in s
  {
    if a[0] == s[0] && Seqs.IsSubsequence(a[1..], s[1..]) {
      if i > 0 {
        SubsequenceMember(a[1..], s[1..], i - 1);
      }
    } else {
      SubsequenceMember(a, s[1..], i);
    }
  }

  /** A subsequence of a descending sequence is descending: filtering keeps
      the order. */
  lemma {:induction false} SubsequenceSorted<T>(a: seq<T>, s: seq<T>, key: T -> real)
    requires Seqs.IsSubsequence(a, s)
    requires SortedDesc(s, key)
    ensures SortedDesc(a, key)
  {
    if a != [] {
      assert SortedDesc(s[1..], key) by {
        forall i, j | 0 <= i < j < |s[1..]| ensures key(s[1..][i]) >= key(s[1..][j]) {
          assert s[1..][i] == s[i + 1] && s[1..][j] == s[j + 1];
        }
      }
      if a[0] == s[0] && Seqs.IsSubsequence(a[1..], s[1..]) {
        SubsequenceSorted(a[1..], s[1..], key);
        forall j | 0 < j < |a| ensures key(a[0]) >= key(a[j]) {
          SubsequenceMember(a[1..], s[1..], j - 1);
          var k :| 0 <= k < |s[1..]| && s[1..][k] == a[j];
          assert s[1..][k] == s[k + 1];
        }
      } else {
        SubsequenceSorted(a, s[1..], key);
      }
    }
  }

  /** The elements of `s` whose key is `k`, in their order in `s`.  A sort is
      stable exactly when it leaves every such subsequence unchanged. */
  function WithKey<T>(s: seq<T>, key: T -> real, k: real): seq<T>
  {
    if s == [] then [] else (if key(s[0]) == k then [s[0]] else []) + WithKey(s[1..], key, k)
  }

  lemma WithKeyCons<T>(x: T, s: seq<T>, key: T -> real, k: real)
    ensures WithKey([x] + s, key, k) == (if key(x) == k then [x] else []) + WithKey(s, key, k)
  {
    assert ([x] + s)[0] == x;
    assert ([x] + s)[1..] == s;
  }

  /** Only elements of `s` with key `k` are picked. */
  lemma {:induction false} WithKeyMember<T>(s: seq<T>, key: T -> real, k: real, x: T)
    requires x in WithKey(s, key, k)
    ensures x in s && key(x) == k
  {
    if s != [] {
      WithKeyCons(s[0], s[1..], key, k);
      assert s == [s[0]] + s[1..];
      if x != s[0] || key(x) != k {
        WithKeyMember(s[1..], key, k, x);
      }
    }
  }

  /** Every element of `s` is picked for its own key. */
  lemma {:induction false} WithKeyHas<T>(s: seq<T>, key: T -> real, i: nat)
    requires i < |s|
    ensures s[i] in WithKey(s, key, key(s[i]))
  {
    WithKeyCons(s[0], s[1..], key, key(s[i]));
    assert s == [s[0]] + s[1..];
    if i > 0 {
      WithKeyHas(s[1..], key, i - 1);
    }
  }

  /** The first element picked for key `k` is the first element of `s` whose
      key is `k`. */
  lemma {:induction false} WithKeyFirst<T>(s: seq<T>, key: T -> real, k: real)
    requires WithKey(s, key, k) != []
    ensures exists i :: 0 <= i < |s| && s[i] == WithKey(s, key, k)[0] && key(s[i]) == k
                        && forall j :: 0 <= j < i ==> key(s[j]) != k
  {
    WithKeyCons(s[0], s[1..], key, k);
    assert s == [s[0]] + s[1..];
    if key(s[0]) != k {
      WithKeyFirst(s[1..], key, k);
      var i :| 0 <= i < |s[1..]| && s[1..][i] == WithKey(s[1..], key, k)[0] && key(s[1..][i]) == k
               && forall j :: 0 <= j < i ==> key(s[1..][j]) != k;
      assert s[i + 1] == s[1..][i];
      forall j | 0 <= j < i + 1 ensures key(s[j]) != k {
        if j > 0 { assert s[j] == s[1..][j - 1]; }
      }
    } else {
      assert s[0] == WithKey(s, key, k)[0];
    }
  }

  lemma FirstPicked<T>(s: seq<T>, key: T -> real)
    ensures s != [] ==> s[0] in WithKey(s, key, key(s[0]))
  {
    if s != [] {
      WithKeyHas(s, key, 0);
    }
  }

  /** The first element of a descending sequence has the largest key. */
  lemma FirstIsLargest<T>(s: seq<T>, key: T -> real, x: T)
    requires SortedDesc(s, key)
    requires x in s
    ensures key(x) <= key(s[0])
  {
    var i :| 0 <= i < |s| && s[i] == x;
  }

  lemma {:induction false} WithKeyAppend<T>(a: seq<T>, b: seq<T>, key: T -> real, k: real)
    ensures WithKey(a + b, key, k) == WithKey(a, key, k) + WithKey(b, key, k)
  {
    if a != [] {
      assert a + b == [a[0]] + (a[1..] + b);
      assert a == [a[0]] + a[1..];
      WithKeyCons(a[0], a[1..] + b, key, k);
      WithKeyCons(a[0], a[1..], key, k);
      WithKeyAppend(a[1..], b, key, k);
    } else {
      assert a + b == b;
    }
  }

  lemma InsertFrontWithKey<T>(x: T, s: seq<T>, key: T -> real)
    ensures forall k :: WithKey([x] + s, key, k) == (if key(x) == k then [x] else []) + WithKey(s, key, k)
  {
    forall k ensures WithKey([x] + s, key, k) == (if key(x) == k then [x] else []) + WithKey(s, key, k) {
      WithKeyCons(x, s, key, k);
    }
  }

  /** Passing `x` over a head `y` with a strictly larger key does not change
      any equal-key subsequence. */
  lemma InsertPastWithKey<T>(x: T, y: T, s: seq<T>, t: seq<T>, key: T -> real)
    requires key(y) > key(x)
    requires forall k :: WithKey(t, key, k) == (if key(x) == k then [x] else []) + WithKey(s, key, k)
    ensures forall k :: WithKey([y] + t, key, k) == (if key(x) == k then [x] else []) + WithKey([y] + s, key, k)
  {
    forall k ensures WithKey([y] + t, key, k) == (if key(x) == k then [x] else []) + WithKey([y] + s, key, k) {
      WithKeyCons(y, t, key, k);
      WithKeyCons(y, s, key, k);
    }
  }

  /** Inserts `x` in front of the first element whose key is not larger. */
  function Insert<T>(x: T, s: seq<T>, key: T -> real): (r: seq<T>)
    requires SortedDesc(s, key)
    ensures SortedDesc(r, key)
    ensures multiset(r) == multiset(s) + multiset{x}
    ensures forall k :: WithKey(r, key, k) == (if key(x) == k then [x] else []) + WithKey(s, key, k)
  {
    if s == [] || key(s[0]) <= key(x) then
      InsertFrontWithKey(x, s, key);
      [x] + s
    else
      var t := Insert(x, s[1..], key);
      assert s == [s[0]] + s[1..];
      assert forall j :: 0 <= j < |t| ==> key(t[j]) <= key(s[0]) by {
        forall j | 0 <= j < |t| ensures key(t[j]) <= key(s[0]) {
          assert t[j] in multiset(s[1..]) + multiset{x};
          if t[j] != x {
            assert t[j] in s[1..];
          }
        }
      }
      ConsSorted(s[0], t, key);
      InsertPastWithKey(x, s[0], s[1..], t, key);
      [s[0]] + t
  }

  /** A head whose key bounds every key of an ordered tail keeps it ordered. */
  lemma ConsSorted<T>(y: T, t: seq<T>, key: T -> real)
    requires SortedDesc(t, key)
    requires forall j :: 0 <= j < |t| ==> key(t[j]) <= key(y)
    ensures SortedDesc([y] + t, key)
  {
    var r := [y] + t;
    forall i, j | 0 <= i < j < |r| ensures key(r[i]) >= key(r[j]) {
      assert r[j] == t[j - 1];
      if 0 < i {
        assert r[i] == t[i - 1];
      }
    }
  }

  /** The head of the stable sort is a largest element, and the first of
      the largest ones in input order. */
  lemma HeadIsFirstMaximum<T>(s: seq<T>, key: T -> real)
    requires s != []
    ensures var top := SortDesc(s, key)[0];
      && (forall i :: 0 <= i < |s| ==> key(s[i]) <= key(top))
      && (exists i :: 0 <= i < |s| && s[i] == top && forall j :: 0 <= j < i ==> key(s[j]) < key(top))
  {
    var sorted := SortDesc(s, key);
    var top := sorted[0];
    var k := key(top);
    assert forall i :: 0 <= i < |s| ==> key(s[i]) <= k by {
      forall i | 0 <= i < |s| ensures key(s[i]) <= k {
        assert s[i] in multiset(sorted);
        FirstIsLargest(sorted, key, s[i]);
      }
    }
    assert WithKey(s, key, k) != [] && WithKey(s, key, k)[0] == top by {
      WithKeyCons(top, sorted[1..], key, k);
      assert sorted == [top] + sorted[1..];
    }
    WithKeyFirst(s, key, k);
  }

  /** Stable descending sort: the result is ordered by key, is a permutation
      of `s`, and keeps elements with equal keys in their input order. */
  function SortDesc<T>(s: seq<T>, key: T -> real): (r: seq<T>)
    ensures SortedDesc(r, key)
    ensures multiset(r) == multiset(s)
    ensures |r| == |s|
    ensures forall k :: WithKey(r, key, k) == WithKey(s, key, k)
  {
    if s == [] then []
    else
      var t := SortDesc(s[1..], key);
      var r := Insert(s[0], t, key);
      assert s == [s[0]] + s[1..];
      assert |r| == |multiset(r)| == |s|;
      InsertFrontWithKey(s[0], s[1..], key);
      r
  }

  /** Stable descending order determines the result completely: any two
      sequences that are both ordered by key and agree on every equal-key
      subsequence are equal.  So every stable sort returns `SortDesc`. */
  lemma {:induction false} StableSortUnique<T>(a: seq<T>, b: seq<T>, key: T -> real)
    requires SortedDesc(a, key) && SortedDesc(b, key)
    requires forall k :: WithKey(a, key, k) == WithKey(b, key, k)
    ensures a == b
  {
    if a == [] || b == [] {
      if a != b {
        FirstPicked(a, key);
        FirstPicked(b, key);
        assert false;
      }
    } else {
      var ka, kb := key(a[0]), key(b[0]);
      WithKeyHas(a, key, 0);
      WithKeyMember(b, key, ka, a[0]);
      FirstIsLargest(b, key, a[0]);
      WithKeyHas(b, key, 0);
      WithKeyMember(a, key, kb, b[0]);
      FirstIsLargest(a, key, b[0]);
      assert ka == kb;
      assert a == [a[0]] + a[1..] && b == [b[0]] + b[1..];
      WithKeyCons(a[0], a[1..], key, ka);
      WithKeyCons(b[0], b[1..], key, ka);
      assert WithKey(a, key, ka) == WithKey(b, key, ka);
      assert a[0] == WithKey(a, key, ka)[0] == WithKey(b, key, ka)[0] == b[0];
      forall k ensures WithKey(a[1..], key, k) == WithKey(b[1..], key, k) {
        WithKeyCons(a[0], a[1..], key, k);
        WithKeyCons(b[0], b[1..], key, k);
        var wa, wb := WithKey(a, key, k), WithKey(b, key, k);
        assert wa == wb;
        if k == ka {
          assert WithKey(a[1..], key, k) == wa[1..] == wb[1..] == WithKey(b[1..], key, k);
        } else {
          assert WithKey(a[1..], key, k) == [] + WithKey(a[1..], key, k) == wa;
          assert WithKey(b[1..], key, k) == [] + WithKey(b[1..], key, k) == wb;
        }
      }
      StableSortUnique(a[1..], b[1..], key);
    }
  }

  /** Sorting a sequence that is already in descending order changes
      nothing. */
  lemma SortedUnchanged<T>(s: seq<T>, key: T -> real)
    requires SortedDesc(s, key)
    ensures SortDesc(s, key) == s
  {
    StableSortUnique(SortDesc(s, key), s, key);
  }
}
