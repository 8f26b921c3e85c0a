/** Reading a post's `aiMetrics`: which entries are numeric, the values
    recorded under a key, and whether a post counts as analysed. */
module Metrics {
  import opened Common
  import opened Entities

  /** `Object.keys(p.aiMetrics).length > 0`: string-only metrics count too. */
  predicate IsAnalysed(p: Post)
  {
    |p.aiMetrics| > 0
  }

  /** The metric values that are numbers, in property order. */
  function NumericValues(es: seq<MetricEntry>): (r: seq<real>)
    ensures |r| <= |es|
    ensures (forall i :: 0 <= i < |es| ==> !es[i].1.Num?) <==> r == []
  {
    if es == [] then []
    else
      var rest := NumericValues(es[1..]);
      assert forall i :: 1 <= i < |es| ==> es[i] == es[1..][i - 1];
      (if es[0].1.Num? then [es[0].1.value] else []) + rest
  }

  /** The numeric values of a concatenation are those of each part, in turn. */
  lemma {:induction false} NumericValuesAppend(a: seq<MetricEntry>, b: seq<MetricEntry>)
    ensures NumericValues(a + b) == NumericValues(a) + NumericValues(b)
  {
    if a == [] {
      assert a + b == b;
    } else {
      assert (a + b)[1..] == a[1..] + b;
      NumericValuesAppend(a[1..], b);
    }
  }

  /** A single entry contributes its value when it is a number and nothing
      when it is a text trait. */
  lemma NumericValuesSingle(k: string, m: Metric)
    ensures NumericValues([(k, m)]) == if m.Num? then [m.value] else []
  {
    assert [(k, m)][1..] == [];
  }

  /** The numeric values recorded under key `k`, in order. */
  function ValuesOf(es: seq<MetricEntry>, k: string): seq<real>
  {
    if es == [] then []
    else
      var last := es[|es| - 1];
      ValuesOf(es[..|es| - 1], k) + (if last.0 == k && last.1.Num? then [last.1.value] else [])
  }

  /** Some entry of `es` is a number stored under `k`. */
  predicate HasNumericKey(es: seq<MetricEntry>, k: string)
  {
    exists i :: 0 <= i < |es| && es[i].0 == k && es[i].1.Num?
  }

  lemma {:induction false} ValuesOfNonEmpty(es: seq<MetricEntry>, k: string)
    ensures ValuesOf(es, k) != [] <==> HasNumericKey(es, k)
  {
    if es != [] {
      var init := es[..|es| - 1];
      ValuesOfNonEmpty(init, k);
      assert forall i :: 0 <= i < |init| ==> init[i] == es[i];
      if HasNumericKey(es, k) && !HasNumericKey(init, k) {
        var i :| 0 <= i < |es| && es[i].0 == k && es[i].1.Num?;
        assert i == |es| - 1;
      }
    }
  }

  /** All metric values of `es` lie on the 0-10 scale. */
  predicate OnScale(es: seq<MetricEntry>)
  {
    forall i :: 0 <= i < |es| && es[i].1.Num? ==> 0.0 <= es[i].1.value <= 10.0
  }

  lemma {:induction false} ValuesOfOnScale(es: seq<MetricEntry>, k: string)
    requires OnScale(es)
    ensures AllBetween(ValuesOf(es, k), 0.0, 10.0)
  {
    if es != [] {
      var init := es[..|es| - 1];
      assert OnScale(init) by {
        assert forall i :: 0 <= i < |init| ==> init[i] == es[i];
      }
      ValuesOfOnScale(init, k);
    }
  }

  lemma {:induction false} NumericValuesOnScale(es: seq<MetricEntry>)
    requires OnScale(es)
    ensures AllBetween(NumericValues(es), 0.0, 10.0)
  {
    if es != [] {
      assert OnScale(es[1..]) by {
        assert forall i :: 1 <= i < |es| ==> es[i] == es[1..][i - 1];
      }
      NumericValuesOnScale(es[1..]);
    }
  }

  /** The metric entries of all posts, post after post. */
  function AllEntries(posts: seq<Post>): seq<MetricEntry>
  {
    if posts == [] then [] else posts[0].aiMetrics + AllEntries(posts[1..])
  }

  /** Every post's metrics are on the 0-10 scale. */
  predicate PostsOnScale(posts: seq<Post>)
  {
    forall i :: 0 <= i < |posts| ==> OnScale(posts[i].aiMetrics)
  }

  lemma OnScaleAppend(a: seq<MetricEntry>, b: seq<MetricEntry>)
    requires OnScale(a) && OnScale(b)
    ensures OnScale(a + b)
  {
    forall i | 0 <= i < |a + b| && (a + b)[i].1.Num?
      ensures 0.0 <= (a + b)[i].1.value <= 10.0
    {
      if i < |a| { assert (a + b)[i] == a[i]; } else { assert (a + b)[i] == b[i - |a|]; }
    }
  }

  lemma {:induction false} AllEntriesOnScale(posts: seq<Post>)
    requires PostsOnScale(posts)
    ensures OnScale(AllEntries(posts))
  {
    if posts != [] {
      assert PostsOnScale(posts[1..]) by {
        assert forall i :: 1 <= i < |posts| ==> posts[i] == posts[1..][i - 1];
      }
      AllEntriesOnScale(posts[1..]);
      assert OnScale(posts[0].aiMetrics);
      OnScaleAppend(posts[0].aiMetrics, AllEntries(posts[1..]));
    }
  }
}
