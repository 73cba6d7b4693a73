/** Subsequences: elements kept in order, others left out. */
module Sequences {

  ghost predicate Embeds<T>(a: seq<T>, b: seq<T>, f: seq<nat>) {
    && |f| == |a|
    && (forall k :: 0 <= k < |a| ==> f[k] < |b| && b[f[k]] == a[k])
    && (forall k, l :: 0 <= k < l < |a| ==> f[k] < f[l])
  }

  ghost predicate Subsequence<T>(a: seq<T>, b: seq<T>) {
    exists f :: Embeds(a, b, f)
  }

  lemma SubsequenceTrans<T>(a: seq<T>, b: seq<T>, c: seq<T>)
    requires Subsequence(a, b) && Subsequence(b, c)
    ensures Subsequence(a, c)
  {
    var f :| Embeds(a, b, f);
    var g :| Embeds(b, c, g);
    var h := seq(|f|, k requires 0 <= k < |f| => g[f[k]]);
    assert Embeds(a, c, h);
  }

  lemma PrefixSubsequence<T>(a: seq<T>, b: seq<T>)
    requires a <= b
    ensures Subsequence(a, b)
  {
    assert Embeds(a, b, seq(|a|, k => k));
  }
}
