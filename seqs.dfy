/** Order-preserving filtering and flattening of sequences: JavaScript's
    `Array.prototype.filter`, the row selection of a `WHERE` or `DELETE ...
    WHERE`, and the concatenation of several batches. */
module Seqs {

  /** The elements of `s` that satisfy `keep`, in their original order. */
  function Filter<T>(s: seq<T>, keep: T -> bool): (r: seq<T>)
    ensures |r| <= |s|
    ensures forall k :: 0 <= k < |r| ==> r[k] in s && keep(r[k])
    ensures forall k :: 0 <= k < |s| && keep(s[k]) ==> s[k] in r
  {
    if s == [] then []
    else (if keep(s[0]) then [s[0]] else []) + Filter(s[1..], keep)
  }

  /** `a` is obtained from `b` by deleting elements, without reordering. */
  predicate IsSubseq<T(==)>(a: seq<T>, b: seq<T>)
    decreases |b|
  {
    if a == [] then true
    else if b == [] then false
    else (a[0] == b[0] && IsSubseq(a[1..], b[1..])) || IsSubseq(a, b[1..])
  }

  lemma {:induction false} FilterIsSubseq<T>(s: seq<T>, keep: T -> bool)
    ensures IsSubseq(Filter(s, keep), s)
    decreases |s|
  {
    if s != [] {
      FilterIsSubseq(s[1..], keep);
      var r := Filter(s, keep);
      if keep(s[0]) {
        assert r == [s[0]] + Filter(s[1..], keep);
        assert r[1..] == Filter(s[1..], keep);
      } else {
        assert r == Filter(s[1..], keep);
      }
    }
  }

  /** Every ordered pair of the filtered sequence was an ordered pair of the
      original one, so any relation between earlier and later elements is
      kept (sortedness, increasing identifiers). */
  lemma {:induction false} FilterKeepsPairwise<T>(s: seq<T>, keep: T -> bool, before: (T, T) -> bool)
    requires forall i, j :: 0 <= i < j < |s| ==> before(s[i], s[j])
    ensures forall i, j :: 0 <= i < j < |Filter(s, keep)| ==> before(Filter(s, keep)[i], Filter(s, keep)[j])
    decreases |s|
  {
    if s != [] {
      var tail := Filter(s[1..], keep);
      FilterKeepsPairwise(s[1..], keep, before);
      if keep(s[0]) {
        var r := Filter(s, keep);
        assert r == [s[0]] + tail;
        forall i, j | 0 <= i < j < |r|
          ensures before(r[i], r[j])
        {
          if i == 0 {
            assert r[j] == tail[j - 1];
            assert tail[j - 1] in s[1..];
            var k :| 0 <= k < |s[1..]| && s[1..][k] == tail[j - 1];
            assert s[k + 1] == r[j];
          } else {
            assert r[i] == tail[i - 1] && r[j] == tail[j - 1];
          }
        }
      }
    }
  }

  /** Filtering depends only on which elements the predicate keeps. */
  lemma {:induction false} FilterExt<T>(s: seq<T>, keep: T -> bool, keep2: T -> bool)
    requires forall k :: 0 <= k < |s| ==> keep(s[k]) == keep2(s[k])
    ensures Filter(s, keep) == Filter(s, keep2)
    decreases |s|
  {
    if s != [] {
      FilterExt(s[1..], keep, keep2);
    }
  }

  /** A filter that keeps every element changes nothing. */
  lemma {:induction false} FilterAll<T>(s: seq<T>, keep: T -> bool)
    requires forall k :: 0 <= k < |s| ==> keep(s[k])
    ensures Filter(s, keep) == s
    decreases |s|
  {
    if s != [] {
      FilterAll(s[1..], keep);
      assert s == [s[0]] + s[1..];
    }
  }

  /** The batches of `bs` one after another. */
  function Flatten<T>(bs: seq<seq<T>>): seq<T>
  {
    if bs == [] then [] else bs[0] + Flatten(bs[1..])
  }

  lemma {:induction false} FlattenAppend<T>(a: seq<seq<T>>, b: seq<seq<T>>)
    ensures Flatten(a + b) == Flatten(a) + Flatten(b)
    decreases |a|
  {
    if a == [] {
      assert a + b == b;
    } else {
      assert (a + b)[1..] == a[1..] + b;
      FlattenAppend(a[1..], b);
    }
  }

  /** Taking batch `k` out of `bs` takes exactly its elements out of the
      flattened multiset. */
  lemma FlattenRemove<T>(bs: seq<seq<T>>, k: nat)
    requires k < |bs|
    ensures multiset(Flatten(bs)) == multiset(bs[k]) + multiset(Flatten(bs[..k] + bs[k + 1..]))
  {
    var pre, x, post := bs[..k], bs[k], bs[k + 1..];
    AroundIndex(bs, k);
    FlattenThree(pre, x, post);
    FlattenAppend(pre, post);
    MultisetRegroup(Flatten(pre), x, Flatten(post));
  }

  /** Proof-cost helper, modelling nothing: flattening a sequence of
      batches split around one batch `x`. */
  lemma FlattenThree<T>(pre: seq<seq<T>>, x: seq<T>, post: seq<seq<T>>)
    ensures Flatten(pre + [x] + post) == Flatten(pre) + x + Flatten(post)
  {
    FlattenAppend(pre + [x], post);
    FlattenAppend(pre, [x]);
    FlattenCons(x, []);
    assert [x] + [] == [x];
  }

  /** Proof-cost helper, modelling nothing: the lines of `x` taken out of
      the middle of a concatenation. */
  lemma MultisetRegroup<T>(a: seq<T>, x: seq<T>, b: seq<T>)
    ensures multiset(a + x + b) == multiset(x) + multiset(a + b)
  {
  }

  /** Proof-cost helper, modelling nothing: a sequence is its prefix, the
      element at `i` and its suffix. */
  lemma AroundIndex<T>(s: seq<T>, i: nat)
    requires i < |s|
    ensures s == s[..i] + [s[i]] + s[i + 1..]
  {
  }

  lemma FlattenCons<T>(x: seq<T>, post: seq<seq<T>>)
    ensures Flatten([x] + post) == x + Flatten(post)
  {
    assert ([x] + post)[1..] == post;
  }

  /** Proof-cost helper, modelling nothing: regrouping after a leading
      element. */
  lemma ConsAssoc<T>(x: T, a: seq<T>, b: seq<T>)
    ensures [x] + a + b == [x] + (a + b)
  {
  }
}
