/**
 * Order-preserving filtering of sequences. Both places where the supervisor keeps
 * some elements of a list in their order (pruning dead PIDs in place, keeping the
 * positive values parsed from pidof's line) are filters; this module states once what a
 * filter keeps.
 */
module Seqs {

  /** The elements of `s` that satisfy `p`, in their original order, duplicates kept.
      Defined from the back, the way a loop that appends to its result builds it. */
  function Filter<T>(s: seq<T>, p: T -> bool): (r: seq<T>)
    ensures |r| <= |s|
    ensures forall k :: 0 <= k < |r| ==> p(r[k])
    ensures forall x :: x in r ==> x in s
  {
    if s == [] then []
    else Filter(s[..|s| - 1], p) + (if p(s[|s| - 1]) then [s[|s| - 1]] else [])
  }

  /** Extending the inspected prefix by one element extends the filter by that element
      exactly when it satisfies `p`. */
  lemma FilterStep<T>(s: seq<T>, n: nat, p: T -> bool)
    requires n < |s|
    ensures Filter(s[..n + 1], p) == Filter(s[..n], p) + (if p(s[n]) then [s[n]] else [])
  {
    assert s[..n + 1][..n] == s[..n];
  }

  /** The positions of `s` whose element satisfies `p`, in increasing order. */
  function FilterIndices<T>(s: seq<T>, p: T -> bool): seq<nat>
  {
    if s == [] then []
    else FilterIndices(s[..|s| - 1], p) + (if p(s[|s| - 1]) then [|s| - 1] else [])
  }

  /** The filter keeps exactly the positions whose element satisfies `p`, in their
      original order: its result is `s` read at those positions. */
  lemma {:induction false} FilterPositions<T>(s: seq<T>, p: T -> bool)
    ensures var idx := FilterIndices(s, p);
      && |idx| == |Filter(s, p)|
      && (forall k :: 0 <= k < |idx| ==> idx[k] < |s| && Filter(s, p)[k] == s[idx[k]])
      && (forall k, l :: 0 <= k < l < |idx| ==> idx[k] < idx[l])
      && (forall i :: 0 <= i < |s| ==> (i in idx <==> p(s[i])))
  {
    if s != [] {
      var n := |s| - 1;
      var front := s[..n];
      FilterPositions(front, p);
      var idx0 := FilterIndices(front, p);
      var idx := FilterIndices(s, p);
      var kept := Filter(s, p);
      assert idx == idx0 + (if p(s[n]) then [n] else []);
      assert kept == Filter(front, p) + (if p(s[n]) then [s[n]] else []);
      forall k | 0 <= k < |idx|
        ensures idx[k] < |s| && kept[k] == s[idx[k]]
      {
        if k < |idx0| {
          assert idx[k] == idx0[k] && kept[k] == Filter(front, p)[k];
          assert front[idx0[k]] == s[idx0[k]];
        }
      }
      forall i | 0 <= i < |s|
        ensures i in idx <==> p(s[i])
      {
        if i < n {
          assert front[i] == s[i];
          assert i in idx <==> i in idx0;
        } else {
          assert n !in idx0;
        }
      }
    }
  }

  /** Filtering distributes over concatenation: the relative order of kept elements is
      the order of the input. */
  lemma {:induction false} FilterAppend<T>(a: seq<T>, b: seq<T>, p: T -> bool)
    ensures Filter(a + b, p) == Filter(a, p) + Filter(b, p)
  {
    if b == [] {
      assert a + b == a;
    } else {
      var n := |b| - 1;
      assert (a + b)[..|a + b| - 1] == a + b[..n];
      assert (a + b)[|a + b| - 1] == b[n];
      FilterAppend(a, b[..n], p);
    }
  }

  /** Each value occurs in the filtered sequence exactly as often as in the input when it
      satisfies `p`, and not at all otherwise. */
  lemma {:induction false} FilterCount<T>(s: seq<T>, p: T -> bool, x: T)
    ensures multiset(Filter(s, p))[x] == if p(x) then multiset(s)[x] else 0
  {
    if s != [] {
      var n := |s| - 1;
      assert s == s[..n] + [s[n]];
      FilterCount(s[..n], p, x);
    }
  }

  /** Filtering keeps a sequence unchanged exactly when all its elements satisfy `p`. */
  lemma {:induction false} FilterUnchanged<T>(s: seq<T>, p: T -> bool)
    ensures Filter(s, p) == s <==> forall k :: 0 <= k < |s| ==> p(s[k])
  {
    if s != [] && forall k :: 0 <= k < |s| ==> p(s[k]) {
      var n := |s| - 1;
      FilterUnchanged(s[..n], p);
      assert s == s[..n] + [s[n]];
    }
  }

  /** Filtering twice with the same predicate is filtering once. */
  lemma FilterIdempotent<T>(s: seq<T>, p: T -> bool)
    ensures Filter(Filter(s, p), p) == Filter(s, p)
  {
    FilterUnchanged(Filter(s, p), p);
  }

  /** A value that is in `s` and satisfies `p` survives the filter. */
  lemma FilterKeeps<T>(s: seq<T>, p: T -> bool, x: T)
    requires x in s && p(x)
    ensures x in Filter(s, p)
  {
    FilterCount(s, p, x);
    assert x in multiset(Filter(s, p));
  }
}
