/** The two list shapes the scraper's code builds: a comprehension with a
    condition (`[x for x in s if p(x)]`) and a loop that appends a value only
    when one was produced. */
module Filtering {
  import opened Wrappers

  /** `idx` lists positions below `bound` in strictly increasing order. */
  predicate Increasing(idx: seq<nat>, bound: nat) {
    (forall k :: 0 <= k < |idx| ==> idx[k] < bound)
    && (forall k, l :: 0 <= k < l < |idx| ==> idx[k] < idx[l])
  }

  /** `[x for x in s if p(x)]`. */
  function Filter<T>(s: seq<T>, p: T -> bool): (r: seq<T>)
    ensures |r| <= |s|
  {
    if s == [] then [] else Filter(s[..|s| - 1], p) + (if p(s[|s| - 1]) then [s[|s| - 1]] else [])
  }

  /** The values `f` produces along `s`, in order; positions where it produces none are skipped. */
  function FilterMap<T, U>(s: seq<T>, f: T -> Option<U>): (r: seq<U>)
    ensures |r| <= |s|
  {
    if s == [] then []
    else FilterMap(s[..|s| - 1], f) + (match f(s[|s| - 1]) case Some(u) => [u] case None => [])
  }

  /** Adding one element at the end of the input adds at most its image at the end of the output. */
  lemma FilterMapSnoc<T, U>(s: seq<T>, x: T, f: T -> Option<U>)
    ensures FilterMap(s + [x], f) == FilterMap(s, f) + (match f(x) case Some(u) => [u] case None => [])
  {
    assert (s + [x])[..|s|] == s;
  }

  /** A filter keeps exactly the positions that satisfy `p`, in order and unchanged. */
  lemma {:induction false} FilterIndices<T>(s: seq<T>, p: T -> bool) returns (idx: seq<nat>)
    ensures Increasing(idx, |s|) && |idx| == |Filter(s, p)|
    ensures forall k :: 0 <= k < |idx| ==> Filter(s, p)[k] == s[idx[k]]
    ensures forall i :: 0 <= i < |s| ==> (i in idx <==> p(s[i]))
  {
    if s == [] {
      idx := [];
    } else {
      var n := |s| - 1;
      var front := s[..n];
      var pre := FilterIndices(front, p);
      var r := Filter(s, p);
      var rf := Filter(front, p);
      var last: seq<nat> := if p(s[n]) then [n] else [];
      idx := pre + last;
      assert r == rf + (if p(s[n]) then [s[n]] else []);
      forall k | 0 <= k < |idx| ensures r[k] == s[idx[k]] {
        if k < |pre| {
          assert s[idx[k]] == front[pre[k]];
        }
      }
      forall i | 0 <= i < |s| ensures i in idx <==> p(s[i]) {
        if i < n {
          assert s[i] == front[i];
          assert i in idx <==> i in pre;
        } else {
          assert n !in pre;
        }
      }
    }
  }

  /** A filter keeps only elements of its input that satisfy the condition. */
  lemma {:induction false} FilterSubset<T>(s: seq<T>, p: T -> bool)
    ensures forall x :: x in Filter(s, p) ==> x in s && p(x)
  {
    if s != [] {
      var n := |s| - 1;
      FilterSubset(s[..n], p);
      forall x | x in s[..n] ensures x in s {
        var i :| 0 <= i < n && s[..n][i] == x;
        assert s[i] == x;
      }
    }
  }

  /** A filter whose condition holds everywhere keeps everything. */
  lemma {:induction false} FilterKeepsAll<T>(s: seq<T>, p: T -> bool)
    requires forall x :: x in s ==> p(x)
    ensures Filter(s, p) == s
  {
    if s != [] {
      var n := |s| - 1;
      var front := s[..n];
      forall x | x in front ensures p(x) {
        var i :| 0 <= i < n && front[i] == x;
        assert x == s[i];
      }
      FilterKeepsAll(front, p);
      assert s[n] in s;
      assert s == front + [s[n]];
    }
  }

  /** A filter whose condition holds nowhere keeps nothing. */
  lemma {:induction false} FilterKeepsNone<T>(s: seq<T>, p: T -> bool)
    requires forall x :: x in s ==> !p(x)
    ensures Filter(s, p) == []
  {
    if s != [] {
      var n := |s| - 1;
      var front := s[..n];
      forall x | x in front ensures !p(x) {
        var i :| 0 <= i < n && front[i] == x;
        assert x == s[i];
      }
      FilterKeepsNone(front, p);
      assert s[n] in s;
    }
  }

  /** Two filters in a row are one filter by the conjunction. */
  lemma {:induction false} FilterFilter<T>(s: seq<T>, p: T -> bool, q: T -> bool, pq: T -> bool)
    requires forall x :: x in s ==> pq(x) == (p(x) && q(x))
    ensures Filter(Filter(s, p), q) == Filter(s, pq)
  {
    if s != [] {
      var n := |s| - 1;
      var x, front := s[n], s[..n];
      assert forall y :: y in front ==> y in s;
      FilterFilter(front, p, q, pq);
      assert x in s;
      var fp := Filter(front, p);
      if p(x) {
        assert Filter(s, p) == fp + [x];
        assert (fp + [x])[..|fp|] == fp;
      } else {
        assert Filter(s, p) == fp;
      }
    }
  }

  /** FilterMap keeps exactly the positions where `f` produces a value, in order. */
  lemma {:induction false} FilterMapIndices<T, U>(s: seq<T>, f: T -> Option<U>) returns (idx: seq<nat>)
    ensures Increasing(idx, |s|) && |idx| == |FilterMap(s, f)|
    ensures forall k :: 0 <= k < |idx| ==> f(s[idx[k]]) == Some(FilterMap(s, f)[k])
    ensures forall i :: 0 <= i < |s| ==> (i in idx <==> f(s[i]).Some?)
  {
    if s == [] {
      idx := [];
    } else {
      var n := |s| - 1;
      var front := s[..n];
      var pre := FilterMapIndices(front, f);
      var r := FilterMap(s, f);
      var rf := FilterMap(front, f);
      var last: seq<nat> := if f(s[n]).Some? then [n] else [];
      idx := pre + last;
      assert r == rf + (match f(s[n]) case Some(u) => [u] case None => []);
      forall k | 0 <= k < |idx| ensures f(s[idx[k]]) == Some(r[k]) {
        if k < |pre| {
          assert s[idx[k]] == front[pre[k]];
        }
      }
      forall i | 0 <= i < |s| ensures i in idx <==> f(s[i]).Some? {
        if i < n {
          assert s[i] == front[i];
          assert i in idx <==> i in pre;
        } else {
          assert n !in pre;
        }
      }
    }
  }
}
