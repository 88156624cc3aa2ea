/** Sequence helpers the screens share: de-duplication with first-seen order
    (`[...new Set(xs)]`), sums and filters. */
module Seqs {

  /** No element occurs twice. */
  ghost predicate NoDup<T>(s: seq<T>) {
    forall i, j :: 0 <= i < j < |s| ==> s[i] != s[j]
  }

  /** The distinct elements of `s` in order of first occurrence, which is what
      spreading a JavaScript `Set` built from `s` yields. */
  function Dedup<T(==)>(s: seq<T>): (r: seq<T>)
    ensures NoDup(r)
    ensures forall x <- r :: x in s
    ensures forall x <- s :: x in r
    ensures |r| <= |s|
  {
    if |s| == 0 then []
    else
      var p := s[..|s| - 1];
      var d := Dedup(p);
      assert s == p + [s[|s| - 1]];
      if s[|s| - 1] in d then d else d + [s[|s| - 1]]
  }

  /** A duplicate-free sequence has as many elements as its set. */
  lemma {:induction false} NoDupCard<T>(s: seq<T>)
    requires NoDup(s)
    ensures |set x | x in s| == |s|
  {
    if |s| > 0 {
      var p := s[..|s| - 1];
      NoDupCard(p);
      assert s == p + [s[|s| - 1]];
      assert (set x | x in s) == (set x | x in p) + {s[|s| - 1]};
      assert s[|s| - 1] !in (set x | x in p);
    }
  }

  /** `[...new Set(s)].length`: the number of distinct elements of `s`. */
  function DistinctCount<T(==)>(s: seq<T>): (n: nat)
    ensures n == |set x | x in s|
    ensures n <= |s|
    ensures n == 0 <==> |s| == 0
  {
    var d := Dedup(s);
    NoDupCard(d);
    assert (set x | x in d) == (set x | x in s);
    assert |s| > 0 ==> s[0] in d;
    |d|
  }

  /** Appending an element already present leaves the distinct elements, and
      their order, unchanged; appending a new one adds it at the end. */
  lemma DedupAppend<T>(s: seq<T>, x: T)
    ensures x in s ==> Dedup(s + [x]) == Dedup(s)
    ensures x !in s ==> Dedup(s + [x]) == Dedup(s) + [x]
  {
    assert (s + [x])[..|s|] == s;
  }

  function Sum(xs: seq<int>): int
  {
    if |xs| == 0 then 0 else Sum(xs[..|xs| - 1]) + xs[|xs| - 1]
  }

  lemma {:induction false} SumAppend(xs: seq<int>, ys: seq<int>)
    ensures Sum(xs + ys) == Sum(xs) + Sum(ys)
    decreases |ys|
  {
    if |ys| > 0 {
      var l := ys[|ys| - 1];
      var q := ys[..|ys| - 1];
      assert xs + ys == (xs + q) + [l];
      assert (xs + ys)[..|xs + ys| - 1] == xs + q;
      SumAppend(xs, q);
    } else {
      assert xs + ys == xs;
    }
  }

  /** The elements of `s` that satisfy `keep`, in their original order. */
  function Filter<T>(s: seq<T>, keep: T -> bool): (r: seq<T>)
    ensures |r| <= |s|
    ensures forall x <- r :: x in s && keep(x)
    ensures forall x <- s :: keep(x) ==> x in r
  {
    if |s| == 0 then []
    else
      var p := s[..|s| - 1];
      assert s == p + [s[|s| - 1]];
      Filter(p, keep) + (if keep(s[|s| - 1]) then [s[|s| - 1]] else [])
  }

  lemma FilterAppend<T>(s: seq<T>, t: seq<T>, keep: T -> bool)
    ensures Filter(s + t, keep) == Filter(s, keep) + Filter(t, keep)
    decreases |t|
  {
    if |t| > 0 {
      assert s + t == (s + t[..|t| - 1]) + [t[|t| - 1]];
      assert (s + t)[..|s + t| - 1] == s + t[..|t| - 1];
      FilterAppend(s, t[..|t| - 1], keep);
    } else {
      assert s + t == s;
    }
  }

  /** Filtering a non-empty sequence: the head's part, then the tail's. */
  lemma FilterCons<T>(s: seq<T>, keep: T -> bool)
    requires |s| > 0
    ensures Filter(s, keep) == Filter([s[0]], keep) + Filter(s[1..], keep)
  {
    var head, tail := [s[0]], s[1..];
    FilterAppend(head, tail, keep);
    assert head + tail == s;
  }

  /** Two sequences with the same head whose tails filter alike up to a
      suffix `extra` filter alike up to the same suffix. */
  lemma FilterSameHead<T>(r: seq<T>, t: seq<T>, keep: T -> bool, extra: seq<T>)
    requires |t| > 0 && |r| > 0 && r[0] == t[0]
    requires Filter(r[1..], keep) == Filter(t[1..], keep) + extra
    ensures Filter(r, keep) == Filter(t, keep) + extra
  {
    FilterCons(r, keep);
    FilterCons(t, keep);
    AppendAssoc(Filter([t[0]], keep), Filter(t[1..], keep), extra);
  }

  lemma AppendAssoc<T>(a: seq<T>, b: seq<T>, c: seq<T>)
    ensures (a + b) + c == a + (b + c)
  {
  }

  /** Filtering a prefix gives a prefix of the filter. */
  lemma FilterPrefix<T>(s: seq<T>, k: nat, keep: T -> bool)
    requires k <= |s|
    ensures Filter(s[..k], keep) <= Filter(s, keep)
  {
    assert s == s[..k] + s[k..];
    FilterAppend(s[..k], s[k..], keep);
  }

  /** Number of elements of `s` satisfying `p`. */
  function CountWhere<T>(s: seq<T>, p: T -> bool): nat
  {
    |Filter(s, p)|
  }

  /** The count by filtering is the number of positions whose element
      satisfies `p`, given as the set `ks` of those positions. */
  lemma {:induction false} CountWhereIndices<T>(s: seq<T>, p: T -> bool, ks: set<int>)
    requires forall k :: k in ks <==> 0 <= k < |s| && p(s[k])
    ensures CountWhere(s, p) == |ks|
  {
    if |s| == 0 {
      assert ks == {} by {
        forall k | k in ks ensures false { }
      }
    } else {
      var last := |s| - 1;
      var rest := ks - {last};
      var q := s[..last];
      PositionsOfPrefix(s, q, p, ks, rest);
      CountWhereIndices(q, p, rest);
      assert last in ks <==> p(s[last]);
      if last in ks {
        assert ks == rest + {last};
      } else {
        assert ks == rest;
      }
    }
  }

  /** Dropping the last position from the positions of `s` gives those of
      its prefix `q`. */
  lemma PositionsOfPrefix<T>(s: seq<T>, q: seq<T>, p: T -> bool, ks: set<int>, rest: set<int>)
    requires |s| > 0 && q == s[..|s| - 1] && rest == ks - {|s| - 1}
    requires forall k :: k in ks <==> 0 <= k < |s| && p(s[k])
    ensures forall k :: k in rest <==> 0 <= k < |q| && p(q[k])
  {
    forall k ensures k in rest <==> 0 <= k < |q| && p(q[k]) {
      if 0 <= k < |q| {
        assert q[k] == s[k];
      }
    }
  }

  /** `a` can be obtained from `b` by deleting elements. */
  predicate Subsequence<T(==)>(a: seq<T>, b: seq<T>)
  {
    if |a| == 0 then true
    else if |b| == 0 then false
    else if a[0] == b[0] then Subsequence(a[1..], b[1..])
    else Subsequence(a, b[1..])
  }

  lemma {:induction false} SubsequenceSkip<T>(a: seq<T>, b: seq<T>, x: T)
    requires Subsequence(a, b)
    ensures Subsequence(a, [x] + b)
    decreases |a| + |b|
  {
    assert ([x] + b)[1..] == b;
    if |a| > 0 && a[0] == x {
      assert b == [b[0]] + b[1..];
      if a[0] == b[0] {
        SubsequenceSkip(a[1..], b[1..], b[0]);
      } else {
        SubsequenceSkip(a, b[1..], x);
        assert ([x] + b[1..])[1..] == b[1..];
        SubsequenceSkip(a[1..], b[1..], b[0]);
      }
    }
  }

  /** Extending `b` at the end keeps `a` a subsequence of it. */
  lemma {:induction false} SubsequenceExtend<T>(a: seq<T>, b: seq<T>, x: T)
    requires Subsequence(a, b)
    ensures Subsequence(a, b + [x])
    decreases |b|
  {
    if |a| > 0 {
      assert (b + [x])[1..] == b[1..] + [x];
      if a[0] == b[0] {
        SubsequenceExtend(a[1..], b[1..], x);
      } else {
        SubsequenceExtend(a, b[1..], x);
      }
    }
  }

  /** Extending both at the end by the same element. */
  lemma {:induction false} SubsequenceExtendBoth<T>(a: seq<T>, b: seq<T>, x: T)
    requires Subsequence(a, b)
    ensures Subsequence(a + [x], b + [x])
    decreases |b|
  {
    if |a| == 0 {
      if |b| == 0 {
        assert Subsequence([x][1..], [x][1..]);
      } else {
        assert a + [x] == [x];
        assert Subsequence([], b[1..]);
        SubsequenceExtendBoth([], b[1..], x);
        assert (b + [x])[1..] == b[1..] + [x];
      }
    } else {
      assert (a + [x])[1..] == a[1..] + [x];
      assert (b + [x])[1..] == b[1..] + [x];
      if a[0] == b[0] {
        SubsequenceExtendBoth(a[1..], b[1..], x);
      } else {
        SubsequenceExtendBoth(a, b[1..], x);
      }
    }
  }

  /** `Filter` keeps the relative order of the elements it keeps. */
  lemma {:induction false} FilterSubsequence<T>(s: seq<T>, keep: T -> bool)
    ensures Subsequence(Filter(s, keep), s)
  {
    if |s| == 0 {
    } else {
      var p := s[..|s| - 1];
      var x := s[|s| - 1];
      assert s == p + [x];
      FilterSubsequence(p, keep);
      if keep(x) {
        assert Filter(s, keep) == Filter(p, keep) + [x];
        SubsequenceExtendBoth(Filter(p, keep), p, x);
      } else {
        assert Filter(s, keep) == Filter(p, keep);
        SubsequenceExtend(Filter(p, keep), p, x);
      }
    }
  }

  /** A filter that keeps everything is the identity. */
  lemma {:induction false} FilterAll<T>(s: seq<T>, keep: T -> bool)
    requires forall x <- s :: keep(x)
    ensures Filter(s, keep) == s
  {
    if |s| > 0 {
      var p := s[..|s| - 1];
      assert s == p + [s[|s| - 1]];
      FilterAll(p, keep);
    }
  }

  /** Filtering cannot create duplicates. */
  lemma {:induction false} FilterNoDup<T>(s: seq<T>, keep: T -> bool)
    requires NoDup(s)
    ensures NoDup(Filter(s, keep))
  {
    if |s| > 0 {
      var p := s[..|s| - 1];
      var x := s[|s| - 1];
      assert s == p + [x];
      assert NoDup(p) by {
        forall i, j | 0 <= i < j < |p| ensures p[i] != p[j] {
          assert s[i] == p[i] && s[j] == p[j];
        }
      }
      FilterNoDup(p, keep);
      if keep(x) {
        var f := Filter(p, keep);
        assert x !in f by {
          forall k | 0 <= k < |p| ensures p[k] != x {
            assert s[k] == p[k];
          }
        }
        forall i, j | 0 <= i < j < |f + [x]| ensures (f + [x])[i] != (f + [x])[j] {
          if j == |f| {
            assert (f + [x])[i] == f[i];
          } else {
            assert (f + [x])[i] == f[i] && (f + [x])[j] == f[j];
          }
        }
      }
    }
  }
}
