/** `Array.prototype.sort` with a comparator, which the language requires to
    be stable. Modelled as insertion sort: each element, taken in input order,
    goes after every element already placed that may precede it, so equal
    elements keep their input order. `before(a, b)` holds when the comparator
    does not ask for `b` ahead of `a` (it returns a value <= 0). */
module StableSort {

  import opened Seqs

  ghost predicate Sorted<T>(s: seq<T>, before: (T, T) -> bool)
  {
    forall i, j :: 0 <= i < j < |s| ==> before(s[i], s[j])
  }

  /** `before` is a total preorder on the elements of `s`: the condition under
      which a comparator sort is well defined. */
  ghost predicate TotalPreorderOn<T>(s: seq<T>, before: (T, T) -> bool)
  {
    && (forall a, b :: a in s && b in s ==> before(a, b) || before(b, a))
    && (forall a, b, c :: a in s && b in s && c in s && before(a, b) && before(b, c) ==> before(a, c))
  }

  lemma TotalPreorderOnSubset<T>(s: seq<T>, t: seq<T>, before: (T, T) -> bool)
    requires TotalPreorderOn(s, before)
    requires forall x <- t :: x in s
    ensures TotalPreorderOn(t, before)
  {
  }

  /** Places `x` after the longest prefix of `s` whose elements may precede it. */
  function Insert<T>(x: T, s: seq<T>, before: (T, T) -> bool): (r: seq<T>)
    ensures multiset(r) == multiset(s) + multiset{x}
  {
    if |s| == 0 then [x]
    else if before(s[0], x) then
      assert s == [s[0]] + s[1..];
      [s[0]] + Insert(x, s[1..], before)
    else [x] + s
  }

  lemma {:induction false} InsertSorted<T>(x: T, s: seq<T>, before: (T, T) -> bool)
    requires TotalPreorderOn(s + [x], before)
    requires Sorted(s, before)
    ensures Sorted(Insert(x, s, before), before)
  {
    if |s| == 0 {
    } else if before(s[0], x) {
      var tail := s[1..];
      assert forall y <- tail + [x] :: y in s + [x];
      TotalPreorderOnSubset(s + [x], tail + [x], before);
      InsertSorted(x, tail, before);
      var t := Insert(x, tail, before);
      InsertAfterHead(x, s, before);
      assert Insert(x, s, before) == [s[0]] + t;
    } else {
      assert s[0] in s + [x] && x in s + [x];
      assert before(x, s[0]);
      forall j | 0 < j < |s|
        ensures before(x, s[j])
      {
        assert s[j] in s + [x];
      }
    }
  }

  /** Everything placed behind a head that may precede `x` may follow it. */
  lemma InsertAfterHead<T>(x: T, s: seq<T>, before: (T, T) -> bool)
    requires |s| > 0 && Sorted(s, before) && before(s[0], x)
    ensures forall j :: 0 <= j < |Insert(x, s[1..], before)| ==> before(s[0], Insert(x, s[1..], before)[j])
  {
    var tail := s[1..];
    var t := Insert(x, tail, before);
    forall j | 0 <= j < |t|
      ensures before(s[0], t[j])
    {
      assert t[j] in multiset(t);
      if t[j] != x {
        assert t[j] in multiset(tail);
        var k :| 0 <= k < |tail| && tail[k] == t[j];
        assert s[k + 1] == t[j];
      }
    }
  }

  /** The stable sort of `s` under `before`. */
  function Sort<T>(s: seq<T>, before: (T, T) -> bool): (r: seq<T>)
    requires TotalPreorderOn(s, before)
    ensures multiset(r) == multiset(s)
    ensures |r| == |s|
    ensures Sorted(r, before)
  {
    if |s| == 0 then []
    else
      var p := s[..|s| - 1];
      assert s == p + [s[|s| - 1]];
      TotalPreorderOnSubset(s, p, before);
      var q := Sort(p, before);
      assert forall x <- q + [s[|s| - 1]] :: x in s by {
        forall x <- q + [s[|s| - 1]] ensures x in s {
          if x in q {
            assert x in multiset(q);
          }
        }
      }
      TotalPreorderOnSubset(s, q + [s[|s| - 1]], before);
      InsertSorted(s[|s| - 1], q, before);
      var r := Insert(s[|s| - 1], q, before);
      assert |r| == |multiset(r)|;
      r
  }

  /** The elements `before` places level with `z`: those that may precede it
      and that it may precede. */
  function Tied<T>(before: (T, T) -> bool, z: T): T -> bool
  {
    y => before(z, y) && before(y, z)
  }

  lemma FilterOne<T>(x: T, keep: T -> bool)
    ensures Filter([x], keep) == if keep(x) then [x] else []
  {
    assert [x][..0] == [];
  }

  /** Inserting `x` adds it behind every element already placed that is tied
      with it, so each class of tied elements keeps its order. */
  lemma {:induction false} InsertStable<T>(x: T, t: seq<T>, before: (T, T) -> bool, z: T)
    requires Sorted(t, before)
    requires TotalPreorderOn(t + [x, z], before)
    ensures Filter(Insert(x, t, before), Tied(before, z)) ==
      Filter(t, Tied(before, z)) + (if Tied(before, z)(x) then [x] else [])
  {
    if |t| == 0 {
      FilterOne(x, Tied(before, z));
    } else if before(t[0], x) {
      InsertStableHead(x, t, before, z);
      InsertStable(x, t[1..], before, z);
      InsertBehindHead(x, t, before, Tied(before, z), if Tied(before, z)(x) then [x] else []);
    } else {
      InsertInFront(x, t, before, z);
    }
  }

  /** When the head may precede `x`, the filter of the insertion is the
      head's followed by the filter of the insertion into the tail. */
  lemma InsertBehindHead<T>(x: T, t: seq<T>, before: (T, T) -> bool, keep: T -> bool, extra: seq<T>)
    requires |t| > 0 && before(t[0], x)
    requires Filter(Insert(x, t[1..], before), keep) == Filter(t[1..], keep) + extra
    ensures Filter(Insert(x, t, before), keep) == Filter(t, keep) + extra
  {
    var r := Insert(x, t, before);
    assert r == [t[0]] + Insert(x, t[1..], before);
    assert r[0] == t[0] && r[1..] == Insert(x, t[1..], before);
    FilterSameHead(r, t, keep, extra);
  }

  /** When the head may not precede `x`, `x` goes in front, and nothing behind
      it is tied with it. */
  lemma InsertInFront<T>(x: T, t: seq<T>, before: (T, T) -> bool, z: T)
    requires |t| > 0 && Sorted(t, before) && !before(t[0], x)
    requires TotalPreorderOn(t + [x, z], before)
    ensures Filter(Insert(x, t, before), Tied(before, z)) ==
      Filter(t, Tied(before, z)) + (if Tied(before, z)(x) then [x] else [])
  {
    var tied := Tied(before, z);
    FilterOne(x, tied);
    FilterAppend([x], t, tied);
    if tied(x) {
      NoneTiedAhead(x, t, before, z);
    }
  }

  /** The step case of `InsertStable`: the tail meets its requirements. */
  lemma InsertStableHead<T>(x: T, t: seq<T>, before: (T, T) -> bool, z: T)
    requires |t| > 0 && Sorted(t, before)
    requires TotalPreorderOn(t + [x, z], before)
    ensures Sorted(t[1..], before) && TotalPreorderOn(t[1..] + [x, z], before)
  {
    assert forall y <- t[1..] + [x, z] :: y in t + [x, z];
    TotalPreorderOnSubset(t + [x, z], t[1..] + [x, z], before);
  }

  /** When `x` goes in front, nothing already placed is tied with it. */
  lemma NoneTiedAhead<T>(x: T, t: seq<T>, before: (T, T) -> bool, z: T)
    requires |t| > 0 && Sorted(t, before) && !before(t[0], x)
    requires TotalPreorderOn(t + [x, z], before)
    requires Tied(before, z)(x)
    ensures Filter(t, Tied(before, z)) == []
  {
    var tied := Tied(before, z);
    var u := t + [x, z];
    assert x in u && z in u;
    forall j | 0 <= j < |t| ensures !tied(t[j]) {
      assert t[0] in u && t[j] in u;
      assert before(t[0], t[j]);
    }
  }

  /** The sort is stable: the elements tied with any `z` appear in the result
      in the same order as in the input. */
  lemma {:induction false} SortStable<T>(s: seq<T>, before: (T, T) -> bool, z: T)
    requires TotalPreorderOn(s + [z], before)
    ensures TotalPreorderOn(s, before)
    ensures Filter(Sort(s, before), Tied(before, z)) == Filter(s, Tied(before, z))
  {
    TotalPreorderOnSubset(s + [z], s, before);
    if |s| > 0 {
      var p := s[..|s| - 1];
      var x := s[|s| - 1];
      assert s == p + [x];
      TotalPreorderOnSubset(s + [z], p + [z], before);
      SortStable(p, before, z);
      var q := Sort(p, before);
      SameElements(q, p);
      assert forall y <- q + [x, z] :: y in s + [z];
      TotalPreorderOnSubset(s + [z], q + [x, z], before);
      InsertStable(x, q, before, z);
    }
  }

  /** Stability for every class of tied elements of the input. */
  lemma Stable<T>(s: seq<T>, before: (T, T) -> bool)
    requires TotalPreorderOn(s, before)
    ensures forall z <- s :: Filter(Sort(s, before), Tied(before, z)) == Filter(s, Tied(before, z))
  {
    forall z <- s
      ensures Filter(Sort(s, before), Tied(before, z)) == Filter(s, Tied(before, z))
    {
      assert forall y <- s + [z] :: y in s;
      TotalPreorderOnSubset(s, s + [z], before);
      SortStable(s, before, z);
    }
  }

  /** Elements equal in `multiset` are members of both sequences. */
  lemma SameElements<T>(s: seq<T>, t: seq<T>)
    requires multiset(s) == multiset(t)
    ensures forall x <- s :: x in t
  {
    forall x <- s ensures x in t {
      assert x in multiset(s);
    }
  }
}
