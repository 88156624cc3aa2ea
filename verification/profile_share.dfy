/** The profile card screen: the user's statistics, rarest creature, three
    most completed categories, and the rank and colour shown for a points
    total. */
module ProfileShare {

  import opened Replies
  import opened Seqs
  import opened Records
  import opened StableSort
  import opened CreatureStats

  datatype Rarest = Rarest(name: string, points: int)

  /** `count` discovered creatures out of `total` in the catalog. */
  datatype CategoryStat = CategoryStat(name: string, count: nat, total: nat)

  datatype UserStats = UserStats(
    discovered: nat,
    favorites: nat,
    points: int,
    rarest: Option<Rarest>,
    categories: seq<CategoryStat>)

  const LoadFallback := "Failed to load stats"

  // ---------------------------------------------------------------- rarest

  /** The `reduce` that keeps `prev` only when it has strictly more points:
      the last of the creatures with the most points. */
  function HighestIndex(cs: seq<Creature>): (k: nat)
    requires |cs| > 0
    ensures k < |cs|
    ensures forall c <- cs :: c.points <= cs[k].points
    ensures forall j :: k < j < |cs| ==> cs[j].points < cs[k].points
  {
    if |cs| == 1 then 0
    else
      var p := cs[..|cs| - 1];
      assert cs == p + [cs[|cs| - 1]];
      var k := HighestIndex(p);
      assert p[k] == cs[k];
      if cs[k].points > cs[|cs| - 1].points then k else |cs| - 1
  }

  /** `rarestCreature`: null when no sighted creature is in the catalog. */
  function RarestOf(found: seq<Creature>): (r: Option<Rarest>)
    ensures r.None? <==> |found| == 0
    ensures r.Some? ==> exists c <- found :: c.name == r.value.name && c.points == r.value.points
    ensures r.Some? ==> forall c <- found :: c.points <= r.value.points
    ensures r.Some? ==>
      exists i :: 0 <= i < |found| && found[i].name == r.value.name && found[i].points == r.value.points
        && forall j :: i < j < |found| ==> found[j].points < r.value.points
  {
    if |found| == 0 then None
    else
      var h := found[HighestIndex(found)];
      Some(Rarest(h.name, h.points))
  }

  // ------------------------------------------------------------ categories

  /** Creatures of `cs` in the category with id `categoryId`. */
  function InCategory(cs: seq<Creature>, categoryId: string): (n: nat)
    ensures n <= |cs|
    ensures n == |set k | 0 <= k < |cs| && cs[k].categoryId == categoryId|
  {
    var inCat := (c: Creature) => c.categoryId == categoryId;
    CountWhereIndices(cs, inCat, set k | 0 <= k < |cs| && cs[k].categoryId == categoryId);
    CountWhere(cs, inCat)
  }

  /** One entry per category, in the order the categories were read: how many
      of the found creatures belong to it, and how many catalog creatures do
      (the exact count query). */
  function CategoryCounts(categories: seq<Category>, found: seq<Creature>, table: seq<Creature>): (r: seq<CategoryStat>)
    ensures |r| == |categories|
    ensures forall i :: 0 <= i < |r| ==> r[i].name == categories[i].name
    ensures forall i :: 0 <= i < |r| ==>
      && r[i].count == |set k | 0 <= k < |found| && found[k].categoryId == categories[i].id|
      && r[i].total == |set k | 0 <= k < |table| && table[k].categoryId == categories[i].id|
  {
    seq(|categories|, i requires 0 <= i < |categories| =>
      CategoryStat(categories[i].name, InCategory(found, categories[i].id), InCategory(table, categories[i].id)))
  }

  /** Restricting to a sub-list cannot raise a category's count. */
  lemma {:induction false} FilterCountBound(table: seq<Creature>, keep: Creature -> bool, categoryId: string)
    ensures InCategory(Filter(table, keep), categoryId) <= InCategory(table, categoryId)
  {
    if |table| > 0 {
      var p := table[..|table| - 1];
      var last := table[|table| - 1];
      var inCat := (c: Creature) => c.categoryId == categoryId;
      FilterCountBound(p, keep, categoryId);
      if keep(last) {
        FilterAppend(Filter(p, keep), [last], inCat);
      } else {
        assert Filter(table, keep) == Filter(p, keep);
      }
    }
  }

  /** The found creatures are catalog rows, so no category is ever more than
      complete. */
  lemma CountWithinTotal(categories: seq<Category>, table: seq<Creature>, ids: seq<string>)
    ensures forall s <- CategoryCounts(categories, Found(table, ids), table) :: s.count <= s.total
  {
    var r := CategoryCounts(categories, Found(table, ids), table);
    forall i | 0 <= i < |r| ensures r[i].count <= r[i].total {
      FilterCountBound(table, (c: Creature) => c.id in ids, categories[i].id);
    }
  }

  /** Only categories with creatures in the catalog are ranked. */
  predicate Counted(s: CategoryStat)
  {
    s.total > 0
  }

  /** The comparator `(b.count / b.total) - (a.count / a.total)` is at most
      zero: `a` is at least as complete as `b`. For positive totals this is
      the same as comparing cross products, which avoids division. */
  predicate ByCompletion(a: CategoryStat, b: CategoryStat)
  {
    a.count * b.total >= b.count * a.total
  }

  lemma MulRight(x: int, y: int, k: nat)
    requires x >= y
    ensures x * k >= y * k
  {
  }

  lemma CancelRight(x: int, y: int, k: int)
    requires k > 0 && x * k >= y * k
    ensures x >= y
  {
  }

  lemma CompletionTransitive(a: CategoryStat, b: CategoryStat, c: CategoryStat)
    requires a.total > 0 && b.total > 0 && c.total > 0
    requires ByCompletion(a, b) && ByCompletion(b, c)
    ensures ByCompletion(a, c)
  {
    var ac, at, bc, bt, cc, ct := a.count, a.total, b.count, b.total, c.count, c.total;
    MulRight(ac * bt, bc * at, ct);
    MulRight(bc * ct, cc * bt, at);
    assert (ac * bt) * ct == (ac * ct) * bt;
    assert (bc * at) * ct == (bc * ct) * at;
    assert (cc * bt) * at == (cc * at) * bt;
    CancelRight(ac * ct, cc * at, bt);
  }

  /** On counted categories the comparator is consistent, so the sort is well
      defined. */
  lemma CompletionPreorder(s: seq<CategoryStat>)
    requires forall x <- s :: Counted(x)
    ensures TotalPreorderOn(s, ByCompletion)
  {
    forall a, b, c | a in s && b in s && c in s && ByCompletion(a, b) && ByCompletion(b, c)
      ensures ByCompletion(a, c)
    {
      CompletionTransitive(a, b, c);
    }
  }

  function Min(a: int, b: int): int
  {
    if a <= b then a else b
  }

  /** `.filter(total > 0).sort(by completion).slice(0, 3)` */
  function TopCategories(stats: seq<CategoryStat>): (r: seq<CategoryStat>)
    ensures |r| == Min(3, CountWhere(stats, Counted))
    ensures forall x <- r :: x in stats && Counted(x)
    ensures Sorted(r, ByCompletion)
    ensures multiset(r) <= multiset(Filter(stats, Counted))
    ensures forall y <- Filter(stats, Counted) :: y !in r ==> forall x <- r :: ByCompletion(x, y)
    ensures forall y <- Filter(stats, Counted) ::
      Filter(r, Tied(ByCompletion, y)) <= Filter(Filter(stats, Counted), Tied(ByCompletion, y))
  {
    var counted := Filter(stats, Counted);
    CompletionPreorder(counted);
    var sorted := Sort(counted, ByCompletion);
    var r := sorted[..Min(3, |sorted|)];
    TopFacts(counted, sorted, Min(3, |sorted|));
    TopStable(counted, Min(3, |sorted|));
    r
  }

  /** Of categories equally complete, the ones kept are the first in read
      order, since the sort is stable and the slice keeps a prefix. */
  lemma TopStable(counted: seq<CategoryStat>, k: nat)
    requires TotalPreorderOn(counted, ByCompletion)
    requires k <= |counted|
    ensures forall y <- counted ::
      Filter(Sort(counted, ByCompletion)[..k], Tied(ByCompletion, y)) <= Filter(counted, Tied(ByCompletion, y))
  {
    var sorted := Sort(counted, ByCompletion);
    Stable(counted, ByCompletion);
    forall y <- counted
      ensures Filter(sorted[..k], Tied(ByCompletion, y)) <= Filter(counted, Tied(ByCompletion, y))
    {
      FilterPrefix(sorted, k, Tied(ByCompletion, y));
    }
  }

  lemma TopFacts(counted: seq<CategoryStat>, sorted: seq<CategoryStat>, k: nat)
    requires multiset(sorted) == multiset(counted)
    requires Sorted(sorted, ByCompletion)
    requires k <= |sorted|
    ensures forall x <- sorted[..k] :: x in counted
    ensures Sorted(sorted[..k], ByCompletion)
    ensures multiset(sorted[..k]) <= multiset(counted)
    ensures forall y <- counted :: y !in sorted[..k] ==> forall x <- sorted[..k] :: ByCompletion(x, y)
  {
    var r := sorted[..k];
    assert sorted == r + sorted[k..];
    SameElements(sorted, counted);
    SameElements(counted, sorted);
    forall y <- counted | y !in r ensures forall x <- r :: ByCompletion(x, y) {
      assert y in sorted;
      var j :| 0 <= j < |sorted| && sorted[j] == y;
      assert j >= k;
      forall x <- r ensures ByCompletion(x, y) {
        var i :| 0 <= i < k && r[i] == x;
        assert sorted[i] == x;
      }
    }
  }

  // ------------------------------------------------------------ statistics

  /** `fetchUserStats`. The replies are, in order: the user's sightings
      (creature ids), wishlist rows (creature ids), the creature catalog
      (serving the `.in` lookup and the per-category counts), the
      categories, and the first failing per-category count query, if any.
      Later replies are only consulted when the earlier ones succeeded and,
      for the last three, when the user has sighted anything. */
  function FetchUserStats(
    sightings: Reply<seq<string>>,
    wishlist: Reply<seq<string>>,
    creatures: Reply<seq<Creature>>,
    categories: Reply<seq<Category>>,
    countError: Option<string>): (r: Reply<UserStats>)
    ensures sightings.Failed? ==> r == Failed(ErrorText(sightings.message, LoadFallback))
    ensures sightings.Ok? && wishlist.Failed? ==> r == Failed(ErrorText(wishlist.message, LoadFallback))
    ensures sightings.Ok? && wishlist.Ok? && |sightings.rows| == 0 ==>
      r == Ok(UserStats(0, |wishlist.rows|, 0, None, []))
    ensures r.Ok? <==>
      sightings.Ok? && wishlist.Ok? &&
      (|sightings.rows| > 0 ==> creatures.Ok? && categories.Ok? && (countError.None? || |categories.rows| == 0))
    ensures sightings.Ok? && wishlist.Ok? && |sightings.rows| > 0 ==>
      && (creatures.Failed? ==> r == Failed(ErrorText(creatures.message, LoadFallback)))
      && (creatures.Ok? && categories.Failed? ==> r == Failed(ErrorText(categories.message, LoadFallback)))
      && (creatures.Ok? && categories.Ok? && countError.Some? && |categories.rows| > 0 ==>
            r == Failed(ErrorText(countError.value, LoadFallback)))
    ensures r.Failed? ==> r.message != ""
    ensures r.Ok? ==> r.rows.discovered == DistinctCount(sightings.rows) && r.rows.favorites == |wishlist.rows|
    ensures r.Ok? && |sightings.rows| > 0 ==>
      r.rows.points == TotalPoints(Found(creatures.rows, sightings.rows))
    ensures r.Ok? && r.rows.rarest.Some? ==>
      exists c <- creatures.rows :: c.id in sightings.rows && c.name == r.rows.rarest.value.name
    ensures r.Ok? ==> |r.rows.categories| <= 3 && forall s <- r.rows.categories :: s.total > 0
    ensures r.Ok? && |sightings.rows| > 0 ==>
      var found := Found(creatures.rows, sightings.rows);
      && r.rows.rarest == RarestOf(found)
      && r.rows.categories == TopCategories(CategoryCounts(categories.rows, found, creatures.rows))
  {
    if sightings.Failed? then Failed(ErrorText(sightings.message, LoadFallback))
    else if wishlist.Failed? then Failed(ErrorText(wishlist.message, LoadFallback))
    else
      var unique := Dedup(sightings.rows);
      if |unique| == 0 then Ok(UserStats(0, |wishlist.rows|, 0, None, []))
      else if creatures.Failed? then Failed(ErrorText(creatures.message, LoadFallback))
      else
        var found := Found(creatures.rows, unique);
        FoundBySet(creatures.rows, unique, sightings.rows);
        if categories.Failed? then Failed(ErrorText(categories.message, LoadFallback))
        else if countError.Some? && |categories.rows| > 0 then Failed(ErrorText(countError.value, LoadFallback))
        else
          var stats := CategoryCounts(categories.rows, found, creatures.rows);
          Ok(UserStats(|unique|, |wishlist.rows|, TotalPoints(found), RarestOf(found), TopCategories(stats)))
  }

  // ------------------------------------------------------------------ rank

  /** Points needed for each rank above the first, lowest first. */
  const RankThresholds: seq<int> := [100, 500, 1500, 3000, 5000]

  const RankNames: seq<string> :=
    ["Beginner", "Novice Diver", "Intermediate Diver", "Advanced Diver", "Expert Diver", "Master Explorer"]

  const RankColors: seq<string> := ["#90E0EF", "#48CAE4", "#0077B6", "#CD7F32", "#C0C0C0", "#FFD700"]

  /** How many of the thresholds `points` reaches. */
  function Reached(thresholds: seq<int>, points: int): (n: nat)
    ensures n <= |thresholds|
  {
    if |thresholds| == 0 then 0
    else Reached(thresholds[..|thresholds| - 1], points) + (if thresholds[|thresholds| - 1] <= points then 1 else 0)
  }

  /** More points never reach fewer thresholds. */
  lemma {:induction false} ReachedMonotone(thresholds: seq<int>, p: int, q: int)
    requires p <= q
    ensures Reached(thresholds, p) <= Reached(thresholds, q)
  {
    if |thresholds| > 0 {
      ReachedMonotone(thresholds[..|thresholds| - 1], p, q);
    }
  }

  function Level(points: int): (n: nat)
    ensures n < |RankNames| && n < |RankColors|
  {
    Reached(RankThresholds, points)
  }

  /** `getRank` */
  function Rank(points: int): (r: string)
    ensures r in RankNames
  {
    if points >= 5000 then "Master Explorer"
    else if points >= 3000 then "Expert Diver"
    else if points >= 1500 then "Advanced Diver"
    else if points >= 500 then "Intermediate Diver"
    else if points >= 100 then "Novice Diver"
    else "Beginner"
  }

  /** `getRankColor` */
  function RankColor(points: int): (r: string)
    ensures r in RankColors
  {
    if points >= 5000 then "#FFD700"
    else if points >= 3000 then "#C0C0C0"
    else if points >= 1500 then "#CD7F32"
    else if points >= 500 then "#0077B6"
    else if points >= 100 then "#48CAE4"
    else "#90E0EF"
  }

  /** The rank name and colour are the ones at the number of thresholds
      reached: the two ladders agree with each other. */
  lemma RankByLevel(points: int)
    ensures Rank(points) == RankNames[Level(points)]
    ensures RankColor(points) == RankColors[Level(points)]
  {
    var t := RankThresholds;
    assert t[..0] == [] && t[..1] == [100] && t[..2] == [100, 500] && t[..3] == [100, 500, 1500];
    assert t[..4] == [100, 500, 1500, 3000];
    assert [100][..0] == [] && [100, 500][..1] == [100] && [100, 500, 1500][..2] == [100, 500];
    assert [100, 500, 1500, 3000][..3] == [100, 500, 1500];
    var r1 := if 100 <= points then 1 else 0;
    assert Reached([100], points) == r1;
    var r2 := r1 + if 500 <= points then 1 else 0;
    assert Reached([100, 500], points) == r2;
    var r3 := r2 + if 1500 <= points then 1 else 0;
    assert Reached([100, 500, 1500], points) == r3;
    var r4 := r3 + if 3000 <= points then 1 else 0;
    assert Reached([100, 500, 1500, 3000], points) == r4;
    assert Level(points) == r4 + if 5000 <= points then 1 else 0;
  }

  /** More points never give a lower rank. */
  lemma RankMonotone(p: int, q: int)
    requires p <= q
    ensures Level(p) <= Level(q)
    ensures Rank(p) == RankNames[Level(p)] && Rank(q) == RankNames[Level(q)]
  {
    ReachedMonotone(RankThresholds, p, q);
    RankByLevel(p);
    RankByLevel(q);
  }
}
