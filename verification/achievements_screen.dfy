/** The achievements screen: every catalog achievement with its unlock
    status, the user's total achievement points and unlock count, and the
    four fixed category groups the screen shows. */
module AchievementsScreen {

  import opened Replies
  import opened Seqs
  import opened Records

  /** An achievement with whether, and when, the user unlocked it. */
  datatype Status = Status(achievement: Achievement, unlocked: bool, unlockedAt: Option<string>)

  datatype Group = Group(name: string, title: string, items: seq<Status>)

  datatype Screen = Screen(totalPoints: int, unlockedCount: nat, groups: seq<Group>)

  const LoadFallback := "Failed to load achievements"

  /** The groups the screen shows, in order. */
  const GroupNames: seq<string> := ["beginner", "collection", "location", "rare"]

  const GroupTitles: seq<string> :=
    ["Beginner Achievements", "Collection Achievements", "Location Achievements", "Rare Encounters"]

  // ---------------------------------------------------------- unlocked map

  /** The keys of `unlockedMap`. */
  function UnlockedIds(rows: seq<UserAchievement>): set<string>
  {
    set u <- rows :: u.achievementId
  }

  /** `unlockedMap.get(id)`: the map is built from the rows in order, so a
      later row for the same achievement overwrites an earlier one. */
  function UnlockedAt(rows: seq<UserAchievement>, id: string): (r: Option<string>)
    ensures r.Some? <==> id in UnlockedIds(rows)
    ensures r.Some? ==>
      exists i :: 0 <= i < |rows| && rows[i] == UserAchievement(id, r.value) &&
        forall j :: i < j < |rows| ==> rows[j].achievementId != id
  {
    if |rows| == 0 then None
    else
      var p := rows[..|rows| - 1];
      var last := rows[|rows| - 1];
      assert rows == p + [last];
      assert UnlockedIds(rows) == UnlockedIds(p) + {last.achievementId};
      if last.achievementId == id then Some(last.unlockedAt)
      else
        assert forall i :: 0 <= i < |p| ==> rows[i] == p[i];
        UnlockedAt(p, id)
  }

  /** `{ ...achievement, unlocked, unlocked_at }` for one catalog entry. */
  function StatusOf(rows: seq<UserAchievement>, a: Achievement): (s: Status)
    ensures s.achievement == a
    ensures s.unlocked <==> a.id in UnlockedIds(rows)
    ensures s.unlockedAt.Some? <==> s.unlocked
  {
    var at := UnlockedAt(rows, a.id);
    Status(a, at.Some?, at)
  }

  function Statuses(catalog: seq<Achievement>, rows: seq<UserAchievement>): (r: seq<Status>)
    ensures |r| == |catalog|
    ensures forall i :: 0 <= i < |r| ==> r[i] == StatusOf(rows, catalog[i])
  {
    seq(|catalog|, i requires 0 <= i < |catalog| => StatusOf(rows, catalog[i]))
  }

  // ---------------------------------------------------------------- totals

  /** Points of the unlocked entries (`points += achievement.points`). */
  function UnlockedPoints(ss: seq<Status>): int
  {
    if |ss| == 0 then 0
    else UnlockedPoints(ss[..|ss| - 1]) + (if ss[|ss| - 1].unlocked then ss[|ss| - 1].achievement.points else 0)
  }

  predicate IsUnlocked(s: Status)
  {
    s.unlocked
  }

  /** `unlocked++` over the catalog. */
  function UnlockedCount(ss: seq<Status>): (n: nat)
    ensures n <= |ss|
    ensures n == |set k | 0 <= k < |ss| && ss[k].unlocked|
  {
    var unlocked: Status -> bool := IsUnlocked;
    CountWhereIndices(ss, unlocked, set k | 0 <= k < |ss| && ss[k].unlocked);
    CountWhere(ss, unlocked)
  }

  // -------------------------------------------------------------- grouping

  /** `acc[category]`: the entries of one category, in catalog order. */
  function Bucket(ss: seq<Status>, category: string): (r: seq<Status>)
    ensures forall s <- ss :: s in r <==> s.achievement.category == category
    ensures forall s <- r :: s in ss
    ensures Subsequence(r, ss)
  {
    FilterSubsequence(ss, (s: Status) => s.achievement.category == category);
    Filter(ss, (s: Status) => s.achievement.category == category)
  }

  /** The four groups, with an empty list for a category with no entries. */
  function Groups(ss: seq<Status>): (gs: seq<Group>)
    ensures |gs| == |GroupNames|
    ensures forall k :: 0 <= k < |gs| ==> gs[k].name == GroupNames[k] && gs[k].title == GroupTitles[k]
    ensures forall k, s :: 0 <= k < |gs| && s in ss ==> (s in gs[k].items <==> s.achievement.category == GroupNames[k])
  {
    seq(|GroupNames|, k requires 0 <= k < |GroupNames| => Group(GroupNames[k], GroupTitles[k], Bucket(ss, GroupNames[k])))
  }

  /** The entries that fall in none of the four groups. */
  function Ungrouped(ss: seq<Status>): (r: seq<Status>)
    ensures forall s <- ss :: s in r <==> s.achievement.category !in GroupNames
  {
    Filter(ss, (s: Status) => s.achievement.category !in GroupNames)
  }

  /** `fetchAchievements`: the catalog, then the user's unlock rows. */
  function FetchAchievements(catalog: Reply<seq<Achievement>>, unlocks: Reply<seq<UserAchievement>>): (r: Reply<Screen>)
    ensures catalog.Failed? ==> r == Failed(ErrorText(catalog.message, LoadFallback))
    ensures catalog.Ok? && unlocks.Failed? ==> r == Failed(ErrorText(unlocks.message, LoadFallback))
    ensures r.Ok? <==> catalog.Ok? && unlocks.Ok?
    ensures r.Ok? ==> r.rows.unlockedCount <= |catalog.rows| && |r.rows.groups| == 4
    ensures r.Ok? ==>
      forall k, s :: 0 <= k < 4 && s in r.rows.groups[k].items ==>
        s.achievement in catalog.rows && s.achievement.category == GroupNames[k]
        && (s.unlocked <==> s.achievement.id in UnlockedIds(unlocks.rows))
    ensures r.Ok? ==>
      var ss := Statuses(catalog.rows, unlocks.rows);
      r.rows == Screen(UnlockedPoints(ss), UnlockedCount(ss), Groups(ss))
    ensures r.Ok? ==>
      r.rows.unlockedCount == |set k | 0 <= k < |catalog.rows| && catalog.rows[k].id in UnlockedIds(unlocks.rows)|
    ensures r.Ok? ==>
      forall k, i :: 0 <= k < 4 && 0 <= i < |catalog.rows| && catalog.rows[i].category == GroupNames[k] ==>
        StatusOf(unlocks.rows, catalog.rows[i]) in r.rows.groups[k].items
  {
    if catalog.Failed? then Failed(ErrorText(catalog.message, LoadFallback))
    else if unlocks.Failed? then Failed(ErrorText(unlocks.message, LoadFallback))
    else
      var ss := Statuses(catalog.rows, unlocks.rows);
      CountFlagsUnlockRows(catalog.rows, unlocks.rows);
      GroupsOfCatalog(catalog.rows, unlocks.rows);
      Ok(Screen(UnlockedPoints(ss), UnlockedCount(ss), Groups(ss)))
  }

  /** The unlock count is the number of catalog entries with an unlock row. */
  lemma CountFlagsUnlockRows(catalog: seq<Achievement>, rows: seq<UserAchievement>)
    ensures UnlockedCount(Statuses(catalog, rows)) ==
      |set k | 0 <= k < |catalog| && catalog[k].id in UnlockedIds(rows)|
  {
    var ss := Statuses(catalog, rows);
    assert (set k | 0 <= k < |ss| && ss[k].unlocked)
      == (set k | 0 <= k < |catalog| && catalog[k].id in UnlockedIds(rows));
  }

  /** Each group holds the statuses of exactly the catalog entries of its
      category. */
  lemma GroupsOfCatalog(catalog: seq<Achievement>, rows: seq<UserAchievement>)
    ensures forall k, s :: 0 <= k < 4 && s in Groups(Statuses(catalog, rows))[k].items ==>
      s.achievement in catalog && s.achievement.category == GroupNames[k]
      && (s.unlocked <==> s.achievement.id in UnlockedIds(rows))
    ensures forall k, i :: 0 <= k < 4 && 0 <= i < |catalog| && catalog[i].category == GroupNames[k] ==>
      StatusOf(rows, catalog[i]) in Groups(Statuses(catalog, rows))[k].items
  {
    var ss := Statuses(catalog, rows);
    var gs := Groups(ss);
    assert forall k, s :: 0 <= k < 4 && s in gs[k].items ==> s in ss;
    assert forall i :: 0 <= i < |catalog| ==> ss[i] in ss;
  }

  // ---------------------------------------------------------------- lemmas

  /** A second unlock row for an already unlocked achievement changes no
      unlock flag, so neither the points nor the count. */
  lemma DuplicateUnlockCountsOnce(catalog: seq<Achievement>, rows: seq<UserAchievement>, u: UserAchievement)
    requires u.achievementId in UnlockedIds(rows)
    ensures UnlockedPoints(Statuses(catalog, rows + [u])) == UnlockedPoints(Statuses(catalog, rows))
    ensures UnlockedCount(Statuses(catalog, rows + [u])) == UnlockedCount(Statuses(catalog, rows))
  {
    assert UnlockedIds(rows + [u]) == UnlockedIds(rows);
    FlagsDecide(Statuses(catalog, rows + [u]), Statuses(catalog, rows));
  }

  /** Points and count depend only on each entry's achievement and flag. */
  lemma {:induction false} FlagsDecide(ss: seq<Status>, ts: seq<Status>)
    requires |ss| == |ts|
    requires forall i :: 0 <= i < |ss| ==> ss[i].achievement == ts[i].achievement && ss[i].unlocked == ts[i].unlocked
    ensures UnlockedPoints(ss) == UnlockedPoints(ts)
    ensures UnlockedCount(ss) == UnlockedCount(ts)
  {
    if |ss| > 0 {
      FlagsDecide(ss[..|ss| - 1], ts[..|ts| - 1]);
      assert IsUnlocked(ss[|ss| - 1]) == IsUnlocked(ts[|ts| - 1]);
    }
  }

  function CatalogIds(catalog: seq<Achievement>): seq<string>
  {
    seq(|catalog|, i requires 0 <= i < |catalog| => catalog[i].id)
  }

  /** With distinct catalog ids, the unlock count is the number of catalog
      ids that have an unlock row; rows for achievements outside the catalog
      are not counted. */
  lemma {:induction false} CountIsUnlockedCatalogIds(catalog: seq<Achievement>, rows: seq<UserAchievement>)
    requires NoDup(CatalogIds(catalog))
    ensures UnlockedCount(Statuses(catalog, rows)) == |IdSet(catalog) * UnlockedIds(rows)|
  {
    if |catalog| > 0 {
      var p := catalog[..|catalog| - 1];
      var x := catalog[|catalog| - 1].id;
      var u := UnlockedIds(rows);
      LastIdFresh(catalog);
      CountIsUnlockedCatalogIds(p, rows);
      CountStep(catalog, rows);
      IdSetStep(catalog);
      IntersectStep(IdSet(p), x, u);
    }
  }

  lemma IntersectStep(s: set<string>, x: string, u: set<string>)
    requires x !in s
    ensures |(s + {x}) * u| == |s * u| + (if x in u then 1 else 0)
  {
    if x in u {
      assert (s + {x}) * u == s * u + {x};
    } else {
      assert (s + {x}) * u == s * u;
    }
  }

  function IdSet(catalog: seq<Achievement>): set<string>
  {
    set a <- catalog :: a.id
  }

  lemma IdSetStep(catalog: seq<Achievement>)
    requires |catalog| > 0
    ensures IdSet(catalog) == IdSet(catalog[..|catalog| - 1]) + {catalog[|catalog| - 1].id}
  {
    assert catalog == catalog[..|catalog| - 1] + [catalog[|catalog| - 1]];
  }

  lemma LastIdFresh(catalog: seq<Achievement>)
    requires |catalog| > 0 && NoDup(CatalogIds(catalog))
    ensures NoDup(CatalogIds(catalog[..|catalog| - 1]))
    ensures catalog[|catalog| - 1].id !in IdSet(catalog[..|catalog| - 1])
  {
    var p := catalog[..|catalog| - 1];
    var last := catalog[|catalog| - 1];
    forall i, j | 0 <= i < j < |p| ensures CatalogIds(p)[i] != CatalogIds(p)[j] {
      assert CatalogIds(catalog)[i] == CatalogIds(p)[i] && CatalogIds(catalog)[j] == CatalogIds(p)[j];
    }
    forall a <- p ensures a.id != last.id {
      var i :| 0 <= i < |p| && p[i] == a;
      assert CatalogIds(catalog)[i] == a.id;
      assert CatalogIds(catalog)[|catalog| - 1] == last.id;
    }
  }

  lemma CountStep(catalog: seq<Achievement>, rows: seq<UserAchievement>)
    requires |catalog| > 0
    ensures UnlockedCount(Statuses(catalog, rows)) ==
      UnlockedCount(Statuses(catalog[..|catalog| - 1], rows)) + (if catalog[|catalog| - 1].id in UnlockedIds(rows) then 1 else 0)
  {
    var ss := Statuses(catalog, rows);
    assert ss[..|ss| - 1] == Statuses(catalog[..|catalog| - 1], rows);
  }

  /** The total splits over the four groups and the ungrouped entries: an
      unlocked achievement of another category is not shown but still adds
      its points. */
  lemma {:induction false} PointsSplitByGroup(ss: seq<Status>)
    ensures UnlockedPoints(ss) ==
      UnlockedPoints(Bucket(ss, "beginner")) + UnlockedPoints(Bucket(ss, "collection"))
      + UnlockedPoints(Bucket(ss, "location")) + UnlockedPoints(Bucket(ss, "rare"))
      + UnlockedPoints(Ungrouped(ss))
  {
    if |ss| > 0 {
      var p := ss[..|ss| - 1];
      var last := ss[|ss| - 1];
      assert ss == p + [last];
      PointsSplitByGroup(p);
      AppendOne(p, last, "beginner");
      AppendOne(p, last, "collection");
      AppendOne(p, last, "location");
      AppendOne(p, last, "rare");
      AppendUngrouped(p, last);
    }
  }

  lemma AppendOne(p: seq<Status>, last: Status, category: string)
    ensures last.achievement.category == category ==>
      UnlockedPoints(Bucket(p + [last], category)) ==
        UnlockedPoints(Bucket(p, category)) + (if last.unlocked then last.achievement.points else 0)
    ensures last.achievement.category != category ==>
      UnlockedPoints(Bucket(p + [last], category)) == UnlockedPoints(Bucket(p, category))
  {
    var ss := p + [last];
    assert ss[..|ss| - 1] == p;
    var b := Bucket(p, category);
    if last.achievement.category == category {
      assert Bucket(ss, category) == b + [last];
      assert (b + [last])[..|b|] == b;
    } else {
      assert Bucket(ss, category) == b;
    }
  }

  lemma AppendUngrouped(p: seq<Status>, last: Status)
    ensures last.achievement.category !in GroupNames ==>
      UnlockedPoints(Ungrouped(p + [last])) ==
        UnlockedPoints(Ungrouped(p)) + (if last.unlocked then last.achievement.points else 0)
    ensures last.achievement.category in GroupNames ==>
      UnlockedPoints(Ungrouped(p + [last])) == UnlockedPoints(Ungrouped(p))
    ensures last.achievement.category in GroupNames <==>
      last.achievement.category in {"beginner", "collection", "location", "rare"}
    ensures UnlockedPoints(p + [last]) == UnlockedPoints(p) + (if last.unlocked then last.achievement.points else 0)
  {
    var ss := p + [last];
    assert ss[..|ss| - 1] == p;
    var other := Ungrouped(p);
    if last.achievement.category !in GroupNames {
      assert Ungrouped(ss) == other + [last];
      assert (other + [last])[..|other|] == other;
    } else {
      assert Ungrouped(ss) == other;
    }
  }
}
