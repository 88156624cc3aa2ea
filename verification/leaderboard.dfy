/** The leaderboard of app/leaderboard.tsx: one accumulator per profile,
    sightings folded in with first-seen de-duplication per user, then a
    stable sort by points and discoveries and 1-based ranks. */
module Leaderboard {

  import opened Replies
  import opened Seqs
  import opened Records
  import StableSort

  /** A row of `sightings` with its creature's `points` joined in; `None`
      when the join or the column is null. */
  datatype ScoredSighting = ScoredSighting(userId: string, creatureId: string, points: Option<int>)

  /** The value kept per user while the sightings are folded in. */
  datatype Stat = Stat(
    id: string,
    fullName: Option<string>,
    avatarUrl: Option<string>,
    points: int,
    discovered: set<string>)

  /** One row of the displayed leaderboard. */
  datatype Entry = Entry(
    id: string,
    fullName: Option<string>,
    avatarUrl: Option<string>,
    points: int,
    discovered: nat,
    rank: nat)

  /** `sighting.creatures?.points || 0` */
  function RowPoints(s: ScoredSighting): int
  {
    if s.points.Some? then s.points.value else 0
  }

  function Ids(stats: seq<Stat>): seq<string>
  {
    seq(|stats|, i requires 0 <= i < |stats| => stats[i].id)
  }

  function ProfileIds(ps: seq<Profile>): seq<string>
  {
    seq(|ps|, i requires 0 <= i < |ps| => ps[i].id)
  }

  function EntryIds(es: seq<Entry>): seq<string>
  {
    seq(|es|, i requires 0 <= i < |es| => es[i].id)
  }

  /** The creatures user `u` has sighted, as a set. */
  function CreaturesOf(rows: seq<ScoredSighting>, u: string): set<string>
  {
    set r <- rows | r.userId == u :: r.creatureId
  }

  /** Every accumulator has its own key, as in a `Map`. */
  ghost predicate UniqueKeys(stats: seq<Stat>)
  {
    forall i, j :: 0 <= i < j < |stats| ==> stats[i].id != stats[j].id
  }

  /** Position of the accumulator keyed `id`, or -1. */
  function Find(stats: seq<Stat>, id: string): (k: int)
    ensures -1 <= k < |stats|
    ensures k >= 0 ==> stats[k].id == id
    ensures k < 0 ==> forall i :: 0 <= i < |stats| ==> stats[i].id != id
  {
    if |stats| == 0 then -1
    else if stats[|stats| - 1].id == id then |stats| - 1
    else Find(stats[..|stats| - 1], id)
  }

  /** `userStats.set(key, value)`: a new key goes last, an existing key keeps
      its position and gets the new value. */
  function Put(stats: seq<Stat>, st: Stat): (r: seq<Stat>)
    requires UniqueKeys(stats)
    ensures UniqueKeys(r)
    ensures Find(stats, st.id) >= 0 ==> |r| == |stats| && Ids(r) == Ids(stats)
    ensures Find(stats, st.id) < 0 ==> Ids(r) == Ids(stats) + [st.id]
    ensures forall x <- r :: x in stats || x == st
  {
    var k := Find(stats, st.id);
    if k >= 0 then
      assert Ids(stats[k := st]) == Ids(stats);
      stats[k := st]
    else
      assert Ids(stats + [st]) == Ids(stats) + [st.id];
      stats + [st]
  }

  function Fresh(p: Profile): Stat
  {
    Stat(p.id, p.fullName, p.avatarUrl, 0, {})
  }

  /** The accumulators before any sighting: one per distinct profile id, in
      order of first appearance, all at zero. */
  function InitStats(ps: seq<Profile>): (r: seq<Stat>)
    ensures UniqueKeys(r)
    ensures forall st <- r :: st.points == 0 && st.discovered == {}
  {
    if |ps| == 0 then []
    else Put(InitStats(ps[..|ps| - 1]), Fresh(ps[|ps| - 1]))
  }

  lemma {:induction false} InitStatsKeys(ps: seq<Profile>)
    ensures Ids(InitStats(ps)) == Dedup(ProfileIds(ps))
  {
    if |ps| > 0 {
      var p := ps[..|ps| - 1];
      var last := ps[|ps| - 1];
      InitStatsKeys(p);
      ProfileIdsLast(ps);
      DedupAppend(ProfileIds(p), last.id);
      var prev := InitStats(p);
      assert InitStats(ps) == Put(prev, Fresh(last));
      PutKeys(prev, Fresh(last));
    }
  }

  /** The name and avatar of the last profile in `ps` with key `id`: the
      value `Map.set` leaves behind for that key. */
  ghost predicate FromLastProfile(ps: seq<Profile>, id: string, fullName: Option<string>, avatarUrl: Option<string>)
  {
    exists j :: 0 <= j < |ps| && ps[j].id == id && ps[j].fullName == fullName && ps[j].avatarUrl == avatarUrl
      && forall l :: j < l < |ps| ==> ps[l].id != id
  }

  /** Each accumulator carries the name and avatar of the last profile with
      its key. */
  lemma {:induction false} InitStatsNames(ps: seq<Profile>)
    ensures forall st <- InitStats(ps) :: FromLastProfile(ps, st.id, st.fullName, st.avatarUrl)
  {
    if |ps| > 0 {
      var p := ps[..|ps| - 1];
      var last := ps[|ps| - 1];
      InitStatsNames(p);
      var prev := InitStats(p);
      PutOrigin(prev, Fresh(last));
      forall st <- InitStats(ps) ensures FromLastProfile(ps, st.id, st.fullName, st.avatarUrl) {
        if st == Fresh(last) {
          LastProfileIsLast(ps);
        } else {
          LastProfileExtend(ps, st.id, st.fullName, st.avatarUrl);
        }
      }
    }
  }

  /** Beside the stored value, `Map.set` keeps only entries of other keys. */
  lemma PutOrigin(stats: seq<Stat>, st: Stat)
    requires UniqueKeys(stats)
    ensures forall x <- Put(stats, st) :: x == st || (x in stats && x.id != st.id)
  {
    var r := Put(stats, st);
    var k := Find(stats, st.id);
    forall x <- r ensures x == st || (x in stats && x.id != st.id) {
      var i :| 0 <= i < |r| && r[i] == x;
      if k >= 0 && i != k {
        assert x == stats[i] && stats[k].id == st.id;
      } else if k < 0 && i < |stats| {
        assert x == stats[i];
      }
    }
  }

  /** The last profile is the last with its own key. */
  lemma LastProfileIsLast(ps: seq<Profile>)
    requires |ps| > 0
    ensures var last := ps[|ps| - 1]; FromLastProfile(ps, last.id, last.fullName, last.avatarUrl)
  {
    var j := |ps| - 1;
    assert ps[j].id == ps[|ps| - 1].id;
  }

  /** A key other than the last profile's keeps its last profile when the
      last profile is appended. */
  lemma LastProfileExtend(ps: seq<Profile>, id: string, fullName: Option<string>, avatarUrl: Option<string>)
    requires |ps| > 0 && id != ps[|ps| - 1].id
    requires FromLastProfile(ps[..|ps| - 1], id, fullName, avatarUrl)
    ensures FromLastProfile(ps, id, fullName, avatarUrl)
  {
    var p := ps[..|ps| - 1];
    var j :| 0 <= j < |p| && p[j].id == id && p[j].fullName == fullName && p[j].avatarUrl == avatarUrl
      && forall l :: j < l < |p| ==> p[l].id != id;
    assert ps[j] == p[j];
    forall l | j < l < |ps| ensures ps[l].id != id {
      if l < |p| {
        assert ps[l] == p[l];
      }
    }
  }

  lemma ProfileIdsLast(ps: seq<Profile>)
    requires |ps| > 0
    ensures ProfileIds(ps) == ProfileIds(ps[..|ps| - 1]) + [ps[|ps| - 1].id]
  {
  }

  lemma PutKeys(stats: seq<Stat>, st: Stat)
    requires UniqueKeys(stats)
    ensures st.id in Ids(stats) ==> Ids(Put(stats, st)) == Ids(stats)
    ensures st.id !in Ids(stats) ==> Ids(Put(stats, st)) == Ids(stats) + [st.id]
  {
    var k := Find(stats, st.id);
    if k >= 0 {
      assert Ids(stats)[k] == st.id;
    }
  }

  /** With distinct profile ids the accumulators are the profiles, in order. */
  lemma {:induction false} InitStatsDistinct(ps: seq<Profile>)
    requires NoDup(ProfileIds(ps))
    ensures InitStats(ps) == seq(|ps|, i requires 0 <= i < |ps| => Fresh(ps[i]))
  {
    if |ps| > 0 {
      var p := ps[..|ps| - 1];
      var ids := ProfileIds(ps);
      assert forall i :: 0 <= i < |p| ==> ProfileIds(p)[i] == ids[i];
      assert NoDup(ProfileIds(p));
      InitStatsDistinct(p);
      assert Find(InitStats(p), ps[|ps| - 1].id) < 0 by {
        forall i | 0 <= i < |p| ensures InitStats(p)[i].id != ps[|ps| - 1].id {
          assert InitStats(p)[i].id == ids[i];
          assert ids[|ps| - 1] == ps[|ps| - 1].id;
        }
      }
    }
  }

  /** Folds one sighting in: ignored when its user has no profile or the
      user already discovered its creature; otherwise its points are added and
      the creature is marked discovered. */
  function Record(stats: seq<Stat>, s: ScoredSighting): seq<Stat>
  {
    var k := Find(stats, s.userId);
    if k < 0 || s.creatureId in stats[k].discovered then stats
    else stats[k := stats[k].(points := stats[k].points + RowPoints(s),
                              discovered := stats[k].discovered + {s.creatureId})]
  }

  /** `sightings.forEach(...)`: the sightings folded in, in row order. Keys,
      names and avatars stay where they were. */
  function Tally(stats: seq<Stat>, rows: seq<ScoredSighting>): (r: seq<Stat>)
    ensures |r| == |stats|
    ensures forall i :: 0 <= i < |r| ==>
      r[i].id == stats[i].id && r[i].fullName == stats[i].fullName && r[i].avatarUrl == stats[i].avatarUrl
  {
    if |rows| == 0 then stats
    else Record(Tally(stats, rows[..|rows| - 1]), rows[|rows| - 1])
  }

  lemma CreaturesOfAppend(rows: seq<ScoredSighting>, s: ScoredSighting, u: string)
    ensures CreaturesOf(rows + [s], u) == CreaturesOf(rows, u) + (if s.userId == u then {s.creatureId} else {})
  {
  }

  /** After the fold, each user's discovered set is everything they were
      seen to sight. */
  lemma {:induction false} TallyDiscovered(stats: seq<Stat>, rows: seq<ScoredSighting>, i: int)
    requires UniqueKeys(stats)
    requires 0 <= i < |stats|
    ensures Tally(stats, rows)[i].discovered == stats[i].discovered + CreaturesOf(rows, stats[i].id)
  {
    if |rows| > 0 {
      var p := rows[..|rows| - 1];
      var s := rows[|rows| - 1];
      assert rows == p + [s];
      TallyDiscovered(stats, p, i);
      CreaturesOfAppend(p, s, stats[i].id);
      var t := Tally(stats, p);
      var k := Find(t, s.userId);
      if k >= 0 && k != i {
        assert t[k].id == stats[k].id;
      }
    }
  }

  function Unranked(stats: seq<Stat>): (es: seq<Entry>)
    ensures |es| == |stats|
    ensures EntryIds(es) == Ids(stats)
    ensures forall i :: 0 <= i < |es| ==>
      && es[i].fullName == stats[i].fullName && es[i].avatarUrl == stats[i].avatarUrl
      && es[i].points == stats[i].points && es[i].discovered == |stats[i].discovered|
  {
    seq(|stats|, i requires 0 <= i < |stats| => 
      Entry(stats[i].id, stats[i].fullName, stats[i].avatarUrl, stats[i].points, |stats[i].discovered|, 0))
  }

  /** The comparator `b.points - a.points || b.discovered - a.discovered`
      leaves `a` ahead of `b`. */
  predicate Before(a: Entry, b: Entry)
  {
    a.points > b.points || (a.points == b.points && a.discovered >= b.discovered)
  }

  lemma BeforeIsTotalPreorder(es: seq<Entry>)
    ensures StableSort.TotalPreorderOn(es, Before)
  {
  }

  /** `.map((user, index) => ({ ...user, rank: index + 1 }))` */
  function Ranked(es: seq<Entry>): (r: seq<Entry>)
  {
    seq(|es|, i requires 0 <= i < |es| => es[i].(rank := i + 1))
  }

  /** One unranked entry per profile, after the fold. */
  function Accumulators(ps: seq<Profile>, rows: seq<ScoredSighting>): seq<Entry>
  {
    Unranked(Tally(InitStats(ps), rows))
  }

  /** `Array.from(userStats.values())...sort(...)`: the accumulators in board order. */
  function Standings(ps: seq<Profile>, rows: seq<ScoredSighting>): (sorted: seq<Entry>)
    ensures multiset(sorted) == multiset(Accumulators(ps, rows))
    ensures |sorted| == |Accumulators(ps, rows)|
    ensures StableSort.Sorted(sorted, Before)
    ensures forall z <- Accumulators(ps, rows) ::
      Filter(sorted, StableSort.Tied(Before, z)) == Filter(Accumulators(ps, rows), StableSort.Tied(Before, z))
  {
    var es := Accumulators(ps, rows);
    BeforeIsTotalPreorder(es);
    StableSort.Stable(es, Before);
    StableSort.Sort(es, Before)
  }

  /** Every standing is the fold's accumulator of some profile key. */
  lemma StandingOrigin(ps: seq<Profile>, rows: seq<ScoredSighting>, i: int) returns (k: int)
    requires 0 <= i < |Standings(ps, rows)|
    ensures 0 <= k < |InitStats(ps)|
    ensures Standings(ps, rows)[i] == Accumulators(ps, rows)[k]
  {
    var sorted := Standings(ps, rows);
    var es := Accumulators(ps, rows);
    assert sorted[i] in multiset(es);
    k :| 0 <= k < |es| && es[k] == sorted[i];
  }

  /** The leaderboard built from the profiles and the scored sightings:
      every profile exactly once, ordered by points then discoveries
      (both descending), ranked 1..N by position. */
  function Build(ps: seq<Profile>, rows: seq<ScoredSighting>): (board: seq<Entry>)
    ensures |board| == |set p <- ps :: p.id|
    ensures forall p <- ps :: exists i :: 0 <= i < |board| && board[i].id == p.id
    ensures forall i, j :: 0 <= i < j < |board| ==> board[i].id != board[j].id
    ensures forall i :: 0 <= i < |board| ==> board[i].rank == i + 1
    ensures StableSort.Sorted(board, Before)
    ensures forall e <- board :: e.discovered == |CreaturesOf(rows, e.id)|
    ensures forall e <- board :: FromLastProfile(ps, e.id, e.fullName, e.avatarUrl)
  {
    var sorted := Standings(ps, rows);
    BoardFacts(ps, rows, sorted);
    BoardNames(ps, rows, sorted);
    Ranked(sorted)
  }

  lemma BoardFacts(ps: seq<Profile>, rows: seq<ScoredSighting>, sorted: seq<Entry>)
    requires multiset(sorted) == multiset(Accumulators(ps, rows))
    requires StableSort.Sorted(sorted, Before)
    ensures var board := Ranked(sorted);
      && |board| == |set p <- ps :: p.id|
      && (forall p <- ps :: exists i :: 0 <= i < |board| && board[i].id == p.id)
      && (forall i, j :: 0 <= i < j < |board| ==> board[i].id != board[j].id)
      && (forall i :: 0 <= i < |board| ==> board[i].rank == i + 1)
      && StableSort.Sorted(board, Before)
      && (forall e <- board :: e.discovered == |CreaturesOf(rows, e.id)|)
  {
    var es := Accumulators(ps, rows);
    assert |sorted| == |es| by {
      assert |multiset(sorted)| == |multiset(es)|;
    }
    BoardSize(ps, rows);
    BoardKeys(ps, rows, sorted);
    BoardDiscovered(ps, rows, sorted);
    RankedKeepsOrder(sorted);
    RankedKeepsFields(ps, rows, sorted);
  }

  /** Ranking keeps every id and discovery count where it was. */
  lemma RankedKeepsFields(ps: seq<Profile>, rows: seq<ScoredSighting>, sorted: seq<Entry>)
    requires forall p <- ps :: exists i :: 0 <= i < |sorted| && sorted[i].id == p.id
    requires forall e <- sorted :: e.discovered == |CreaturesOf(rows, e.id)|
    ensures var board := Ranked(sorted);
      && (forall p <- ps :: exists i :: 0 <= i < |board| && board[i].id == p.id)
      && (forall e <- board :: e.discovered == |CreaturesOf(rows, e.id)|)
  {
    var board := Ranked(sorted);
    forall p <- ps ensures exists i :: 0 <= i < |board| && board[i].id == p.id {
      var i :| 0 <= i < |sorted| && sorted[i].id == p.id;
      assert board[i].id == p.id;
    }
    forall e <- board ensures e.discovered == |CreaturesOf(rows, e.id)| {
      var i :| 0 <= i < |board| && board[i] == e;
      assert sorted[i] in sorted;
    }
  }

  /** Ranking changes nothing but the rank, so it keeps the sort order. */
  lemma RankedKeepsOrder(es: seq<Entry>)
    requires StableSort.Sorted(es, Before)
    ensures StableSort.Sorted(Ranked(es), Before)
  {
  }

  lemma BoardSize(ps: seq<Profile>, rows: seq<ScoredSighting>)
    ensures |Tally(InitStats(ps), rows)| == |set p <- ps :: p.id|
  {
    var init := InitStats(ps);
    InitStatsKeys(ps);
    var ids := ProfileIds(ps);
    ProfileIdSet(ps);
    assert |init| == |Ids(init)| == DistinctCount(ids);
  }

  lemma ProfileIdSet(ps: seq<Profile>)
    ensures (set x | x in ProfileIds(ps)) == (set p <- ps :: p.id)
  {
    var ids := ProfileIds(ps);
    forall p <- ps ensures p.id in ids {
      var i :| 0 <= i < |ps| && ps[i] == p;
      assert ids[i] == p.id;
    }
  }

  /** Unique keys survive the sort, and every profile id is on the board. */
  lemma BoardKeys(ps: seq<Profile>, rows: seq<ScoredSighting>, sorted: seq<Entry>)
    requires multiset(sorted) == multiset(Accumulators(ps, rows))
    ensures forall i, j :: 0 <= i < j < |sorted| ==> sorted[i].id != sorted[j].id
    ensures forall p <- ps :: exists i :: 0 <= i < |sorted| && sorted[i].id == p.id
  {
    var init := InitStats(ps);
    var es := Accumulators(ps, rows);
    assert forall i :: 0 <= i < |es| ==> es[i].id == init[i].id;
    forall i, j | 0 <= i < j < |sorted| ensures sorted[i].id != sorted[j].id {
      if sorted[i].id == sorted[j].id {
        assert sorted[i] in multiset(es) && sorted[j] in multiset(es);
        var k :| 0 <= k < |es| && es[k] == sorted[i];
        var l :| 0 <= l < |es| && es[l] == sorted[j];
        assert k == l;
        Twice(sorted, i, j);
        assert NoDup(es) by {
          forall a, b | 0 <= a < b < |es| ensures es[a] != es[b] {
            assert es[a].id == init[a].id;
          }
        }
        NoDupOnce(es, sorted[i]);
        assert false;
      }
    }
    InitStatsKeys(ps);
    forall p <- ps ensures exists i :: 0 <= i < |sorted| && sorted[i].id == p.id {
      var n :| 0 <= n < |ps| && ps[n] == p;
      assert ProfileIds(ps)[n] == p.id;
      assert p.id in Ids(init);
      var k :| 0 <= k < |init| && Ids(init)[k] == p.id;
      assert es[k] in multiset(sorted);
      var i :| 0 <= i < |sorted| && sorted[i] == es[k];
    }
  }

  lemma BoardDiscovered(ps: seq<Profile>, rows: seq<ScoredSighting>, sorted: seq<Entry>)
    requires multiset(sorted) == multiset(Accumulators(ps, rows))
    ensures forall e <- sorted :: e.discovered == |CreaturesOf(rows, e.id)|
  {
    var init := InitStats(ps);
    var es := Accumulators(ps, rows);
    forall e <- sorted ensures e.discovered == |CreaturesOf(rows, e.id)| {
      assert e in multiset(es);
      var k :| 0 <= k < |es| && es[k] == e;
      TallyDiscovered(init, rows, k);
      assert init[k] in init;
    }
  }

  /** Each row shows the name and avatar of the last profile with its id. */
  lemma BoardNames(ps: seq<Profile>, rows: seq<ScoredSighting>, sorted: seq<Entry>)
    requires multiset(sorted) == multiset(Accumulators(ps, rows))
    ensures forall e <- Ranked(sorted) :: FromLastProfile(ps, e.id, e.fullName, e.avatarUrl)
  {
    var init := InitStats(ps);
    var es := Accumulators(ps, rows);
    InitStatsNames(ps);
    forall e <- Ranked(sorted) ensures FromLastProfile(ps, e.id, e.fullName, e.avatarUrl) {
      var i :| 0 <= i < |Ranked(sorted)| && Ranked(sorted)[i] == e;
      assert sorted[i] in multiset(es);
      var k :| 0 <= k < |es| && es[k] == sorted[i];
      assert init[k] in init;
    }
  }

  /** `fetchLeaderboard`: a failed read of either table shows its error and
      no partial board; otherwise the board is built. */
  function FetchLeaderboard(profiles: Reply<seq<Profile>>, sightings: Reply<seq<ScoredSighting>>): (r: Reply<seq<Entry>>)
    ensures r.Ok? <==> profiles.Ok? && sightings.Ok?
    ensures r.Ok? ==> r.rows == Build(profiles.rows, sightings.rows)
    ensures profiles.Failed? ==> r.message == ErrorText(profiles.message, "Failed to load leaderboard")
    ensures profiles.Ok? && sightings.Failed? ==> r.message == ErrorText(sightings.message, "Failed to load leaderboard")
    ensures r.Failed? ==> r.message != ""
  {
    if profiles.Failed? then Failed(ErrorText(profiles.message, "Failed to load leaderboard"))
    else if sightings.Failed? then Failed(ErrorText(sightings.message, "Failed to load leaderboard"))
    else Ok(Build(profiles.rows, sightings.rows))
  }

  /** The creature ids of user `u`'s sightings, in row order. */
  function CreatureSeq(rows: seq<ScoredSighting>, u: string): seq<string>
  {
    if |rows| == 0 then []
    else
      CreatureSeq(rows[..|rows| - 1], u)
      + (if rows[|rows| - 1].userId == u then [rows[|rows| - 1].creatureId] else [])
  }

  lemma {:induction false} CreatureSeqElements(rows: seq<ScoredSighting>, u: string)
    ensures forall x :: x in CreatureSeq(rows, u) <==> x in CreaturesOf(rows, u)
  {
    if |rows| > 0 {
      var p := rows[..|rows| - 1];
      assert rows == p + [rows[|rows| - 1]];
      CreatureSeqElements(p, u);
      CreaturesOfAppend(p, rows[|rows| - 1], u);
    }
  }

  /** A creature's catalog points; a creature outside the catalog is worth 0. */
  function PointsOf(catalog: map<string, int>, id: string): int
  {
    if id in catalog then catalog[id] else 0
  }

  function SumPoints(catalog: map<string, int>, ids: seq<string>): int
  {
    if |ids| == 0 then 0 else SumPoints(catalog, ids[..|ids| - 1]) + PointsOf(catalog, ids[|ids| - 1])
  }

  /** Every sighting carries its creature's catalog points. */
  ghost predicate ConsistentPoints(rows: seq<ScoredSighting>, catalog: map<string, int>)
  {
    forall r <- rows :: RowPoints(r) == PointsOf(catalog, r.creatureId)
  }

  /** One fold step keeps "points = sum over the distinct creatures seen". */
  lemma RecordStep(t: seq<Stat>, s: ScoredSighting, i: int, catalog: map<string, int>, xs: seq<string>)
    requires UniqueKeys(t) && 0 <= i < |t|
    requires s.creatureId in xs <==> s.creatureId in t[i].discovered
    requires t[i].points == SumPoints(catalog, Dedup(xs))
    requires RowPoints(s) == PointsOf(catalog, s.creatureId)
    ensures Record(t, s)[i].points
            == SumPoints(catalog, Dedup(xs + (if s.userId == t[i].id then [s.creatureId] else [])))
  {
    var k := Find(t, s.userId);
    var c := s.creatureId;
    if s.userId == t[i].id {
      assert k == i;
      DedupAppend(xs, c);
      if c !in xs {
        var d := Dedup(xs);
        assert (d + [c])[..|d|] == d;
        assert SumPoints(catalog, d + [c]) == SumPoints(catalog, d) + PointsOf(catalog, c);
        assert Record(t, s)[i].points == t[i].points + RowPoints(s);
      }
    } else {
      assert k != i;
      assert xs + [] == xs;
    }
  }

  lemma {:induction false} TallyPoints(stats: seq<Stat>, rows: seq<ScoredSighting>, catalog: map<string, int>, i: int)
    requires UniqueKeys(stats)
    requires 0 <= i < |stats| && stats[i].points == 0 && stats[i].discovered == {}
    requires ConsistentPoints(rows, catalog)
    ensures Tally(stats, rows)[i].points == SumPoints(catalog, Dedup(CreatureSeq(rows, stats[i].id)))
  {
    var u := stats[i].id;
    if |rows| > 0 {
      var p := rows[..|rows| - 1];
      var s := rows[|rows| - 1];
      assert rows == p + [s];
      TallyPoints(stats, p, catalog, i);
      TallyDiscovered(stats, p, i);
      CreatureSeqElements(p, u);
      var t := Tally(stats, p);
      assert UniqueKeys(t) by {
        forall a, b | 0 <= a < b < |t| ensures t[a].id != t[b].id {
          assert t[a].id == stats[a].id && t[b].id == stats[b].id;
        }
      }
      assert s in rows;
      assert s.creatureId in CreatureSeq(p, u) <==> s.creatureId in t[i].discovered;
      RecordStep(t, s, i, catalog, CreatureSeq(p, u));
    }
  }

  /** When each sighting carries its creature's catalog points, a user's
      points are the sum over the distinct creatures they sighted: repeat
      sightings add nothing. */
  lemma BoardPoints(ps: seq<Profile>, rows: seq<ScoredSighting>, catalog: map<string, int>)
    requires ConsistentPoints(rows, catalog)
    ensures forall e <- Build(ps, rows) :: e.points == SumPoints(catalog, Dedup(CreatureSeq(rows, e.id)))
  {
    var board := Build(ps, rows);
    forall e <- board ensures e.points == SumPoints(catalog, Dedup(CreatureSeq(rows, e.id))) {
      var i :| 0 <= i < |board| && board[i] == e;
      EntryPoints(ps, rows, catalog, i);
    }
  }

  lemma EntryPoints(ps: seq<Profile>, rows: seq<ScoredSighting>, catalog: map<string, int>, i: int)
    requires ConsistentPoints(rows, catalog)
    requires 0 <= i < |Standings(ps, rows)|
    ensures Standings(ps, rows)[i].points == SumPoints(catalog, Dedup(CreatureSeq(rows, Standings(ps, rows)[i].id)))
  {
    var init := InitStats(ps);
    var k := StandingOrigin(ps, rows, i);
    assert init[k] in init;
    TallyPoints(init, rows, catalog, k);
  }

  /** The board is a permutation of the accumulators, ranks aside. */
  lemma BoardPermutation(ps: seq<Profile>, rows: seq<ScoredSighting>)
    ensures var board := Build(ps, rows);
            multiset(seq(|board|, i requires 0 <= i < |board| => board[i].(rank := 0)))
            == multiset(Accumulators(ps, rows))
  {
    var sorted := Standings(ps, rows);
    UnrankStandings(ps, rows);
    assert Build(ps, rows) == Ranked(sorted);
  }

  /** Resetting the ranks of the ranked standings gives the standings back. */
  lemma UnrankStandings(ps: seq<Profile>, rows: seq<ScoredSighting>)
    ensures var sorted := Standings(ps, rows);
            var board := Ranked(sorted);
            seq(|board|, i requires 0 <= i < |board| => board[i].(rank := 0)) == sorted
  {
    var sorted := Standings(ps, rows);
    var board := Ranked(sorted);
    forall i | 0 <= i < |sorted| ensures sorted[i].rank == 0 {
      var k := StandingOrigin(ps, rows, i);
    }
  }

  /** A sighting by someone without a profile, or of a creature its user
      already discovered, leaves the board unchanged. */
  lemma IgnoredSighting(ps: seq<Profile>, rows: seq<ScoredSighting>, s: ScoredSighting)
    requires s.userId !in (set p <- ps :: p.id) || s.creatureId in CreaturesOf(rows, s.userId)
    ensures Build(ps, rows + [s]) == Build(ps, rows)
  {
    IgnoredSightingTally(ps, rows, s);
  }

  lemma IgnoredSightingTally(ps: seq<Profile>, rows: seq<ScoredSighting>, s: ScoredSighting)
    requires s.userId !in (set p <- ps :: p.id) || s.creatureId in CreaturesOf(rows, s.userId)
    ensures Tally(InitStats(ps), rows + [s]) == Tally(InitStats(ps), rows)
  {
    var init := InitStats(ps);
    assert (rows + [s])[..|rows|] == rows;
    var t := Tally(init, rows);
    assert Tally(init, rows + [s]) == Record(t, s);
    var k := Find(t, s.userId);
    if k >= 0 {
      InitStatsKeys(ps);
      assert Ids(init)[k] == s.userId;
      assert s.userId in ProfileIds(ps);
      var n :| 0 <= n < |ps| && ProfileIds(ps)[n] == s.userId;
      assert ps[n] in ps;
      TallyDiscovered(init, rows, k);
      assert init[k] in init;
    }
  }

  /** A user with more points is ranked strictly higher (a smaller rank). In
      particular a user without sightings is ranked after everyone with
      positive points. */
  lemma HigherPointsRankFirst(ps: seq<Profile>, rows: seq<ScoredSighting>, i: int, j: int)
    requires 0 <= i < |Build(ps, rows)| && 0 <= j < |Build(ps, rows)|
    requires Build(ps, rows)[i].points > Build(ps, rows)[j].points
    ensures Build(ps, rows)[i].rank < Build(ps, rows)[j].rank
  {
    PointsOrder(Build(ps, rows), i, j);
  }

  /** In a sorted board, more points means an earlier position. */
  lemma PointsOrder(board: seq<Entry>, i: int, j: int)
    requires StableSort.Sorted(board, Before)
    requires 0 <= i < |board| && 0 <= j < |board|
    requires board[i].points > board[j].points
    ensures i < j
  {
  }

  /** A user without sightings keeps 0 points and 0 discoveries. */
  lemma {:induction false} NoSightingsNoPoints(stats: seq<Stat>, rows: seq<ScoredSighting>, i: int)
    requires 0 <= i < |stats|
    requires CreaturesOf(rows, stats[i].id) == {}
    ensures Tally(stats, rows)[i].points == stats[i].points
  {
    if |rows| > 0 {
      var p := rows[..|rows| - 1];
      assert rows == p + [rows[|rows| - 1]];
      CreaturesOfAppend(p, rows[|rows| - 1], stats[i].id);
      NoSightingsNoPoints(stats, p, i);
    }
  }

  lemma InactiveUser(ps: seq<Profile>, rows: seq<ScoredSighting>, e: Entry)
    requires e in Build(ps, rows)
    requires CreaturesOf(rows, e.id) == {}
    ensures e.points == 0 && e.discovered == 0
  {
    var board := Build(ps, rows);
    var i :| 0 <= i < |board| && board[i] == e;
    var k := StandingOrigin(ps, rows, i);
    var init := InitStats(ps);
    assert init[k] in init;
    NoSightingsNoPoints(init, rows, k);
  }

  function ScenarioRows(u: string, a: string, b: string): seq<ScoredSighting>
  {
    [ScoredSighting(u, a, Some(10)), ScoredSighting(u, a, Some(10)),
     ScoredSighting(u, a, Some(10)), ScoredSighting(u, b, Some(20))]
  }

  /** Three sightings of a creature worth 10 and one of a creature worth 20
      put the user on the board with 2 discoveries and 30 points. */
  lemma RepeatSightingsScenario(p: Profile, a: string, b: string)
    requires a != b
    ensures forall e <- Build([p], ScenarioRows(p.id, a, b)) :: e.points == 30 && e.discovered == 2
  {
    var rows := ScenarioRows(p.id, a, b);
    ScenarioFigures(p.id, a, b);
    BoardPoints([p], rows, map[a := 10, b := 20]);
    SingleProfileBoard(p, rows);
  }

  /** A board built from one profile holds only that profile. */
  lemma SingleProfileBoard(p: Profile, rows: seq<ScoredSighting>)
    ensures forall e <- Build([p], rows) :: e.id == p.id
  {
    forall e <- Build([p], rows) ensures e.id == p.id {
      assert FromLastProfile([p], e.id, e.fullName, e.avatarUrl);
    }
  }

  lemma ScenarioFigures(u: string, a: string, b: string)
    requires a != b
    ensures ConsistentPoints(ScenarioRows(u, a, b), map[a := 10, b := 20])
    ensures SumPoints(map[a := 10, b := 20], Dedup(CreatureSeq(ScenarioRows(u, a, b), u))) == 30
    ensures |CreaturesOf(ScenarioRows(u, a, b), u)| == 2
  {
    ScenarioCreatures(u, a, b);
    ScenarioDistinct(a, b);
    ScenarioSum(a, b);
    assert CreaturesOf(ScenarioRows(u, a, b), u) == {a, b};
  }

  lemma ScenarioDistinct(a: string, b: string)
    requires a != b
    ensures Dedup([a, a, a, b]) == [a, b]
  {
    DedupAppend([a], a);
    assert [a] + [a] == [a, a];
    DedupAppend([a, a], a);
    assert [a, a] + [a] == [a, a, a];
    DedupAppend([a, a, a], b);
    assert [a, a, a] + [b] == [a, a, a, b];
  }

  lemma ScenarioSum(a: string, b: string)
    requires a != b
    ensures SumPoints(map[a := 10, b := 20], [a, b]) == 30
  {
    var catalog := map[a := 10, b := 20];
    assert [a, b][..1] == [a];
    assert [a][..0] == [];
    assert SumPoints(catalog, [a]) == SumPoints(catalog, []) + PointsOf(catalog, a) == 10;
    assert SumPoints(catalog, [a, b]) == SumPoints(catalog, [a]) + PointsOf(catalog, b);
  }

  lemma ScenarioCreatures(u: string, a: string, b: string)
    ensures CreatureSeq(ScenarioRows(u, a, b), u) == [a, a, a, b]
  {
    var rows := ScenarioRows(u, a, b);
    assert CreatureSeq(rows[..1], u) == [a] by {
      assert rows[..1][..0] == [];
    }
    assert CreatureSeq(rows[..2], u) == [a, a] by {
      assert rows[..2][..1] == rows[..1];
    }
    assert CreatureSeq(rows[..3], u) == [a, a, a] by {
      assert rows[..3][..2] == rows[..2];
    }
    assert rows[..|rows| - 1] == rows[..3];
  }

  lemma Twice<T>(t: seq<T>, i: int, j: int)
    requires 0 <= i < j < |t| && t[i] == t[j]
    ensures multiset(t)[t[i]] >= 2
  {
    assert t == t[..i] + [t[i]] + t[i + 1..j] + [t[j]] + t[j + 1..];
  }

  lemma {:induction false} NoDupOnce<T>(s: seq<T>, x: T)
    requires NoDup(s)
    ensures multiset(s)[x] <= 1
  {
    if |s| > 0 {
      var p := s[..|s| - 1];
      assert s == p + [s[|s| - 1]];
      NoDupOnce(p, x);
      if x == s[|s| - 1] {
        assert x !in p;
      }
    }
  }
}
