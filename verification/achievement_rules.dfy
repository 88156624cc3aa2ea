/** The achievement rule evaluator of lib/achievements.ts: from the user's
    sightings, the ids already unlocked and the achievement catalog, decide
    which achievements to unlock and how many were unlocked. */
module AchievementRules {

  import opened Replies
  import opened Seqs
  import opened Records

  /** The `creature_id, location` columns of one of the user's sightings. */
  datatype SightingFacts = SightingFacts(creatureId: string, location: string)

  /** The fixed creature ids of the creature-specific achievements. */
  const SharkId := "b7c83fd5-3729-4620-92e5-a3a6452300f5"
  const MantaId := "dbc8a507-15ae-4227-93ef-054847f0e636"
  const DolphinId := "802ed0c6-3d09-41ba-afa5-f5012a93203d"
  const WhaleId := "101e1c40-1b91-4968-bd23-e1e2160e6b3d"

  function CreatureIds(rows: seq<SightingFacts>): seq<string>
  {
    seq(|rows|, i requires 0 <= i < |rows| => rows[i].creatureId)
  }

  function Locations(rows: seq<SightingFacts>): seq<string>
  {
    seq(|rows|, i requires 0 <= i < |rows| => rows[i].location)
  }

  /** Number of distinct creatures sighted; repeat sightings do not count. */
  function SightingsCount(rows: seq<SightingFacts>): (n: nat)
    ensures n == |set r | r in rows :: r.creatureId|
  {
    var ids := CreatureIds(rows);
    assert (set x | x in ids) == (set r | r in rows :: r.creatureId) by {
      forall r | r in rows ensures r.creatureId in ids {
        var i :| 0 <= i < |rows| && rows[i] == r;
        assert ids[i] == r.creatureId;
      }
    }
    DistinctCount(ids)
  }

  /** Number of distinct location strings, compared exactly (case and
      white space matter). */
  function LocationsCount(rows: seq<SightingFacts>): (n: nat)
    ensures n == |set r | r in rows :: r.location|
  {
    var ls := Locations(rows);
    assert (set x | x in ls) == (set r | r in rows :: r.location) by {
      forall r | r in rows ensures r.location in ls {
        var i :| 0 <= i < |rows| && rows[i] == r;
        assert ls[i] == r.location;
      }
    }
    DistinctCount(ls)
  }

  /** `sightings.some(s => s.creature_id === id)` */
  predicate Spotted(rows: seq<SightingFacts>, id: string)
  {
    exists r <- rows :: r.creatureId == id
  }

  /** The `else if` chain that tests one catalog entry's code against the
      user's distinct-creature count `sc` and distinct-location count `lc`. */
  predicate Qualifies(code: string, sc: nat, lc: nat, rows: seq<SightingFacts>)
  {
    if code == "first_catch" && sc >= 1 then true
    else if code == "getting_feet_wet" && sc >= 5 then true
    else if code == "underwater_explorer" && sc >= 10 then true
    else if code == "marine_enthusiast" && sc >= 25 then true
    else if code == "ocean_archivist" && sc >= 50 then true
    else if code == "sea_vault_master" && sc >= 100 then true
    else if code == "local_diver" && lc >= 1 then true
    else if code == "world_traveler" && lc >= 2 then true
    else if code == "deep_sea_voyager" && lc >= 3 then true
    else if code == "shark_whisperer" && Spotted(rows, SharkId) then true
    else if code == "manta_mania" && Spotted(rows, MantaId) then true
    else if code == "dolphin_friend" && Spotted(rows, DolphinId) then true
    else if code == "whale_watcher" && Spotted(rows, WhaleId) then true
    else false
  }

  /** The rule table the chain implements, as data. */
  datatype Rule =
    | DistinctCreatures(atLeast: nat)
    | DistinctLocations(atLeast: nat)
    | SpottedCreature(creatureId: string)

  const Rules: map<string, Rule> := map[
    "first_catch" := DistinctCreatures(1),
    "getting_feet_wet" := DistinctCreatures(5),
    "underwater_explorer" := DistinctCreatures(10),
    "marine_enthusiast" := DistinctCreatures(25),
    "ocean_archivist" := DistinctCreatures(50),
    "sea_vault_master" := DistinctCreatures(100),
    "local_diver" := DistinctLocations(1),
    "world_traveler" := DistinctLocations(2),
    "deep_sea_voyager" := DistinctLocations(3),
    "shark_whisperer" := SpottedCreature(SharkId),
    "manta_mania" := SpottedCreature(MantaId),
    "dolphin_friend" := SpottedCreature(DolphinId),
    "whale_watcher" := SpottedCreature(WhaleId)
  ]

  predicate Holds(rule: Rule, sc: nat, lc: nat, rows: seq<SightingFacts>)
  {
    match rule
    case DistinctCreatures(n) => sc >= n
    case DistinctLocations(n) => lc >= n
    case SpottedCreature(id) => Spotted(rows, id)
  }

  /** The chain qualifies exactly the codes of the rule table whose rule
      holds; a code outside the table never qualifies. */
  lemma ChainMatchesRules(code: string, sc: nat, lc: nat, rows: seq<SightingFacts>)
    ensures Qualifies(code, sc, lc, rows) <==> code in Rules && Holds(Rules[code], sc, lc, rows)
  {
  }

  /** The ids of the catalog entries that are not yet unlocked and whose
      rule now holds, in catalog order (the loop of lib/achievements.ts:41-94). */
  function Queue(catalog: seq<Achievement>, unlocked: set<string>, sc: nat, lc: nat,
                 rows: seq<SightingFacts>): (q: seq<string>)
    ensures |q| <= |catalog|
    ensures forall id <- q :: id !in unlocked
    ensures forall id <- q :: exists a <- catalog :: a.id == id && Qualifies(a.code, sc, lc, rows)
    ensures forall a <- catalog :: a.id !in unlocked && Qualifies(a.code, sc, lc, rows) ==> a.id in q
    ensures Subsequence(q, AchievementIds(catalog))
  {
    if |catalog| == 0 then []
    else
      var a := catalog[0];
      var rest := Queue(catalog[1..], unlocked, sc, lc, rows);
      assert catalog == [a] + catalog[1..];
      AchievementIdsCons(catalog);
      if a.id !in unlocked && Qualifies(a.code, sc, lc, rows) then [a.id] + rest
      else
        SubsequenceSkip(rest, AchievementIds(catalog[1..]), a.id);
        rest
  }

  function AchievementIds(catalog: seq<Achievement>): seq<string>
  {
    seq(|catalog|, i requires 0 <= i < |catalog| => catalog[i].id)
  }

  lemma AchievementIdsCons(catalog: seq<Achievement>)
    requires |catalog| > 0
    ensures AchievementIds(catalog) == [catalog[0].id] + AchievementIds(catalog[1..])
  {
  }

  /** What the evaluator sends to the unlock table: one row per queued id.
      The `unlocked_at` clock value is not modelled. */
  datatype UnlockRow = UnlockRow(userId: string, achievementId: string)

  /** `inserted` is the batch handed to the insert (empty when no insert is
      attempted) and `returned` the function's result. */
  datatype Evaluation = Evaluation(inserted: seq<UnlockRow>, returned: nat)

  function UnlockRows(userId: string, q: seq<string>): (rows: seq<UnlockRow>)
    ensures |rows| == |q|
    ensures forall i :: 0 <= i < |q| ==> rows[i] == UnlockRow(userId, q[i])
  {
    seq(|q|, i requires 0 <= i < |q| => UnlockRow(userId, q[i]))
  }

  /** `checkAndUpdateAchievements`: the three reads, the decision and the
      batch insert. Any failed read or a failed insert makes it return 0. */
  function CheckAndUpdate(userId: string,
                          sightings: Reply<seq<SightingFacts>>,
                          current: Reply<seq<string>>,
                          catalog: Reply<seq<Achievement>>,
                          insertFails: bool): (r: Evaluation)
    ensures sightings.Failed? || current.Failed? || catalog.Failed? ==> r == Evaluation([], 0)
    ensures sightings.Ok? && current.Ok? && catalog.Ok? ==>
      var rows := sightings.rows;
      var q := Queue(catalog.rows, (set id <- current.rows), SightingsCount(rows), LocationsCount(rows), rows);
      && r.inserted == UnlockRows(userId, q)
      && (r.returned == if insertFails && |q| > 0 then 0 else |q|)
    ensures r.returned <= |r.inserted|
    ensures forall u <- r.inserted :: u.userId == userId
  {
    if sightings.Failed? || current.Failed? || catalog.Failed? then Evaluation([], 0)
    else
      var rows := sightings.rows;
      var unlocked := set id <- current.rows;
      var q := Queue(catalog.rows, unlocked, SightingsCount(rows), LocationsCount(rows), rows);
      if |q| == 0 then Evaluation([], 0)
      else if insertFails then Evaluation(UnlockRows(userId, q), 0)
      else Evaluation(UnlockRows(userId, q), |q|)
  }

  /** With a catalog whose ids are distinct, an entry is queued exactly when
      it is not unlocked and the chain qualifies its code. */
  lemma QueuedIffChain(catalog: seq<Achievement>, unlocked: set<string>, sc: nat, lc: nat,
                       rows: seq<SightingFacts>, a: Achievement)
    requires NoDup(AchievementIds(catalog))
    requires a in catalog
    ensures a.id in Queue(catalog, unlocked, sc, lc, rows) <==> a.id !in unlocked && Qualifies(a.code, sc, lc, rows)
  {
    var q := Queue(catalog, unlocked, sc, lc, rows);
    if a.id in q {
      var b :| b in catalog && b.id == a.id && Qualifies(b.code, sc, lc, rows);
      SameIdSameEntry(catalog, a, b);
    }
  }

  /** In a catalog with distinct ids an id names one entry. */
  lemma SameIdSameEntry(catalog: seq<Achievement>, a: Achievement, b: Achievement)
    requires NoDup(AchievementIds(catalog))
    requires a in catalog && b in catalog && a.id == b.id
    ensures a == b
  {
    var i :| 0 <= i < |catalog| && catalog[i] == a;
    var j :| 0 <= j < |catalog| && catalog[j] == b;
    assert AchievementIds(catalog)[i] == AchievementIds(catalog)[j];
  }

  /** With a catalog whose ids are distinct, an entry is queued exactly when
      it is not unlocked and its code's rule in the table holds. */
  lemma QueuedIff(catalog: seq<Achievement>, unlocked: set<string>, rows: seq<SightingFacts>, a: Achievement)
    requires NoDup(AchievementIds(catalog))
    requires a in catalog
    ensures var q := Queue(catalog, unlocked, SightingsCount(rows), LocationsCount(rows), rows);
            a.id in q <==> a.id !in unlocked && a.code in Rules
                           && Holds(Rules[a.code], SightingsCount(rows), LocationsCount(rows), rows)
  {
    var sc, lc := SightingsCount(rows), LocationsCount(rows);
    QueuedIffChain(catalog, unlocked, sc, lc, rows, a);
    ChainMatchesRules(a.code, sc, lc, rows);
  }

  /** first_catch is queued iff it is not already unlocked and at least one
      creature has been sighted. */
  lemma FirstCatch(catalog: seq<Achievement>, unlocked: set<string>, rows: seq<SightingFacts>, a: Achievement)
    requires NoDup(AchievementIds(catalog))
    requires a in catalog && a.code == "first_catch"
    ensures a.id in Queue(catalog, unlocked, SightingsCount(rows), LocationsCount(rows), rows)
            <==> a.id !in unlocked && |rows| > 0
  {
    var sc, lc := SightingsCount(rows), LocationsCount(rows);
    QueuedIffChain(catalog, unlocked, sc, lc, rows, a);
    FirstCatchRule(sc, lc, rows);
    SomeCreatureSighted(rows);
  }

  /** No other code of the chain starts with the letter of first_catch, so
      only its own threshold decides it. */
  lemma FirstCatchRule(sc: nat, lc: nat, rows: seq<SightingFacts>)
    ensures Qualifies("first_catch", sc, lc, rows) <==> sc >= 1
  {
    var others := ["getting_feet_wet", "underwater_explorer", "marine_enthusiast", "ocean_archivist",
                   "sea_vault_master", "local_diver", "world_traveler", "deep_sea_voyager",
                   "shark_whisperer", "manta_mania", "dolphin_friend", "whale_watcher"];
    forall k | 0 <= k < |others| ensures others[k] != "first_catch" {
      assert others[k][0] != 'f';
    }
  }

  /** At least one distinct creature exactly when there is a sighting. */
  lemma SomeCreatureSighted(rows: seq<SightingFacts>)
    ensures SightingsCount(rows) >= 1 <==> |rows| > 0
  {
    if |rows| > 0 {
      assert rows[0].creatureId in (set r | r in rows :: r.creatureId);
    }
  }

  /** Evaluating again, with the queued ids added to the unlocked set,
      queues nothing: no achievement is unlocked twice. */
  lemma Idempotent(catalog: seq<Achievement>, unlocked: set<string>, sc: nat, lc: nat,
                   rows: seq<SightingFacts>)
    ensures var q := Queue(catalog, unlocked, sc, lc, rows);
            Queue(catalog, unlocked + (set id <- q), sc, lc, rows) == []
  {
    var q := Queue(catalog, unlocked, sc, lc, rows);
    var q' := Queue(catalog, unlocked + (set id <- q), sc, lc, rows);
    if q' != [] {
      assert q'[0] in q';
    }
  }

  /** More sightings never make a rule stop holding: every rule is a
      threshold on a count that can only grow, or the presence of a creature. */
  lemma Monotone(code: string, rows: seq<SightingFacts>, more: seq<SightingFacts>)
    requires forall r <- rows :: r in more
    ensures Qualifies(code, SightingsCount(rows), LocationsCount(rows), rows)
            ==> Qualifies(code, SightingsCount(more), LocationsCount(more), more)
  {
    var sc, lc := SightingsCount(rows), LocationsCount(rows);
    var sc', lc' := SightingsCount(more), LocationsCount(more);
    assert (set r | r in rows :: r.creatureId) <= (set r | r in more :: r.creatureId);
    assert (set r | r in rows :: r.location) <= (set r | r in more :: r.location);
    SubsetCard(set r | r in rows :: r.creatureId, set r | r in more :: r.creatureId);
    SubsetCard(set r | r in rows :: r.location, set r | r in more :: r.location);
    ChainMatchesRules(code, sc, lc, rows);
    ChainMatchesRules(code, sc', lc', more);
    if code in Rules {
      HoldsMonotone(Rules[code], sc, lc, rows, sc', lc', more);
    }
  }

  lemma HoldsMonotone(rule: Rule, sc: nat, lc: nat, rows: seq<SightingFacts>,
                      sc': nat, lc': nat, more: seq<SightingFacts>)
    requires sc <= sc' && lc <= lc'
    requires forall r <- rows :: r in more
    ensures Holds(rule, sc, lc, rows) ==> Holds(rule, sc', lc', more)
  {
    if rule.SpottedCreature? && Holds(rule, sc, lc, rows) {
      var r :| r in rows && r.creatureId == rule.creatureId;
      assert r in more;
    }
  }

  lemma SubsetCard(a: set<string>, b: set<string>)
    requires a <= b
    ensures |a| <= |b|
  {
    assert b == a + (b - a);
  }

  /** A repeat sighting (a creature and a location both seen before) changes
      neither count, so it queues nothing new. */
  lemma RepeatSighting(catalog: seq<Achievement>, unlocked: set<string>, rows: seq<SightingFacts>,
                       r: SightingFacts)
    requires exists s <- rows :: s.creatureId == r.creatureId
    requires exists s <- rows :: s.location == r.location
    ensures SightingsCount(rows + [r]) == SightingsCount(rows)
    ensures LocationsCount(rows + [r]) == LocationsCount(rows)
    ensures Queue(catalog, unlocked, SightingsCount(rows + [r]), LocationsCount(rows + [r]), rows + [r])
         == Queue(catalog, unlocked, SightingsCount(rows), LocationsCount(rows), rows)
  {
    var more := rows + [r];
    assert (set s | s in more :: s.creatureId) == (set s | s in rows :: s.creatureId);
    assert (set s | s in more :: s.location) == (set s | s in rows :: s.location);
    forall id ensures Spotted(more, id) == Spotted(rows, id) {
      if Spotted(more, id) {
        var s :| s in more && s.creatureId == id;
        if s == r {
          var t :| t in rows && t.creatureId == r.creatureId;
        }
      }
    }
    QueueRespectsFacts(catalog, unlocked, SightingsCount(rows), LocationsCount(rows), rows, more);
  }

  /** The queue depends on the sightings only through the counts and the
      set of sighted creatures. */
  lemma {:induction false} QueueRespectsFacts(catalog: seq<Achievement>, unlocked: set<string>, sc: nat, lc: nat,
                                              rows: seq<SightingFacts>, rows': seq<SightingFacts>)
    requires forall id :: Spotted(rows, id) == Spotted(rows', id)
    ensures Queue(catalog, unlocked, sc, lc, rows) == Queue(catalog, unlocked, sc, lc, rows')
  {
    if |catalog| > 0 {
      QueueRespectsFacts(catalog[1..], unlocked, sc, lc, rows, rows');
    }
  }

  /** Locations are compared exactly: "Maui" and "maui" are two places, so
      two sightings there already earn world_traveler. */
  lemma CaseSensitiveLocations(c: string)
    ensures LocationsCount([SightingFacts(c, "Maui"), SightingFacts(c, "maui")]) == 2
    ensures Qualifies("world_traveler", 1, LocationsCount([SightingFacts(c, "Maui"), SightingFacts(c, "maui")]),
                      [SightingFacts(c, "Maui"), SightingFacts(c, "maui")])
  {
    var rows := [SightingFacts(c, "Maui"), SightingFacts(c, "maui")];
    assert "Maui" != "maui" by { assert "Maui"[0] != "maui"[0]; }
    assert (set r | r in rows :: r.location) == {"Maui", "maui"};
  }
}
