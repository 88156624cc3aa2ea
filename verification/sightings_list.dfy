/** The sightings list: the user's sightings joined with their creatures, and
    the card colour chosen by category. */
module SightingsList {

  import opened Replies
  import opened Seqs
  import opened Records
  import CreatureStats

  /** A sighting with its creature, absent when the catalog has no row for
      the sighted id (`creaturesMap.get` returns undefined). */
  datatype Entry = Entry(sighting: Sighting, creature: Option<Creature>)

  const LoadFallback := "Failed to load sightings"

  /** `[...new Set(sightings.map(s => s.creature_id))]`: the ids the creature
      lookup asks for. */
  function RequestedIds(rows: seq<Sighting>): (ids: seq<string>)
    ensures NoDup(ids)
    ensures forall s <- rows :: s.creatureId in ids
    ensures forall id <- ids :: exists s <- rows :: s.creatureId == id
  {
    var all := seq(|rows|, i requires 0 <= i < |rows| => rows[i].creatureId);
    var ids := Dedup(all);
    assert forall s <- rows :: s.creatureId in all by {
      forall s <- rows ensures s.creatureId in all {
        var i :| 0 <= i < |rows| && rows[i] == s;
        assert all[i] == s.creatureId;
      }
    }
    assert forall id <- ids :: exists s <- rows :: s.creatureId == id by {
      forall id <- ids ensures exists s <- rows :: s.creatureId == id {
        var i :| 0 <= i < |all| && all[i] == id;
        assert rows[i] in rows;
      }
    }
    ids
  }

  /** `creaturesMap`: filled in reply order with `Map.set`, so for a repeated
      id the last row wins. */
  function Index(cs: seq<Creature>): (m: map<string, Creature>)
    ensures m.Keys == set c <- cs :: c.id
    ensures forall id <- m.Keys :: m[id] in cs && m[id].id == id
  {
    if |cs| == 0 then map[]
    else
      var p := cs[..|cs| - 1];
      var last := cs[|cs| - 1];
      assert cs == p + [last];
      Index(p)[last.id := last]
  }

  /** For an id the reply holds more than once, the map keeps its last row. */
  lemma {:induction false} IndexLastWins(cs: seq<Creature>, i: nat)
    requires i < |cs|
    requires forall j :: i < j < |cs| ==> cs[j].id != cs[i].id
    ensures Index(cs)[cs[i].id] == cs[i]
  {
    if i < |cs| - 1 {
      var p := cs[..|cs| - 1];
      assert p[i] == cs[i];
      IndexLastWins(p, i);
    }
  }

  /** The creature shown with a sighting of creature `id`. */
  function CreatureFor(index: map<string, Creature>, id: string): Option<Creature>
  {
    if id in index then Some(index[id]) else None
  }

  /** `fetchSightings`: the user's sightings, newest first as the backend
      orders them, then the creature catalog serving the `.in` lookup, which
      is not made when there are no sightings. */
  function FetchSightings(sightings: Reply<seq<Sighting>>, creatures: Reply<seq<Creature>>): (r: Reply<seq<Entry>>)
    ensures sightings.Failed? ==> r == Failed(ErrorText(sightings.message, LoadFallback))
    ensures sightings.Ok? && |sightings.rows| == 0 ==> r == Ok([])
    ensures sightings.Ok? && |sightings.rows| > 0 && creatures.Failed? ==>
      r == Failed(ErrorText(creatures.message, LoadFallback))
    ensures r.Ok? <==> sightings.Ok? && (|sightings.rows| > 0 ==> creatures.Ok?)
    ensures r.Ok? ==> sightings.Ok? && |r.rows| == |sightings.rows|
    ensures r.Ok? ==> forall i :: 0 <= i < |r.rows| ==>
      && r.rows[i].sighting == sightings.rows[i]
      && (r.rows[i].creature.Some? <==> exists c <- creatures.rows :: c.id == sightings.rows[i].creatureId)
      && (r.rows[i].creature.Some? ==>
            r.rows[i].creature.value in creatures.rows && r.rows[i].creature.value.id == sightings.rows[i].creatureId)
  {
    if sightings.Failed? then Failed(ErrorText(sightings.message, LoadFallback))
    else if |sightings.rows| == 0 then Ok([])
    else if creatures.Failed? then Failed(ErrorText(creatures.message, LoadFallback))
    else
      var rows := sightings.rows;
      var ids := RequestedIds(rows);
      var found := CreatureStats.Found(creatures.rows, ids);
      var index := Index(found);
      assert forall s <- rows :: s.creatureId in index <==> exists c <- creatures.rows :: c.id == s.creatureId;
      Ok(seq(|rows|, i requires 0 <= i < |rows| => Entry(rows[i], CreatureFor(index, rows[i].creatureId))))
  }

  /** With distinct catalog ids, each sighting is shown with exactly the
      catalog row of its creature. */
  lemma UniqueCatalogJoin(sightings: seq<Sighting>, table: seq<Creature>, i: nat, k: nat)
    requires NoDup(CreatureStats.TableIds(table))
    requires i < |sightings| && k < |table| && table[k].id == sightings[i].creatureId
    ensures FetchSightings(Ok(sightings), Ok(table)).rows[i].creature == Some(table[k])
  {
    var r := FetchSightings(Ok(sightings), Ok(table));
    assert table[k] in table;
    var c := r.rows[i].creature.value;
    assert c in table && c.id == table[k].id;
    var k' :| 0 <= k' < |table| && table[k'] == c;
    var ids := CreatureStats.TableIds(table);
    assert ids[k] == table[k].id && ids[k'] == table[k'].id;
    assert k == k';
  }

  // ---------------------------------------------------------------- colours

  /** The categories with their own card colour. */
  const CategoryColors: map<string, string> := map[
    "b7c83fd5-3729-4620-92e5-a3a6452300f5" := "#0077B6",  // sharks
    "48169dbe-0f42-4059-a6fb-842184ae60e2" := "#0096C7",  // turtles
    "50d44a97-ec72-4c4f-9f66-e41c1621ded5" := "#00B4D8",  // reef fish
    "8d2f3964-9332-4032-9bc1-815e3f72836b" := "#48CAE4",  // cephalopods
    "4fe5e0c2-d60d-49d2-9854-ed7bde02ec63" := "#90E0EF",  // rays
    "bdc2d112-78b2-47d6-9181-8e5ba48d7d7c" := "#ADE8F4"   // mammals
  ]

  const DefaultColor := "#0077B6"

  /** `getBackgroundColor` */
  function BackgroundColor(categoryId: string): (c: string)
    ensures categoryId in CategoryColors ==> c == CategoryColors[categoryId]
    ensures categoryId !in CategoryColors ==> c == DefaultColor
  {
    match categoryId
    case "b7c83fd5-3729-4620-92e5-a3a6452300f5" => "#0077B6"
    case "48169dbe-0f42-4059-a6fb-842184ae60e2" => "#0096C7"
    case "50d44a97-ec72-4c4f-9f66-e41c1621ded5" => "#00B4D8"
    case "8d2f3964-9332-4032-9bc1-815e3f72836b" => "#48CAE4"
    case "4fe5e0c2-d60d-49d2-9854-ed7bde02ec63" => "#90E0EF"
    case "bdc2d112-78b2-47d6-9181-8e5ba48d7d7c" => "#ADE8F4"
    case _ => DefaultColor
  }
}
