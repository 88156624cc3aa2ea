/** The creature lookup both profile-sharing screens perform: the catalog
    rows whose id is among the sighted ids (`.in('id', ids)`), and the sum of
    their points. The query is modelled as a filter of the creature table,
    which fixes the row order to the table's. */
module CreatureStats {

  import opened Seqs
  import opened Records

  /** `supabase.from('creatures').select(...).in('id', ids)` */
  function Found(table: seq<Creature>, ids: seq<string>): (r: seq<Creature>)
    ensures forall c <- r :: c in table && c.id in ids
    ensures forall c <- table :: c.id in ids ==> c in r
  {
    Filter(table, (c: Creature) => c.id in ids)
  }

  /** `data.reduce((sum, creature) => sum + creature.points, 0)` */
  function TotalPoints(cs: seq<Creature>): int
  {
    if |cs| == 0 then 0 else TotalPoints(cs[..|cs| - 1]) + cs[|cs| - 1].points
  }

  function TableIds(table: seq<Creature>): seq<string>
  {
    seq(|table|, i requires 0 <= i < |table| => table[i].id)
  }

  /** The lookup only asks whether an id was sighted, so lists of sighted ids
      with the same members find the same rows. */
  lemma {:induction false} FoundBySet(table: seq<Creature>, ids: seq<string>, ids': seq<string>)
    requires forall x :: x in ids <==> x in ids'
    ensures Found(table, ids) == Found(table, ids')
  {
    if |table| > 0 {
      FoundBySet(table[..|table| - 1], ids, ids');
    }
  }

  /** Sighting an already-sighted creature again changes neither the rows
      found nor the points. */
  lemma RepeatIdAddsNothing(table: seq<Creature>, ids: seq<string>, x: string)
    requires x in ids
    ensures Found(table, ids + [x]) == Found(table, ids)
  {
    FoundBySet(table, ids + [x], ids);
  }

  /** A sighted id with no catalog row adds no row and no points (it still
      counts as a discovery). */
  lemma {:induction false} MissingIdAddsNothing(table: seq<Creature>, ids: seq<string>, x: string)
    requires x !in TableIds(table)
    ensures Found(table, ids + [x]) == Found(table, ids)
  {
    if |table| > 0 {
      var p := table[..|table| - 1];
      assert TableIds(table) == TableIds(p) + [table[|table| - 1].id];
      MissingIdAddsNothing(p, ids, x);
    }
  }

  /** With distinct catalog ids, a newly sighted creature that is in the
      catalog adds exactly its own points. */
  lemma {:induction false} NewIdAddsItsPoints(table: seq<Creature>, ids: seq<string>, k: int)
    requires NoDup(TableIds(table))
    requires 0 <= k < |table| && table[k].id !in ids
    ensures TotalPoints(Found(table, ids + [table[k].id])) == TotalPoints(Found(table, ids)) + table[k].points
  {
    var x := table[k].id;
    var more := ids + [x];
    var p := table[..|table| - 1];
    var last := table[|table| - 1];
    var after, before := Found(p, more), Found(p, ids);
    LastIdFresh(table);
    FoundStep(table, ids);
    FoundStep(table, more);
    if k == |table| - 1 {
      MissingIdAddsNothing(p, ids, x);
      assert Found(table, more) == after + [last];
      assert Found(table, ids) == before == after;
      TotalPointsStep(after, last);
    } else {
      NewIdAddsItsPoints(p, ids, k);
      assert TableIds(p)[k] == x;
      assert last.id in more <==> last.id in ids;
      if last.id in ids {
        assert Found(table, more) == after + [last];
        assert Found(table, ids) == before + [last];
        TotalPointsStep(after, last);
        TotalPointsStep(before, last);
      } else {
        assert Found(table, more) == after;
        assert Found(table, ids) == before;
      }
    }
  }

  /** Dropping the last row keeps the ids distinct, and the last id is not
      among the others. */
  lemma LastIdFresh(table: seq<Creature>)
    requires |table| > 0 && NoDup(TableIds(table))
    ensures NoDup(TableIds(table[..|table| - 1]))
    ensures table[|table| - 1].id !in TableIds(table[..|table| - 1])
  {
    var p := table[..|table| - 1];
    forall i, j | 0 <= i < j < |p| ensures TableIds(p)[i] != TableIds(p)[j] {
      assert TableIds(p)[i] == TableIds(table)[i] && TableIds(p)[j] == TableIds(table)[j];
    }
    forall i | 0 <= i < |p| ensures TableIds(p)[i] != table[|table| - 1].id {
      assert TableIds(table)[i] == TableIds(p)[i];
      assert TableIds(table)[|table| - 1] == table[|table| - 1].id;
    }
  }

  lemma FoundStep(table: seq<Creature>, ids: seq<string>)
    requires |table| > 0
    ensures Found(table, ids) == Found(table[..|table| - 1], ids)
                                 + (if table[|table| - 1].id in ids then [table[|table| - 1]] else [])
  {
  }

  lemma TotalPointsStep(cs: seq<Creature>, c: Creature)
    ensures TotalPoints(cs + [c]) == TotalPoints(cs) + c.points
  {
    assert (cs + [c])[..|cs|] == cs;
  }
}
