/** The wishlist context: the signed-in user's wished-for creature ids and the
    last error, with add, remove, membership and refresh as transitions. Each
    backend call is an input: the reply to the read, or the error message of
    a failed insert or delete (`None` when it succeeded). */
module Wishlist {

  import opened Replies
  import opened Seqs

  datatype State = State(items: seq<string>, error: Option<string>)

  const Empty := State([], None)

  /** `isInWishlist` */
  predicate IsIn(st: State, id: string)
  {
    id in st.items
  }

  /** `refreshWishlist`. Signed out, the list is emptied and the error is left
      alone. */
  function Refresh(st: State, signedIn: bool, reply: Reply<seq<string>>): (r: State)
    ensures !signedIn ==> r == State([], st.error)
    ensures signedIn && reply.Failed? ==> r.items == st.items && r.error == Some(ErrorText(reply.message, "Failed to load wishlist"))
    ensures signedIn && reply.Ok? ==> r.items == reply.rows && r.error.None?
  {
    if !signedIn then State([], st.error)
    else if reply.Failed? then State(st.items, Some(ErrorText(reply.message, "Failed to load wishlist")))
    else State(reply.rows, None)
  }

  /** Whether `addToWishlist` sends an insert at all. */
  predicate InsertRequested(st: State, signedIn: bool, id: string)
  {
    signedIn && id !in st.items
  }

  /** `addToWishlist` */
  function Add(st: State, signedIn: bool, id: string, insertError: Option<string>): (r: State)
    ensures !signedIn ==> r == State(st.items, Some("You must be logged in to add to wishlist"))
    ensures signedIn && id in st.items ==> r == State(st.items, None)
    ensures InsertRequested(st, signedIn, id) && insertError.Some? ==>
      r.items == st.items && r.error == Some(ErrorText(insertError.value, "Failed to add to wishlist"))
    ensures InsertRequested(st, signedIn, id) && insertError.None? ==> r.items == st.items + [id] && r.error.None?
    ensures signedIn && insertError.None? ==> IsIn(r, id)
    ensures NoDup(st.items) ==> NoDup(r.items)
    ensures forall x <- st.items :: x in r.items
  {
    if !signedIn then State(st.items, Some("You must be logged in to add to wishlist"))
    else if id in st.items then State(st.items, None)
    else if insertError.Some? then State(st.items, Some(ErrorText(insertError.value, "Failed to add to wishlist")))
    else
      var r := st.items + [id];
      assert NoDup(st.items) ==> NoDup(r) by {
        if NoDup(st.items) {
          forall i, j | 0 <= i < j < |r| ensures r[i] != r[j] {
            if j == |st.items| {
              assert r[i] == st.items[i];
            }
          }
        }
      }
      State(r, None)
  }

  /** The `.filter` test of `removeFromWishlist`: every id but `id`. */
  function Except(id: string): string -> bool
  {
    x => x != id
  }

  /** Filtering out `id` drops all its copies and keeps every other id's. */
  lemma {:induction false} ExceptMultiset(s: seq<string>, id: string)
    ensures multiset(Filter(s, Except(id))) == multiset(s)[id := 0]
  {
    if |s| > 0 {
      var p := s[..|s| - 1];
      var x := s[|s| - 1];
      assert s == p + [x];
      ExceptMultiset(p, id);
      assert multiset(s) == multiset(p) + multiset{x};
    }
  }

  /** `removeFromWishlist` */
  function Remove(st: State, signedIn: bool, id: string, deleteError: Option<string>): (r: State)
    ensures !signedIn ==> r == State(st.items, Some("You must be logged in to remove from wishlist"))
    ensures signedIn && deleteError.Some? ==>
      r.items == st.items && r.error == Some(ErrorText(deleteError.value, "Failed to remove from wishlist"))
    ensures signedIn && deleteError.None? ==>
      && !IsIn(r, id)
      && r.error.None?
      && Subsequence(r.items, st.items)
      && (forall x <- st.items :: x != id ==> x in r.items)
      && multiset(r.items) == multiset(st.items)[id := 0]
    ensures NoDup(st.items) ==> NoDup(r.items)
  {
    if !signedIn then State(st.items, Some("You must be logged in to remove from wishlist"))
    else if deleteError.Some? then State(st.items, Some(ErrorText(deleteError.value, "Failed to remove from wishlist")))
    else
      var keep := Except(id);
      ExceptMultiset(st.items, id);
      FilterSubsequence(st.items, keep);
      assert NoDup(st.items) ==> NoDup(Filter(st.items, keep)) by {
        if NoDup(st.items) {
          FilterNoDup(st.items, keep);
        }
      }
      State(Filter(st.items, keep), None)
  }

  /** Adding a new id and then removing it gives back the same list. */
  lemma AddThenRemove(st: State, id: string)
    requires id !in st.items
    ensures Remove(Add(st, true, id, None), true, id, None).items == st.items
  {
    var keep := (x: string) => x != id;
    FilterAppend(st.items, [id], keep);
    FilterAll(st.items, keep);
  }

  /** Removing an id that is not in the list changes nothing but the error. */
  lemma RemoveAbsent(st: State, id: string)
    requires id !in st.items
    ensures Remove(st, true, id, None).items == st.items
  {
    FilterAll(st.items, (x: string) => x != id);
  }

  /** When no insert is sent, its outcome does not matter. */
  lemma UnsentInsertIrrelevant(st: State, signedIn: bool, id: string, e: Option<string>, e': Option<string>)
    requires !InsertRequested(st, signedIn, id)
    ensures Add(st, signedIn, id, e) == Add(st, signedIn, id, e')
  {
  }

  /** One user action together with the backend's answer to it. */
  datatype Op =
    | AddOp(id: string, insertError: Option<string>)
    | RemoveOp(id: string, deleteError: Option<string>)
    | RefreshOp(reply: Reply<seq<string>>)

  function Apply(st: State, signedIn: bool, op: Op): State
  {
    match op
    case AddOp(id, e) => Add(st, signedIn, id, e)
    case RemoveOp(id, e) => Remove(st, signedIn, id, e)
    case RefreshOp(reply) => Refresh(st, signedIn, reply)
  }

  function Run(st: State, signedIn: bool, ops: seq<Op>): State
    decreases |ops|
  {
    if |ops| == 0 then st else Run(Apply(st, signedIn, ops[0]), signedIn, ops[1..])
  }

  /** The list never holds an id twice, whatever the user does, as long as
      every list the backend returns is itself free of duplicates. */
  lemma {:induction false} RunKeepsNoDup(st: State, signedIn: bool, ops: seq<Op>)
    requires NoDup(st.items)
    requires forall op <- ops :: op.RefreshOp? && op.reply.Ok? ==> NoDup(op.reply.rows)
    ensures NoDup(Run(st, signedIn, ops).items)
    decreases |ops|
  {
    if |ops| > 0 {
      var next := Apply(st, signedIn, ops[0]);
      assert ops[0] in ops;
      assert NoDup(next.items) by {
        if !signedIn && ops[0].RefreshOp? {
          assert next.items == [];
        }
      }
      assert forall op <- ops[1..] :: op in ops;
      RunKeepsNoDup(next, signedIn, ops[1..]);
    }
  }
}
