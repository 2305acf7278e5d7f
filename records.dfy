/**
 The records of the three collections (users, categories, notepads), the
 result a route handler hands to the HTTP layer, and the id lists that a
 user record keeps.
 */
module Records {

  /** A document id. The document store's ObjectIds are modelled as naturals
      drawn from a counter, so two generated ids never collide. */
  type Id = nat

  datatype Option<T> = None | Some(value: T)

  /** A user: its own id, a display name, and the two denormalised id lists. */
  datatype User = User(id: Id, name: string, categories: seq<Id>, notepads: seq<Id>)

  /** A category: a name, its owner and the denormalised notepad counter
      (never clamped, hence an int). */
  datatype Category = Category(id: Id, name: string, user: Id, notepadsCount: int)

  /** A notepad: the leaf entity, pointing at its category and its owner. */
  datatype Notepad = Notepad(id: Id, title: string, text: string, category: Id, user: Id)

  /** Why a flow failed. StoreError(k) is the rejection of the flow's k-th
      store call. */
  datatype Error = InvalidUserId | UserNotFound | ValidationError | StoreError(step: nat)

  /** What a handler returns: the affected record, the "soft 404" (an empty
      body with NO_CONTENT), a rejected request, or a generic failure. */
  datatype Result<T> = Ok(value: T) | NotFound | BadRequest | Failure(error: Error)

  /** Fault injection: the flow's step-th store call runs (and succeeds) unless
      failAt names it. failAt == 0 injects no fault. */
  predicate Reaches(failAt: nat, step: nat) {
    failAt == 0 || failAt > step
  }

  predicate NoDup(ids: seq<Id>) {
    forall i, j :: 0 <= i < j < |ids| ==> ids[i] != ids[j]
  }

  /** The effect of the document store's `$pull` (with or without `$in`) on an
      id list: every occurrence of every id in xs goes, the rest keeps its
      order. */
  function Pulled(ids: seq<Id>, xs: set<Id>): (r: seq<Id>)
    ensures forall y :: y in r <==> y in ids && y !in xs
    ensures |r| <= |ids|
    ensures NoDup(ids) ==> NoDup(r)
  {
    if ids == [] then []
    else if ids[0] in xs then Pulled(ids[1..], xs)
    else
      [ids[0]] + Pulled(ids[1..], xs)
  }

  /** Pulling ids that are absent is a no-op. */
  lemma {:induction false} PulledAbsent(ids: seq<Id>, xs: set<Id>)
    requires forall x :: x in xs ==> x !in ids
    ensures Pulled(ids, xs) == ids
  {
    if ids != [] {
      assert ids[0] !in xs;
      PulledAbsent(ids[1..], xs);
      assert [ids[0]] + ids[1..] == ids;
    }
  }

  /** An id that is not in the list does not change what a pull leaves. */
  lemma {:induction false} PulledIgnores(ids: seq<Id>, xs: set<Id>, h: Id)
    requires h !in ids
    ensures Pulled(ids, xs - {h}) == Pulled(ids, xs)
  {
    if ids != [] {
      PulledIgnores(ids[1..], xs, h);
    }
  }

  /** On a list without duplicates, pulling ids that are all present shortens
      the list by exactly their number. */
  lemma {:induction false} PulledLength(ids: seq<Id>, xs: set<Id>)
    requires NoDup(ids)
    requires forall x :: x in xs ==> x in ids
    ensures |Pulled(ids, xs)| == |ids| - |xs|
  {
    if ids == [] {
      assert xs == {};
    } else {
      var h, t := ids[0], ids[1..];
      assert NoDup(t);
      if h in xs {
        PulledLength(t, xs - {h});
        PulledIgnores(t, xs, h);
        assert |xs - {h}| == |xs| - 1;
      } else {
        PulledLength(t, xs);
      }
    }
  }

  /** Appending an id that is absent keeps a list free of duplicates. */
  lemma AppendedNoDup(ids: seq<Id>, x: Id)
    requires NoDup(ids) && x !in ids
    ensures NoDup(ids + [x])
  {
  }
}
