/**
 The notepad route handlers, as their behaviour is fixed by
 test/server/routes/notepads_test.js (the router itself, src/routes/notepads.js,
 is not part of this model): the owner-scoped read by id, create, update
 (with a move between categories), delete, and the read that groups a
 user's notepads by category.

 As in module Categories, failAt names the store call that rejects (0:
 none), `uid` is the authenticated request user, and an optional request
 parameter is None when it is missing.
 */
module Notepads {
  import opened Records
  import opened Ledgers
  import Consistency
  import opened Models

  // ---- Reads ----

  /** getNotepadByIdHandler: the notepad if the user owns it, else the soft
      404; a missing id finds nothing. Calls: 1 Notepad.getByIdForUser. */
  method GetNotepadByIdHandler(s: Store, uid: Id, id: Option<Id>, failAt: nat) returns (r: Result<Notepad>)
    ensures failAt == 1 ==> r == Failure(StoreError(1))
    ensures failAt != 1 ==> (r.Ok? <==> id.Some? && id.value in s.notepads && s.notepads[id.value].user == uid)
    ensures failAt != 1 && r.Ok? ==> r.value == s.notepads[id.value]
    ensures failAt != 1 && !r.Ok? ==> r == NotFound
  {
    if failAt == 1 {
      return Failure(StoreError(1));
    }
    if id.None? {
      return NotFound;
    }
    var notepad := s.NotepadGetByIdForUser(id.value, uid);
    if notepad.None? {
      return NotFound;
    }
    r := Ok(notepad.value);
  }

  /** One entry of the grouping read: a category and its notepads. */
  datatype CategoryNotepads = CategoryNotepads(category: Category, notepads: seq<Notepad>)

  /** The notepads with the given ids, in ascending id order (lemma
      NotepadsWithExact). */
  function NotepadsWith(notes: map<Id, Notepad>, ids: set<Id>): seq<Notepad>
    requires ids <= notes.Keys
  {
    var ks := SortedKeys(ids);
    seq(|ks|, k requires 0 <= k < |ks| => notes[ks[k]])
  }

  /** NotepadsWith lists each notepad of ids exactly once, as stored, in
      ascending id order. */
  lemma NotepadsWithExact(notes: map<Id, Notepad>, ids: set<Id>)
    requires forall n :: n in notes ==> notes[n].id == n
    requires ids <= notes.Keys
    ensures var r := NotepadsWith(notes, ids);
            |r| == |ids|
    ensures var r := NotepadsWith(notes, ids);
            forall k :: 0 <= k < |r| ==> r[k].id in ids && notes[r[k].id] == r[k]
    ensures var r := NotepadsWith(notes, ids);
            forall n :: n in ids ==> exists k :: 0 <= k < |r| && r[k].id == n
    ensures var r := NotepadsWith(notes, ids);
            forall k, l :: 0 <= k < l < |r| ==> r[k].id < r[l].id
  {
    var ks := SortedKeys(ids);
    var r := NotepadsWith(notes, ids);
    assert forall k :: 0 <= k < |ks| ==> r[k].id == ks[k];
  }

  /** The entry of category c: the category with the user's notepads in it. */
  function Entry(cats: map<Id, Category>, notes: map<Id, Notepad>, uid: Id, c: Id): (e: CategoryNotepads)
    requires forall c :: c in cats ==> cats[c].id == c
    requires forall n :: n in notes ==> notes[n].id == n
    requires c in cats
    ensures e.category == cats[c] && e.category.id == c
    ensures e.notepads == NotepadsWith(notes, Matching(notes, uid, c))
  {
    CategoryNotepads(cats[c], NotepadsWith(notes, Matching(notes, uid, c)))
  }

  /** The entries of the categories ks, in the order of ks. */
  function Entries(cats: map<Id, Category>, notes: map<Id, Notepad>, uid: Id, ks: seq<Id>): (r: seq<CategoryNotepads>)
    requires forall c :: c in cats ==> cats[c].id == c
    requires forall n :: n in notes ==> notes[n].id == n
    requires forall i :: 0 <= i < |ks| ==> ks[i] in cats
    ensures |r| == |ks|
    ensures forall i :: 0 <= i < |r| ==> r[i] == Entry(cats, notes, uid, ks[i])
  {
    seq(|ks|, i requires 0 <= i < |ks| => Entry(cats, notes, uid, ks[i]))
  }

  /** getNotepadsHandler with categories: one entry per category the user
      owns (whether or not it is in the user's list), each with the user's
      notepads in it. The document store promises no order; ascending id is
      the one modelled. Lemma Grouped states what the result holds. */
  function GetNotepadsHandler(cats: map<Id, Category>, notes: map<Id, Notepad>, uid: Id): (r: seq<CategoryNotepads>)
    requires forall c :: c in cats ==> cats[c].id == c
    requires forall n :: n in notes ==> notes[n].id == n
    ensures |r| == |Owned(cats, uid)|
    ensures forall i :: 0 <= i < |r| ==> r[i].category.user == uid && r[i].category.id in Owned(cats, uid)
  {
    var ks := SortedKeys(Owned(cats, uid));
    assert forall i :: 0 <= i < |ks| ==> ks[i] in Owned(cats, uid);
    Entries(cats, notes, uid, ks)
  }

  /** The grouping read is the entries of the owned categories, taken in
      ascending id order. */
  lemma GroupedEntries(cats: map<Id, Category>, notes: map<Id, Notepad>, uid: Id)
    requires forall c :: c in cats ==> cats[c].id == c
    requires forall n :: n in notes ==> notes[n].id == n
    ensures var r, ks := GetNotepadsHandler(cats, notes, uid), SortedKeys(Owned(cats, uid));
            && |r| == |ks|
            && forall i :: 0 <= i < |r| ==> ks[i] in cats && cats[ks[i]].user == uid && r[i] == Entry(cats, notes, uid, ks[i])
  {
    var ks := SortedKeys(Owned(cats, uid));
    assert forall i :: 0 <= i < |ks| ==> ks[i] in Owned(cats, uid);
  }

  /** Each entry of the grouping read is a category the user owns, as
      stored, listed once and in ascending id order, with exactly the user's
      notepads in it (see NotepadsWithExact). */
  lemma Grouped(cats: map<Id, Category>, notes: map<Id, Notepad>, uid: Id)
    requires forall c :: c in cats ==> cats[c].id == c
    requires forall n :: n in notes ==> notes[n].id == n
    ensures var r := GetNotepadsHandler(cats, notes, uid);
            forall i :: 0 <= i < |r| ==>
              r[i].category.id in cats && cats[r[i].category.id] == r[i].category && r[i].category.user == uid
    ensures var r := GetNotepadsHandler(cats, notes, uid);
            forall i, j :: 0 <= i < j < |r| ==> r[i].category.id < r[j].category.id
    ensures var r := GetNotepadsHandler(cats, notes, uid);
            forall i :: 0 <= i < |r| ==> r[i].notepads == NotepadsWith(notes, Matching(notes, uid, r[i].category.id))
  {
    GroupedEntries(cats, notes, uid);
  }

  /** Every category the user owns has an entry. */
  lemma GroupedComplete(cats: map<Id, Category>, notes: map<Id, Notepad>, uid: Id)
    requires forall c :: c in cats ==> cats[c].id == c
    requires forall n :: n in notes ==> notes[n].id == n
    ensures var r := GetNotepadsHandler(cats, notes, uid);
            forall c :: c in cats && cats[c].user == uid ==> exists i :: 0 <= i < |r| && r[i].category.id == c
  {
    var ks := SortedKeys(Owned(cats, uid));
    var r := GetNotepadsHandler(cats, notes, uid);
    GroupedEntries(cats, notes, uid);
    forall c | c in cats && cats[c].user == uid
      ensures exists i :: 0 <= i < |r| && r[i].category.id == c
    {
      assert c in Owned(cats, uid);
      var i :| 0 <= i < |ks| && ks[i] == c;
      assert r[i].category.id == c;
    }
  }

  /** With the counters in step, each entry lists as many notepads as its
      category's counter says. */
  lemma GroupedCounts(cats: map<Id, Category>, notes: map<Id, Notepad>, uid: Id, i: nat)
    requires forall c :: c in cats ==> cats[c].id == c
    requires forall n :: n in notes ==> notes[n].id == n
    requires Consistency.CountsMatch(cats, notes)
    requires i < |GetNotepadsHandler(cats, notes, uid)|
    ensures var e := GetNotepadsHandler(cats, notes, uid)[i];
            |e.notepads| == e.category.notepadsCount
  {
    Grouped(cats, notes, uid);
    var e := GetNotepadsHandler(cats, notes, uid)[i];
    NotepadsWithExact(notes, Matching(notes, uid, e.category.id));
  }

  /** A user who owns no category gets the empty list; a category without
      notepads is listed with none. */
  lemma GroupedEmpty(cats: map<Id, Category>, notes: map<Id, Notepad>, uid: Id)
    requires forall c :: c in cats ==> cats[c].id == c
    requires forall n :: n in notes ==> notes[n].id == n
    ensures Owned(cats, uid) == {} ==> GetNotepadsHandler(cats, notes, uid) == []
    ensures forall i :: 0 <= i < |GetNotepadsHandler(cats, notes, uid)| &&
                        Matching(notes, uid, GetNotepadsHandler(cats, notes, uid)[i].category.id) == {} ==>
                          GetNotepadsHandler(cats, notes, uid)[i].notepads == []
  {
  }

  // ---- Writes ----

  /** postNotepadsHandler. Calls: 1 Category.getByIdForUser of the requested
      category, 2 Notepad.createAsync, 3 Category.increaseNotepadsCountById,
      4 User.addNotepad. A category the user does not own (or none given)
      is the soft 404; a missing title or text makes call 2 fail validation. */
  method PostNotepadsHandler(s: Store, uid: Id, title: Option<string>, text: Option<string>,
                             category: Option<Id>, failAt: nat) returns (r: Result<Notepad>)
    requires s.WellFormed() && uid in s.users
    modifies s
    ensures s.WellFormed()
    ensures failAt == 1 ==> r == Failure(StoreError(1)) && unchanged(s)
    ensures failAt != 1 && (category.None? || old(s.CategoryGetByIdForUser(category.value, uid)).None?) ==>
              r == NotFound && unchanged(s)
    ensures failAt != 1 && category.Some? && old(s.CategoryGetByIdForUser(category.value, uid)).Some? ==>
              if failAt == 2 then r == Failure(StoreError(2)) && unchanged(s)
              else if title.None? || text.None? then r == Failure(ValidationError) && unchanged(s)
              else
                var np := Notepad(old(s.nextId), title.value, text.value, category.value, uid);
                && np.id !in old(s.notepads)
                && s.notepads == old(s.notepads)[np.id := np]
                && s.nextId == old(s.nextId) + 1
                && s.categories == (if Reaches(failAt, 3) then Bumped(old(s.categories), category.value, 1) else old(s.categories))
                && s.users == (if Reaches(failAt, 4) then AddNotepadTo(old(s.users), uid, np.id) else old(s.users))
                && r == (if Reaches(failAt, 4) then Ok(np) else Failure(StoreError(failAt)))
    ensures r.Ok? ==> && category.Some? && title.Some? && text.Some?
                      && r.value.user == uid && r.value.category == category.value
                      && r.value.title == title.value && r.value.text == text.value
                      && s.categories[category.value].notepadsCount == old(s.categories[category.value].notepadsCount) + 1
                      && s.users[uid].notepads == old(s.users[uid].notepads) + [r.value.id]
    ensures r.Ok? && old(s.Valid()) ==> s.Valid()
    ensures r.Ok? && old(s.Listed()) ==> s.Listed()
  {
    ghost var users0, cats0, notes0, next0 := s.users, s.categories, s.notepads, s.nextId;
    if failAt == 1 {
      return Failure(StoreError(1));
    }
    if category.None? {
      return NotFound;
    }
    var cat := s.CategoryGetByIdForUser(category.value, uid);
    if cat.None? {
      return NotFound;
    }
    if failAt == 2 {
      return Failure(StoreError(2));
    }
    var notepad := s.NotepadCreate(title, text, category.value, uid);
    if notepad.None? {
      return Failure(ValidationError);
    }
    if failAt == 3 {
      return Failure(StoreError(3));
    }
    var _ := s.CategoryIncreaseNotepadsCount(notepad.value.category);
    if failAt == 4 {
      return Failure(StoreError(4));
    }
    var _ := s.UserAddNotepad(uid, notepad.value.id);
    r := Ok(notepad.value);
    if Consistency.Consistent(users0, cats0, notes0) {
      Consistency.NotepadCreatedKeeps(users0, cats0, notes0, next0, notepad.value);
    }
    if Consistency.AllListed(users0, cats0, notes0) {
      Consistency.NotepadCreatedListed(users0, cats0, notes0, next0, notepad.value);
    }
  }

  /** putNotepadsIdHandler. A missing id, title, text or category is a bad
      request, before any call. Calls: 1 Category.getByIdForUser of the
      requested category, 2 Notepad.getByIdForUser, 3 Notepad.update, and
      only when the category changes, 4 the decrease of the old category's
      counter and 5 the increase of the new one's. Either lookup coming back
      empty is the soft 404. */
  method PutNotepadsIdHandler(s: Store, uid: Id, id: Option<Id>, title: Option<string>, text: Option<string>,
                              category: Option<Id>, failAt: nat) returns (r: Result<Notepad>)
    requires s.WellFormed()
    modifies s
    ensures s.WellFormed()
    ensures s.users == old(s.users) && s.nextId == old(s.nextId)
    ensures id.None? || title.None? || text.None? || category.None? ==> r == BadRequest && unchanged(s)
    ensures id.Some? && title.Some? && text.Some? && category.Some? ==>
              if failAt == 1 then r == Failure(StoreError(1)) && unchanged(s)
              else if old(s.CategoryGetByIdForUser(category.value, uid)).None? then r == NotFound && unchanged(s)
              else if failAt == 2 then r == Failure(StoreError(2)) && unchanged(s)
              else if old(s.NotepadGetByIdForUser(id.value, uid)).None? then r == NotFound && unchanged(s)
              else
                var from, to := old(s.notepads[id.value]).category, category.value;
                var np := old(s.notepads[id.value]).(title := title.value, text := text.value, category := to);
                var last := if from == to then 3 else 5;
                && s.notepads == (if Reaches(failAt, 3) then old(s.notepads)[id.value := np] else old(s.notepads))
                && s.categories == (if from == to || !Reaches(failAt, 4) then old(s.categories)
                                    else if !Reaches(failAt, 5) then Bumped(old(s.categories), from, -1)
                                    else Bumped(Bumped(old(s.categories), from, -1), to, 1))
                && r == (if Reaches(failAt, last) then Ok(np) else Failure(StoreError(failAt)))
    ensures r.Ok? ==> && id.Some? && category.Some? && title.Some? && text.Some?
                      && id.value in old(s.notepads) && old(s.notepads[id.value]).user == uid
                      && r.value.id == id.value && r.value.user == uid && r.value.category == category.value
                      && r.value.title == title.value && r.value.text == text.value
                      && s.notepads[id.value] == r.value
    ensures r.Ok? && old(s.notepads[id.value]).category != category.value ==>
              var from, to := old(s.notepads[id.value]).category, category.value;
              && (from in old(s.categories) ==>
                    s.categories[from].notepadsCount == old(s.categories[from].notepadsCount) - 1)
              && s.categories[to].notepadsCount == old(s.categories[to].notepadsCount) + 1
    ensures r.Ok? && old(s.Valid()) ==> s.Valid()
    ensures r.Ok? && old(s.Listed()) ==> s.Listed()
  {
    ghost var users0, cats0, notes0 := s.users, s.categories, s.notepads;
    if id.None? || title.None? || text.None? || category.None? {
      return BadRequest;
    }
    if failAt == 1 {
      return Failure(StoreError(1));
    }
    var cat := s.CategoryGetByIdForUser(category.value, uid);
    if cat.None? {
      return NotFound;
    }
    if failAt == 2 {
      return Failure(StoreError(2));
    }
    var found := s.NotepadGetByIdForUser(id.value, uid);
    if found.None? {
      return NotFound;
    }
    var notepad := found.value;
    if failAt == 3 {
      return Failure(StoreError(3));
    }
    var updated := s.NotepadUpdate(id.value, title.value, text.value, category.value);
    if notepad.category != category.value {
      if failAt == 4 {
        return Failure(StoreError(4));
      }
      var _ := s.CategoryDecreaseNotepadsCount(notepad.category);
      if failAt == 5 {
        return Failure(StoreError(5));
      }
      var _ := s.CategoryIncreaseNotepadsCount(category.value);
      MovedCounters(cats0, notepad.category, category.value);
    }
    r := Ok(updated.value);
    assert s.categories == Consistency.MovedCounts(cats0, notepad.category, category.value);
    assert s.notepads == Edited(notes0, id.value, title.value, text.value, category.value);
    assert s.users == users0;
    if Consistency.Consistent(users0, cats0, notes0) {
      Consistency.NotepadEditedKeeps(users0, cats0, notes0, id.value, title.value, text.value, category.value);
      assert s.Valid();
    }
    if Consistency.AllListed(users0, cats0, notes0) {
      Consistency.NotepadEditedListed(users0, cats0, notes0, id.value, title.value, text.value, category.value);
      assert s.Listed();
    }
  }

  /** deleteNotepadsIdHandler. Calls: 1 Notepad.getByIdForUser, 2 the
      removal of the notepad, 3 the decrease of its category's counter,
      4 User.removeNotepads of its id. A notepad the user does not own (or
      no id given) is the soft 404. Answers with the notepad as it was
      read before the removal. */
  method DeleteNotepadsIdHandler(s: Store, uid: Id, id: Option<Id>, failAt: nat) returns (r: Result<Notepad>)
    requires s.WellFormed()
    modifies s
    ensures s.WellFormed() && s.nextId == old(s.nextId)
    ensures failAt == 1 ==> r == Failure(StoreError(1)) && unchanged(s)
    ensures failAt != 1 && (id.None? || old(s.NotepadGetByIdForUser(id.value, uid)).None?) ==>
              r == NotFound && unchanged(s)
    ensures failAt != 1 && id.Some? && old(s.NotepadGetByIdForUser(id.value, uid)).Some? ==>
              var np := old(s.notepads[id.value]);
              && s.notepads == (if Reaches(failAt, 2) then old(s.notepads) - {id.value} else old(s.notepads))
              && s.categories == (if Reaches(failAt, 3) then Bumped(old(s.categories), np.category, -1) else old(s.categories))
              && s.users == (if Reaches(failAt, 4) then PullNotepads(old(s.users), uid, {id.value}) else old(s.users))
              && r == (if Reaches(failAt, 4) then Ok(np) else Failure(StoreError(failAt)))
    ensures r.Ok? ==> && id.Some? && id.value in old(s.notepads)
                      && r.value == old(s.notepads[id.value]) && r.value.user == uid
                      && id.value !in s.notepads
                      && (r.value.category in old(s.categories) ==>
                            s.categories[r.value.category].notepadsCount
                              == old(s.categories[r.value.category].notepadsCount) - 1)
    ensures r.Ok? && old(s.Valid()) ==> s.Valid()
    ensures r.Ok? && old(s.Listed()) ==> s.Listed()
    ensures r.Ok? && old(s.Valid()) && uid in old(s.users) && id.value in old(s.users[uid].notepads) ==>
              |s.users[uid].notepads| == |old(s.users[uid].notepads)| - 1
  {
    ghost var users0, cats0, notes0 := s.users, s.categories, s.notepads;
    if failAt == 1 {
      return Failure(StoreError(1));
    }
    if id.None? {
      return NotFound;
    }
    var found := s.NotepadGetByIdForUser(id.value, uid);
    if found.None? {
      return NotFound;
    }
    var notepad := found.value;
    if failAt == 2 {
      return Failure(StoreError(2));
    }
    s.NotepadRemove({notepad.id});
    if failAt == 3 {
      return Failure(StoreError(3));
    }
    var _ := s.CategoryDecreaseNotepadsCount(notepad.category);
    if failAt == 4 {
      return Failure(StoreError(4));
    }
    var _ := s.UserRemoveNotepads(uid, {notepad.id});
    r := Ok(notepad);
    if Consistency.Consistent(users0, cats0, notes0) {
      Consistency.NotepadDeletedKeeps(users0, cats0, notes0, id.value);
      if uid in users0 && id.value in users0[uid].notepads {
        Consistency.NotepadDeleteShrinks(users0, cats0, notes0, id.value);
      }
    }
    if Consistency.AllListed(users0, cats0, notes0) {
      Consistency.NotepadDeletedListed(users0, cats0, notes0, id.value);
    }
  }

  // ---- Fixture ----

  /** The ids of a list of notepads, in order. */
  function Ids(ns: seq<Notepad>): (r: seq<Id>)
    ensures |r| == |ns| && forall i :: 0 <= i < |ns| ==> r[i] == ns[i].id
  {
    seq(|ns|, i requires 0 <= i < |ns| => ns[i].id)
  }

  lemma IdsAppend(ns: seq<Notepad>, n: Notepad)
    ensures Ids(ns + [n]) == Ids(ns) + [n.id]
  {
  }

  /** The fixture loop of the notepad tests: for each (title, text) item in
      turn, Notepad.createAsync in category cid, then
      Category.increaseNotepadsCountById, then User.addNotepad. The
      counter grows by the number of items and the user's list by their
      ids, in order. */
  method SeedNotepads(s: Store, uid: Id, cid: Id, items: seq<(string, string)>) returns (created: seq<Notepad>)
    requires s.WellFormed() && uid in s.users && cid in s.categories && s.categories[cid].user == uid
    modifies s
    ensures s.WellFormed()
    ensures |created| == |items| && s.nextId == old(s.nextId) + |items|
    ensures forall i :: 0 <= i < |items| ==>
              && created[i] == Notepad(old(s.nextId) + i, items[i].0, items[i].1, cid, uid)
              && created[i].id !in old(s.notepads)
              && created[i].id in s.notepads && s.notepads[created[i].id] == created[i]
    ensures forall n :: n in s.notepads <==> n in old(s.notepads) || old(s.nextId) <= n < s.nextId
    ensures forall n :: n in old(s.notepads) ==> s.notepads[n] == old(s.notepads[n])
    ensures s.categories == old(s.categories)[cid := old(s.categories[cid]).(notepadsCount := old(s.categories[cid].notepadsCount) + |items|)]
    ensures s.users == old(s.users)[uid := old(s.users[uid]).(notepads := old(s.users[uid].notepads) + Ids(created))]
    ensures old(s.Valid()) ==> s.Valid()
    ensures old(s.Listed()) ==> s.Listed()
  {
    ghost var valid0, listed0 := s.Valid(), s.Listed();
    ghost var users0, cats0, notes0, next0 := s.users, s.categories, s.notepads, s.nextId;
    ghost var u0, c0 := users0[uid], cats0[cid];
    created := [];
    SeededStart(users0, cats0, uid, cid);
    var i := 0;
    while i < |items|
      invariant 0 <= i <= |items| && |created| == i
      invariant s.WellFormed() && s.nextId == next0 + i
      invariant forall k :: 0 <= k < i ==> created[k] == Notepad(next0 + k, items[k].0, items[k].1, cid, uid)
      invariant s.notepads == Inserted(notes0, created)
      invariant s.categories == cats0[cid := c0.(notepadsCount := c0.notepadsCount + i)]
      invariant s.users == users0[uid := u0.(notepads := u0.notepads + Ids(created))]
      invariant valid0 ==> s.Valid()
      invariant listed0 ==> s.Listed()
    {
      ghost var users1, cats1 := s.users, s.categories;
      var notepad := SeedOne(s, uid, cid, items[i].0, items[i].1);
      SeededStep(users0, cats0, uid, cid, u0, c0, created, i, notepad, users1, cats1, s.users, s.categories);
      InsertedLast(notes0, created, notepad);
      CreatedStep(created, items, next0, cid, uid, notepad);
      created := created + [notepad];
      i := i + 1;
    }
    InsertedFacts(notes0, created, next0);
    assert users0 == old(s.users) && u0 == old(s.users[uid]) && cats0 == old(s.categories) && c0 == old(s.categories[cid]);
  }

  lemma CreatedStep(created: seq<Notepad>, items: seq<(string, string)>, next: Id, cid: Id, uid: Id, np: Notepad)
    requires |created| < |items|
    requires forall k :: 0 <= k < |created| ==> created[k] == Notepad(next + k, items[k].0, items[k].1, cid, uid)
    requires np == Notepad(next + |created|, items[|created|].0, items[|created|].1, cid, uid)
    ensures forall k :: 0 <= k < |created| + 1 ==> (created + [np])[k] == Notepad(next + k, items[k].0, items[k].1, cid, uid)
  {
  }

  /** The notepad collection after inserting the records ns, in order. */
  function Inserted(notes: map<Id, Notepad>, ns: seq<Notepad>): map<Id, Notepad>
    decreases |ns|
  {
    if ns == [] then notes else Inserted(notes, ns[..|ns| - 1])[ns[|ns| - 1].id := ns[|ns| - 1]]
  }

  lemma InsertedLast(notes: map<Id, Notepad>, ns: seq<Notepad>, n: Notepad)
    ensures Inserted(notes, ns + [n]) == Inserted(notes, ns)[n.id := n]
  {
    assert (ns + [n])[..|ns|] == ns;
  }

  /** Inserting records with the consecutive fresh ids next, next + 1, ...
      adds exactly those keys and keeps every stored record. */
  lemma {:induction false} InsertedFacts(notes: map<Id, Notepad>, ns: seq<Notepad>, next: Id)
    requires forall n :: n in notes ==> n < next
    requires forall k :: 0 <= k < |ns| ==> ns[k].id == next + k
    ensures forall n :: n in Inserted(notes, ns) <==> n in notes || next <= n < next + |ns|
    ensures forall n :: n in notes ==> Inserted(notes, ns)[n] == notes[n]
    ensures forall k :: 0 <= k < |ns| ==> Inserted(notes, ns)[next + k] == ns[k]
    decreases |ns|
  {
    if ns != [] {
      var init := ns[..|ns| - 1];
      InsertedFacts(notes, init, next);
    }
  }

  /** Before the first round, the user's list has gained no ids and the
      counter nothing. */
  lemma SeededStart(users: map<Id, User>, cats: map<Id, Category>, uid: Id, cid: Id)
    requires uid in users && cid in cats
    ensures users == users[uid := users[uid].(notepads := users[uid].notepads + Ids([]))]
    ensures cats == cats[cid := cats[cid].(notepadsCount := cats[cid].notepadsCount + 0)]
  {
    assert users[uid].notepads + Ids([]) == users[uid].notepads;
  }

  /** A round of the fixture loop appends one id and adds one to the counter. */
  lemma SeededStep(users0: map<Id, User>, cats0: map<Id, Category>, uid: Id, cid: Id, u0: User, c0: Category,
                   created: seq<Notepad>, i: int, np: Notepad,
                   users1: map<Id, User>, cats1: map<Id, Category>, users2: map<Id, User>, cats2: map<Id, Category>)
    requires users1 == users0[uid := u0.(notepads := u0.notepads + Ids(created))]
    requires cats1 == cats0[cid := c0.(notepadsCount := c0.notepadsCount + i)]
    requires users2 == AddNotepadTo(users1, uid, np.id) && cats2 == Bumped(cats1, cid, 1)
    ensures users2 == users0[uid := u0.(notepads := u0.notepads + Ids(created + [np]))]
    ensures cats2 == cats0[cid := c0.(notepadsCount := c0.notepadsCount + (i + 1))]
  {
    IdsAppend(created, np);
    assert u0.notepads + Ids(created) + [np.id] == u0.notepads + (Ids(created) + [np.id]);
  }

  /** One round of the fixture loop. */
  method SeedOne(s: Store, uid: Id, cid: Id, title: string, text: string) returns (np: Notepad)
    requires s.WellFormed() && uid in s.users && cid in s.categories && s.categories[cid].user == uid
    modifies s
    ensures s.WellFormed()
    ensures np == Notepad(old(s.nextId), title, text, cid, uid) && np.id !in old(s.notepads)
    ensures s.notepads == old(s.notepads)[np.id := np] && s.nextId == old(s.nextId) + 1
    ensures s.categories == Bumped(old(s.categories), cid, 1)
    ensures s.users == AddNotepadTo(old(s.users), uid, np.id)
    ensures old(s.Valid()) ==> s.Valid()
    ensures old(s.Listed()) ==> s.Listed()
  {
    ghost var users0, cats0, notes0, next0 := s.users, s.categories, s.notepads, s.nextId;
    var notepad := s.NotepadCreate(Some(title), Some(text), cid, uid);
    np := notepad.value;
    var _ := s.CategoryIncreaseNotepadsCount(np.category);
    var _ := s.UserAddNotepad(np.user, np.id);
    if Consistency.Consistent(users0, cats0, notes0) {
      Consistency.NotepadCreatedKeeps(users0, cats0, notes0, next0, np);
    }
    if Consistency.AllListed(users0, cats0, notes0) {
      Consistency.NotepadCreatedListed(users0, cats0, notes0, next0, np);
    }
  }
}
