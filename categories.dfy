/**
 The category route handlers (src/routes/categories.js): create, get and
 rename scoped by owner, and the cascading delete.

 Every handler takes failAt: the flow's failAt-th store call rejects
 without writing (0: no call rejects). A rejection makes the handler answer
 with Failure (the catch blocks' INTERNAL_SERVER_ERROR) and leaves whatever
 the earlier calls wrote in place. `uid` is the authenticated request user
 (req.user.id), whose record exists.
 */
module Categories {
  import opened Records
  import opened Ledgers
  import Consistency
  import opened Models

  /** getHandler: the user's categories. Calls: 1 Category.getByUserId. The
      query answers with a list, possibly empty, so the handler's "not
      found" branch cannot be taken. */
  method GetHandler(s: Store, uid: Id, failAt: nat) returns (r: Result<seq<Category>>)
    requires s.WellFormed()
    ensures failAt == 1 <==> r == Failure(StoreError(1))
    ensures failAt != 1 ==> r.Ok?
    ensures r.Ok? ==> forall k :: 0 <= k < |r.value| ==>
              r.value[k].id in s.categories && s.categories[r.value[k].id] == r.value[k] && r.value[k].user == uid
    ensures r.Ok? ==> forall c :: c in s.categories && s.categories[c].user == uid ==>
              exists k :: 0 <= k < |r.value| && r.value[k].id == c
    ensures r.Ok? ==> forall k, l :: 0 <= k < l < |r.value| ==> r.value[k].id < r.value[l].id
  {
    if failAt == 1 {
      return Failure(StoreError(1));
    }
    var categories := s.CategoryGetByUserId(uid);
    CategoriesOfExact(s.categories, uid);
    r := Ok(categories);
  }

  /** postHandler. Calls: 1 Category.add, 2 User.addCategory. */
  method PostHandler(s: Store, uid: Id, name: string, failAt: nat) returns (r: Result<Category>)
    requires s.WellFormed() && uid in s.users
    modifies s
    ensures s.WellFormed()
    ensures failAt == 1 ==> r == Failure(StoreError(1)) && unchanged(s)
    ensures failAt != 1 ==>
              var c := Category(old(s.nextId), name, uid, 0);
              && c.id !in old(s.categories)
              && s.categories == old(s.categories)[c.id := c]
              && s.notepads == old(s.notepads)
              && s.nextId == old(s.nextId) + 1
              && s.users == (if Reaches(failAt, 2) then AddCategoryTo(old(s.users), uid, c.id) else old(s.users))
              && r == (if Reaches(failAt, 2) then Ok(c) else Failure(StoreError(2)))
    ensures r.Ok? ==> r.value.user == uid && s.users[uid].categories == old(s.users[uid].categories) + [r.value.id]
    ensures r.Ok? && old(s.Valid()) ==> s.Valid()
    ensures r.Ok? && old(s.Listed()) ==> s.Listed()
  {
    ghost var users0, cats0, notes0, next0 := s.users, s.categories, s.notepads, s.nextId;
    if failAt == 1 {
      return Failure(StoreError(1));
    }
    var savedCat := s.CategoryAdd(name, uid);
    if failAt == 2 {
      return Failure(StoreError(2));
    }
    var _ := s.UserAddCategory(savedCat.user, savedCat.id);
    r := Ok(savedCat);
    if Consistency.Consistent(users0, cats0, notes0) {
      Consistency.CategoryCreatedKeeps(users0, cats0, notes0, next0, name, uid);
    }
    if Consistency.AllListed(users0, cats0, notes0) {
      Consistency.CategoryCreatedListed(users0, cats0, notes0, next0, name, uid);
    }
  }

  /** getIdHandler: the category if the user owns it, else the soft 404.
      Calls: 1 Category.getByIdForUser. */
  method GetIdHandler(s: Store, uid: Id, id: Id, failAt: nat) returns (r: Result<Category>)
    ensures failAt == 1 ==> r == Failure(StoreError(1))
    ensures failAt != 1 ==> (r.Ok? <==> id in s.categories && s.categories[id].user == uid)
    ensures failAt != 1 && r.Ok? ==> r.value == s.categories[id]
    ensures failAt != 1 && !r.Ok? ==> r == NotFound
  {
    if failAt == 1 {
      return Failure(StoreError(1));
    }
    var category := s.CategoryGetByIdForUser(id, uid);
    if category.None? {
      return NotFound;
    }
    r := Ok(category.value);
  }

  /** putIdHandler: rename a category the user owns, else the soft 404.
      Calls: 1 Category.update. */
  method PutIdHandler(s: Store, uid: Id, id: Id, name: string, failAt: nat) returns (r: Result<Category>)
    requires s.WellFormed()
    modifies s
    ensures s.WellFormed()
    ensures s.users == old(s.users) && s.notepads == old(s.notepads) && s.nextId == old(s.nextId)
    ensures failAt == 1 ==> r == Failure(StoreError(1)) && unchanged(s)
    ensures failAt != 1 && old(s.CategoryGetByIdForUser(id, uid)).None? ==> r == NotFound && unchanged(s)
    ensures failAt != 1 && old(s.CategoryGetByIdForUser(id, uid)).Some? ==>
              && r == Ok(old(s.categories[id]).(name := name))
              && s.categories == old(s.categories)[id := r.value]
    ensures old(s.Valid()) ==> s.Valid()
    ensures old(s.Listed()) ==> s.Listed()
  {
    if failAt == 1 {
      return Failure(StoreError(1));
    }
    var category := s.CategoryUpdate(id, uid, name);
    if category.None? {
      return NotFound;
    }
    r := Ok(category.value);
    assert forall c :: c in s.categories ==> s.categories[c].user == old(s.categories[c].user);
  }

  /** deleteIdHandler, the cascade. Calls: 1 Category.getByIdForUser,
      2 Category.findByIdAndRemove, 3 User.removeCategory, 4 Notepad.find,
      5 Notepad.remove of the found ids, 6 User.removeNotepads. A category
      the user does not own cancels the chain before any write. Calls 5 and
      6 run even when the category has no notepads (with no effect). */
  method DeleteIdHandler(s: Store, uid: Id, id: Id, failAt: nat) returns (r: Result<Category>)
    requires s.WellFormed() && uid in s.users
    modifies s
    ensures s.WellFormed() && s.nextId == old(s.nextId)
    ensures failAt == 1 ==> r == Failure(StoreError(1)) && unchanged(s)
    ensures failAt != 1 && old(s.CategoryGetByIdForUser(id, uid)).None? ==> r == NotFound && unchanged(s)
    ensures failAt != 1 && old(s.CategoryGetByIdForUser(id, uid)).Some? ==>
              var m := Matching(old(s.notepads), uid, id);
              && r == (if Reaches(failAt, 6) then Ok(old(s.categories[id])) else Failure(StoreError(failAt)))
              && s.categories == (if Reaches(failAt, 2) then old(s.categories) - {id} else old(s.categories))
              && s.users == (if Reaches(failAt, 6) then PullNotepads(PullCategories(old(s.users), uid, {id}), uid, m)
                             else if Reaches(failAt, 3) then PullCategories(old(s.users), uid, {id})
                             else old(s.users))
              && s.notepads == (if Reaches(failAt, 5) then old(s.notepads) - m else old(s.notepads))
    ensures r.Ok? ==> && id in old(s.categories) && old(s.categories[id]).user == uid
                      && id !in s.categories
                      && id !in s.users[uid].categories
                      && (forall u :: u in old(s.users) && u != uid ==> s.users[u] == old(s.users[u]))
                      && (forall n :: n in s.notepads <==>
                                 n in old(s.notepads) && !(old(s.notepads[n]).user == uid && old(s.notepads[n]).category == id))
                      && (forall n :: n in s.notepads ==> s.notepads[n] == old(s.notepads[n]))
                      && (forall n :: n in s.users[uid].notepads <==>
                                 n in old(s.users[uid].notepads) && n !in Matching(old(s.notepads), uid, id))
                      && (forall c :: c in s.categories ==> s.categories[c] == old(s.categories[c]))
    ensures r.Ok? && old(s.Valid()) ==> s.Valid()
    ensures r.Ok? && old(s.Listed()) ==> s.Listed()
    ensures r.Ok? && old(s.Valid()) ==>
              |s.notepads| == |old(s.notepads)| - old(s.categories[id].notepadsCount)
    ensures r.Ok? && old(s.Valid()) &&
            (forall n :: n in Matching(old(s.notepads), uid, id) ==> n in old(s.users[uid].notepads)) ==>
              |s.users[uid].notepads| == |old(s.users[uid].notepads)| - old(s.categories[id].notepadsCount)
  {
    ghost var users0, cats0, notes0 := s.users, s.categories, s.notepads;
    if failAt == 1 {
      return Failure(StoreError(1));
    }
    var cat := s.CategoryGetByIdForUser(id, uid);
    if cat.None? {
      return NotFound;
    }
    var category := cat.value;
    if failAt == 2 {
      return Failure(StoreError(2));
    }
    var _ := s.CategoryRemove(category.id);
    if failAt == 3 {
      return Failure(StoreError(3));
    }
    var _ := s.UserRemoveCategory(uid, category.id);
    if failAt == 4 {
      return Failure(StoreError(4));
    }
    var ns := s.NotepadFind(uid, category.id);
    if failAt == 5 {
      return Failure(StoreError(5));
    }
    s.NotepadRemove(ns);
    if failAt == 6 {
      return Failure(StoreError(6));
    }
    var _ := s.UserRemoveNotepads(uid, ns);
    r := Ok(category);
    CascadeEffect(users0, cats0, notes0, uid, id);
    ghost var m := Matching(notes0, uid, id);
    assert s.users == PullNotepads(PullCategories(users0, uid, {id}), uid, m);
    assert s.categories == cats0 - {id} && s.notepads == notes0 - m;
    if Consistency.Consistent(users0, cats0, notes0) {
      Consistency.CategoryDeletedKeeps(users0, cats0, notes0, uid, id);
      Consistency.CascadeSizes(users0, cats0, notes0, uid, id);
    }
    if Consistency.AllListed(users0, cats0, notes0) {
      Consistency.CategoryDeletedListed(users0, cats0, notes0, uid, id);
    }
  }
}
