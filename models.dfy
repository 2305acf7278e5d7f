/**
 The document store: the three collections as maps from id to record, and
 the counter that hands out fresh ids. Its methods are the ledger primitives
 the flows call (User.addCategory, Category.getByIdForUser, Notepad.find,
 ...); each states its whole effect on the store with the functions of
 module Ledgers.
 */
module Models {
  import opened Records
  import opened Ledgers
  import Consistency

  class Store {
    var users: map<Id, User>
    var categories: map<Id, Category>
    var notepads: map<Id, Notepad>
    var nextId: Id

    /** What the document store itself guarantees. */
    ghost predicate WellFormed()
      reads this
    {
      Consistency.WellFormed(users, categories, notepads, nextId)
    }

    /** The protocol's invariants: counters, no orphans, user lists. */
    ghost predicate Valid()
      reads this
    {
      Consistency.Consistent(users, categories, notepads)
    }

    /** Every category and notepad is in its owner's list. */
    ghost predicate Listed()
      reads this
    {
      Consistency.AllListed(users, categories, notepads)
    }

    constructor ()
      ensures WellFormed() && Valid() && Listed()
      ensures users == map[] && categories == map[] && notepads == map[] && nextId == 0
    {
      users, categories, notepads, nextId := map[], map[], map[], 0;
    }

    // ---- User ledger ----

    /** User.createAsync: a new user with empty lists. */
    method UserCreate(name: string) returns (u: User)
      requires WellFormed()
      modifies this
      ensures WellFormed()
      ensures u == User(old(nextId), name, [], []) && u.id !in old(users)
      ensures users == old(users)[u.id := u] && nextId == old(nextId) + 1
      ensures categories == old(categories) && notepads == old(notepads)
    {
      u := User(nextId, name, [], []);
      users := users[u.id := u];
      nextId := nextId + 1;
    }

    /** User.findOneAsync({_id}). */
    function UserFindById(uid: Id): (r: Option<User>)
      reads this
      ensures r.Some? <==> uid in users
      ensures r.Some? ==> r.value == users[uid]
    {
      if uid in users then Some(users[uid]) else None
    }

    /** User.addCategory: append to the user's categories; the updated user. */
    method UserAddCategory(uid: Id, cid: Id) returns (u: Option<User>)
      requires WellFormed()
      modifies this
      ensures WellFormed()
      ensures users == AddCategoryTo(old(users), uid, cid) && u == UserFindById(uid)
      ensures categories == old(categories) && notepads == old(notepads) && nextId == old(nextId)
    {
      users := AddCategoryTo(users, uid, cid);
      u := UserFindById(uid);
    }

    /** User.removeCategory: pull the id from the user's categories. */
    method UserRemoveCategory(uid: Id, cid: Id) returns (u: Option<User>)
      requires WellFormed()
      modifies this
      ensures WellFormed()
      ensures users == PullCategories(old(users), uid, {cid}) && u == UserFindById(uid)
      ensures categories == old(categories) && notepads == old(notepads) && nextId == old(nextId)
    {
      users := PullCategories(users, uid, {cid});
      u := UserFindById(uid);
    }

    /** User.addNotepad: append to the user's notepads. */
    method UserAddNotepad(uid: Id, nid: Id) returns (u: Option<User>)
      requires WellFormed()
      modifies this
      ensures WellFormed()
      ensures users == AddNotepadTo(old(users), uid, nid) && u == UserFindById(uid)
      ensures categories == old(categories) && notepads == old(notepads) && nextId == old(nextId)
    {
      users := AddNotepadTo(users, uid, nid);
      u := UserFindById(uid);
    }

    /** User.removeNotepads: pull the ids from the user's notepads. */
    method UserRemoveNotepads(uid: Id, nids: set<Id>) returns (u: Option<User>)
      requires WellFormed()
      modifies this
      ensures WellFormed()
      ensures users == PullNotepads(old(users), uid, nids) && u == UserFindById(uid)
      ensures categories == old(categories) && notepads == old(notepads) && nextId == old(nextId)
    {
      users := PullNotepads(users, uid, nids);
      u := UserFindById(uid);
    }

    /** User.findOneAndUpdate with `$set` of both lists. */
    method UserSetLists(uid: Id, cs: seq<Id>, ns: seq<Id>) returns (u: Option<User>)
      requires WellFormed()
      modifies this
      ensures WellFormed()
      ensures users == WithLists(old(users), uid, cs, ns) && u == UserFindById(uid)
      ensures categories == old(categories) && notepads == old(notepads) && nextId == old(nextId)
    {
      users := WithLists(users, uid, cs, ns);
      u := UserFindById(uid);
    }

    // ---- Category ledger ----

    /** Category.add / Category.createAsync: a new category with a zero counter. */
    method CategoryAdd(name: string, uid: Id) returns (c: Category)
      requires WellFormed()
      modifies this
      ensures WellFormed()
      ensures c == Category(old(nextId), name, uid, 0) && c.id !in old(categories)
      ensures categories == old(categories)[c.id := c] && nextId == old(nextId) + 1
      ensures users == old(users) && notepads == old(notepads)
    {
      c := Category(nextId, name, uid, 0);
      categories := categories[c.id := c];
      nextId := nextId + 1;
    }

    /** Category.getByIdForUser: None when absent or owned by someone else. */
    function CategoryGetByIdForUser(id: Id, uid: Id): (r: Option<Category>)
      reads this
      ensures r.Some? <==> id in categories && categories[id].user == uid
      ensures r.Some? ==> r.value == categories[id]
    {
      CategoryOf(categories, id, uid)
    }

    /** Category.getByUserId: the user's categories, by ascending id. */
    function CategoryGetByUserId(uid: Id): (r: seq<Category>)
      reads this
      ensures |r| == |Owned(categories, uid)|
      ensures forall k :: 0 <= k < |r| ==> r[k].user == uid
    {
      CategoriesOf(categories, uid)
    }

    /** Category.update: rename it if the user owns it; the updated category. */
    method CategoryUpdate(id: Id, uid: Id, name: string) returns (r: Option<Category>)
      requires WellFormed()
      modifies this
      ensures WellFormed()
      ensures categories == Renamed(old(categories), id, uid, name)
      ensures r == CategoryGetByIdForUser(id, uid)
      ensures r.None? ==> unchanged(this)
      ensures users == old(users) && notepads == old(notepads) && nextId == old(nextId)
    {
      if CategoryGetByIdForUser(id, uid).Some? {
        categories := Renamed(categories, id, uid, name);
      }
      r := CategoryGetByIdForUser(id, uid);
    }

    /** Category.findByIdAndRemove / Category.remove({_id}): delete by id,
        unscoped; the removed record, if any. */
    method CategoryRemove(id: Id) returns (r: Option<Category>)
      requires WellFormed()
      modifies this
      ensures WellFormed()
      ensures r == (if id in old(categories) then Some(old(categories)[id]) else None)
      ensures categories == old(categories) - {id}
      ensures users == old(users) && notepads == old(notepads) && nextId == old(nextId)
    {
      r := if id in categories then Some(categories[id]) else None;
      categories := categories - {id};
    }

    /** Category.increaseNotepadsCountById: counter + 1; the updated category. */
    method CategoryIncreaseNotepadsCount(id: Id) returns (r: Option<Category>)
      requires WellFormed()
      modifies this
      ensures WellFormed()
      ensures categories == Bumped(old(categories), id, 1)
      ensures r == (if id in categories then Some(categories[id]) else None)
      ensures users == old(users) && notepads == old(notepads) && nextId == old(nextId)
    {
      categories := Bumped(categories, id, 1);
      r := if id in categories then Some(categories[id]) else None;
    }

    /** The decreasing counterpart: counter - 1, not clamped at zero. */
    method CategoryDecreaseNotepadsCount(id: Id) returns (r: Option<Category>)
      requires WellFormed()
      modifies this
      ensures WellFormed()
      ensures categories == Bumped(old(categories), id, -1)
      ensures r == (if id in categories then Some(categories[id]) else None)
      ensures users == old(users) && notepads == old(notepads) && nextId == old(nextId)
    {
      categories := Bumped(categories, id, -1);
      r := if id in categories then Some(categories[id]) else None;
    }

    // ---- Notepad ledger ----

    /** Notepad.createAsync: title and text are required fields; without
        them the store rejects the document and writes nothing. */
    method NotepadCreate(title: Option<string>, text: Option<string>, cid: Id, uid: Id) returns (r: Option<Notepad>)
      requires WellFormed()
      modifies this
      ensures WellFormed()
      ensures r.Some? <==> title.Some? && text.Some?
      ensures r.None? ==> notepads == old(notepads) && nextId == old(nextId)
      ensures r.Some? ==> && r.value == Notepad(old(nextId), title.value, text.value, cid, uid)
                          && r.value.id !in old(notepads)
                          && notepads == old(notepads)[r.value.id := r.value]
                          && nextId == old(nextId) + 1
      ensures users == old(users) && categories == old(categories)
      ensures r.None? ==> unchanged(this)
    {
      if title.None? || text.None? {
        return None;
      }
      var np := Notepad(nextId, title.value, text.value, cid, uid);
      notepads := notepads[np.id := np];
      nextId := nextId + 1;
      r := Some(np);
    }

    /** Notepad.getByIdForUser: None when absent or owned by someone else. */
    function NotepadGetByIdForUser(id: Id, uid: Id): (r: Option<Notepad>)
      reads this
      ensures r.Some? <==> id in notepads && notepads[id].user == uid
      ensures r.Some? ==> r.value == notepads[id]
    {
      NotepadOf(notepads, id, uid)
    }

    /** Notepad.find({user, category}): the ids of the matching notepads. */
    function NotepadFind(uid: Id, cid: Id): (r: set<Id>)
      reads this
      ensures forall n :: n in r <==> n in notepads && notepads[n].user == uid && notepads[n].category == cid
    {
      Matching(notepads, uid, cid)
    }

    /** Notepad.update: new title, text and category; the updated notepad. */
    method NotepadUpdate(id: Id, title: string, text: string, cid: Id) returns (r: Option<Notepad>)
      requires WellFormed()
      modifies this
      ensures WellFormed()
      ensures notepads == Edited(old(notepads), id, title, text, cid)
      ensures r == (if id in notepads then Some(notepads[id]) else None)
      ensures users == old(users) && categories == old(categories) && nextId == old(nextId)
    {
      notepads := Edited(notepads, id, title, text, cid);
      r := if id in notepads then Some(notepads[id]) else None;
    }

    /** Notepad.remove({_id}) / Notepad.removeAsync({_id: {$in: ids}}). */
    method NotepadRemove(ids: set<Id>)
      requires WellFormed()
      modifies this
      ensures WellFormed()
      ensures notepads == old(notepads) - ids
      ensures users == old(users) && categories == old(categories) && nextId == old(nextId)
    {
      notepads := notepads - ids;
    }
  }
}
