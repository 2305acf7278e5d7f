/**
 The effect of each ledger primitive on the collection it owns, as a function
 on values. The store's methods (module Models) apply these to its maps; the
 flows' contracts and the consistency lemmas are stated with them.
 */
module Ledgers {
  import opened Records

  // ---- User ledger ----

  /** User.addCategory: append a category id to a user's list. A missing user
      is left missing (the store's update finds nothing). */
  function AddCategoryTo(users: map<Id, User>, uid: Id, cid: Id): map<Id, User> {
    if uid in users then users[uid := users[uid].(categories := users[uid].categories + [cid])]
    else users
  }

  /** User.addNotepad: append a notepad id to a user's list. */
  function AddNotepadTo(users: map<Id, User>, uid: Id, nid: Id): map<Id, User> {
    if uid in users then users[uid := users[uid].(notepads := users[uid].notepads + [nid])]
    else users
  }

  /** User.removeCategory: pull category ids from a user's list. */
  function PullCategories(users: map<Id, User>, uid: Id, xs: set<Id>): map<Id, User> {
    if uid in users then users[uid := users[uid].(categories := Pulled(users[uid].categories, xs))]
    else users
  }

  /** User.removeNotepads: pull notepad ids from a user's list. */
  function PullNotepads(users: map<Id, User>, uid: Id, xs: set<Id>): map<Id, User> {
    if uid in users then users[uid := users[uid].(notepads := Pulled(users[uid].notepads, xs))]
    else users
  }

  /** User.findOneAndUpdate with `$set` of both lists: overwrite them. */
  function WithLists(users: map<Id, User>, uid: Id, cs: seq<Id>, ns: seq<Id>): map<Id, User> {
    if uid in users then users[uid := users[uid].(categories := cs, notepads := ns)]
    else users
  }

  // ---- Category ledger ----

  /** Category.getByIdForUser: the category with that id, only if the given
      user owns it. */
  function CategoryOf(cats: map<Id, Category>, id: Id, uid: Id): Option<Category> {
    if id in cats && cats[id].user == uid then Some(cats[id]) else None
  }

  /** Category.update: rename a category, only if the given user owns it. */
  function Renamed(cats: map<Id, Category>, id: Id, uid: Id, name: string): map<Id, Category> {
    if id in cats && cats[id].user == uid then cats[id := cats[id].(name := name)] else cats
  }

  /** Category.increaseNotepadsCountById (delta 1) and its decreasing
      counterpart (delta -1): add delta to the counter, unclamped. */
  function Bumped(cats: map<Id, Category>, id: Id, delta: int): map<Id, Category> {
    if id in cats then cats[id := cats[id].(notepadsCount := cats[id].notepadsCount + delta)]
    else cats
  }

  /** Category.getByUserId: the user's categories, whether or not they are
      in the user's list, in ascending id order (the document store
      promises no order; this is the one modelled). */
  function CategoriesOf(cats: map<Id, Category>, uid: Id): (r: seq<Category>)
    ensures |r| == |Owned(cats, uid)|
    ensures forall k :: 0 <= k < |r| ==> r[k].user == uid
  {
    var ks := SortedKeys(Owned(cats, uid));
    assert forall k :: 0 <= k < |ks| ==> ks[k] in Owned(cats, uid);
    seq(|ks|, k requires 0 <= k < |ks| => cats[ks[k]])
  }

  /** CategoriesOf lists each of the user's categories exactly once, as
      stored, in ascending id order, and nothing else. */
  lemma CategoriesOfExact(cats: map<Id, Category>, uid: Id)
    requires forall c :: c in cats ==> cats[c].id == c
    ensures var r := CategoriesOf(cats, uid);
            |r| == |Owned(cats, uid)|
    ensures var r := CategoriesOf(cats, uid);
            forall k :: 0 <= k < |r| ==> r[k].id in cats && cats[r[k].id] == r[k] && r[k].user == uid
    ensures var r := CategoriesOf(cats, uid);
            forall c :: c in cats && cats[c].user == uid ==> exists k :: 0 <= k < |r| && r[k].id == c
    ensures var r := CategoriesOf(cats, uid);
            forall k, l :: 0 <= k < l < |r| ==> r[k].id < r[l].id
  {
    var ks := SortedKeys(Owned(cats, uid));
    var r := CategoriesOf(cats, uid);
    assert forall k :: 0 <= k < |ks| ==> ks[k] in Owned(cats, uid);
    assert forall k :: 0 <= k < |ks| ==> r[k] == cats[ks[k]] && r[k].id == ks[k];
    forall c | c in cats && cats[c].user == uid
      ensures exists k :: 0 <= k < |r| && r[k].id == c
    {
      assert c in Owned(cats, uid);
      var k :| 0 <= k < |ks| && ks[k] == c;
      assert r[k].id == c;
    }
  }

  // ---- Notepad ledger ----

  /** Notepad.getByIdForUser: the notepad with that id, only if the given
      user owns it. */
  function NotepadOf(notes: map<Id, Notepad>, id: Id, uid: Id): Option<Notepad> {
    if id in notes && notes[id].user == uid then Some(notes[id]) else None
  }

  /** Notepad.find({user, category}): the ids of the user's notepads in that
      category. The size of this set is what a category's counter counts. */
  function Matching(notes: map<Id, Notepad>, uid: Id, cid: Id): set<Id> {
    set n | n in notes && notes[n].user == uid && notes[n].category == cid
  }

  /** Notepad.update: replace title, text and category of a notepad. */
  function Edited(notes: map<Id, Notepad>, id: Id, title: string, text: string, cid: Id): map<Id, Notepad> {
    if id in notes then notes[id := notes[id].(title := title, text := text, category := cid)]
    else notes
  }

  // ---- Ascending keys ----

  /** The categories the user owns, whether or not they are in the user's list. */
  function Owned(cats: map<Id, Category>, uid: Id): set<Id> {
    set c | c in cats && cats[c].user == uid
  }

  /** m is the least element of ks. */
  predicate IsLeast(m: Id, ks: set<Id>) {
    m in ks && forall k :: k in ks ==> m <= k
  }

  /** A set holding x has a least element, found by descending from x. */
  lemma {:induction false} LeastExists(ks: set<Id>, x: Id)
    requires x in ks
    ensures exists m :: IsLeast(m, ks)
    decreases x
  {
    if !IsLeast(x, ks) {
      var y :| y in ks && y < x;
      LeastExists(ks, y);
    }
  }

  /** The least id of a non-empty set. */
  function MinOf(ks: set<Id>): (m: Id)
    requires ks != {}
    ensures m in ks && forall k :: k in ks ==> m <= k
  {
    var x :| x in ks;
    LeastExists(ks, x);
    var m :| IsLeast(m, ks);
    m
  }

  /** The ids of a set in ascending order. */
  function SortedKeys(ks: set<Id>): (r: seq<Id>)
    ensures forall i, j :: 0 <= i < j < |r| ==> r[i] < r[j]
    ensures forall k :: k in r <==> k in ks
    ensures |r| == |ks|
    decreases |ks|
  {
    if ks == {} then []
    else
      var m := MinOf(ks);
      [m] + SortedKeys(ks - {m})
  }

  /** What the completed cascade leaves: the category gone from the
      collection and from its owner's list, exactly the owner's notepads of
      that category gone from the collection and from the owner's list, and
      every other record as it was. */
  lemma CascadeEffect(users: map<Id, User>, cats: map<Id, Category>, notes: map<Id, Notepad>, uid: Id, cid: Id)
    requires uid in users
    ensures var m := Matching(notes, uid, cid);
            var users' := PullNotepads(PullCategories(users, uid, {cid}), uid, m);
            && cid !in cats - {cid}
            && uid in users' && cid !in users'[uid].categories
            && (forall u :: u in users && u != uid ==> u in users' && users'[u] == users[u])
            && (forall n :: n in notes - m <==> n in notes && !(notes[n].user == uid && notes[n].category == cid))
            && (forall n :: n in notes - m ==> (notes - m)[n] == notes[n])
            && (forall n :: n in users'[uid].notepads <==> n in users[uid].notepads && n !in m)
            && (forall c :: c in cats - {cid} ==> (cats - {cid})[c] == cats[c])
  {
  }

  /** Moving a notepad between two categories: the source's counter down
      by one (if it exists), the target's up by one. */
  lemma MovedCounters(cats: map<Id, Category>, from: Id, to: Id)
    requires to in cats && from != to
    ensures var cats' := Bumped(Bumped(cats, from, -1), to, 1);
            && to in cats' && cats'[to].notepadsCount == cats[to].notepadsCount + 1
            && (from in cats ==> from in cats' && cats'[from].notepadsCount == cats[from].notepadsCount - 1)
  {
  }

  // ---- How Matching follows the notepad ledger's changes ----

  lemma MatchingInsert(notes: map<Id, Notepad>, np: Notepad, uid: Id, cid: Id)
    requires np.id !in notes
    ensures Matching(notes[np.id := np], uid, cid)
         == if np.user == uid && np.category == cid then Matching(notes, uid, cid) + {np.id}
            else Matching(notes, uid, cid)
  {
  }

  lemma MatchingRemove(notes: map<Id, Notepad>, ks: set<Id>, uid: Id, cid: Id)
    ensures Matching(notes - ks, uid, cid) == Matching(notes, uid, cid) - ks
  {
  }

  lemma MatchingEdit(notes: map<Id, Notepad>, id: Id, title: string, text: string, newCid: Id, uid: Id, cid: Id)
    requires id in notes
    ensures Matching(Edited(notes, id, title, text, newCid), uid, cid)
         == if notes[id].user == uid && newCid == cid then Matching(notes, uid, cid) + {id}
            else Matching(notes, uid, cid) - {id}
  {
  }
}
