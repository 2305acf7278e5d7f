/**
 The invariants that keep the three collections in step, and one lemma per
 flow showing that the flow's successful run keeps them.

 - WellFormed: what the document store guarantees by itself (a record's id
   is its key, and every key was drawn from the id counter).
 - Consistent: what the protocol maintains by convention: every category's
   notepadsCount is the number of its owner's notepads in it, every notepad
   points at a category of its own owner, and every id in a user's lists
   names a record of that user, without duplicates.
 - AllListed: the converse direction, every record appears in its owner's
   list. The flows keep it; records created outside them need not have it.
 */
module Consistency {
  import opened Records
  import opened Ledgers

  ghost predicate WellFormed(users: map<Id, User>, cats: map<Id, Category>, notes: map<Id, Notepad>, next: Id) {
    && (forall u :: u in users ==> users[u].id == u && u < next)
    && (forall c :: c in cats ==> cats[c].id == c && c < next)
    && (forall n :: n in notes ==> notes[n].id == n && n < next)
  }

  ghost predicate CountsMatch(cats: map<Id, Category>, notes: map<Id, Notepad>) {
    forall c :: c in cats ==> cats[c].notepadsCount == |Matching(notes, cats[c].user, c)|
  }

  ghost predicate NoOrphans(cats: map<Id, Category>, notes: map<Id, Notepad>) {
    forall n :: n in notes ==> notes[n].category in cats && cats[notes[n].category].user == notes[n].user
  }

  /** The lists of user u (whose id is uid) name only records uid owns. */
  ghost predicate ListsReferTo(uid: Id, u: User, cats: map<Id, Category>, notes: map<Id, Notepad>) {
    && NoDup(u.categories)
    && NoDup(u.notepads)
    && (forall i :: i in u.categories ==> i in cats && cats[i].user == uid)
    && (forall i :: i in u.notepads ==> i in notes && notes[i].user == uid)
  }

  ghost predicate ListsRefer(users: map<Id, User>, cats: map<Id, Category>, notes: map<Id, Notepad>) {
    forall u :: u in users ==> ListsReferTo(u, users[u], cats, notes)
  }

  ghost predicate Consistent(users: map<Id, User>, cats: map<Id, Category>, notes: map<Id, Notepad>) {
    CountsMatch(cats, notes) && NoOrphans(cats, notes) && ListsRefer(users, cats, notes)
  }

  ghost predicate AllListed(users: map<Id, User>, cats: map<Id, Category>, notes: map<Id, Notepad>) {
    && (forall c :: c in cats ==> cats[c].user in users && c in users[cats[c].user].categories)
    && (forall n :: n in notes ==> notes[n].user in users && n in users[notes[n].user].notepads)
  }

  // ---- Category created and linked into its owner (categories.js postHandler) ----

  lemma CategoryCreatedKeeps(users: map<Id, User>, cats: map<Id, Category>, notes: map<Id, Notepad>,
                             next: Id, name: string, uid: Id)
    requires WellFormed(users, cats, notes, next) && uid in users
    requires Consistent(users, cats, notes)
    ensures Consistent(AddCategoryTo(users, uid, next), cats[next := Category(next, name, uid, 0)], notes)
  {
    var users', cats' := AddCategoryTo(users, uid, next), cats[next := Category(next, name, uid, 0)];
    assert Matching(notes, uid, next) == {} by {
      forall n | n in notes ensures notes[n].category != next {
        assert notes[n].category in cats;
      }
    }
    forall c | c in cats' ensures cats'[c].notepadsCount == |Matching(notes, cats'[c].user, c)| {
    }
    assert CountsMatch(cats', notes);
    assert NoOrphans(cats', notes);
    forall u | u in users' ensures ListsReferTo(u, users'[u], cats', notes) {
      assert ListsReferTo(u, users[u], cats, notes);
      if u == uid {
        assert next !in users[uid].categories;
        AppendedNoDup(users[uid].categories, next);
      }
    }
  }

  lemma CategoryCreatedListed(users: map<Id, User>, cats: map<Id, Category>, notes: map<Id, Notepad>,
                              next: Id, name: string, uid: Id)
    requires uid in users && AllListed(users, cats, notes)
    ensures AllListed(AddCategoryTo(users, uid, next), cats[next := Category(next, name, uid, 0)], notes)
  {
    var users', cats' := AddCategoryTo(users, uid, next), cats[next := Category(next, name, uid, 0)];
    forall c | c in cats' ensures cats'[c].user in users' && c in users'[cats'[c].user].categories {
      if c != next {
        assert c in users[cats[c].user].categories;
      }
    }
    forall n | n in notes ensures notes[n].user in users' && n in users'[notes[n].user].notepads {
    }
  }

  // ---- The cascading delete of a category (categories.js deleteIdHandler) ----

  /** The state after the cascade: the category gone, every notepad of its
      owner in it gone, and both kinds of id pulled from the owner. */
  lemma CategoryDeletedKeeps(users: map<Id, User>, cats: map<Id, Category>, notes: map<Id, Notepad>,
                             uid: Id, cid: Id)
    requires Consistent(users, cats, notes)
    requires cid in cats && cats[cid].user == uid
    ensures var m := Matching(notes, uid, cid);
            Consistent(PullNotepads(PullCategories(users, uid, {cid}), uid, m), cats - {cid}, notes - m)
  {
    var m := Matching(notes, uid, cid);
    var users', cats', notes' := PullNotepads(PullCategories(users, uid, {cid}), uid, m), cats - {cid}, notes - m;
    forall c | c in cats' ensures cats'[c].notepadsCount == |Matching(notes', cats'[c].user, c)| {
      MatchingRemove(notes, m, cats[c].user, c);
      assert Matching(notes, cats[c].user, c) !! m;
      assert Matching(notes, cats[c].user, c) - m == Matching(notes, cats[c].user, c);
    }
    forall n | n in notes' ensures notes'[n].category in cats' && cats'[notes'[n].category].user == notes'[n].user {
      assert n !in m;
    }
    forall u | u in users' ensures ListsReferTo(u, users'[u], cats', notes') {
      assert ListsReferTo(u, users[u], cats, notes);
    }
  }

  lemma CategoryDeletedListed(users: map<Id, User>, cats: map<Id, Category>, notes: map<Id, Notepad>,
                              uid: Id, cid: Id)
    requires AllListed(users, cats, notes)
    requires cid in cats && cats[cid].user == uid
    ensures var m := Matching(notes, uid, cid);
            AllListed(PullNotepads(PullCategories(users, uid, {cid}), uid, m), cats - {cid}, notes - m)
  {
    var m := Matching(notes, uid, cid);
    var users', cats', notes' := PullNotepads(PullCategories(users, uid, {cid}), uid, m), cats - {cid}, notes - m;
    forall c | c in cats' ensures cats'[c].user in users' && c in users'[cats'[c].user].categories {
      assert c in users[cats[c].user].categories;
    }
    forall n | n in notes' ensures notes'[n].user in users' && n in users'[notes'[n].user].notepads {
      assert n in users[notes[n].user].notepads;
    }
  }

  /** The counts of the cascade: it removes exactly notepadsCount notepad
      records and, when the owner's list holds those notepads, exactly
      notepadsCount ids from that list; complete lists are one way the
      owner's list comes to hold them. */
  lemma {:induction false} CascadeSizes(users: map<Id, User>, cats: map<Id, Category>, notes: map<Id, Notepad>,
                                         uid: Id, cid: Id)
    requires Consistent(users, cats, notes)
    requires cid in cats && cats[cid].user == uid
    ensures var m := Matching(notes, uid, cid);
            |m| == cats[cid].notepadsCount && |notes - m| == |notes| - |m|
    ensures var m := Matching(notes, uid, cid);
            uid in users && (forall n :: n in m ==> n in users[uid].notepads) ==>
              |PullNotepads(PullCategories(users, uid, {cid}), uid, m)[uid].notepads|
                == |users[uid].notepads| - cats[cid].notepadsCount
    ensures var m := Matching(notes, uid, cid);
            AllListed(users, cats, notes) ==>
              uid in users && (forall n :: n in m ==> n in users[uid].notepads)
  {
    var m := Matching(notes, uid, cid);
    assert (notes - m).Keys == notes.Keys - m;
    assert m <= notes.Keys;
    assert |notes.Keys - m| == |notes.Keys| - |m| by {
      assert notes.Keys == (notes.Keys - m) + m;
    }
    if uid in users && (forall n :: n in m ==> n in users[uid].notepads) {
      assert ListsReferTo(uid, users[uid], cats, notes);
      PulledLength(users[uid].notepads, m);
    }
  }

  // ---- A notepad created under its owner's category (postNotepadsHandler, prepopulate) ----

  lemma NotepadCreatedKeeps(users: map<Id, User>, cats: map<Id, Category>, notes: map<Id, Notepad>,
                            next: Id, np: Notepad)
    requires WellFormed(users, cats, notes, next) && Consistent(users, cats, notes)
    requires np.id == next && np.category in cats && cats[np.category].user == np.user && np.user in users
    ensures Consistent(AddNotepadTo(users, np.user, next), Bumped(cats, np.category, 1), notes[next := np])
  {
    var cats', notes' := Bumped(cats, np.category, 1), notes[next := np];
    forall c | c in cats' ensures cats'[c].notepadsCount == |Matching(notes', cats'[c].user, c)| {
      CreatedCountAt(cats, notes, next, np, c);
    }
    assert CountsMatch(cats', notes');
    forall n | n in notes' ensures notes'[n].category in cats' && cats'[notes'[n].category].user == notes'[n].user {
      if n != next {
        assert notes'[n] == notes[n];
      }
    }
    assert NoOrphans(cats', notes');
    OwnersKeptRefer(users, cats, notes, cats', notes');
    assert ListsReferTo(np.user, users[np.user], cats, notes);
    NotepadAppendedRefer(users, cats', notes', np.user, next);
  }

  /** One category's counter after a creation still counts its notepads. */
  lemma CreatedCountAt(cats: map<Id, Category>, notes: map<Id, Notepad>, next: Id, np: Notepad, c: Id)
    requires CountsMatch(cats, notes) && next !in notes && np.id == next
    requires np.category in cats && cats[np.category].user == np.user
    requires c in cats
    ensures var cats' := Bumped(cats, np.category, 1);
            c in cats' && cats'[c].user == cats[c].user
            && cats'[c].notepadsCount == |Matching(notes[next := np], cats[c].user, c)|
  {
    var before := Matching(notes, cats[c].user, c);
    MatchingInsert(notes, np, cats[c].user, c);
    assert cats[c].notepadsCount == |before|;
    if np.category == c {
      assert next !in before;
      assert |before + {next}| == |before| + 1;
    }
  }

  /** Appending an id of one of the user's own notepads, not yet listed,
      keeps the lists referring to owned records without duplicates. */
  lemma NotepadAppendedRefer(users: map<Id, User>, cats: map<Id, Category>, notes: map<Id, Notepad>, uid: Id, nid: Id)
    requires ListsRefer(users, cats, notes)
    requires uid in users && nid in notes && notes[nid].user == uid && nid !in users[uid].notepads
    ensures ListsRefer(AddNotepadTo(users, uid, nid), cats, notes)
  {
    var users' := AddNotepadTo(users, uid, nid);
    forall u | u in users' ensures ListsReferTo(u, users'[u], cats, notes) {
      assert ListsReferTo(u, users[u], cats, notes);
      if u == uid {
        AppendedNoDup(users[uid].notepads, nid);
      }
    }
  }

  lemma NotepadCreatedListed(users: map<Id, User>, cats: map<Id, Category>, notes: map<Id, Notepad>,
                             next: Id, np: Notepad)
    requires AllListed(users, cats, notes)
    requires np.id == next && np.user in users
    ensures AllListed(AddNotepadTo(users, np.user, next), Bumped(cats, np.category, 1), notes[next := np])
  {
    var users', cats', notes' := AddNotepadTo(users, np.user, next), Bumped(cats, np.category, 1), notes[next := np];
    forall c | c in cats' ensures cats'[c].user in users' && c in users'[cats'[c].user].categories {
      assert c in users[cats[c].user].categories;
    }
    forall n | n in notes' ensures notes'[n].user in users' && n in users'[notes'[n].user].notepads {
      if n != next {
        assert n in users[notes[n].user].notepads;
      }
    }
  }

  // ---- A notepad edited, possibly moved to another category (putNotepadsIdHandler) ----

  /** The counter update of an edit: none when the category stays, else the
      old category's counter down by one, then the new one's up by one. */
  function MovedCounts(cats: map<Id, Category>, from: Id, to: Id): map<Id, Category> {
    if from == to then cats else Bumped(Bumped(cats, from, -1), to, 1)
  }

  lemma NotepadEditedKeeps(users: map<Id, User>, cats: map<Id, Category>, notes: map<Id, Notepad>,
                           id: Id, title: string, text: string, cid: Id)
    requires Consistent(users, cats, notes)
    requires id in notes && cid in cats && cats[cid].user == notes[id].user
    ensures Consistent(users, MovedCounts(cats, notes[id].category, cid), Edited(notes, id, title, text, cid))
  {
    var from := notes[id].category;
    var cats', notes' := MovedCounts(cats, from, cid), Edited(notes, id, title, text, cid);
    forall c | c in cats' ensures cats'[c].notepadsCount == |Matching(notes', cats'[c].user, c)| {
      EditedCountAt(cats, notes, id, title, text, cid, c);
    }
    assert CountsMatch(cats', notes');
    MovedCountsOwners(cats, from, cid);
    forall n | n in notes' ensures notes'[n].category in cats' && cats'[notes'[n].category].user == notes'[n].user {
      if n != id {
        assert notes'[n] == notes[n];
      }
    }
    OwnersKeptRefer(users, cats, notes, cats', notes');
  }

  /** Moving counts touches no key and no owner. */
  lemma MovedCountsOwners(cats: map<Id, Category>, from: Id, to: Id)
    ensures MovedCounts(cats, from, to).Keys == cats.Keys
    ensures forall c :: c in cats ==> MovedCounts(cats, from, to)[c].user == cats[c].user
  {
  }

  /** The users' lists refer to owned records as long as no record
      disappears and no owner changes. */
  lemma OwnersKeptRefer(users: map<Id, User>, cats: map<Id, Category>, notes: map<Id, Notepad>,
                        cats': map<Id, Category>, notes': map<Id, Notepad>)
    requires ListsRefer(users, cats, notes)
    requires forall c :: c in cats ==> c in cats' && cats'[c].user == cats[c].user
    requires forall n :: n in notes ==> n in notes' && notes'[n].user == notes[n].user
    ensures ListsRefer(users, cats', notes')
  {
    forall u | u in users ensures ListsReferTo(u, users[u], cats', notes') {
      assert ListsReferTo(u, users[u], cats, notes);
    }
  }

  /** One category's counter after an edit still counts its notepads. */
  lemma EditedCountAt(cats: map<Id, Category>, notes: map<Id, Notepad>,
                      id: Id, title: string, text: string, cid: Id, c: Id)
    requires CountsMatch(cats, notes) && NoOrphans(cats, notes)
    requires id in notes && cid in cats && cats[cid].user == notes[id].user
    requires c in cats
    ensures var cats' := MovedCounts(cats, notes[id].category, cid);
            c in cats' && cats'[c].user == cats[c].user &&
            cats'[c].notepadsCount == |Matching(Edited(notes, id, title, text, cid), cats[c].user, c)|
  {
    var from := notes[id].category;
    MovedCountAt(cats, from, cid, c);
    EditedMatchingSize(notes, id, title, text, cid, cats[c].user, c);
  }

  /** How much an edit moving a notepad from category `from` to `to` changes
      category c's counter. */
  function Shift(c: Id, from: Id, to: Id): int {
    (if c == to && from != to then 1 else 0) - (if c == from && from != to then 1 else 0)
  }

  lemma MovedCountAt(cats: map<Id, Category>, from: Id, to: Id, c: Id)
    requires c in cats && to in cats
    ensures var cats' := MovedCounts(cats, from, to);
            c in cats' && cats'[c].user == cats[c].user
            && cats'[c].notepadsCount == cats[c].notepadsCount + Shift(c, from, to)
  {
  }

  /** The number of owner's notepads in category c after the edit moves
      with c's counter; a category of another owner is neither the source
      nor the target of the move. */
  lemma EditedMatchingSize(notes: map<Id, Notepad>, id: Id, title: string, text: string, cid: Id,
                           owner: Id, c: Id)
    requires id in notes
    requires owner != notes[id].user ==> c != cid && c != notes[id].category
    ensures |Matching(Edited(notes, id, title, text, cid), owner, c)|
         == |Matching(notes, owner, c)| + Shift(c, notes[id].category, cid)
  {
    var from := notes[id].category;
    var before, after := Matching(notes, owner, c), Matching(Edited(notes, id, title, text, cid), owner, c);
    MatchingEdit(notes, id, title, text, cid, owner, c);
    if notes[id].user == owner && cid == c {
      if from != c {
        assert id !in before;
        assert |before + {id}| == |before| + 1;
      } else {
        assert id in before;
        assert before + {id} == before;
      }
    } else if from == c && notes[id].user == owner {
      assert id in before;
      assert |before - {id}| == |before| - 1;
    } else {
      assert id !in before;
      assert before - {id} == before;
    }
  }

  lemma NotepadEditedListed(users: map<Id, User>, cats: map<Id, Category>, notes: map<Id, Notepad>,
                            id: Id, title: string, text: string, cid: Id)
    requires AllListed(users, cats, notes)
    requires id in notes
    ensures AllListed(users, MovedCounts(cats, notes[id].category, cid), Edited(notes, id, title, text, cid))
  {
    var cats', notes' := MovedCounts(cats, notes[id].category, cid), Edited(notes, id, title, text, cid);
    forall c | c in cats' ensures cats'[c].user in users && c in users[cats'[c].user].categories {
      assert c in users[cats[c].user].categories;
    }
    forall n | n in notes' ensures notes'[n].user in users && n in users[notes'[n].user].notepads {
      assert n in users[notes[n].user].notepads;
    }
  }

  // ---- A notepad deleted (deleteNotepadsIdHandler) ----

  lemma NotepadDeletedKeeps(users: map<Id, User>, cats: map<Id, Category>, notes: map<Id, Notepad>, id: Id)
    requires Consistent(users, cats, notes)
    requires id in notes
    ensures Consistent(PullNotepads(users, notes[id].user, {id}), Bumped(cats, notes[id].category, -1), notes - {id})
  {
    var np := notes[id];
    var users', cats', notes' := PullNotepads(users, np.user, {id}), Bumped(cats, np.category, -1), notes - {id};
    forall c | c in cats' ensures cats'[c].notepadsCount == |Matching(notes', cats'[c].user, c)| {
      var owner := cats[c].user;
      MatchingRemove(notes, {id}, owner, c);
      if np.category == c {
        assert id in Matching(notes, owner, c);
      } else {
        assert id !in Matching(notes, owner, c);
      }
    }
    assert CountsMatch(cats', notes');
    assert NoOrphans(cats', notes');
    forall u | u in users' ensures ListsReferTo(u, users'[u], cats', notes') {
      assert ListsReferTo(u, users[u], cats, notes);
    }
  }

  lemma NotepadDeletedListed(users: map<Id, User>, cats: map<Id, Category>, notes: map<Id, Notepad>, id: Id)
    requires AllListed(users, cats, notes)
    requires id in notes
    ensures AllListed(PullNotepads(users, notes[id].user, {id}), Bumped(cats, notes[id].category, -1), notes - {id})
  {
    var np := notes[id];
    var users', cats', notes' := PullNotepads(users, np.user, {id}), Bumped(cats, np.category, -1), notes - {id};
    forall c | c in cats' ensures cats'[c].user in users' && c in users'[cats'[c].user].categories {
      assert c in users[cats[c].user].categories;
    }
    forall n | n in notes' ensures notes'[n].user in users' && n in users'[notes'[n].user].notepads {
      assert n in users[notes[n].user].notepads;
    }
  }

  /** Deleting a notepad that its owner's list holds shortens that list by
      exactly one. */
  lemma {:induction false} NotepadDeleteShrinks(users: map<Id, User>, cats: map<Id, Category>,
                                                notes: map<Id, Notepad>, id: Id)
    requires Consistent(users, cats, notes)
    requires id in notes && notes[id].user in users && id in users[notes[id].user].notepads
    ensures |PullNotepads(users, notes[id].user, {id})[notes[id].user].notepads|
         == |users[notes[id].user].notepads| - 1
  {
    var u := notes[id].user;
    assert ListsReferTo(u, users[u], cats, notes);
    PulledLength(users[u].notepads, {id});
  }

  // ---- Onboarding (notepadsUtils.js prepopulate) ----

  /** prepopulate's end state: a fresh category with counter 1 holding one
      fresh notepad, both ids appended to the user. */
  lemma OnboardingKeeps(users: map<Id, User>, cats: map<Id, Category>, notes: map<Id, Notepad>,
                        next: Id, uid: Id, name: string, title: string, text: string)
    requires WellFormed(users, cats, notes, next) && uid in users
    requires Consistent(users, cats, notes)
    ensures var u := users[uid];
            var c := Category(next, name, uid, 1);
            var np := Notepad(next + 1, title, text, next, uid);
            Consistent(users[uid := u.(categories := u.categories + [next], notepads := u.notepads + [next + 1])],
                       cats[next := c], notes[next + 1 := np])
  {
    var u := users[uid];
    var users1, cats1 := AddCategoryTo(users, uid, next), cats[next := Category(next, name, uid, 0)];
    CategoryCreatedKeeps(users, cats, notes, next, name, uid);
    var np := Notepad(next + 1, title, text, next, uid);
    NotepadCreatedKeeps(users1, cats1, notes, next + 1, np);
    assert AddNotepadTo(users1, uid, next + 1)
        == users[uid := u.(categories := u.categories + [next], notepads := u.notepads + [next + 1])];
    assert Bumped(cats1, next, 1) == cats[next := Category(next, name, uid, 1)];
  }

  lemma OnboardingListed(users: map<Id, User>, cats: map<Id, Category>, notes: map<Id, Notepad>,
                         next: Id, uid: Id, name: string, title: string, text: string)
    requires uid in users && AllListed(users, cats, notes)
    ensures var u := users[uid];
            var c := Category(next, name, uid, 1);
            var np := Notepad(next + 1, title, text, next, uid);
            AllListed(users[uid := u.(categories := u.categories + [next], notepads := u.notepads + [next + 1])],
                      cats[next := c], notes[next + 1 := np])
  {
    var u := users[uid];
    var users1, cats1 := AddCategoryTo(users, uid, next), cats[next := Category(next, name, uid, 0)];
    CategoryCreatedListed(users, cats, notes, next, name, uid);
    var np := Notepad(next + 1, title, text, next, uid);
    NotepadCreatedListed(users1, cats1, notes, next + 1, np);
    assert AddNotepadTo(users1, uid, next + 1)
        == users[uid := u.(categories := u.categories + [next], notepads := u.notepads + [next + 1])];
    assert Bumped(cats1, next, 1) == cats[next := Category(next, name, uid, 1)];
  }
}
