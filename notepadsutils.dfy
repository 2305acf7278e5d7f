/**
 Account onboarding (src/notepadsUtils.js): prepopulate gives a new user a
 sample category holding one "Read me" notepad, in six dependent steps. On
 any rejection it compensates: it deletes what it created, overwrites the
 user's two lists with the snapshot taken when the user was loaded, and
 fails with the original error.
 */
module NotepadsUtils {
  import opened Records
  import opened Ledgers
  import Consistency
  import opened Models

  const SampleCategoryName: string := "Sample category"
  const ReadMeTitle: string := "Read me"
  /** The welcome notepad's body; its wording is not part of the model. */
  const WelcomeText: string := "(usage instructions)"

  /** prepopulate's result: the updated user, the updated category and the
      created notepad. */
  datatype Onboarded = Onboarded(user: User, category: Category, notepad: Notepad)

  /** prepopulate. Store calls: 1 User.findOneAsync, 2 Category.createAsync,
      3 User.addCategory, 4 Notepad.createAsync,
      5 Category.increaseNotepadsCountById, 6 User.addNotepad. uid None is a
      missing (falsy) user id. */
  method Prepopulate(s: Store, uid: Option<Id>, failAt: nat) returns (r: Result<Onboarded>)
    requires s.WellFormed()
    modifies s
    ensures s.WellFormed()
    // failures before the first write leave the store as it was
    ensures uid.None? ==> r == Failure(InvalidUserId) && unchanged(s)
    ensures uid.Some? && failAt == 1 ==> r == Failure(StoreError(1)) && unchanged(s)
    ensures uid.Some? && failAt != 1 && uid.value !in old(s.users) ==> r == Failure(UserNotFound) && unchanged(s)
    // success: exactly one new category and one new notepad, both linked into the user
    ensures uid.Some? && uid.value in old(s.users) && Reaches(failAt, 6) ==>
              var u0, cid := old(s.users[uid.value]), old(s.nextId);
              var nid := cid + 1;
              && r.Ok?
              && r.value.category == Category(cid, SampleCategoryName, uid.value, 1)
              && r.value.notepad == Notepad(nid, ReadMeTitle, WelcomeText, cid, uid.value)
              && r.value.user == u0.(categories := u0.categories + [cid], notepads := u0.notepads + [nid])
              && cid !in old(s.categories) && nid !in old(s.notepads)
              && s.categories == old(s.categories)[cid := r.value.category]
              && s.notepads == old(s.notepads)[nid := r.value.notepad]
              && s.users == old(s.users)[uid.value := r.value.user]
    // a rejection after the user was loaded is compensated completely
    ensures uid.Some? && uid.value in old(s.users) && 2 <= failAt <= 6 ==>
              && r == Failure(StoreError(failAt))
              && s.users == old(s.users) && s.categories == old(s.categories) && s.notepads == old(s.notepads)
    ensures r.Ok? && old(s.Valid()) ==> s.Valid()
    ensures r.Ok? && old(s.Listed()) ==> s.Listed()
  {
    ghost var users0, cats0, notes0, next0 := s.users, s.categories, s.notepads, s.nextId;
    var userOrig, category, notepad;
    r, userOrig, category, notepad := Chain(s, uid, failAt);
    if r.Ok? {
      ghost var u0, cid := users0[uid.value], next0;
      assert u0.id == uid.value;
      assert s.users == users0[uid.value := u0.(categories := u0.categories + [cid], notepads := u0.notepads + [cid + 1])];
      assert s.categories == cats0[cid := Category(cid, SampleCategoryName, uid.value, 1)];
      assert s.notepads == notes0[cid + 1 := Notepad(cid + 1, ReadMeTitle, WelcomeText, cid, uid.value)];
      if Consistency.Consistent(users0, cats0, notes0) {
        Consistency.OnboardingKeeps(users0, cats0, notes0, next0, uid.value, SampleCategoryName, ReadMeTitle, WelcomeText);
      }
      if Consistency.AllListed(users0, cats0, notes0) {
        Consistency.OnboardingListed(users0, cats0, notes0, next0, uid.value, SampleCategoryName, ReadMeTitle, WelcomeText);
      }
      return;
    }
    Compensate(s, userOrig, category, notepad);
    if uid.Some? && uid.value in users0 && 2 <= failAt <= 6 {
      if category.Some? {
        assert s.categories == cats0;
      }
      if notepad.Some? {
        assert s.notepads == notes0;
      }
      assert s.users == users0;
    }
  }

  /** The generator body of prepopulate, up to the first rejection. Its
      out-parameters are the variables the catch block reads: the snapshot
      of the user as loaded and the category and notepad created so far. */
  method Chain(s: Store, uid: Option<Id>, failAt: nat)
    returns (r: Result<Onboarded>, userOrig: Option<User>, category: Option<Category>, notepad: Option<Notepad>)
    requires s.WellFormed()
    modifies s
    ensures s.WellFormed()
    ensures r.Ok? || r.Failure?
    ensures uid.None? || failAt == 1 || uid.value !in old(s.users) ==>
              && r == Failure(if uid.None? then InvalidUserId else if failAt == 1 then StoreError(1) else UserNotFound)
              && userOrig.None? && category.None? && notepad.None?
              && unchanged(s)
    ensures uid.Some? && failAt != 1 && uid.value in old(s.users) ==>
              var u0, cid := old(s.users[uid.value]), old(s.nextId);
              var nid := cid + 1;
              && cid !in old(s.categories) && nid !in old(s.notepads)
              && userOrig == Some(u0)
              && category == (if Reaches(failAt, 2)
                              then Some(Category(cid, SampleCategoryName, u0.id, if Reaches(failAt, 5) then 1 else 0))
                              else None)
              && notepad == (if Reaches(failAt, 4) then Some(Notepad(nid, ReadMeTitle, WelcomeText, cid, u0.id)) else None)
              && s.categories == (if category.Some? then old(s.categories)[cid := category.value] else old(s.categories))
              && s.notepads == (if notepad.Some? then old(s.notepads)[nid := notepad.value] else old(s.notepads))
              && s.users == (if Reaches(failAt, 6)
                             then old(s.users)[u0.id := u0.(categories := u0.categories + [cid], notepads := u0.notepads + [nid])]
                             else if Reaches(failAt, 3)
                             then old(s.users)[u0.id := u0.(categories := u0.categories + [cid])]
                             else old(s.users))
              && r == (if Reaches(failAt, 6) then Ok(Onboarded(s.users[u0.id], category.value, notepad.value))
                       else Failure(StoreError(failAt)))
  {
    userOrig, category, notepad := None, None, None;
    if uid.None? {
      return Failure(InvalidUserId), userOrig, category, notepad;
    }
    if failAt == 1 {
      return Failure(StoreError(1)), userOrig, category, notepad;
    }
    var user := s.UserFindById(uid.value);
    userOrig := user;
    if user.None? {
      return Failure(UserNotFound), userOrig, category, notepad;
    }
    if failAt == 2 {
      return Failure(StoreError(2)), userOrig, category, notepad;
    }
    var created := s.CategoryAdd(SampleCategoryName, user.value.id);
    category := Some(created);
    if failAt == 3 {
      return Failure(StoreError(3)), userOrig, category, notepad;
    }
    user := s.UserAddCategory(user.value.id, created.id);
    if failAt == 4 {
      return Failure(StoreError(4)), userOrig, category, notepad;
    }
    notepad := s.NotepadCreate(Some(ReadMeTitle), Some(WelcomeText), created.id, user.value.id);
    if failAt == 5 {
      return Failure(StoreError(5)), userOrig, category, notepad;
    }
    category := s.CategoryIncreaseNotepadsCount(created.id);
    if failAt == 6 {
      return Failure(StoreError(6)), userOrig, category, notepad;
    }
    user := s.UserAddNotepad(user.value.id, notepad.value.id);
    r := Ok(Onboarded(user.value, category.value, notepad.value));
  }

  /** The catch block of prepopulate: delete the created category and
      notepad, if any, and overwrite the user's lists with the snapshot. */
  method Compensate(s: Store, userOrig: Option<User>, category: Option<Category>, notepad: Option<Notepad>)
    requires s.WellFormed()
    modifies s
    ensures s.WellFormed() && s.nextId == old(s.nextId)
    ensures s.categories == (if category.Some? then old(s.categories) - {category.value.id} else old(s.categories))
    ensures s.notepads == (if notepad.Some? then old(s.notepads) - {notepad.value.id} else old(s.notepads))
    ensures s.users == (if userOrig.Some?
                        then WithLists(old(s.users), userOrig.value.id, userOrig.value.categories, userOrig.value.notepads)
                        else old(s.users))
    ensures userOrig.None? && category.None? && notepad.None? ==> unchanged(s)
  {
    if category.Some? {
      var _ := s.CategoryRemove(category.value.id);
    }
    if notepad.Some? {
      s.NotepadRemove({notepad.value.id});
    }
    if userOrig.Some? {
      var _ := s.UserSetLists(userOrig.value.id, userOrig.value.categories, userOrig.value.notepads);
    }
  }
}
