# Notepads backend: the consistency protocol across users, categories and notepads

This project models the part of the notepads backend that keeps three document
collections in step. The collections are users, categories and notepads. Each
category carries a denormalised `notepadsCount`, and each user carries the id
lists `categories` and `notepads`. The route handlers update these fields by
hand, one store call at a time:

- `src/routes/categories.js`: list, create, read, rename and cascading delete
  of categories;
- `src/notepadsUtils.js`: `prepopulate`, the onboarding of a new user, with
  its compensation on failure;
- `test/server/routes/notepads_test.js`: the notepad handlers as their tests fix
  them (read by id, create, update with a move between categories, delete,
  and the read that groups notepads by category), plus the fixture loop that
  seeds a category with notepads.

The model has these parts:

- **Store.** `Models.Store` is a class whose fields are the three collections,
  as maps from id to record, and an id counter. Each ledger primitive
  (`User.addCategory`, `Category.getByIdForUser`, `Notepad.find`, ...) is a
  method or function of the store. It states its whole effect on the three
  maps, through a value function of module `Ledgers` where one exists.
- **Handlers.** A handler is a method that changes nothing when it is only a
  read. It takes a `failAt` parameter: the `failAt`-th store call of the flow
  rejects (0 means no call rejects). The one exception is
  `Notepads.GetNotepadsHandler`, a function with no `failAt`, whose failure
  path is not modelled. Each handler's contract states the exact
  state after every possible rejection point. So it says what a
  partial failure leaves behind, and, for `prepopulate`, that the
  compensation undoes it.
- **Invariants.** Module `Consistency` defines the invariants:
  - every counter equals the number of its owner's notepads in the category;
  - no notepad points at a missing category or at a category of another user;
  - the users' lists name only records they own, without duplicates (`Consistent`);
  - the converse: every record is in its owner's list (`AllListed`).
- **Preservation.** For each flow, a lemma shows that the flow's successful
  run keeps each invariant. Every writing handler ensures that success
  preserves both.

Ids are unbounded naturals drawn from the counter. Counters are unbounded
integers and are never clamped.

One difference between the code and a plain reading of the cascade: in
`deleteIdHandler`, the guards `if (notepads)` and `if (ns)`
(src/routes/categories.js:112, 118) test an array, which is always truthy.
So the `Notepad.removeAsync` and `User.removeNotepads` calls always run, even
for a category without notepads, where they change nothing
(`Records.PulledAbsent`). The model follows the code: those are always calls 5
and 6, and a rejection injected there is observable.

## Model

| member | source | states |
|---|---|---|
| Records.Pulled | src/routes/categories.js:120 | `$pull` keeps exactly the ids not pulled, in order. It never lengthens the list and keeps a duplicate-free list duplicate-free. |
| Records.PulledAbsent | src/routes/categories.js:117-121 | Pulling ids that are not in the list leaves it as it was. So the always-run removal of an empty id list changes nothing. |
| Records.PulledLength | src/routes/categories.js:120 | On a duplicate-free list, pulling ids that are all present shortens it by exactly their number. |
| Records.AppendedNoDup | src/notepadsUtils.js:50 | Appending an id that is not yet listed keeps the list free of duplicates. |
| Ledgers.CategoriesOf | src/routes/categories.js:22 | The user's categories have one entry per category the user owns, and every entry is owned by the user. |
| Ledgers.CategoriesOfExact | src/routes/categories.js:19-32 | The listing holds each of the user's categories exactly once, as stored and in ascending id order, and no category of another user. |
| Ledgers.CascadeEffect | src/routes/categories.js:89-124 | After the full cascade, the category is gone from the collection and from its owner's list. Exactly the owner's notepads of that category are gone from the collection and from the owner's list. Other users, other categories and the remaining notepads are unchanged. |
| Ledgers.MovedCounters | test/server/routes/notepads_test.js:427-435 | Moving a notepad between two different categories lowers the source counter by one and raises the target counter by one. |
| Ledgers.MatchingInsert | test/server/routes/notepads_test.js:48-54 | Inserting a fresh notepad adds its id to exactly one (owner, category) group. |
| Ledgers.MatchingRemove | src/routes/categories.js:114 | Removing records removes their ids from every group and changes nothing else. |
| Ledgers.MatchingEdit | test/server/routes/notepads_test.js:379-446 | An edit moves the notepad's id from its old group to the group of its new category. |
| Models.Store.UserCreate | test/server/routes/notepads_test.js:22-26 | A fresh user with empty lists is added under a fresh id; nothing else changes. |
| Models.Store.UserFindById | src/notepadsUtils.js:17 | The user is found exactly when stored, and is returned as stored. |
| Models.Store.UserAddCategory | src/routes/categories.js:40 | Only the owner's category list changes, by appending the id. The updated user is returned. |
| Models.Store.UserRemoveCategory | src/routes/categories.js:98 | The category id is pulled from the user's list; nothing else changes. |
| Models.Store.UserAddNotepad | src/notepadsUtils.js:50 | The notepad id is appended to the user's list; nothing else changes. |
| Models.Store.UserRemoveNotepads | src/routes/categories.js:120 | The notepad ids are pulled from the user's list; nothing else changes. |
| Models.Store.UserSetLists | src/notepadsUtils.js:68-78 | Both of the user's lists are overwritten with the given ones; nothing else changes. |
| Models.Store.CategoryAdd | src/routes/categories.js:37 | A category with a zero counter is stored under a fresh id; nothing else changes. |
| Models.Store.CategoryGetByUserId | src/routes/categories.js:22 | One entry per category the user owns, each owned by the user. |
| Models.Store.CategoryGetByIdForUser | src/routes/categories.js:50 | The category is found exactly when it is stored and owned by the user, and is returned as stored. |
| Models.Store.CategoryUpdate | src/routes/categories.js:67 | The category is renamed only when the user owns it. The store is untouched otherwise. |
| Models.Store.CategoryRemove | src/routes/categories.js:90 | The category is deleted by id, without an owner check, and the removed record is returned. |
| Models.Store.CategoryIncreaseNotepadsCount | src/notepadsUtils.js:48 | Only that category's counter rises by one. |
| Models.Store.CategoryDecreaseNotepadsCount | test/server/routes/notepads_test.js:427-431 | Only that category's counter falls by one, unclamped. |
| Models.Store.NotepadCreate | src/notepadsUtils.js:30-46 | The notepad is stored under a fresh id exactly when title and text are both given. Otherwise the store is untouched. |
| Models.Store.NotepadGetByIdForUser | test/server/routes/notepads_test.js:237-246 | The notepad is found exactly when it is stored and owned by the user. |
| Models.Store.NotepadFind | src/routes/categories.js:109 | Exactly the ids of the user's notepads in the category. |
| Models.Store.NotepadUpdate | test/server/routes/notepads_test.js:356-377 | Only that notepad's title, text and category are replaced. |
| Models.Store.NotepadRemove | src/routes/categories.js:114 | Exactly the given ids leave the notepad collection. |
| Categories.GetHandler | src/routes/categories.js:19-32 | Unless the query rejects, the answer holds each of the user's categories once, as stored, in ascending id order, and nothing else. |
| Categories.PostHandler | src/routes/categories.js:34-47 | The category is created with a zero counter and then appended to its owner's list. A rejection of the second call leaves the unlinked category behind. Success keeps both invariants. |
| Categories.GetIdHandler | src/routes/categories.js:49-63 | The category is returned exactly when the user owns it; otherwise the answer is the soft 404. |
| Categories.PutIdHandler | src/routes/categories.js:65-77 | Only the name of an owned category changes. Otherwise the answer is the soft 404 and the store is untouched. Both invariants are kept. |
| Categories.DeleteIdHandler | src/routes/categories.js:79-130 | A category the user does not own stops the chain before any write. Otherwise the cascade runs in order. The state after each rejection point is stated. Success removes exactly the category and its owner's notepads in it, from the collections and from the lists, and keeps both invariants. On a consistent store, the notepad count falls by the category's `notepadsCount`. When the owner's list held all those notepads, the list shrinks by the same number. |
| Consistency.CategoryCreatedKeeps | src/routes/categories.js:34-47 | Creating a category and linking it into its owner keeps the protocol invariant. |
| Consistency.CategoryCreatedListed | src/routes/categories.js:34-47 | The same flow keeps every record listed by its owner. |
| Consistency.CategoryDeletedKeeps | src/routes/categories.js:79-130 | The completed cascade keeps the protocol invariant: counters, no orphans, lists. |
| Consistency.CategoryDeletedListed | src/routes/categories.js:79-130 | The completed cascade keeps every record listed. |
| Consistency.CascadeSizes | src/routes/categories.js:106-121 | The cascade deletes exactly `notepadsCount` notepads. When the owner's list holds every deleted notepad, it removes exactly that many ids from that list. Complete lists are one way the list comes to hold them. |
| Consistency.NotepadCreatedKeeps | test/server/routes/notepads_test.js:276-311 | Create, counter + 1 and append keep the protocol invariant. |
| Consistency.CreatedCountAt | test/server/routes/notepads_test.js:296-298 | After a creation, each category's counter still counts its notepads. |
| Consistency.NotepadAppendedRefer | test/server/routes/notepads_test.js:301-303 | Appending an own, unlisted notepad id keeps the lists referring to owned records without duplicates. |
| Consistency.NotepadCreatedListed | test/server/routes/notepads_test.js:276-311 | A creation keeps every record listed. |
| Consistency.NotepadEditedKeeps | test/server/routes/notepads_test.js:379-446 | An edit that moves a notepad into another category of its owner keeps the protocol invariant, given the matching counter moves. |
| Consistency.EditedCountAt | test/server/routes/notepads_test.js:427-435 | After a move, each category's counter still counts its notepads. |
| Consistency.EditedMatchingSize | test/server/routes/notepads_test.js:427-435 | A move changes the number of notepads in each category by exactly the counter change. |
| Consistency.MovedCountAt | test/server/routes/notepads_test.js:427-435 | The counter change a move makes at each category: -1 at the source, +1 at the target, 0 elsewhere. |
| Consistency.MovedCountsOwners | test/server/routes/notepads_test.js:379-446 | Moving counters changes no key and no owner. |
| Consistency.OwnersKeptRefer | test/server/routes/notepads_test.js:379-446 | The lists stay valid when no record disappears and no owner changes. |
| Consistency.NotepadEditedListed | test/server/routes/notepads_test.js:379-446 | An edit keeps every record listed. |
| Consistency.NotepadDeletedKeeps | test/server/routes/notepads_test.js:463-493 | Remove, counter - 1 and pull keep the protocol invariant. |
| Consistency.NotepadDeletedListed | test/server/routes/notepads_test.js:463-493 | A deletion keeps every record listed. |
| Consistency.NotepadDeleteShrinks | test/server/routes/notepads_test.js:483-484 | Deleting a notepad that its owner's list holds shortens that list by exactly one. |
| Consistency.OnboardingKeeps | src/notepadsUtils.js:12-56 | The completed onboarding (category, link, notepad, counter + 1, link) keeps the protocol invariant. |
| Consistency.OnboardingListed | src/notepadsUtils.js:12-56 | The completed onboarding keeps every record listed. |
| NotepadsUtils.Prepopulate | src/notepadsUtils.js:9-85 | A missing user id or an unknown user fails before any write. Success creates exactly one category, whose counter is 1, and one notepad in it, both appended to the user's lists. A rejection at any later step is compensated: all three collections end as they began. Success keeps both invariants. |
| NotepadsUtils.Chain | src/notepadsUtils.js:12-56 | For each rejection point, what the chain has written and which of user snapshot, category and notepad the catch block sees. |
| NotepadsUtils.Compensate | src/notepadsUtils.js:57-84 | The catch block deletes the created category and notepad, if any, and overwrites the user's lists with the snapshot. |
| Notepads.GetNotepadByIdHandler | test/server/routes/notepads_test.js:215-248 | The notepad is returned exactly when an id is given and the user owns that notepad; otherwise the answer is the soft 404. |
| Notepads.NotepadsWithExact | test/server/routes/notepads_test.js:201-212 | An entry's notepads list each given notepad exactly once, as stored, in ascending id order. |
| Notepads.GetNotepadsHandler | test/server/routes/notepads_test.js:145-212 | One entry per category the user owns, whether or not the user's list holds it, each entry a category of that user. The lemmas Grouped, GroupedComplete, GroupedCounts and GroupedEmpty add the ascending id order, the stored records and exactly the user's notepads in each. |
| Notepads.GroupedEntries | test/server/routes/notepads_test.js:165-199 | The grouping read has one entry per owned category, in ascending id order. Owned includes categories missing from the user's list. |
| Notepads.Grouped | test/server/routes/notepads_test.js:145-212 | Every entry is an owned category as stored, in ascending id order, with exactly the user's notepads in it. |
| Notepads.GroupedComplete | test/server/routes/notepads_test.js:165-199 | Every owned category has an entry. |
| Notepads.GroupedCounts | test/server/routes/notepads_test.js:201-212 | With the counters in step, each entry lists as many notepads as its counter says. |
| Notepads.GroupedEmpty | test/server/routes/notepads_test.js:146-199 | A user who owns no category gets the empty list. A category without notepads has an empty notepads list. |
| Notepads.PostNotepadsHandler | test/server/routes/notepads_test.js:250-311 | A missing or foreign category is the soft 404 with no write. A missing title or text fails validation with no write. Otherwise the notepad is created, the counter rises by one and the id is appended to the user's list. Each rejection point's state is stated. Success keeps both invariants. |
| Notepads.PutNotepadsIdHandler | test/server/routes/notepads_test.js:314-446 | A missing parameter is a bad request, and a foreign or missing category or notepad is the soft 404, both with no write. Otherwise the notepad is edited. Only on a move, the old counter falls by one and the new one rises by one. Each rejection point's state is stated. Success keeps both invariants. |
| Notepads.DeleteNotepadsIdHandler | test/server/routes/notepads_test.js:450-493 | A missing or foreign notepad is the soft 404 with no write. Otherwise the notepad is removed, its counter falls by one and its id is pulled, and the answer is the record as read. When the owner's list held the id, that list shrinks by exactly one. Success keeps both invariants. |
| Notepads.IdsAppend | test/server/routes/notepads_test.js:51-53 | The ids of a longer list are the old ids plus the new one. |
| Notepads.SeedNotepads | test/server/routes/notepads_test.js:33-54 | The fixture loop creates one notepad per item, in order, under consecutive fresh ids. The category's counter rises by the number of items, the user's list gains their ids in order, and both invariants are kept. |
| Notepads.SeedOne | test/server/routes/notepads_test.js:50-53 | One round: create, counter + 1, append. Both invariants are kept. |
| Notepads.CreatedStep | test/server/routes/notepads_test.js:48-51 | A round adds the item's notepad under the next id. |
| Notepads.InsertedLast | test/server/routes/notepads_test.js:50 | Inserting one more notepad is one more map update. |
| Notepads.InsertedFacts | test/server/routes/notepads_test.js:48-54 | Inserting notepads with consecutive fresh ids adds exactly those keys and keeps every stored record. |
| Notepads.SeededStart | test/server/routes/notepads_test.js:48 | Before the first round, nothing has been added. |
| Notepads.SeededStep | test/server/routes/notepads_test.js:52-53 | Each round adds one to the counter and appends one id to the user's list. |

## Left out

- The Express router wiring and the test-only exports (src/routes/categories.js:133-158) are HTTP glue. So are `FacebookAuth.verifyAuth`, and the `checkAuth` and `insidecatsFromQueryString` middleware. Their outcome appears only as the result datatype.
- HTTP status codes become constructors: `Ok` is OK, `NotFound` is the soft 404 (NO_CONTENT), `BadRequest` is BAD_REQUEST, and `Failure` is INTERNAL_SERVER_ERROR.
- The notepad router, src/routes/notepads.js, is not part of this model. The notepad handlers are reconstructed from its tests. The order of their store calls is inferred from that flow.
- The models, src/models/user.js, category.js and notepad.js, are not part of this model. Each primitive is modelled by the effect its name and its use describe.
- The branches at src/routes/categories.js:93-95 and 101-103 are left out. They are reached only when another request deletes the category or the user between two calls. Concurrency is not modelled: every flow runs alone.
- The bluebird cancellation at src/routes/categories.js:87 is modelled as an early return before any write.
- NotepadsUtils.Compensate: the compensation calls in the catch block (src/notepadsUtils.js:61, 65, 69-77) are not awaited. They also pass no callback and never call `exec()`, so under Mongoose they may never reach the store at all. The model gives the effect the catch block intends: it applies the calls in order, before the failure is reported, and they cannot fail themselves. The Mongoose version is not part of this model.
- The document store's ObjectIds are modelled as consecutive naturals. Any fresh, distinct ids would do. Time stamps and `facebookId`/`photo` are not modelled.
- Logging (`console.error`) is not modelled.
- The wording of the welcome notepad's text is not modelled.
- Mongoose schema validation is modelled as presence only: a create without title or text is rejected and writes nothing. No other field rules are modelled.
- Ledgers.CategoriesOf: the document store promises no order for query results. The model returns ascending ids. The test accepts either order.
- Notepads.GetNotepadsHandler: it is a function without `failAt`, so a rejected `Notepad.find` (the 500 answer) is not modelled. Its order is ascending ids, as for Ledgers.CategoriesOf. It requires every record's id to equal its key. The store guarantees this; a caller holding the store's maps has it.
- Categories.PostHandler, Categories.DeleteIdHandler and Notepads.PostNotepadsHandler require the requesting user to exist. The request user comes from the session's deserialised user record.
- Every writing handler keeps the invariants only on success. A rejection part-way can leave an unlinked category, a counter one off, or a listed id with no record. The contracts state these residues exactly.
- Notepads.SeedNotepads does not model the test's reassignment of the local `testCat` and `testUser` snapshots; it models only their effect on the store.
