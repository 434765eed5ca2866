# Todo collection manager

A model of the todo collection at the heart of the todo app's
`www/js/index.js`. The app keeps one global, ordered array `todos` of records
`{id, task, image, completed}`. Saving the item form either creates a
record (the id field is empty, not a number, or negative) or replaces the
record whose id it names. Checking a todo sets its `completed` flag. Deleting
splices it out and reports whether it was completed. Clearing empties the
array. The screen shows either the completed or the pending todos. At
start-up, whatever storage holds becomes `[]` unless it is an array. A picked
file must have an image media type, and a payload over 5,000,000 characters
needs the user's confirmation.

Layout:

- `wrappers.dfy`: `Option`. A parsed id is `Option<int>`, and `None` stands for `NaN`.
- `todos.dfy` (module `Todos`): the `Todo` record, the lookup by id, the filter, and the collection each operation leaves behind, as functions on values.
- `todo_properties.dfy` (module `TodoProperties`): lemmas about those functions.
- `store.dfy` (module `TodoService`): class `TodoStore`, whose `todos` field the methods reassign in place (push, index assignment, field update, splice). Each method's `ensures` ties the new collection to the matching function of `Todos`, so every lemma there applies to the store. `EmptyStorageSession` replays a session from empty storage as a client of those contracts.
- `attachments.dfy` (module `Attachments`): the media-type and size checks.

Ids are NOT unique. A new record's id is the collection's current length
(`getLatestIndex`), so a create after a delete can reuse a live id. In a
collection built by creates alone (ids 0..n-1), deleting any record but the
last and then creating always does. The model keeps this scheme as written,
proves that the collision is reachable (`RemoveThenCreateDuplicatesId`) and
states no uniqueness invariant.

## Model

| member | source | states |
|---|---|---|
| Todos.TodoIndex | www/js/index.js:371-376 | the result is -1 exactly when no record has the id; otherwise it is the smallest index whose record has the id |
| Todos.LatestIndex | www/js/index.js:365-369 | the fresh id equals the collection's length, both for the empty collection and otherwise |
| Todos.FilterByCompletion | www/js/index.js:150-152 | a todo is in the view iff it is in the collection and its flag equals the requested one; the view is no longer than the collection |
| Todos.Restore | www/js/index.js:53-62 | after the parse-failure fallback and the truthiness and array tests, the collection is the stored array's records exactly when storage parsed to an array (the empty one included), and `[]` otherwise: a failed parse, `null`, a boolean, number, string or object |
| Todos.Save | www/js/index.js:71-98 | it creates exactly when the parsed id is NaN or negative, a refused id leaves the collection unchanged, and the length grows by one only on create |
| Todos.Completed | www/js/index.js:104-107 | completing never changes the collection's length |
| Todos.Removed | www/js/index.js:112-119 | the length drops by one iff some record has the id, otherwise it is unchanged |
| TodoProperties.SameIdsSameIndex | www/js/index.js:371-376 | the lookup depends only on the ids and their positions |
| TodoProperties.SaveCreatesAtEnd | www/js/index.js:73-97 | a create appends one record with id = old length, `completed = false`, the form's task, and the form's picture or `img/default.svg` when it has none, and leaves every earlier record as it was |
| TodoProperties.SaveReplacesFirstMatch | www/js/index.js:73-90 | an update with a present id replaces only the first record with that id (its picture the form's, or `img/default.svg` when it has none), keeps the length and every other position, and reports that index |
| TodoProperties.SaveResetsCompletion | www/js/index.js:73-90 | the record an update writes is never completed, whatever the old record's flag |
| TodoProperties.SaveUnknownIdRefused | www/js/index.js:86-93 | an update with a non-negative id that no record has reports "Invalid Index" and leaves the collection unchanged |
| TodoProperties.CompleteMissingIsNoOp | www/js/index.js:104-107 | completing an absent id, or in an empty collection, changes nothing |
| TodoProperties.CompleteFirstMatch | www/js/index.js:104-107 | completing a present id sets the flag of its first record to true and changes nothing else |
| TodoProperties.CompleteKeepsIds | www/js/index.js:107 | completing leaves every id at its position |
| TodoProperties.CompleteIdempotent | www/js/index.js:104-107 | completing the same id twice gives the same collection as completing it once |
| TodoProperties.RemoveMissingIsNoOp | www/js/index.js:112-119 | removing an absent id, or from an empty collection, changes nothing |
| TodoProperties.RemoveFirstMatch | www/js/index.js:112-119 | removing a present id takes out exactly its first record: the records before it stay, the ones after it shift down by one in order, and the multiset loses exactly that record |
| TodoProperties.FilterPartition | www/js/index.js:150-152 | the completed view and the pending view together hold every record exactly once |
| TodoProperties.FilterPreservesOrder | www/js/index.js:150-152 | a view is the collection's records at strictly increasing positions, and it includes every position whose flag matches |
| TodoProperties.CreateKeepsNumbering | www/js/index.js:365-369 | a collection built by creates alone has each record's id equal to its position |
| TodoProperties.RemoveThenCreateDuplicatesId | www/js/index.js:365-369 | in such a collection, removing any record but the last and then creating gives two records with the same id |
| TodoService.TodoStore.Load | www/js/index.js:53-62 | the store starts with `Restore` of what storage parsed to, so with `[]` unless that is an array |
| TodoService.TodoStore.SaveTodoItem | www/js/index.js:71-102 | the new collection and outcome are those of `Save`: append on create, nothing on a refused id |
| TodoService.TodoStore.CompleteTodo | www/js/index.js:104-110 | the new collection is `Completed` of the old one, of the same length |
| TodoService.TodoStore.RemoveTodo | www/js/index.js:112-122 | the new collection is `Removed` of the old one; the result is the removed record's old flag, or None when nothing was removed |
| TodoService.TodoStore.ClearTodos | www/js/index.js:134-138 | the collection becomes empty |
| Attachments.MediaTypePrefix | www/js/index.js:323-325 | the result is the prefix of the media type before its first '/', or the whole type when it has no '/' |
| Attachments.IsFileImageExactly | www/js/index.js:323-325 | a file is an image iff its media type is "image" or starts with "image/" |
| Attachments.AttachedPicture | www/js/index.js:304-305 | the picture becomes the payload or stays as it was; a payload of at most 5,000,000 characters always becomes the picture, a longer one only when the user confirms, and otherwise the current picture stays |

## Left out

- Rendering (`renderTodoElements` after the filter, `showEmptyTodoContainer`, `modifyTodo`'s form filling) and the modal, button and `#nav-clip` chrome: presentation only. The view flag that `removeTodo` passes on is the `Option<bool>` that `RemoveTodo` returns (`None` for `undefined`).
- The `isDisabled(btnSaveTodoItem)` guard at the top of `saveTodoItem`: it reads button state, which is UI. The model starts where the guard lets the save through.
- Reading the form: `parseInt` of the id field is the `rawId` parameter (None for NaN), and the picture's `src` is the `image` parameter ("" when it has none).
- `localStorage` and JSON (de)serialisation in `initData` and `saveToLocalStorage`: foreign I/O. `initData` is modelled from the parse outcome on: a throw or a JSON value, then the fallback and the two tests of its line 61. A loaded array is taken to hold well-formed records, since the source does not check its elements. Write failures and the alerts are not modelled.
- The camera (`turnOnCamera`, `turnOfCamera`, `rotateCamera`, `takePicture`): asynchronous browser media APIs.
- `browseImage` and its `FileReader`: asynchronous browser I/O. The type check and the size decision on the read payload are modelled. The confirmation dialog is the `userConfirms` parameter of `AttachedPicture`. The empty-file-list branch and enabling the remove-picture button are not modelled.
- `Attachments.IsFileImage`: the source's `file && …` short-circuit for a missing file is not modelled. Its one caller only passes a present file.
- `isAndroidOS` and `hasMediaDevicesApi`: platform detection.
- Id uniqueness: the source does not maintain it, so no member states it (see `RemoveThenCreateDuplicatesId`).
