# Suggestion board: a Dafny model of its core

The application is a small suggestion board. A Go backend stores topics, categories and suggestions in SQLite. It serves a topic as one tree: the topic, its categories, and under each category its suggestions. Two Angular pages show the list of topics and one topic, and keep their local lists in step with the server's answers.

This project models three parts of it and proves what they do.

- `records.dfy` (module `Records`) holds the backend's record types.
  - Every nullable Go field (a `*T`) is an `Option`.
  - A `Result` carries the faults that the backend reports by terminating.
  - A `Row` is the seven columns of the categories-left-join-suggestions query.
- `grouping.dfy` (module `Grouping`) models the loop of the topic handler that folds the joined rows into a list of categories.
  - `GroupJoinedRows` is the loop itself, with its inner search, `found` flag and `break`. It is proved equal to the fold `Group`.
  - `Group` is then proved against an independent description (`Expected`, `FirstIndex`, `SuggestionsFor`). Each category id of the rows comes out exactly once, in the order of its first row, with the header taken from that row. It holds exactly its rows' suggestions with non-null content, in row order.
- `store.dfy` (module `Store`) models the three tables with their foreign keys and cascades, and the handlers as one class `Database`. Each handler's transaction is one atomic method.
  - The creates assign the next AUTOINCREMENT id. That id is never reused and is larger than every id assigned before.
  - The creates check the foreign key, and return the input record with the new id.
  - The deletes cascade from a topic to its categories, and from a category to its suggestions.
  - The topic lookup reports `NotFound`.
- `topic_view.dfy` (module `TopicView`) models the topic page.
  - A null category list is normalised to the empty list.
  - A created category is appended with an empty suggestion list.
  - A created suggestion is pushed onto the first category with the selected id.
  - The form fields are reset, and the two form-enable predicates are modelled.
- `topics.dfy` (module `Topics`) models the topic list page.
  - A null list is normalised to the empty list.
  - A created topic is appended.
  - The delete filter drops the deleted object by reference identity.

The SQLite engine is modelled abstractly.

- Each table is a map from its integer primary key to the other columns.
- `categories.topic_id` and `suggestions.category_id` are nullable foreign keys. A NULL parent is accepted; a non-null one must exist (`PRAGMA foreign_keys = ON`). The model enforces them for every handler; see "## Left out" for the connection this assumes.
- The AUTOINCREMENT sequence of each table is a field.
  - A new row gets `sequence + 1`.
  - When the sequence has reached the largest 64-bit rowid, the insert fails with `Full`. This is checked before the foreign key.
- A failed statement leaves the tables and the sequence as they were.
- `ON DELETE CASCADE` fires only for parent rows that are actually deleted.

## Model

| member | source | states |
|---|---|---|
| Grouping.FindCategory | backend/server.go:169-178 | the inner search stops at the first category with the row's id, or reports that none has it |
| Grouping.GroupJoinedRows | backend/server.go:160-186 | the loop with its `found` flag and `break` builds exactly the fold of `AddRow` over the rows |
| Grouping.GroupEmitsEachCategoryOnce | backend/server.go:160-185 | every emitted category carries a row's id, every category id of the rows is emitted, and no id is emitted twice |
| Grouping.GroupFollowsFirstOccurrence | backend/server.go:169-184 | categories come out in the order of the first row of each id; id, name and topic id are those of that first row |
| Grouping.GroupCollectsSuggestions | backend/server.go:171-182 | each category's suggestions are exactly the suggestions of its own rows with non-null content, in row order |
| Grouping.SuggestionsComeFromOwnRows | backend/server.go:171-181 | a suggestion listed under a category comes from a row with that category id and non-null content |
| Grouping.EmptyCategoryIsEmitted | backend/server.go:161-184 | a category none of whose rows has suggestion content (the left join found nothing) is still emitted, with an empty list |
| Grouping.GroupListsEachSuggestionOnce | backend/server.go:169-182 | when no two rows with content carry the same suggestion, no category lists a suggestion twice |
| Grouping.GroupSuggestionCount | backend/server.go:169-185 | the number of emitted suggestions equals the number of rows with non-null content |
| Store.TopicById | backend/server.go:148-152 | the topic lookup is `NotFound` exactly when no row has the id; otherwise it yields that row's columns under that id |
| Store.DeleteTopicCascades | backend/server.go:84-86 | deleting a topic removes it, every category with that topic id and every suggestion of those categories; all other rows stay unchanged and the foreign keys still hold |
| Store.DeleteCategoryCascades | backend/server.go:86 | deleting a category removes it and exactly the suggestions pointing at it; topics and other rows stay; the foreign keys still hold |
| Store.DeleteSuggestionRemovesOne | backend/server.go:372 | deleting a suggestion removes exactly that row and keeps the foreign keys |
| Store.DeleteMissingIsNoOp | backend/server.go:308 | a delete whose id matches no row leaves all three tables unchanged |
| Store.DeleteIsIdempotent | backend/server.go:340 | repeating any of the three deletes with the same id changes nothing further |
| Store.DeletedTopicIsNotFound | backend/server.go:308-316 | after a topic is deleted its lookup is `NotFound`, and every other topic reads as before |
| Store.TreeListsTopicCategories | backend/server.go:155 | grouping rows of the join for a topic lists each of that topic's categories exactly once, with its stored name and topic id |
| Store.TreeHoldsStoredSuggestions | backend/server.go:155-186 | grouping rows of the join for a topic gives each category exactly its stored suggestions with non-null content, each listed once |
| Store.Database.constructor | backend/server.go:84-86 | a new database has empty tables, all three sequences at 0 (so the first insert into each table gets id 1) and satisfies the store invariant |
| Store.Database.CreateTopic | backend/server.go:195-226 | inserts the topic under id sequence+1, an id never assigned before and larger than all earlier ones; returns the input with only the id replaced, which the lookup then returns; fails with `Full` and no change when the sequence is exhausted |
| Store.Database.CreateCategory | backend/server.go:228-259 | as `CreateTopic`, and fails with `ConstraintViolation` leaving the store unchanged exactly when a non-null topic id names no topic; a null topic id is accepted |
| Store.Database.CreateSuggestion | backend/server.go:261-292 | as `CreateTopic`, and fails with `ConstraintViolation` leaving the store unchanged exactly when a non-null category id names no category; a null category id is accepted |
| Store.Database.DeleteTopic | backend/server.go:294-324 | the tables become the topic cascade of the old tables; sequences and assigned ids are kept, and the foreign keys still hold |
| Store.Database.DeleteCategory | backend/server.go:326-356 | the tables become the category cascade of the old tables; sequences and assigned ids are kept, and the foreign keys still hold |
| Store.Database.DeleteSuggestion | backend/server.go:358-388 | the suggestion row is removed and nothing else changes |
| Store.Database.GetTopics | backend/server.go:118-139 | lists every stored topic with its stored columns, each once, in increasing id order |
| Store.Database.GetTopicTree | backend/server.go:141-193 | `NotFound` exactly when the topic is missing; otherwise the stored topic together with the grouping of the joined rows |
| TopicView.FirstWithId | frontend/src/app/topic-view/topic-view.component.ts:101-102 | the index of the first category with the selected id, or none |
| TopicView.CategoryEntry.constructor | frontend/src/app/topic-view/topic-view.component.ts:21-26 | a category object holds the given id, name, topic id and suggestions |
| TopicView.TopicViewComponent.constructor | frontend/src/app/topic-view/topic-view.component.ts:62-80 | the page starts loading, with a placeholder topic, no categories and empty form fields |
| TopicView.TopicViewComponent.SuggestionDisabled | frontend/src/app/topic-view/topic-view.component.ts:116-118 | the suggestion form is enabled only when name and content are non-empty and a category is chosen |
| TopicView.TopicViewComponent.CategoryDisabled | frontend/src/app/topic-view/topic-view.component.ts:120-122 | the category form is enabled only when the name is non-empty |
| TopicView.TopicViewComponent.OnTopicLoaded | frontend/src/app/topic-view/topic-view.component.ts:48-56 | takes over the topic and the categories, a null list becoming the empty list, and stops loading |
| TopicView.TopicViewComponent.OnCategoryCreated | frontend/src/app/topic-view/topic-view.component.ts:87-91 | the created category gets an empty suggestion list and is appended after the unchanged earlier ones; the name field is cleared, so the category form is disabled |
| TopicView.TopicViewComponent.OnSuggestionCreated | frontend/src/app/topic-view/topic-view.component.ts:100-113 | the suggestion is pushed onto the first category with the selected id and no other category's list changes (no change at all when none matches); the fields are reset, so the suggestion form is disabled |
| Topics.TopicEntry.constructor | frontend/src/app/topics/topics.component.ts:14-18 | a topic object holds the given name, description and id |
| Topics.Without | frontend/src/app/topics/topics.component.ts:54 | the filtered list no longer holds the deleted object and holds nothing new |
| Topics.WithoutAppend | frontend/src/app/topics/topics.component.ts:54 | filtering a concatenation filters each part, so kept entries stay in their places relative to each other |
| Topics.WithoutCounts | frontend/src/app/topics/topics.component.ts:54 | exactly the occurrences of the deleted object are removed; every other entry keeps its number of occurrences |
| Topics.WithoutAbsent | frontend/src/app/topics/topics.component.ts:53-55 | deleting an object the list does not hold leaves the list unchanged |
| Topics.WithoutKeepsOrder | frontend/src/app/topics/topics.component.ts:53-54 | any two kept entries appear in the filtered list in their original order |
| Topics.TopicsComponent.constructor | frontend/src/app/topics/topics.component.ts:27-29 | the page starts with an empty topic list and empty form fields |
| Topics.TopicsComponent.OnTopicsLoaded | frontend/src/app/topics/topics.component.ts:32-38 | takes over the loaded list, a null list becoming the empty list |
| Topics.TopicsComponent.OnTopicCreated | frontend/src/app/topics/topics.component.ts:46-48 | the created topic is appended; earlier entries are unchanged and the length grows by one |
| Topics.TopicsComponent.OnTopicDeleted | frontend/src/app/topics/topics.component.ts:51-56 | every entry that is the deleted object is removed, and all other entries are kept with their counts and order |

## Left out

- The join query is not modelled as SQL. Its rows are an input of `Store.Database.GetTopicTree` and of the grouping. `Store.JoinOf` states what the query returns for a topic, in both halves: the category columns, and the suggestion columns of the left join (a stored suggestion of the row's category, each suggestion in exactly one row, or all NULL for a category without suggestions). The rows may come in any order, because the query has no ORDER BY.
- A row's category id and name must be non-null (`Records.JoinedRow`): the loop dereferences both. The store does accept a category with a null name, and for such a topic the handler dereferences nil. The model does not follow that path.
- `Store.Database.GetTopics` scans ids from 1 up to the sequence. That is SQLite's rowid order for a plain table scan; the query itself does not promise an order.
- Failures that the handlers turn into `log.Fatal` are modelled only for a full sequence, a foreign-key violation and a missing topic. Other failures are not modelled: I/O errors, prepare, scan and commit errors, and an undecodable request body (the decode error is ignored).
- The deletes are modelled without the parsing of the path parameter (`strconv.Atoi`) and without the response that echoes the id. The topic lookup takes an integer id, whereas the handler binds the raw string from the path.
- Go encodes an empty (nil) slice as JSON `null`. The model returns the empty sequence, and the clients' null normalisation covers the `null` case.
- These are plain plumbing and are not modelled:
  - JSON encoding and decoding, logging, routing and `main`'s bootstrap;
  - the static file handler `spaHandler`;
  - the route table `frontend/src/app/app.routes.ts`.
- Concurrency, transaction isolation, commit and rollback are not modelled; each handler is one atomic step.
- Every handler is assumed to run on the connection that executed `PRAGMA foreign_keys = ON` (backend/server.go:76-77). SQLite turns foreign keys on per connection and leaves them off by default, and `database/sql` may serve a handler from another pooled connection. On such a connection the source accepts a category or suggestion whose non-null parent does not exist, and deleting a topic or category removes only that row, without the cascade. The model does not capture that behaviour: `Store.Database.CreateCategory`, `Store.Database.CreateSuggestion`, `Store.Database.DeleteTopic` and `Store.Database.DeleteCategory` always enforce the foreign keys.
- On the client, these are not modelled:
  - the HTTP requests and their payloads;
  - `subscribe` wiring and `console.log`;
  - the table re-render (`renderRows`).

  The objects a response delivers are parameters of the callbacks.
- Client fields use the TypeScript interface types (non-null strings and numbers). Numbers are modelled as integers.
