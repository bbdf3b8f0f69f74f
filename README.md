# Post command side: event-sourced aggregate, event store and handler

This project is a Dafny model of the write side of the "SM-Post" social-media
service. Every change to a post is an event. The events are appended to an event
store and published to a message stream, and a post is rebuilt by replaying its
events. The model covers three parts:

- **The post aggregate** (`PostAggregate` together with the small `AggregateRoot`
  base it extends). Six business methods (edit message, like, add, edit and remove
  a comment, delete the post) check their guards and raise one event each. The
  seven `Apply` overloads change the in-memory state. The object also tracks
  the uncommitted changes.
- **The event store** (`EventStore`):
  - `SaveEventsAsync` does the optimistic-concurrency check. It then stamps each
    event with the next version, stores a record for it and publishes it.
  - `GetEventsAsync` returns one aggregate's events sorted by version.
  - `GetAggregateIdsAsync` returns the distinct ids in the store.
- **The event-sourcing handler** (`EventSourcingHandler`):
  - `SaveAsync` saves the uncommitted changes, then marks them committed.
  - `GetByIdAsync` replays the stored events into a new post.
  - `RepublishEventsAsync` publishes the events of every active post again.

The files, one module each:

| file | module | what it holds |
|---|---|---|
| core.dfy | `Core` | ids, the exceptions as an `Error` datatype, `Result`/`Outcome` |
| events.dfy | `Events` | the seven event payloads, `Event` (version + payload), the stored `EventModel` |
| text.dfy | `Text` | `string.IsNullOrWhiteSpace` and case-insensitive comparison |
| post_model.dfy | `PostModel` | the post as a value: `Evolve`, `Replay`, `Decide`, `Execute` and their lemmas |
| post_aggregate.dfy | `PostAggregates` | the `PostAggregate` class, each method proved against `PostModel` |
| queries.dfy | `Queries` | the LINQ operators used: stable sort by version, `Select`, `Distinct`, `Max` |
| event_store.dfy | `Stores` | the record log, `EventProducer`, the `EventStore` class, the read queries |
| event_sourcing_handler.dfy | `Handlers` | `Load` and `Republish`, the `EventSourcingHandler` class |

Every thrown exception is a `Failure`/`Fail` value carrying an `Error`.
`PostAggregate.Valid()` is the event-sourcing invariant: replaying the
uncommitted changes on top of the state they were raised from gives the current
state. Every business method keeps this invariant.

Main results:

- `SaveThenLoad` is the round trip, for a stream numbered 0, 1, 2, … (every
  earlier save was made at the stream's last version). Raise changes on a post
  loaded from such a stream and save them at its version. Loading the post again
  gives back the changed state, at the old version plus the number of changes.
  On other streams a loaded post can fail to save (`ResaveAtMinusOneBlocksNextSave`).
- `SecondWriterConflicts` is optimistic concurrency. Two writers that read the
  same version, other than -1, cannot both append once the first has saved at
  least one event. At -1 the check is skipped (`MinusOneSkipsCheck`).
- `RepublishEvents` publishes exactly what `Republish` computes from the stored
  records, and fails exactly as it does. About that function,
  `RepublishesOnlyActive` states that every republished event is a stored event of
  an active post. `RepublishesEveryActive` states that, when every post loads,
  every stored event of every active post is republished. Both are statements of
  membership, not of order or multiplicity.

The model follows the code, including these behaviours that a reader of the
method names might not expect:

- Stored versions start at 0, not 1. An aggregate starts at version -1, and N events
  saved at version V receive V+1 … V+N.
- Expected version -1 skips the check even on a non-empty stream (`MinusOneSkipsCheck`).
  A second "new aggregate" save succeeds and stores a second version 0.
- `GetByIdAsync` propagates `AggregateNotFoundException` for an unknown id. It does
  not return a fresh post, because `GetEventsAsync` throws before the fallback is
  reached.
- `RepublishEventsAsync` has no per-aggregate try/continue. The first post that
  fails to load ends the sweep, and so does an empty store: `GetAggregateIdsAsync`
  throws `ArgumentNullException`.
- Editing or removing an unknown comment id throws from the dictionary indexer
  (`KeyNotFound`).
- `SaveAsync` does not advance `aggregate.Version`.
- A second save at expected version -1 restarts the numbering at 0. After saves of
  [create, like] and then [like], both at -1, the stored versions are 0, 1, 0.
  `GetByIdAsync` sets the post's version to the maximum, 1, but `eventStream[^1]` is
  the last record inserted, at version 0. Every later save of the loaded post
  therefore fails with `ConcurrencyException` (`ResaveAtMinusOneBlocksNextSave`).

## Model

| member | source | states |
|---|---|---|
| `PostModel.Evolve` | SM-Post/Post.Cmd/Post.Cmd.Domain/Aggregates/PostAggregate.cs:29-185 | the seven `Apply` overloads: adding an existing comment id fails and nothing else fails; every event sets the post id; create sets author and active, delete clears active; comment events change only their own comment, and only comment events touch comments |
| `PostModel.Decide` | SM-Post/Post.Cmd/Post.Cmd.Domain/Aggregates/PostAggregate.cs:36-179 | an inactive post rejects every command with that command's message; an accepted command's event carries the post id; blank message or comment text is rejected; edit and remove need an existing comment written by the caller (ignoring case), and an unknown comment id fails with `KeyNotFound`; delete needs the author. When each command succeeds, and the event and state it then produces, are stated through `Execute` by the `...Guards` lemmas below |
| `PostModel.Execute` | SM-Post/Post.Cmd/Post.Cmd.Domain/Aggregates/PostAggregate.cs:36-185 | a business method then `RaiseEvent`: an accepted command raises one unversioned event that `Decide` chose, and the next state is that event applied; a failure is a guard failure or the duplicate comment id from `Apply` |
| `PostModel.Replay` | SM-Post/Post.Cmd/Post.Cmd.Infrastructure/Handlers/EventSourcingHandler.cs:25 | `ReplayEvents`, the fold of `Apply` over the events; defined by its body, properties in `ReplayAppend`, `ReplayConcat`, `ReplaySameData` and `PostAggregate.ReplayEvents` |
| `PostModel.ReplayAppend` | SM-Post/Post.Cmd/Post.Cmd.Infrastructure/Handlers/EventSourcingHandler.cs:25 | replaying one more event is applying it to the replayed state, and a failed replay stays failed |
| `PostModel.ReplayConcat` | SM-Post/Post.Cmd/Post.Cmd.Infrastructure/Handlers/EventSourcingHandler.cs:25 | replaying a concatenation replays the second part on top of the first |
| `PostModel.ReplaySameData` | SM-Post/Post.Cmd/Post.Cmd.Infrastructure/Handlers/EventSourcingHandler.cs:25 | replay depends only on the payloads: events restamped with other versions replay the same |
| `PostModel.RunReplays` | SM-Post/Post.Cmd/Post.Cmd.Domain/Aggregates/PostAggregate.cs:36-185 | for any sequence of commands, replaying the events that the accepted commands raised gives exactly the state that running the commands reached |
| `PostModel.CreatedPost` | SM-Post/Post.Cmd/Post.Cmd.Domain/Aggregates/PostAggregate.cs:18-34 | a fresh post that replays its `PostCreatedEvent` is active, with that id and author and no comments |
| `PostModel.RemovedPostRejectsEverything` | SM-Post/Post.Cmd/Post.Cmd.Domain/Aggregates/PostAggregate.cs:163-185 | after a successful delete the post is inactive and rejects every command, a second delete included, with the inactive-post message |
| `PostModel.EditMessageGuards` | SM-Post/Post.Cmd/Post.Cmd.Domain/Aggregates/PostAggregate.cs:36-54 | editing the message succeeds if and only if the post is active and the new text is not blank; blank text on an active post fails with the blank-message message; a success raises one `MessageUpdatedEvent` carrying the post id and the new text, and changes nothing in the state |
| `PostModel.LikePostGuards` | SM-Post/Post.Cmd/Post.Cmd.Domain/Aggregates/PostAggregate.cs:61-72 | a like succeeds if and only if the post is active; a success raises one `PostLikedEvent` carrying the post id and changes nothing in the state |
| `PostModel.DeleteOnlyByAuthor` | SM-Post/Post.Cmd/Post.Cmd.Domain/Aggregates/PostAggregate.cs:163-185 | on an active post, delete succeeds if and only if the caller is the author, ignoring case; anyone else fails with the not-your-post message; a success raises one `PostRemovedEvent` carrying the post id, and the only change is that the post becomes inactive |
| `PostModel.EditCommentGuards` | SM-Post/Post.Cmd/Post.Cmd.Domain/Aggregates/PostAggregate.cs:108-155 | edit and remove of a comment each succeed if and only if the post is active, the comment exists and the caller wrote it (ignoring case); another caller fails with the matching not-your-comment message; an edit (blank text allowed) raises one `CommentUpdatedEvent` and the only change is that comment's text and author, a removal raises one `CommentRemovedEvent` and the only change is that the comment is gone |
| `PostModel.AddCommentGuards` | SM-Post/Post.Cmd/Post.Cmd.Domain/Aggregates/PostAggregate.cs:79-106 | add succeeds if and only if the post is active, the text is not blank and the new id is unused; blank text fails with the blank-comment message, a used id with the duplicate-key error; a success raises one `CommentAddedEvent` and the new comment is the only change |
| `PostModel.ScenarioForeignEditRejected` | SM-Post/Post.Cmd/Post.Cmd.Domain/Aggregates/PostAggregate.cs:79-135 | alice's post, bob's comment: carol's edit is rejected as not her comment and the text stays |
| `PostModel.ScenarioLikeAfterDelete` | SM-Post/Post.Cmd/Post.Cmd.Domain/Aggregates/PostAggregate.cs:61-185 | after alice deletes her post, a like fails with "You can't like an inactive post." |
| `PostAggregates.PostAggregate.constructor` | SM-Post/Post.Cmd/Post.Cmd.Domain/Aggregates/PostAggregate.cs:13-16 | a new post is empty, at version -1, with no changes, and valid |
| `PostAggregates.PostAggregate.Create` | SM-Post/Post.Cmd/Post.Cmd.Domain/Aggregates/PostAggregate.cs:18-27 | the three-argument constructor raises exactly one `PostCreatedEvent` and leaves an active post with that id and author |
| `PostAggregates.PostAggregate.Apply` | SM-Post/Post.Cmd/Post.Cmd.Domain/Aggregates/PostAggregate.cs:29-185 | the fields change exactly as `Evolve` says; when `Dictionary.Add` throws, only the id has been copied |
| `PostAggregates.PostAggregate.RaiseEvent` | SM-Post/Post.Cmd/Post.Cmd.Domain/Aggregates/PostAggregate.cs:20-26 | apply, then record the event as uncommitted; a throwing `Apply` records nothing; the invariant is kept |
| `PostAggregates.PostAggregate.EditMessage` | SM-Post/Post.Cmd/Post.Cmd.Domain/Aggregates/PostAggregate.cs:36-54 | does what `Execute` says for the command: a rejection changes nothing, an acceptance moves to the next state and records one event; keeps `Valid()`. It succeeds if and only if the post was active and the text is not blank, and then records one `MessageUpdatedEvent` with the post id and the text and leaves the state as it was |
| `PostAggregates.PostAggregate.LikePost` | SM-Post/Post.Cmd/Post.Cmd.Domain/Aggregates/PostAggregate.cs:61-72 | as for `EditMessage`, for the like command: it succeeds if and only if the post was active, and then records one `PostLikedEvent` with the post id and leaves the state as it was |
| `PostAggregates.PostAggregate.AddComment` | SM-Post/Post.Cmd/Post.Cmd.Domain/Aggregates/PostAggregate.cs:79-100 | as for `EditMessage`, for adding a comment under the given new id: it succeeds if and only if the post was active, the text is not blank and the id is unused, and then the only change is the new comment by the caller |
| `PostAggregates.PostAggregate.EditComment` | SM-Post/Post.Cmd/Post.Cmd.Domain/Aggregates/PostAggregate.cs:108-129 | as for `EditMessage`, for editing a comment: it succeeds if and only if the post was active, the comment exists and the caller wrote it (ignoring case), and then the only change is that comment's new text and author |
| `PostAggregates.PostAggregate.RemoveComment` | SM-Post/Post.Cmd/Post.Cmd.Domain/Aggregates/PostAggregate.cs:137-155 | as for `EditMessage`, for removing a comment: it succeeds under the same condition as an edit, and then the only change is that the comment is gone |
| `PostAggregates.PostAggregate.DeletePost` | SM-Post/Post.Cmd/Post.Cmd.Domain/Aggregates/PostAggregate.cs:163-179 | as for `EditMessage`, for deleting the post: it succeeds if and only if the post was active and the caller is the author (ignoring case), and then the only change is that the post is inactive |
| `PostAggregates.PostAggregate.ReplayEvents` | SM-Post/Post.Cmd/Post.Cmd.Infrastructure/Handlers/EventSourcingHandler.cs:25 | applying the events in order succeeds exactly when `Replay` does and reaches its state, without recording changes; on a post with no changes the result is valid |
| `PostAggregates.PostAggregate.MarkChangesAsCommitted` | SM-Post/Post.Cmd/Post.Cmd.Infrastructure/Handlers/EventSourcingHandler.cs:14 | the changes are forgotten, the state and version stay, and the state becomes the committed one |
| `PostAggregates.ReplayFailureSticks` | SM-Post/Post.Cmd/Post.Cmd.Infrastructure/Handlers/EventSourcingHandler.cs:25 | once a prefix of the events fails to replay, the whole sequence fails |
| `Events.TypeName` | SM-Post/Post.Cmd/Post.Cmd.Infrastructure/Stores/EventStore.cs:27 | `@event.GetType().Name`, the class name of each event variant; defined by its body, properties in `TypeNameIdentifiesVariant` |
| `Events.TypeNameIdentifiesVariant` | SM-Post/Post.Cmd/Post.Cmd.Infrastructure/Stores/EventStore.cs:27 | the stored event-type tag identifies the variant: two payloads share a tag if and only if they are the same variant |
| `Text.IsNullOrWhiteSpace` | SM-Post/Post.Cmd/Post.Cmd.Domain/Aggregates/PostAggregate.cs:43 | `string.IsNullOrWhiteSpace` (also at line 86): every character is white space, the empty string included; defined by its body, used by the blank-text guards in `EditMessageGuards` and `AddCommentGuards` |
| `Text.EqualsIgnoreCase` | SM-Post/Post.Cmd/Post.Cmd.Domain/Aggregates/PostAggregate.cs:115 | `Equals(…, CurrentCultureIgnoreCase)` (also at lines 144 and 170) as ASCII case folding; defined by its body, properties in `EqualsIgnoreCaseIsEquivalence` and `EqualsIgnoreCaseExample` |
| `Text.EqualsIgnoreCaseIsEquivalence` | SM-Post/Post.Cmd/Post.Cmd.Domain/Aggregates/PostAggregate.cs:115 | the case-insensitive comparison is reflexive, symmetric and transitive, and equal strings have equal length |
| `Text.EqualsIgnoreCaseExample` | SM-Post/Post.Cmd/Post.Cmd.Domain/Aggregates/PostAggregate.cs:170 | "Alice" matches "aLICE"; "alice" does not match "carol" |
| `Queries.EventDatas` | SM-Post/Post.Cmd/Post.Cmd.Infrastructure/Stores/EventStore.cs:49 | `Select(x => x.EventData)`: same length, and each position holds that record's event |
| `Queries.EventDatasAppend` | SM-Post/Post.Cmd/Post.Cmd.Infrastructure/Stores/EventStore.cs:49 | selecting from a concatenation concatenates the selections |
| `Queries.InsertByVersion` | SM-Post/Post.Cmd/Post.Cmd.Infrastructure/Stores/EventStore.cs:49 | inserting makes the list one longer, and the head is the new record or the old head |
| `Queries.InsertAddsOne` | SM-Post/Post.Cmd/Post.Cmd.Infrastructure/Stores/EventStore.cs:49 | inserting adds exactly the one record: the result is a permutation of the list plus that record |
| `Queries.InsertKeepsAscending` | SM-Post/Post.Cmd/Post.Cmd.Infrastructure/Stores/EventStore.cs:49 | inserting into a list sorted by version keeps it sorted |
| `Queries.SortByVersion` | SM-Post/Post.Cmd/Post.Cmd.Infrastructure/Stores/EventStore.cs:49 | `OrderBy(x => x.Version)`: the result has the input's length |
| `Queries.SortByVersionSorts` | SM-Post/Post.Cmd/Post.Cmd.Infrastructure/Stores/EventStore.cs:49 | the sort's result is in ascending version order and is a permutation of the input |
| `Queries.InsertKeepsPayloads` | SM-Post/Post.Cmd/Post.Cmd.Infrastructure/Stores/EventStore.cs:49 | the selected events after an insert are the old ones plus the inserted record's event |
| `Queries.SortKeepsPayloads` | SM-Post/Post.Cmd/Post.Cmd.Infrastructure/Stores/EventStore.cs:49 | the events read back are a permutation of the stored ones |
| `Queries.InsertIsStable` | SM-Post/Post.Cmd/Post.Cmd.Infrastructure/Stores/EventStore.cs:49 | an inserted record lands ahead of every record of its own version, and the records of each version keep their order |
| `Queries.SortByVersionStable` | SM-Post/Post.Cmd/Post.Cmd.Infrastructure/Stores/EventStore.cs:49 | `OrderBy` is stable: for every version, the records carrying it come out in the order they went in |
| `Queries.SortAscendingIsIdentity` | SM-Post/Post.Cmd/Post.Cmd.Infrastructure/Stores/EventStore.cs:49 | a list already in version order comes back unchanged |
| `Queries.Distinct` | SM-Post/Post.Cmd/Post.Cmd.Infrastructure/Stores/EventStore.cs:58 | `Distinct()`: no duplicates, exactly the same elements, never longer |
| `Queries.DistinctOfDistinct` | SM-Post/Post.Cmd/Post.Cmd.Infrastructure/Stores/EventStore.cs:58 | a list without duplicates is its own `Distinct()` |
| `Queries.DistinctKeepsFirstOrder` | SM-Post/Post.Cmd/Post.Cmd.Infrastructure/Stores/EventStore.cs:58 | `Distinct()` keeps the order of first appearance: of two ids it returns, the earlier one first appears earlier in the input |
| `Queries.MaxVersion` | SM-Post/Post.Cmd/Post.Cmd.Infrastructure/Handlers/EventSourcingHandler.cs:26 | `Select(x => x.Version).Max()`; defined by its body, properties in `MaxVersionIsMax` and `MaxOfAscending` |
| `Queries.MaxVersionIsMax` | SM-Post/Post.Cmd/Post.Cmd.Infrastructure/Handlers/EventSourcingHandler.cs:26 | `Select(x => x.Version).Max()` on a non-empty list: some event has that version and none has a higher one |
| `Queries.MaxOfAscending` | SM-Post/Post.Cmd/Post.Cmd.Infrastructure/Handlers/EventSourcingHandler.cs:26 | on events in ascending version order, the maximum is the last event's version |
| `Stores.FindByAggregateId` | SM-Post/Post.Cmd/Post.Cmd.Infrastructure/Stores/EventStore.cs:16 | an aggregate's stream is never longer than the store |
| `Stores.FindMembership` | SM-Post/Post.Cmd/Post.Cmd.Infrastructure/Stores/EventStore.cs:16 | a record is in an aggregate's stream if and only if it is stored and belongs to that aggregate |
| `Stores.FindAfterAppend` | SM-Post/Post.Cmd/Post.Cmd.Infrastructure/Stores/EventStore.cs:37 | appending one aggregate's records extends that aggregate's stream by exactly those records |
| `Stores.FindAfterAppendOther` | SM-Post/Post.Cmd/Post.Cmd.Infrastructure/Stores/EventStore.cs:37 | appending one aggregate's records leaves every other aggregate's stream unchanged |
| `Stores.CheckExpectedVersion` | SM-Post/Post.Cmd/Post.Cmd.Infrastructure/Stores/EventStore.cs:18-19 | -1 always passes; otherwise an empty stream fails on `[^1]`, and a last version other than the expected one is a concurrency conflict; a pass means -1 or a matching last version |
| `Stores.Stamp` | SM-Post/Post.Cmd/Post.Cmd.Infrastructure/Stores/EventStore.cs:21-26 | the running `version++` counter: same length as the input; the rest is defined by its body, properties in `StampAssignsVersions` |
| `Stores.StampAssignsVersions` | SM-Post/Post.Cmd/Post.Cmd.Infrastructure/Stores/EventStore.cs:21-26 | N events saved at expected version V get V+1 … V+N in input order, and their payloads are untouched |
| `Stores.ModelOf` | SM-Post/Post.Cmd/Post.Cmd.Infrastructure/Stores/EventStore.cs:28-36 | the `EventModel` built for one event; defined by its body, properties in `ModelsAt` |
| `Stores.Models` | SM-Post/Post.Cmd/Post.Cmd.Infrastructure/Stores/EventStore.cs:28-36 | one record per event: same length as the input; the rest is defined by its body, properties in `ModelsAt` |
| `Stores.ModelsAt` | SM-Post/Post.Cmd/Post.Cmd.Infrastructure/Stores/EventStore.cs:28-36 | each stored record holds its event, that event's version, the saving aggregate's id, the `PostAggregate` tag and the event's type tag |
| `Stores.EventProducer.Produce` | SM-Post/Post.Cmd/Post.Cmd.Infrastructure/Stores/EventStore.cs:39-40 | producing appends the event to the topic's log |
| `Stores.EventStore.constructor` | SM-Post/Post.Cmd/Post.Cmd.Infrastructure/Stores/EventStore.cs:12 | an empty store over the given producer |
| `Stores.EventStore.SaveEvents` | SM-Post/Post.Cmd/Post.Cmd.Infrastructure/Stores/EventStore.cs:14-42 | the outcome is the expected-version check on the stored stream; a failure stores and publishes nothing; a success appends one record per event with the stamped versions and publishes the stamped events in order |
| `Stores.EventStore.AppendEvents` | SM-Post/Post.Cmd/Post.Cmd.Infrastructure/Stores/EventStore.cs:21-41 | the loop appends exactly the stamped records and publishes exactly the stamped events |
| `Stores.GetEvents` | SM-Post/Post.Cmd/Post.Cmd.Infrastructure/Stores/EventStore.cs:44-50 | fails with "Incorrect post ID provided." if and only if the aggregate has no records; otherwise returns one event per record |
| `Stores.GetEventsSortsStream` | SM-Post/Post.Cmd/Post.Cmd.Infrastructure/Stores/EventStore.cs:44-50 | the events returned are a permutation of the stream's events, and in ascending version order when every record carries its event's version |
| `Stores.SortedPayloadsAscending` | SM-Post/Post.Cmd/Post.Cmd.Infrastructure/Stores/EventStore.cs:49 | sorting records that carry their event's version gives events in ascending version order |
| `Stores.ReadBackInSaveOrder` | SM-Post/Post.Cmd/Post.Cmd.Infrastructure/Stores/EventStore.cs:44-50 | a stream numbered 0, 1, 2, … reads back exactly in save order |
| `Stores.AggregateIdentifiers` | SM-Post/Post.Cmd/Post.Cmd.Infrastructure/Stores/EventStore.cs:58 | `Select(x => x.AggregateIdentifier)`, position by position |
| `Stores.GetAggregateIds` | SM-Post/Post.Cmd/Post.Cmd.Infrastructure/Stores/EventStore.cs:52-59 | fails with `ArgumentNullException` if and only if the store is empty; otherwise returns ids without duplicates |
| `Stores.GetAggregateIdsCoversStore` | SM-Post/Post.Cmd/Post.Cmd.Infrastructure/Stores/EventStore.cs:52-59 | an id is returned if and only if that aggregate has a stream |
| `Stores.SaveKeepsContiguous` | SM-Post/Post.Cmd/Post.Cmd.Infrastructure/Stores/EventStore.cs:16-36 | appending at the stream's last version (or at -1 to an empty stream) keeps the versions 0, 1, 2, … without gaps |
| `Stores.SaveKeepsConsistent` | SM-Post/Post.Cmd/Post.Cmd.Infrastructure/Stores/EventStore.cs:26-33 | every record written carries the version of the event it holds |
| `Stores.SecondWriterConflicts` | SM-Post/Post.Cmd/Post.Cmd.Infrastructure/Stores/EventStore.cs:16-19 | two writers that read the same version (not -1): once one appends, the other's check is a concurrency conflict |
| `Stores.MinusOneSkipsCheck` | SM-Post/Post.Cmd/Post.Cmd.Infrastructure/Stores/EventStore.cs:18-33 | expected version -1 passes on a non-empty stream, and the second save stores a second record with version 0 |
| `Handlers.Load` | SM-Post/Post.Cmd/Post.Cmd.Infrastructure/Handlers/EventSourcingHandler.cs:17-29 | an unknown id fails with "Incorrect post ID provided."; any other failure is the duplicate comment id met during replay |
| `Handlers.LoadReplaysSortedEvents` | SM-Post/Post.Cmd/Post.Cmd.Infrastructure/Handlers/EventSourcingHandler.cs:17-29 | for every stream that loads, not only numbered ones: the events `GetEventsAsync` returns replay to the loaded state, and the loaded version is the largest version among them and is attained |
| `Handlers.DoubleCreateLoadsAtVersionZero` | SM-Post/Post.Cmd/Post.Cmd.Infrastructure/Stores/EventStore.cs:18-33 | two "new aggregate" saves of the same creation event (both at -1) store two records at version 0, and the post still loads as created, at version 0 |
| `Handlers.ResaveAtMinusOneBlocksNextSave` | SM-Post/Post.Cmd/Post.Cmd.Infrastructure/Stores/EventStore.cs:18-26 | create and like saved at -1, then like saved again at -1: both saves pass the check, the stored versions are 0, 1, 0, the post loads as created at version 1, and the store's check at version 1 then fails with a concurrency conflict |
| `Handlers.LoadOfContiguous` | SM-Post/Post.Cmd/Post.Cmd.Infrastructure/Handlers/EventSourcingHandler.cs:17-29 | a stream numbered 0, 1, 2, … loads as the replay of its events in save order, at version length - 1 |
| `Handlers.LoadOfReplayed` | SM-Post/Post.Cmd/Post.Cmd.Infrastructure/Handlers/EventSourcingHandler.cs:17-29 | such a stream that replays to a state loads as that state at its last version |
| `Handlers.LoadedVersionPassesCheck` | SM-Post/Post.Cmd/Post.Cmd.Infrastructure/Handlers/EventSourcingHandler.cs:11-29 | for a stream numbered 0, 1, 2, … whose records carry their events' versions, the version a loaded post carries passes the store's check, so saving a post freshly loaded from such a stream cannot conflict |
| `Handlers.SaveExtendsStream` | SM-Post/Post.Cmd/Post.Cmd.Infrastructure/Handlers/EventSourcingHandler.cs:11-15 | saving changes at the stream's last version extends the stream by their records; it stays numbered 0, 1, 2, …, and reads back as the old events then the restamped changes |
| `Handlers.ReplayStamped` | SM-Post/Post.Cmd/Post.Cmd.Infrastructure/Stores/EventStore.cs:21-26 | restamped events replay exactly like the originals |
| `Handlers.SaveReplays` | SM-Post/Post.Cmd/Post.Cmd.Infrastructure/Handlers/EventSourcingHandler.cs:11-15 | the saved stream replays to the state the changes led to |
| `Handlers.SavedStreamReplays` | SM-Post/Post.Cmd/Post.Cmd.Infrastructure/Handlers/EventSourcingHandler.cs:11-15 | after a save, the stream is non-empty, still numbered 0, 1, 2, …, one record longer per change, and replays to the changed state |
| `Handlers.SaveThenLoad` | SM-Post/Post.Cmd/Post.Cmd.Infrastructure/Handlers/EventSourcingHandler.cs:11-29 | round trip for a stream numbered 0, 1, 2, … whose records carry their events' versions: saving the changes raised on a post loaded from it, then loading it again, gives the changed state at the old version plus the number of changes; its hypothesis on the changes is `PostAggregate.Valid()`, with the post's committed and current state |
| `Handlers.Contribution` | SM-Post/Post.Cmd/Post.Cmd.Infrastructure/Handlers/EventSourcingHandler.cs:39-48 | what one id adds to the sweep: it fails exactly when the post does not load, with the same error; anything it adds comes from an active post and is exactly what `GetEventsAsync` returns; an active post adds all of that |
| `Handlers.Republish` | SM-Post/Post.Cmd/Post.Cmd.Infrastructure/Handlers/EventSourcingHandler.cs:31-50 | an empty store publishes nothing and fails with `ArgumentNullException` |
| `Handlers.Sweep` | SM-Post/Post.Cmd/Post.Cmd.Infrastructure/Handlers/EventSourcingHandler.cs:37-49 | the outer `foreach` over the ids; defined by its body, properties in `SweepStep`, `SweepStops`, `SweepPublishesOnlyContributed` and `SweepPublishesAllContributed` |
| `Handlers.SweepStep` | SM-Post/Post.Cmd/Post.Cmd.Infrastructure/Handlers/EventSourcingHandler.cs:37-49 | one more id adds its contribution to the sweep, or stops it at its failure, unless the sweep has already stopped |
| `Handlers.SweepStops` | SM-Post/Post.Cmd/Post.Cmd.Infrastructure/Handlers/EventSourcingHandler.cs:37-49 | once a post fails, the remaining ids publish nothing and the sweep ends with that failure |
| `Handlers.SweepPublishesOnlyContributed` | SM-Post/Post.Cmd/Post.Cmd.Infrastructure/Handlers/EventSourcingHandler.cs:37-49 | every published event comes from some successful contribution |
| `Handlers.SweepPublishesAllContributed` | SM-Post/Post.Cmd/Post.Cmd.Infrastructure/Handlers/EventSourcingHandler.cs:37-49 | when no contribution fails, the sweep completes and publishes every contributed event |
| `Handlers.RepublishesOnlyActive` | SM-Post/Post.Cmd/Post.Cmd.Infrastructure/Handlers/EventSourcingHandler.cs:31-50 | every republished event is a stored event of a post in the store that loads as active |
| `Handlers.RepublishesEveryActive` | SM-Post/Post.Cmd/Post.Cmd.Infrastructure/Handlers/EventSourcingHandler.cs:31-50 | when every post in the store loads, the sweep completes and republishes every stored event of every active post |
| `Handlers.EventSourcingHandler.constructor` | SM-Post/Post.Cmd/Post.Cmd.Infrastructure/Handlers/EventSourcingHandler.cs:9 | a handler over the given store and producer |
| `Handlers.EventSourcingHandler.Save` | SM-Post/Post.Cmd/Post.Cmd.Infrastructure/Handlers/EventSourcingHandler.cs:11-15 | the outcome is the store's check at the post's id and version; on success the changes are stored and published, and the post has no changes left, the same state and version, and stays valid; on failure nothing changes |
| `Handlers.EventSourcingHandler.GetById` | SM-Post/Post.Cmd/Post.Cmd.Infrastructure/Handlers/EventSourcingHandler.cs:17-29 | fails exactly when `Load` fails, with its error; otherwise a new valid post with no changes, whose state and version are what `Load` says |
| `Handlers.EventSourcingHandler.RepublishAggregate` | SM-Post/Post.Cmd/Post.Cmd.Infrastructure/Handlers/EventSourcingHandler.cs:39-48 | one pass of the outer loop fails exactly as the post's contribution does, and otherwise publishes exactly that contribution |
| `Handlers.EventSourcingHandler.PublishAll` | SM-Post/Post.Cmd/Post.Cmd.Infrastructure/Handlers/EventSourcingHandler.cs:44-48 | produces the given events, in order, and nothing else |
| `Handlers.EventSourcingHandler.RepublishEvents` | SM-Post/Post.Cmd/Post.Cmd.Infrastructure/Handlers/EventSourcingHandler.cs:31-50 | the outcome and the events published are exactly those of `Republish` on the store's records |

## Left out

- Timestamps (`DatePosted`, `CommentDate`, `EditDate`, `TimeStamp`) are not
  modelled. The rest of each event and record is.
- `async`/`await` and concurrency are not modelled. Each operation runs to
  completion. Concurrent writers appear only as two saves at the same expected
  version (`SecondWriterConflicts`).
- The Mongo repository is one append-only list of records. `FindByAggregateId`
  returns an aggregate's records in insertion order, and `FindAllAsync` returns all
  of them. The repository itself is not part of this model.
- The Kafka producer is an append-only list of the events produced
  (`EventProducer`). The `KAFKA_TOPIC` environment variable becomes the producer's
  fixed topic. Failures of the repository or the producer are not modelled.
- `Guid.NewGuid()` in `AddComment` becomes a parameter, the new comment's id. A
  clash with an existing id makes `Dictionary.Add` throw, which the model keeps.
- `StringComparison.CurrentCultureIgnoreCase` is modelled as ASCII case folding.
  Culture-specific rules are not modelled.
- Null references are not modelled: null strings, null lists, and
  `aggregate == null` in `RepublishEventsAsync`.
- `GetByIdAsync` returns the bare aggregate when the events are empty
  (`!events.Any()`). That branch is never taken, because `GetEventsAsync` throws on
  an empty stream, so it is not modelled. The same holds for the empty-id-list
  return of `RepublishEventsAsync`.
- `SaveEventsAsync` writes `@event.Version` into the event object that the
  aggregate's change list still holds. The model copies the event instead, which
  has no effect here because `MarkChangesAsCommitted` then drops the list.
- When `ReplayEvents` throws partway through, `GetByIdAsync` throws too and the
  half-replayed aggregate is discarded. That partial state is not described.
- The base class `AggregateRoot` lives in the CQRS.Core library, which is not
  modelled. A minimal base is modelled instead: `Id`, `Version` starting at -1, the change list,
  `RaiseEvent`, `ReplayEvents`, `MarkChangesAsCommitted`.
- Stores.StampAssignsVersions: does not model the wrap-around of the C# `int`
  counter `version++` (EventStore.cs:25) past 2147483647, because Dafny integers are
  unbounded; a stream that long is out of reach of the service.
- Three methods are helpers split out of single C# methods:
  - `AppendEvents` is the loop of `SaveEventsAsync`;
  - `RepublishAggregate` is one pass of the outer loop of `RepublishEventsAsync`;
  - `PublishAll` is the inner loop of `RepublishEventsAsync`.
- The command dispatcher, the command handlers, `Program.cs`, the controllers and
  the DTOs are not modelled. They are outside the command-side core.
