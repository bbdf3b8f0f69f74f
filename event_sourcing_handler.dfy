/** The event-sourcing handler: saving an aggregate's uncommitted changes through the
    event store, rebuilding an aggregate from its stored events, and republishing the
    events of every active aggregate. The pure functions `Load` and `Republish` say
    what `GetById` and `RepublishEvents` compute from the store's records. */
module Handlers {
  import opened Core
  import opened Events
  import opened Queries
  import opened Stores
  import opened PostModel
  import opened PostAggregates

  /** What `GetByIdAsync` rebuilds: the replayed state and the highest stored version. */
  datatype Loaded = Loaded(state: PostState, version: int)

  /** `GetByIdAsync` as a function of the records: an unknown id throws
      `AggregateNotFoundException` (from `GetEventsAsync`), a stream whose replay adds
      an existing comment id again throws from `Dictionary.Add`; otherwise the post is
      the replay of its events from a fresh post, at their highest version. */
  function Load(records: seq<EventModel>, aggregateId: Guid): (r: Result<Loaded>)
    ensures FindByAggregateId(records, aggregateId) == [] ==> r == Failure(AggregateNotFound(IncorrectPostId))
    ensures FindByAggregateId(records, aggregateId) != [] && r.Failure? ==> r.error == DuplicateKey
  {
    match GetEvents(records, aggregateId)
    case Failure(err) => Failure(err)
    case Success(events) =>
      match Replay(Fresh, events)
      case None => Failure(DuplicateKey)
      case Some(s) => Success(Loaded(s, MaxVersion(events)))
  }

  /** For any stream, however its versions were assigned: a post that loads is the
      replay of the events `GetEventsAsync` returns (sorted by record version), and its
      version is the highest of their versions. */
  lemma LoadReplaysSortedEvents(records: seq<EventModel>, aggregateId: Guid)
    requires Load(records, aggregateId).Success?
    ensures GetEvents(records, aggregateId).Success?
    ensures
      var events := GetEvents(records, aggregateId).value;
      var loaded := Load(records, aggregateId).value;
      && Replay(Fresh, events) == Some(loaded.state)
      && (forall i :: 0 <= i < |events| ==> events[i].version <= loaded.version)
      && (exists i :: 0 <= i < |events| && events[i].version == loaded.version)
  {
    MaxVersionIsMax(GetEvents(records, aggregateId).value);
  }

  /** Two "new aggregate" saves of the same creation event at expected version -1 both
      pass the check and store two records at version 0; the post then loads at
      version 0, not at one less than its stream's length. */
  lemma DoubleCreateLoadsAtVersionZero(aggregateId: Guid, author: string, message: string)
    ensures
      var once := Models(aggregateId, Stamp([Event(Unversioned, PostCreated(aggregateId, author, message))], -1));
      Load(once + once, aggregateId) == Success(Loaded(PostState(aggregateId, true, author, map[]), 0))
  {
    var e := Event(Unversioned, PostCreated(aggregateId, author, message));
    var once := Models(aggregateId, Stamp([e], -1));
    MinusOneSkipsCheck(aggregateId, e);
    var twice := once + once;
    assert FindByAggregateId(twice, aggregateId) == twice;
    SortAscendingIsIdentity(twice);
    var events := EventDatas(twice);
    assert events == [e.(version := 0), e.(version := 0)];
    var created := PostState(aggregateId, true, author, map[]);
    assert Replay(Fresh, events) == Some(created) by {
      assert Evolve(Fresh, e.data) == Some(created);
      assert Evolve(created, e.data) == Some(created);
      assert events[1..] == [e.(version := 0)];
      assert Replay(created, events[1..][1..]) == Some(created);
      assert Replay(created, events[1..]) == Some(created);
    }
    assert GetEvents(twice, aggregateId) == Success(events);
    assert MaxVersion(events) == 0 by {
      MaxVersionIsMax(events);
    }
  }

  /** Events saved at expected version -1 are stored at versions 0, 1, ... */
  lemma ModelsFromMinusOne(aggregateId: Guid, a: Event, b: Event)
    ensures Models(aggregateId, Stamp([a], -1)) == [ModelOf(aggregateId, a.(version := 0))]
    ensures Models(aggregateId, Stamp([a, b], -1))
      == [ModelOf(aggregateId, a.(version := 0)), ModelOf(aggregateId, b.(version := 1))]
  {
    StampAssignsVersions([a], -1);
    StampAssignsVersions([a, b], -1);
    assert Stamp([a], -1) == [a.(version := 0)];
    assert Stamp([a, b], -1) == [a.(version := 0), b.(version := 1)];
    ModelsAt(aggregateId, [a.(version := 0)]);
    ModelsAt(aggregateId, [a.(version := 0), b.(version := 1)]);
  }

  /** Three records of one aggregate form its whole stream. */
  lemma FindOwnThree(r0: EventModel, r1: EventModel, r2: EventModel, aggregateId: Guid)
    requires r0.aggregateIdentifier == r1.aggregateIdentifier == r2.aggregateIdentifier == aggregateId
    ensures FindByAggregateId([r0, r1, r2], aggregateId) == [r0, r1, r2]
  {
    assert [r0, r1, r2][..2] == [r0, r1];
    assert [r0, r1][..1] == [r0];
    assert [r0][..0] == [];
    assert FindByAggregateId([r0], aggregateId) == [r0];
    assert FindByAggregateId([r0, r1], aggregateId) == [r0, r1];
  }

  /** Versions 0, 1, 0 sort to 0, 0, 1, the two version-0 records in save order. */
  lemma SortZeroOneZero(r0: EventModel, r1: EventModel, r2: EventModel)
    requires r0.version == 0 && r1.version == 1 && r2.version == 0
    ensures SortByVersion([r0, r1, r2]) == [r0, r2, r1]
  {
    assert [r0, r1, r2][1..] == [r1, r2];
    assert [r1, r2][1..] == [r2];
    assert SortByVersion([r2]) == [r2];
    assert InsertByVersion(r1, [r2]) == [r2, r1];
  }

  /** Creating a post and liking it twice leaves the created post. */
  lemma ReplayCreateLikeLike(create: Event, like: Event, aggregateId: Guid, author: string, message: string)
    requires create.data == PostCreated(aggregateId, author, message)
    requires like.data == PostLiked(aggregateId)
    ensures Replay(Fresh, [create, like, like.(version := 1)]) == Some(PostState(aggregateId, true, author, map[]))
  {
    var created := PostState(aggregateId, true, author, map[]);
    var events := [create, like, like.(version := 1)];
    assert events[1..] == [like, like.(version := 1)];
    assert events[1..][1..] == [like.(version := 1)];
    assert Replay(created, events[1..][1..]) == Some(created);
    assert Replay(created, events[1..]) == Some(created);
  }

  /** Saving again at expected version -1 breaks later saves. A post is created and
      liked in one save at -1, then liked again in a second save at -1. Both saves pass
      the check, and the stored versions are 0, 1, 0. The post loads at version 1, the
      maximum, while the last stored record has version 0, so saving the freshly loaded
      post fails with a concurrency conflict. */
  lemma ResaveAtMinusOneBlocksNextSave(aggregateId: Guid, author: string, message: string)
    ensures
      var create := Event(Unversioned, PostCreated(aggregateId, author, message));
      var like := Event(Unversioned, PostLiked(aggregateId));
      var first := Models(aggregateId, Stamp([create, like], -1));
      var records := first + Models(aggregateId, Stamp([like], -1));
      && CheckExpectedVersion(FindByAggregateId(first, aggregateId), -1) == Pass
      && [records[0].version, records[1].version, records[2].version] == [0, 1, 0]
      && Load(records, aggregateId) == Success(Loaded(PostState(aggregateId, true, author, map[]), 1))
      && CheckExpectedVersion(FindByAggregateId(records, aggregateId), 1) == Fail(Concurrency)
  {
    var create := Event(Unversioned, PostCreated(aggregateId, author, message));
    var like := Event(Unversioned, PostLiked(aggregateId));
    var c0, l1, l0 := ModelOf(aggregateId, create.(version := 0)), ModelOf(aggregateId, like.(version := 1)), ModelOf(aggregateId, like.(version := 0));
    ModelsFromMinusOne(aggregateId, create, like);
    ModelsFromMinusOne(aggregateId, like, like);
    var records := [c0, l1, l0];
    assert Models(aggregateId, Stamp([create, like], -1)) + Models(aggregateId, Stamp([like], -1)) == records;
    FindOwnThree(c0, l1, l0, aggregateId);
    SortZeroOneZero(c0, l1, l0);
    var events := [create.(version := 0), like.(version := 0), like.(version := 1)];
    assert EventDatas([c0, l0, l1]) == events;
    assert GetEvents(records, aggregateId) == Success(events);
    ReplayCreateLikeLike(create.(version := 0), like.(version := 0), aggregateId, author, message);
    assert Replay(Fresh, events) == Some(PostState(aggregateId, true, author, map[]));
    assert MaxVersion(events) == 1 by {
      MaxVersionIsMax(events);
      assert events[2].version == 1;
    }
  }

  /** A stream saved with versions 0, 1, 2, ... loads as the replay of its events in
      save order, at version one less than its length. */
  lemma {:induction false} LoadOfContiguous(records: seq<EventModel>, aggregateId: Guid)
    requires FindByAggregateId(records, aggregateId) != []
    requires Contiguous(FindByAggregateId(records, aggregateId))
    requires Consistent(FindByAggregateId(records, aggregateId))
    ensures Load(records, aggregateId) ==
      match Replay(Fresh, EventDatas(FindByAggregateId(records, aggregateId)))
      case None => Failure(DuplicateKey)
      case Some(s) => Success(Loaded(s, |FindByAggregateId(records, aggregateId)| - 1))
  {
    var stream := FindByAggregateId(records, aggregateId);
    var events := EventDatas(stream);
    ReadBackInSaveOrder(records, aggregateId);
    assert GetEvents(records, aggregateId) == Success(events);
    var m := MaxVersion(events);
    assert m == |stream| - 1 by {
      MaxVersionIsMax(events);
      assert events[|events| - 1].version == |stream| - 1;
      var i :| 0 <= i < |events| && events[i].version == m;
      assert events[i].version == i;
    }
    match Replay(Fresh, events)
    case None =>
      assert Load(records, aggregateId) == Failure(DuplicateKey);
    case Some(s) =>
      assert Load(records, aggregateId) == Success(Loaded(s, m));
  }

  /** The case of `LoadOfContiguous` where the stream replays to `s`: the post loads
      as `s` at the version of the stream's last record. */
  lemma LoadOfReplayed(records: seq<EventModel>, aggregateId: Guid, s: PostState, version: int)
    requires
      var stream := FindByAggregateId(records, aggregateId);
      && stream != [] && Contiguous(stream) && Consistent(stream)
      && version == |stream| - 1
      && Replay(Fresh, EventDatas(stream)) == Some(s)
    ensures Load(records, aggregateId) == Success(Loaded(s, version))
  {
    LoadOfContiguous(records, aggregateId);
  }

  /** Saving `changes` at the stream's last version extends the stream by their
      records: it stays contiguous and consistent, and reads back as the old events
      followed by the restamped changes. */
  lemma {:induction false} SaveExtendsStream(records: seq<EventModel>, aggregateId: Guid, changes: seq<Event>)
    requires Contiguous(FindByAggregateId(records, aggregateId))
    requires Consistent(FindByAggregateId(records, aggregateId))
    ensures
      var stream := FindByAggregateId(records, aggregateId);
      var stamped := Stamp(changes, |stream| - 1);
      var stream' := FindByAggregateId(records + Models(aggregateId, stamped), aggregateId);
      && stream' == stream + Models(aggregateId, stamped)
      && |stream'| == |stream| + |changes|
      && Contiguous(stream') && Consistent(stream')
      && EventDatas(stream') == EventDatas(stream) + stamped
  {
    var stream := FindByAggregateId(records, aggregateId);
    var added := Models(aggregateId, Stamp(changes, |stream| - 1));
    SavedRecords(aggregateId, changes, |stream| - 1);
    FindAfterAppend(records, added, aggregateId);
    ContiguousAppend(stream, added);
    ConsistentAppend(stream, added);
    EventDatasAppend(stream, added);
  }

  /** A post loaded from a stream with versions 0, 1, 2, ... carries the version of the
      stream's last record, so saving it straight back passes the store's check. */
  lemma LoadedVersionPassesCheck(records: seq<EventModel>, aggregateId: Guid)
    requires Contiguous(FindByAggregateId(records, aggregateId))
    requires Consistent(FindByAggregateId(records, aggregateId))
    requires Load(records, aggregateId).Success?
    ensures CheckExpectedVersion(FindByAggregateId(records, aggregateId), Load(records, aggregateId).value.version) == Pass
  {
    LoadOfContiguous(records, aggregateId);
  }

  /** The event-sourcing round trip. Take a post whose stored stream (versions 0 ... V,
      or empty with V = -1) replays to `committed` (by `LoadOfContiguous`, that is the
      post `GetById` loads, at version V, and by `LoadedVersionPassesCheck` saving at V
      passes the store's check), let its methods raise `changes` that move it to
      `current`, and append the records `saved` that `SaveEvents` writes for them at
      version V: loading the post again yields `current` at version V plus the number
      of changes. */
  lemma {:induction false} SaveThenLoad(records: seq<EventModel>, aggregateId: Guid, committed: PostState, changes: seq<Event>, current: PostState, saved: seq<EventModel>)
    requires Contiguous(FindByAggregateId(records, aggregateId))
    requires Consistent(FindByAggregateId(records, aggregateId))
    requires Replay(Fresh, EventDatas(FindByAggregateId(records, aggregateId))) == Some(committed)
    requires Replay(committed, changes) == Some(current)
    requires FindByAggregateId(records, aggregateId) != [] || changes != []
    requires saved == Models(aggregateId, Stamp(changes, |FindByAggregateId(records, aggregateId)| - 1))
    ensures Load(records + saved, aggregateId) == Success(Loaded(current, |FindByAggregateId(records, aggregateId)| - 1 + |changes|))
  {
    var all := records + saved;
    var version := |FindByAggregateId(records, aggregateId)| - 1 + |changes|;
    assert
      var stream' := FindByAggregateId(all, aggregateId);
      && stream' != [] && Contiguous(stream') && Consistent(stream')
      && version == |stream'| - 1
      && Replay(Fresh, EventDatas(stream')) == Some(current)
    by {
      SavedStreamReplays(records, aggregateId, committed, changes, current, saved);
    }
    LoadOfReplayed(all, aggregateId, current, version);
  }

  /** After the save, the stream is still numbered 0, 1, 2, ..., holds one more record
      per change and replays to the state the changes led to. */
  lemma {:induction false} SavedStreamReplays(records: seq<EventModel>, aggregateId: Guid, committed: PostState, changes: seq<Event>, current: PostState, saved: seq<EventModel>)
    requires Contiguous(FindByAggregateId(records, aggregateId))
    requires Consistent(FindByAggregateId(records, aggregateId))
    requires Replay(Fresh, EventDatas(FindByAggregateId(records, aggregateId))) == Some(committed)
    requires Replay(committed, changes) == Some(current)
    requires FindByAggregateId(records, aggregateId) != [] || changes != []
    requires saved == Models(aggregateId, Stamp(changes, |FindByAggregateId(records, aggregateId)| - 1))
    ensures
      var stream' := FindByAggregateId(records + saved, aggregateId);
      && stream' != [] && Contiguous(stream') && Consistent(stream')
      && |FindByAggregateId(records, aggregateId)| - 1 + |changes| == |stream'| - 1
      && Replay(Fresh, EventDatas(stream')) == Some(current)
  {
    SaveReplays(records, aggregateId, committed, changes, current);
    SaveExtendsStream(records, aggregateId, changes);
  }

  /** Restamped events replay like the originals. */
  lemma ReplayStamped(s: PostState, events: seq<Event>, expectedVersion: int)
    ensures Replay(s, Stamp(events, expectedVersion)) == Replay(s, events)
  {
    StampAssignsVersions(events, expectedVersion);
    ReplaySameData(s, Stamp(events, expectedVersion), events);
  }

  /** The saved stream replays to the state the changes led to. */
  lemma {:induction false} SaveReplays(records: seq<EventModel>, aggregateId: Guid, committed: PostState, changes: seq<Event>, current: PostState)
    requires Contiguous(FindByAggregateId(records, aggregateId))
    requires Consistent(FindByAggregateId(records, aggregateId))
    requires Replay(Fresh, EventDatas(FindByAggregateId(records, aggregateId))) == Some(committed)
    requires Replay(committed, changes) == Some(current)
    ensures
      var v := |FindByAggregateId(records, aggregateId)| - 1;
      Replay(Fresh, EventDatas(FindByAggregateId(records + Models(aggregateId, Stamp(changes, v)), aggregateId))) == Some(current)
  {
    var stream := FindByAggregateId(records, aggregateId);
    var stamped := Stamp(changes, |stream| - 1);
    SaveExtendsStream(records, aggregateId, changes);
    ReplayStamped(committed, changes, |stream| - 1);
    ReplayConcat(Fresh, EventDatas(stream), stamped);
  }

  /** What one id of the sweep publishes: nothing for a removed post, its whole
      stream for an active one; a post that cannot be loaded stops the sweep. */
  function Contribution(records: seq<EventModel>, aggregateId: Guid): (r: Result<seq<Event>>)
    ensures r.Failure? <==> Load(records, aggregateId).Failure?
    ensures r.Failure? ==> r.error == Load(records, aggregateId).error
    ensures r.Success? && r.value != [] ==>
      Load(records, aggregateId).value.state.active && GetEvents(records, aggregateId) == Success(r.value)
    ensures r.Success? && Load(records, aggregateId).value.state.active ==> GetEvents(records, aggregateId) == Success(r.value)
  {
    match Load(records, aggregateId)
    case Failure(err) => Failure(err)
    case Success(loaded) => if !loaded.state.active then Success([]) else GetEvents(records, aggregateId)
  }

  /** The contribution of each id, in the order the ids are swept. */
  function Contributions(records: seq<EventModel>, ids: seq<Guid>): (r: seq<Result<seq<Event>>>)
    ensures |r| == |ids|
  {
    seq(|ids|, i requires 0 <= i < |ids| => Contribution(records, ids[i]))
  }

  /** The events published so far and whether the sweep is still going. */
  datatype Swept = Swept(published: seq<Event>, outcome: Outcome)

  /** The outer `foreach` of `RepublishEventsAsync` over the contributions of the ids:
      publish each in turn, stopping at the first post that throws. */
  function Sweep(contributions: seq<Result<seq<Event>>>): Swept
  {
    if contributions == [] then Swept([], Pass)
    else
      var before := Sweep(contributions[..|contributions| - 1]);
      if before.outcome.Fail? then before
      else match contributions[|contributions| - 1]
        case Failure(err) => Swept(before.published, Fail(err))
        case Success(events) => Swept(before.published + events, Pass)
  }

  /** `RepublishEventsAsync` as a function of the records: an empty store throws from
      `GetAggregateIdsAsync`; otherwise every aggregate is swept in order of first
      appearance. */
  function Republish(records: seq<EventModel>): (r: Swept)
    ensures records == [] ==> r == Swept([], Fail(ArgumentNull(NoEventStream)))
  {
    match GetAggregateIds(records)
    case Failure(err) => Swept([], Fail(err))
    case Success(ids) => Sweep(Contributions(records, ids))
  }

  /** The sweep over one more contribution adds it, unless the sweep already failed. */
  lemma SweepStep(contributions: seq<Result<seq<Event>>>, i: nat)
    requires i < |contributions|
    ensures Sweep(contributions[..i + 1]) ==
      var before := Sweep(contributions[..i]);
      if before.outcome.Fail? then before
      else match contributions[i]
        case Failure(err) => Swept(before.published, Fail(err))
        case Success(events) => Swept(before.published + events, Pass)
  {
    assert contributions[..i + 1][..i] == contributions[..i];
  }

  /** Once a post of the sweep fails, the remaining posts publish nothing more and the
      sweep ends with that failure. */
  lemma {:induction false} SweepStops(contributions: seq<Result<seq<Event>>>, k: nat)
    requires k <= |contributions|
    requires Sweep(contributions[..k]).outcome.Fail?
    ensures Sweep(contributions) == Sweep(contributions[..k])
    decreases |contributions| - k
  {
    if k < |contributions| {
      SweepStep(contributions, k);
      SweepStops(contributions, k + 1);
    } else {
      assert contributions[..k] == contributions;
    }
  }

  /** Every published event comes from a successful contribution. */
  lemma {:induction false} SweepPublishesOnlyContributed(contributions: seq<Result<seq<Event>>>, e: Event)
    requires e in Sweep(contributions).published
    ensures exists i :: 0 <= i < |contributions| && contributions[i].Success? && e in contributions[i].value
  {
    var n := |contributions| - 1;
    var front := contributions[..n];
    var before := Sweep(front);
    if e in before.published {
      SweepPublishesOnlyContributed(front, e);
      var i :| 0 <= i < |front| && front[i].Success? && e in front[i].value;
      assert contributions[i] == front[i];
    } else {
      assert contributions[n].Success? && e in contributions[n].value;
    }
  }

  /** When no contribution fails, the sweep completes and publishes every contributed
      event. */
  lemma {:induction false} SweepPublishesAllContributed(contributions: seq<Result<seq<Event>>>)
    requires forall i :: 0 <= i < |contributions| ==> contributions[i].Success?
    ensures Sweep(contributions).outcome == Pass
    ensures forall i, e :: 0 <= i < |contributions| && e in contributions[i].value ==> e in Sweep(contributions).published
  {
    if contributions != [] {
      var n := |contributions| - 1;
      var front := contributions[..n];
      assert forall i :: 0 <= i < |front| ==> front[i] == contributions[i];
      SweepPublishesAllContributed(front);
    }
  }

  /** `e` is one of the stored events of post `id`, and that post loads as active. */
  predicate Republishable(records: seq<EventModel>, id: Guid, e: Event) {
    && Load(records, id).Success? && Load(records, id).value.state.active
    && GetEvents(records, id).Success? && e in GetEvents(records, id).value
  }

  /** Only active posts are republished: every published event belongs to the stored
      stream of a post in the store that loads as active. */
  lemma RepublishesOnlyActive(records: seq<EventModel>, e: Event)
    requires e in Republish(records).published
    ensures exists id :: FindByAggregateId(records, id) != [] && Republishable(records, id, e)
  {
    var ids := GetAggregateIds(records).value;
    var contributions := Contributions(records, ids);
    SweepPublishesOnlyContributed(contributions, e);
    var i :| 0 <= i < |contributions| && contributions[i].Success? && e in contributions[i].value;
    assert contributions[i] == Contribution(records, ids[i]);
    GetAggregateIdsCoversStore(records, ids[i]);
    assert Republishable(records, ids[i], e);
  }

  /** When every post in the store loads, republishing completes, and every stored
      event of every active post is published again. */
  lemma RepublishesEveryActive(records: seq<EventModel>)
    requires records != []
    requires forall id :: FindByAggregateId(records, id) != [] ==> Load(records, id).Success?
    ensures Republish(records).outcome == Pass
    ensures forall id, e :: Republishable(records, id, e) ==> e in Republish(records).published
  {
    var ids := GetAggregateIds(records).value;
    var contributions := Contributions(records, ids);
    forall i | 0 <= i < |contributions| ensures contributions[i].Success? {
      assert contributions[i] == Contribution(records, ids[i]);
      GetAggregateIdsCoversStore(records, ids[i]);
    }
    SweepPublishesAllContributed(contributions);
    forall id, e | Republishable(records, id, e) ensures e in Republish(records).published {
      GetAggregateIdsCoversStore(records, id);
      var i :| 0 <= i < |ids| && ids[i] == id;
      assert contributions[i] == Contribution(records, id);
    }
  }

  /** The handler, holding the event store and the producer it republishes through. */
  class EventSourcingHandler {
    const store: EventStore
    const producer: EventProducer

    constructor (store: EventStore, producer: EventProducer)
      ensures this.store == store && this.producer == producer
    {
      this.store := store;
      this.producer := producer;
    }

    /** `SaveAsync`: save the uncommitted changes at the aggregate's version; only when
        that succeeds are the changes marked as committed. */
    method Save(aggregate: PostAggregate) returns (r: Outcome)
      modifies store, store.producer, aggregate
      ensures r == CheckExpectedVersion(FindByAggregateId(old(store.records), old(aggregate.id)), old(aggregate.version))
      ensures r.Pass? ==>
        store.records == old(store.records) + Models(old(aggregate.id), Stamp(old(aggregate.changes), old(aggregate.version)))
      ensures r.Pass? ==>
        store.producer.published == old(store.producer.published) + Stamp(old(aggregate.changes), old(aggregate.version))
      ensures r.Pass? ==>
        aggregate.changes == [] && aggregate.State() == old(aggregate.State()) && aggregate.version == old(aggregate.version) &&
        aggregate.Valid() && aggregate.committed == aggregate.State()
      ensures r.Fail? ==>
        store.records == old(store.records) && store.producer.published == old(store.producer.published) &&
        unchanged(aggregate)
    {
      r := store.SaveEvents(aggregate.id, aggregate.changes, aggregate.version);
      if r.Pass? {
        aggregate.MarkChangesAsCommitted();
      }
    }

    /** `GetByIdAsync`: a new aggregate, the stored events replayed into it, its version
        set to their highest. A stream that `GetEventsAsync` returns is never empty, so
        `GetByIdAsync`'s early return of the bare aggregate is never taken. */
    method GetById(aggregateId: Guid) returns (r: Result<PostAggregate>)
      ensures r.Failure? <==> Load(store.records, aggregateId).Failure?
      ensures r.Failure? ==> r.error == Load(store.records, aggregateId).error
      ensures r.Success? ==>
        fresh(r.value) && r.value.Valid() && r.value.changes == [] &&
        Load(store.records, aggregateId) == Success(Loaded(r.value.State(), r.value.version))
    {
      var aggregate := new PostAggregate();
      var events := GetEvents(store.records, aggregateId);
      if events.Failure? {
        return Failure(events.error);
      }
      var replayed := aggregate.ReplayEvents(events.value);
      if replayed.Fail? {
        return Failure(replayed.error);
      }
      aggregate.version := MaxVersion(events.value);
      r := Success(aggregate);
    }

    /** One pass of the outer `foreach` of `RepublishEventsAsync`: load the post and,
        when it is active, produce each of its stored events, in order. */
    method RepublishAggregate(aggregateId: Guid, ghost contributed: Result<seq<Event>>) returns (r: Outcome)
      requires contributed == Contribution(store.records, aggregateId)
      modifies producer
      ensures r.Fail? <==> contributed.Failure?
      ensures r.Fail? ==> r.error == contributed.error
      ensures r.Pass? ==> producer.published == old(producer.published) + contributed.value
      ensures r.Fail? ==> producer.published == old(producer.published)
    {
      var loaded := GetById(aggregateId);
      if loaded.Failure? {
        return Fail(loaded.error);
      }
      if !loaded.value.active {
        return Pass;
      }
      var events := GetEvents(store.records, aggregateId);
      PublishAll(events.value);
      r := Pass;
    }

    /** The inner `foreach` of `RepublishEventsAsync`: produce each event, in order. */
    method PublishAll(events: seq<Event>)
      modifies producer
      ensures producer.published == old(producer.published) + events
    {
      var j := 0;
      while j < |events|
        invariant 0 <= j <= |events|
        invariant producer.published == old(producer.published) + events[..j]
      {
        producer.Produce(events[j]);
        assert events[..j + 1] == events[..j] + [events[j]];
        j := j + 1;
      }
      assert events[..j] == events;
    }

    /** `RepublishEventsAsync`: for every stored aggregate id, load the post and, when it
        is active, publish its stored events again in version order. */
    method RepublishEvents() returns (r: Outcome)
      modifies producer
      ensures r == Republish(store.records).outcome
      ensures producer.published == old(producer.published) + Republish(store.records).published
    {
      var aggregateIds := GetAggregateIds(store.records);
      if aggregateIds.Failure? {
        return Fail(aggregateIds.error);
      }
      var ids := aggregateIds.value;
      ghost var records := store.records;
      ghost var contributions := Contributions(records, ids);
      ghost var start := producer.published;
      var i := 0;
      while i < |ids|
        invariant 0 <= i <= |ids|
        invariant store.records == records
        invariant Sweep(contributions[..i]).outcome == Pass
        invariant producer.published == start + Sweep(contributions[..i]).published
      {
        SweepStep(contributions, i);
        var done := RepublishAggregate(ids[i], contributions[i]);
        if done.Fail? {
          SweepStops(contributions, i + 1);
          return done;
        }
        ghost var earlier := Sweep(contributions[..i]).published;
        assert Sweep(contributions[..i + 1]).published == earlier + contributions[i].value;
        assert producer.published == start + Sweep(contributions[..i + 1]).published by {
          AppendAssociates(start, earlier, contributions[i].value);
        }
        i := i + 1;
      }
      assert contributions[..i] == contributions;
      r := Pass;
    }
  }
}
