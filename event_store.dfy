/** The event store: `SaveEventsAsync` with its optimistic-concurrency check and
    running version counter, and the two read queries. The Mongo collection is the
    append-only list `records` of event models; the Kafka producer is the
    append-only list `published` of events. */
module Stores {
  import opened Core
  import opened Events
  import opened Queries

  /** `nameof(PostAggregate)`, stored in every record. */
  const AggregateTypeName := "PostAggregate"

  const IncorrectPostId := "Incorrect post ID provided."
  const NoEventStream := "Could not retrieve event stream from event store."

  /** The repository's `FindByAggregateId`: one aggregate's records, in the order they
      were saved. */
  function FindByAggregateId(records: seq<EventModel>, aggregateId: Guid): (r: seq<EventModel>)
    ensures |r| <= |records|
  {
    if records == [] then []
    else
      var front := FindByAggregateId(records[..|records| - 1], aggregateId);
      var last := records[|records| - 1];
      if last.aggregateIdentifier == aggregateId then front + [last] else front
  }

  /** The stream holds exactly the records of that aggregate. */
  lemma {:induction false} FindMembership(records: seq<EventModel>, aggregateId: Guid, x: EventModel)
    ensures x in FindByAggregateId(records, aggregateId) <==> x in records && x.aggregateIdentifier == aggregateId
  {
    if records != [] {
      var front := records[..|records| - 1];
      FindMembership(front, aggregateId, x);
      assert records == front + [records[|records| - 1]];
    }
  }

  /** Appending records of one aggregate extends that aggregate's stream by exactly those
      records. */
  lemma {:induction false} FindAfterAppend(records: seq<EventModel>, added: seq<EventModel>, aggregateId: Guid)
    requires forall x :: x in added ==> x.aggregateIdentifier == aggregateId
    ensures FindByAggregateId(records + added, aggregateId) == FindByAggregateId(records, aggregateId) + added
    decreases |added|
  {
    if added == [] {
      assert records + added == records;
    } else {
      var front := added[..|added| - 1];
      var last := added[|added| - 1];
      assert last.aggregateIdentifier == aggregateId by {
        assert last in added;
      }
      var all := records + added;
      assert all[..|all| - 1] == records + front && all[|all| - 1] == last;
      calc {
        FindByAggregateId(all, aggregateId);
        FindByAggregateId(records + front, aggregateId) + [last];
        { FindAfterAppend(records, front, aggregateId); }
        (FindByAggregateId(records, aggregateId) + front) + [last];
        { assert front + [last] == added; }
        FindByAggregateId(records, aggregateId) + added;
      }
    }
  }

  /** ... and leaves every other aggregate's stream as it was. */
  lemma {:induction false} FindAfterAppendOther(records: seq<EventModel>, added: seq<EventModel>, aggregateId: Guid, other: Guid)
    requires forall x :: x in added ==> x.aggregateIdentifier == aggregateId
    requires other != aggregateId
    ensures FindByAggregateId(records + added, other) == FindByAggregateId(records, other)
    decreases |added|
  {
    if added == [] {
      assert records + added == records;
    } else {
      var front := added[..|added| - 1];
      assert added[|added| - 1] in added;
      FindAfterAppendOther(records, front, aggregateId, other);
      var all := records + added;
      assert all[..|all| - 1] == records + front;
    }
  }

  /** The guard of `SaveEventsAsync`: with an expected version other than -1, the last
      stored record must carry that version; reading it from an empty stream throws. */
  function CheckExpectedVersion(stream: seq<EventModel>, expectedVersion: int): (r: Outcome)
    ensures expectedVersion == -1 ==> r == Pass
    ensures expectedVersion != -1 && stream == [] ==> r == Fail(IndexOutOfRange)
    ensures stream != [] && stream[|stream| - 1].version != expectedVersion && expectedVersion != -1 ==>
      r == Fail(Concurrency)
    ensures r.Pass? ==> expectedVersion == -1 || stream[|stream| - 1].version == expectedVersion
  {
    if expectedVersion != -1 && stream == [] then Fail(IndexOutOfRange)
    else if expectedVersion != -1 && stream[|stream| - 1].version != expectedVersion then Fail(Concurrency)
    else Pass
  }

  /** The running counter: the events in input order with versions
      `expectedVersion + 1`, `expectedVersion + 2`, ... and nothing else changed. */
  function Stamp(events: seq<Event>, expectedVersion: int): (r: seq<Event>)
    ensures |r| == |events|
  {
    if events == [] then []
    else
      var n := |events|;
      Stamp(events[..n - 1], expectedVersion) + [events[n - 1].(version := expectedVersion + n)]
  }

  /** N events saved at expected version V receive versions V+1 ... V+N, in input
      order, with no gap; their payloads are untouched. */
  lemma {:induction false} StampAssignsVersions(events: seq<Event>, expectedVersion: int)
    ensures forall i :: 0 <= i < |events| ==>
      Stamp(events, expectedVersion)[i] == Event(expectedVersion + 1 + i, events[i].data)
  {
    if events != [] {
      StampAssignsVersions(events[..|events| - 1], expectedVersion);
    }
  }

  lemma StampStep(events: seq<Event>, expectedVersion: int, i: nat)
    requires i < |events|
    ensures Stamp(events[..i + 1], expectedVersion)
      == Stamp(events[..i], expectedVersion) + [events[i].(version := expectedVersion + i + 1)]
  {
    assert events[..i + 1][..i] == events[..i];
  }

  /** The `EventModel` stored for an event (its timestamp is not modelled). */
  function ModelOf(aggregateId: Guid, e: Event): EventModel {
    EventModel(aggregateId, AggregateTypeName, e.version, TypeName(e.data), e)
  }

  function Models(aggregateId: Guid, events: seq<Event>): (r: seq<EventModel>)
    ensures |r| == |events|
  {
    if events == [] then []
    else Models(aggregateId, events[..|events| - 1]) + [ModelOf(aggregateId, events[|events| - 1])]
  }

  /** Each stored record belongs to the saving aggregate, is tagged `PostAggregate` and
      the event's variant, and carries the event and its version. */
  lemma {:induction false} ModelsAt(aggregateId: Guid, events: seq<Event>)
    ensures forall i :: 0 <= i < |events| ==> Models(aggregateId, events)[i] == ModelOf(aggregateId, events[i])
    ensures forall x :: x in Models(aggregateId, events) ==>
      x.aggregateIdentifier == aggregateId && x.aggregateType == AggregateTypeName &&
      x.version == x.eventData.version && x.eventType == TypeName(x.eventData.data)
  {
    if events != [] {
      ModelsAt(aggregateId, events[..|events| - 1]);
    }
  }

  lemma ModelsAppend(aggregateId: Guid, events: seq<Event>, e: Event)
    ensures Models(aggregateId, events + [e]) == Models(aggregateId, events) + [ModelOf(aggregateId, e)]
  {
    assert (events + [e])[..|events|] == events;
  }

  /** The event producer: `ProduceAsync(topic, event)` appends to the topic's log. The
      topic is the `KAFKA_TOPIC` setting, fixed when the producer is made. */
  class EventProducer {
    const topic: string
    var published: seq<Event>

    constructor (topic: string)
      ensures this.topic == topic && published == []
    {
      this.topic := topic;
      published := [];
    }

    method Produce(e: Event)
      modifies this
      ensures published == old(published) + [e]
    {
      published := published + [e];
    }
  }

  class EventStore {
    var records: seq<EventModel>
    const producer: EventProducer

    constructor (producer: EventProducer)
      ensures records == [] && this.producer == producer
    {
      records := [];
      this.producer := producer;
    }

    /** `SaveEventsAsync`. On a failed check nothing is saved or published; otherwise each
        event receives the next version, is saved as a record and then published. */
    method SaveEvents(aggregateId: Guid, events: seq<Event>, expectedVersion: int) returns (r: Outcome)
      modifies this, producer
      ensures r == CheckExpectedVersion(FindByAggregateId(old(records), aggregateId), expectedVersion)
      ensures r.Fail? ==> records == old(records) && producer.published == old(producer.published)
      ensures r.Pass? ==> records == old(records) + Models(aggregateId, Stamp(events, expectedVersion))
      ensures r.Pass? ==> producer.published == old(producer.published) + Stamp(events, expectedVersion)
    {
      var eventStream := FindByAggregateId(records, aggregateId);
      if expectedVersion != -1 {
        if eventStream == [] {
          return Fail(IndexOutOfRange);
        }
        if eventStream[|eventStream| - 1].version != expectedVersion {
          return Fail(Concurrency);
        }
      }
      AppendEvents(aggregateId, events, expectedVersion);
      r := Pass;
    }

    /** The `foreach` of `SaveEventsAsync`: bump the running version, stamp the event
        with it, save its record, then publish it. */
    method AppendEvents(aggregateId: Guid, events: seq<Event>, expectedVersion: int)
      modifies this, producer
      ensures records == old(records) + Models(aggregateId, Stamp(events, expectedVersion))
      ensures producer.published == old(producer.published) + Stamp(events, expectedVersion)
    {
      ghost var startRecords, startPublished := records, producer.published;
      var version := expectedVersion;
      var i := 0;
      while i < |events|
        invariant 0 <= i <= |events|
        invariant version == expectedVersion + i
        invariant records == startRecords + Models(aggregateId, Stamp(events[..i], expectedVersion))
        invariant producer.published == startPublished + Stamp(events[..i], expectedVersion)
      {
        version := version + 1;
        var e := events[i].(version := version);
        var eventModel := EventModel(aggregateId, AggregateTypeName, version, TypeName(e.data), e);
        ghost var done := Stamp(events[..i], expectedVersion);
        ghost var next := Stamp(events[..i + 1], expectedVersion);
        assert next == done + [e] by {
          StampStep(events, expectedVersion, i);
        }
        assert Models(aggregateId, next) == Models(aggregateId, done) + [eventModel] by {
          ModelsAppend(aggregateId, done, e);
        }
        records := records + [eventModel];
        producer.Produce(e);
        AppendAssociates(startRecords, Models(aggregateId, done), [eventModel]);
        AppendAssociates(startPublished, done, [e]);
        i := i + 1;
      }
      assert events[..i] == events;
    }
  }

  /** Every record carries the version of the event it holds (true of each record that
      `SaveEvents` writes). */
  predicate Consistent(records: seq<EventModel>) {
    forall i :: 0 <= i < |records| ==> records[i].version == records[i].eventData.version
  }

  /** A stream whose versions are 0, 1, 2, ... in save order. */
  predicate Contiguous(stream: seq<EventModel>) {
    forall i :: 0 <= i < |stream| ==> stream[i].version == i
  }

  /** The records `SaveEvents` writes for `events` at expected version V belong to the
      saving aggregate, carry V+1, V+2, ... and hold the restamped events. */
  lemma {:induction false} SavedRecords(aggregateId: Guid, events: seq<Event>, expectedVersion: int)
    ensures
      var added := Models(aggregateId, Stamp(events, expectedVersion));
      && (forall x :: x in added ==> x.aggregateIdentifier == aggregateId)
      && Consistent(added)
      && (forall i :: 0 <= i < |added| ==> added[i].version == expectedVersion + 1 + i)
      && EventDatas(added) == Stamp(events, expectedVersion)
  {
    var stamped := Stamp(events, expectedVersion);
    StampAssignsVersions(events, expectedVersion);
    ModelsAt(aggregateId, stamped);
  }

  lemma ContiguousAppend(stream: seq<EventModel>, added: seq<EventModel>)
    requires Contiguous(stream)
    requires forall i :: 0 <= i < |added| ==> added[i].version == |stream| + i
    ensures Contiguous(stream + added)
  {
    forall i | |stream| <= i < |stream + added| ensures (stream + added)[i].version == i {
      assert (stream + added)[i] == added[i - |stream|];
    }
  }

  lemma ConsistentAppend(a: seq<EventModel>, b: seq<EventModel>)
    requires Consistent(a) && Consistent(b)
    ensures Consistent(a + b)
  {
    forall i | |a| <= i < |a + b| ensures (a + b)[i].version == (a + b)[i].eventData.version {
      assert (a + b)[i] == b[i - |a|];
    }
  }

  /** `GetEventsAsync`: the aggregate's events sorted by version; an absent or empty
      stream throws. */
  function GetEvents(records: seq<EventModel>, aggregateId: Guid): (r: Result<seq<Event>>)
    ensures r.Failure? <==> FindByAggregateId(records, aggregateId) == []
    ensures r.Failure? ==> r.error == AggregateNotFound(IncorrectPostId)
    ensures r.Success? ==> |r.value| == |FindByAggregateId(records, aggregateId)|
  {
    var eventStream := FindByAggregateId(records, aggregateId);
    if eventStream == [] then Failure(AggregateNotFound(IncorrectPostId))
    else
      Success(EventDatas(SortByVersion(eventStream)))
  }

  /** What `GetEventsAsync` returns is exactly the payloads of the aggregate's records,
      reordered; when every record carries its event's version, in ascending version
      order. */
  lemma GetEventsSortsStream(records: seq<EventModel>, aggregateId: Guid)
    requires FindByAggregateId(records, aggregateId) != []
    ensures multiset(GetEvents(records, aggregateId).value) == multiset(EventDatas(FindByAggregateId(records, aggregateId)))
    ensures Consistent(records) ==> EventsAscending(GetEvents(records, aggregateId).value)
  {
    var eventStream := FindByAggregateId(records, aggregateId);
    SortKeepsPayloads(eventStream);
    assert forall x :: x in eventStream ==> x in records by {
      forall x | x in eventStream ensures x in records {
        FindMembership(records, aggregateId, x);
      }
    }
    SortedPayloadsAscending(records, eventStream);
  }

  lemma SortedPayloadsAscending(records: seq<EventModel>, stream: seq<EventModel>)
    requires forall x :: x in stream ==> x in records
    ensures Consistent(records) ==> EventsAscending(EventDatas(SortByVersion(stream)))
  {
    if Consistent(records) {
      var sorted := SortByVersion(stream);
      SortByVersionSorts(stream);
      forall i | 0 <= i < |sorted|
        ensures sorted[i].eventData.version == sorted[i].version
      {
        assert sorted[i] in multiset(stream);
        assert sorted[i] in records;
        var k :| 0 <= k < |records| && records[k] == sorted[i];
      }
    }
  }

  /** A stream saved in version order reads back exactly in save order. */
  lemma ReadBackInSaveOrder(records: seq<EventModel>, aggregateId: Guid)
    requires FindByAggregateId(records, aggregateId) != []
    requires Contiguous(FindByAggregateId(records, aggregateId))
    ensures GetEvents(records, aggregateId) == Success(EventDatas(FindByAggregateId(records, aggregateId)))
  {
    SortAscendingIsIdentity(FindByAggregateId(records, aggregateId));
  }

  /** `Select(x => x.AggregateIdentifier)`. */
  function AggregateIdentifiers(records: seq<EventModel>): (r: seq<Guid>)
    ensures |r| == |records| && forall i :: 0 <= i < |r| ==> r[i] == records[i].aggregateIdentifier
  {
    if records == [] then [] else [records[0].aggregateIdentifier] + AggregateIdentifiers(records[1..])
  }

  /** `GetAggregateIdsAsync`: every aggregate id that has a record, once each, in order of
      first appearance; an empty store throws. */
  function GetAggregateIds(records: seq<EventModel>): (r: Result<seq<Guid>>)
    ensures r.Failure? <==> records == []
    ensures r.Failure? ==> r.error == ArgumentNull(NoEventStream)
    ensures r.Success? ==> NoDuplicates(r.value)
  {
    if records == [] then Failure(ArgumentNull(NoEventStream))
    else Success(Distinct(AggregateIdentifiers(records)))
  }

  /** The ids returned are exactly the aggregates that have a stream. */
  lemma GetAggregateIdsCoversStore(records: seq<EventModel>, id: Guid)
    requires records != []
    ensures id in GetAggregateIds(records).value <==> FindByAggregateId(records, id) != []
  {
    var ids := GetAggregateIds(records).value;
    if id in ids {
      var k :| 0 <= k < |records| && AggregateIdentifiers(records)[k] == id;
      FindMembership(records, id, records[k]);
    }
    if FindByAggregateId(records, id) != [] {
      var x := FindByAggregateId(records, id)[0];
      FindMembership(records, id, x);
      var k :| 0 <= k < |records| && records[k] == x;
      assert AggregateIdentifiers(records)[k] == id;
    }
  }

  /** Versions stay contiguous when a writer appends at the stream's last version (or to
      an empty stream at -1): N events at expected version V receive V+1 ... V+N. */
  lemma SaveKeepsContiguous(records: seq<EventModel>, aggregateId: Guid, events: seq<Event>, expectedVersion: int)
    requires Contiguous(FindByAggregateId(records, aggregateId))
    requires CheckExpectedVersion(FindByAggregateId(records, aggregateId), expectedVersion).Pass?
    requires expectedVersion == -1 ==> FindByAggregateId(records, aggregateId) == []
    ensures Contiguous(FindByAggregateId(records + Models(aggregateId, Stamp(events, expectedVersion)), aggregateId))
  {
    var stream := FindByAggregateId(records, aggregateId);
    var added := Models(aggregateId, Stamp(events, expectedVersion));
    SavedRecords(aggregateId, events, expectedVersion);
    FindAfterAppend(records, added, aggregateId);
    assert expectedVersion == |stream| - 1;
    ContiguousAppend(stream, added);
  }

  /** Records written by `SaveEvents` carry their event's version. */
  lemma SaveKeepsConsistent(records: seq<EventModel>, aggregateId: Guid, events: seq<Event>, expectedVersion: int)
    requires Consistent(records)
    ensures Consistent(records + Models(aggregateId, Stamp(events, expectedVersion)))
  {
    SavedRecords(aggregateId, events, expectedVersion);
    ConsistentAppend(records, Models(aggregateId, Stamp(events, expectedVersion)));
  }

  /** Optimistic concurrency: two writers that read the same version V (other than -1)
      cannot both append; once one has appended at least one event, the other's check
      fails with a concurrency conflict. */
  lemma SecondWriterConflicts(records: seq<EventModel>, aggregateId: Guid, first: seq<Event>, second: seq<Event>, expectedVersion: int)
    requires expectedVersion != -1 && first != []
    requires CheckExpectedVersion(FindByAggregateId(records, aggregateId), expectedVersion).Pass?
    ensures CheckExpectedVersion(
      FindByAggregateId(records + Models(aggregateId, Stamp(first, expectedVersion)), aggregateId),
      expectedVersion) == Fail(Concurrency)
  {
    var stamped := Stamp(first, expectedVersion);
    var added := Models(aggregateId, stamped);
    StampAssignsVersions(first, expectedVersion);
    ModelsAt(aggregateId, stamped);
    FindAfterAppend(records, added, aggregateId);
    var stream' := FindByAggregateId(records + added, aggregateId);
    assert stream'[|stream'| - 1] == added[|added| - 1];
    assert added[|added| - 1].version == expectedVersion + |first|;
  }

  /** Expected version -1 skips the check whatever is stored: a second "new aggregate"
      append to a non-empty stream succeeds and stores a second record with version 0. */
  lemma MinusOneSkipsCheck(aggregateId: Guid, e: Event)
    ensures
      var once := Models(aggregateId, Stamp([e], -1));
      && CheckExpectedVersion(FindByAggregateId(once, aggregateId), -1) == Pass
      && var twice := once + Models(aggregateId, Stamp([e], -1));
      && twice[0].version == 0 && twice[1].version == 0
      && FindByAggregateId(twice, aggregateId) == twice
  {
    var once := Models(aggregateId, Stamp([e], -1));
    StampAssignsVersions([e], -1);
    ModelsAt(aggregateId, Stamp([e], -1));
    FindAfterAppend([], once, aggregateId);
    FindAfterAppend(once, once, aggregateId);
    assert [] + once == once;
  }
}
