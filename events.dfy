/** The post events (the `BaseEvent` subclasses of the common events project) and
    the persisted event record. Timestamps are not modelled. */
module Events {
  import opened Core

  /** The payload of each event variant; every variant carries the post's `Id`. */
  datatype EventData =
    | PostCreated(id: Guid, author: string, message: string)
    | MessageUpdated(id: Guid, message: string)
    | PostLiked(id: Guid)
    | CommentAdded(id: Guid, commentId: Guid, comment: string, username: string)
    | CommentUpdated(id: Guid, commentId: Guid, comment: string, username: string)
    | CommentRemoved(id: Guid, commentId: Guid)
    | PostRemoved(id: Guid)

  /** A `BaseEvent`: its `Version` is assigned by the event store when it is saved. */
  datatype Event = Event(version: int, data: EventData)

  /** The `Version` of an event that has been raised but not yet saved (C#'s default `int`). */
  const Unversioned: int := 0

  /** `@event.GetType().Name`: the tag stored beside each event. */
  function TypeName(d: EventData): string
  {
    match d
    case PostCreated(_, _, _) => "PostCreatedEvent"
    case MessageUpdated(_, _) => "MessageUpdatedEvent"
    case PostLiked(_) => "PostLikedEvent"
    case CommentAdded(_, _, _, _) => "CommentAddedEvent"
    case CommentUpdated(_, _, _, _) => "CommentUpdatedEvent"
    case CommentRemoved(_, _) => "CommentRemovedEvent"
    case PostRemoved(_) => "PostRemovedEvent"
  }

  /** The tag tells the variants apart: two payloads share a tag exactly when they are
      the same variant. */
  lemma TypeNameIdentifiesVariant(a: EventData, b: EventData)
    ensures TypeName(a) == TypeName(b) <==> SameVariant(a, b)
  {
  }

  predicate SameVariant(a: EventData, b: EventData) {
    || (a.PostCreated? && b.PostCreated?)
    || (a.MessageUpdated? && b.MessageUpdated?)
    || (a.PostLiked? && b.PostLiked?)
    || (a.CommentAdded? && b.CommentAdded?)
    || (a.CommentUpdated? && b.CommentUpdated?)
    || (a.CommentRemoved? && b.CommentRemoved?)
    || (a.PostRemoved? && b.PostRemoved?)
  }

  /** An `EventModel`: one document of the event-store collection. */
  datatype EventModel = EventModel(
    aggregateIdentifier: Guid,
    aggregateType: string,
    version: int,
    eventType: string,
    eventData: Event)
}
