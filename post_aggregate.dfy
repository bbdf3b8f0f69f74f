/** `PostAggregate` together with the minimal `AggregateRoot` it extends: `Id`,
    `Version`, the list of uncommitted changes, `RaiseEvent`, `ReplayEvents` and
    `MarkChangesAsCommitted`. Every method is proved against the decider in
    post_model.dfy, and every method keeps the event-sourcing invariant `Valid()`:
    the in-memory state is the replay of the uncommitted changes on top of the
    state they were raised from. */
module PostAggregates {
  import opened Core
  import opened Events
  import opened Text
  import opened PostModel

  class PostAggregate {
    var id: Guid
    var version: int
    var changes: seq<Event>
    var active: bool
    var author: string
    var comments: map<Guid, Comment>

    /** The state the uncommitted changes were raised from. */
    ghost var committed: PostState

    function State(): PostState
      reads this
    {
      PostState(id, active, author, comments)
    }

    ghost predicate Valid()
      reads this
    {
      Replay(committed, changes) == Some(State())
    }

    /** What a business method did, for command `c` issued in state `before` with the
        uncommitted changes `beforeChanges`: a rejected command changes nothing, an
        accepted one moves to the next state and records its single event. */
    ghost predicate Performed(before: PostState, beforeChanges: seq<Event>, c: Command, r: Outcome)
      reads this
    {
      match Execute(before, c)
      case Failure(err) => r == Fail(err) && State() == before && changes == beforeChanges
      case Success(step) => r == Pass && State() == step.next && changes == beforeChanges + [step.event]
    }

    /** `new PostAggregate()`: the object the handler replays events into. */
    constructor ()
      ensures Valid() && committed == Fresh && State() == Fresh
      ensures version == -1 && changes == []
    {
      id, version, changes := EmptyGuid, -1, [];
      active, author, comments := false, "", map[];
      committed := Fresh;
    }

    /** `new PostAggregate(id, author, message)`: raises one `PostCreatedEvent`. */
    constructor Create(id: Guid, author: string, message: string)
      ensures Valid() && committed == Fresh && version == -1
      ensures State() == PostState(id, true, author, map[])
      ensures changes == [Event(Unversioned, PostCreated(id, author, message))]
    {
      this.id, version, changes := EmptyGuid, -1, [];
      active, this.author, comments := false, "", map[];
      committed := Fresh;
      new;
      var r := RaiseEvent(Event(Unversioned, PostCreated(id, author, message)));
    }

    /** The seven `Apply` overloads, dispatched on the event's variant. Only the
        comment-added case can fail, after it has already copied the event's `Id`. */
    method Apply(e: Event) returns (ok: bool)
      modifies this
      ensures ok == Evolve(old(State()), e.data).Some?
      ensures ok ==> Some(State()) == Evolve(old(State()), e.data)
      ensures !ok ==> State() == old(State()).(id := e.data.id)
      ensures changes == old(changes) && version == old(version) && committed == old(committed)
    {
      ok := true;
      match e.data
      case PostCreated(eventId, eventAuthor, _) =>
        id, active, author := eventId, true, eventAuthor;
      case MessageUpdated(eventId, _) =>
        id := eventId;
      case PostLiked(eventId) =>
        id := eventId;
      case CommentAdded(eventId, commentId, comment, username) =>
        id := eventId;
        if commentId in comments {
          ok := false;
        } else {
          comments := comments[commentId := Comment(comment, username)];
        }
      case CommentUpdated(eventId, commentId, comment, username) =>
        id := eventId;
        comments := comments[commentId := Comment(comment, username)];
      case CommentRemoved(eventId, commentId) =>
        id := eventId;
        comments := comments - {commentId};
      case PostRemoved(eventId) =>
        id := eventId;
        active := false;
    }

    /** `RaiseEvent`: apply the event, then record it as uncommitted. When `Apply`
        throws, the event is not recorded. */
    method RaiseEvent(e: Event) returns (r: Outcome)
      modifies this
      ensures committed == old(committed) && version == old(version)
      ensures r.Pass? <==> Evolve(old(State()), e.data).Some?
      ensures r.Pass? ==> Some(State()) == Evolve(old(State()), e.data) && changes == old(changes) + [e]
      ensures r.Fail? ==> r.error == DuplicateKey && changes == old(changes)
      ensures r.Fail? ==> State() == old(State()).(id := e.data.id)
      ensures old(Valid()) && (r.Pass? || e.data.id == old(id)) ==> Valid()
    {
      var ok := Apply(e);
      if ok {
        ReplayAppend(committed, changes, e);
        changes := changes + [e];
        r := Pass;
      } else {
        r := Fail(DuplicateKey);
      }
    }

    method EditMessage(message: string) returns (r: Outcome)
      modifies this
      ensures old(Valid()) ==> Valid()
      ensures committed == old(committed) && version == old(version)
      ensures Performed(old(State()), old(changes), EditMessageCommand(message), r)
      ensures r.Pass? <==> old(active) && !IsNullOrWhiteSpace(message)
      ensures r.Pass? ==> State() == old(State()) && changes == old(changes) + [Event(Unversioned, MessageUpdated(old(id), message))]
    {
      EditMessageGuards(State(), message);
      if !active {
        return Fail(InvalidOperation("You can't edit the message of an inactive post."));
      }
      if IsNullOrWhiteSpace(message) {
        return Fail(InvalidOperation(BlankMessage));
      }
      r := RaiseEvent(Event(Unversioned, MessageUpdated(id, message)));
    }

    method LikePost() returns (r: Outcome)
      modifies this
      ensures old(Valid()) ==> Valid()
      ensures committed == old(committed) && version == old(version)
      ensures Performed(old(State()), old(changes), LikePostCommand, r)
      ensures r.Pass? <==> old(active)
      ensures r.Pass? ==> State() == old(State()) && changes == old(changes) + [Event(Unversioned, PostLiked(old(id)))]
    {
      LikePostGuards(State());
      if !active {
        return Fail(InvalidOperation("You can't like an inactive post."));
      }
      r := RaiseEvent(Event(Unversioned, PostLiked(id)));
    }

    /** `commentId` stands for the `Guid.NewGuid()` that `AddComment` draws; a clash with an
        existing comment makes `Dictionary.Add` throw. */
    method AddComment(commentId: Guid, comment: string, username: string) returns (r: Outcome)
      modifies this
      ensures old(Valid()) ==> Valid()
      ensures committed == old(committed) && version == old(version)
      ensures Performed(old(State()), old(changes), AddCommentCommand(commentId, comment, username), r)
      ensures r.Pass? <==> old(active) && !IsNullOrWhiteSpace(comment) && commentId !in old(comments)
      ensures r.Pass? ==> State() == old(State()).(comments := old(comments)[commentId := Comment(comment, username)])
    {
      AddCommentGuards(State(), commentId, comment, username);
      if !active {
        return Fail(InvalidOperation("You can't add a comment to an inactive post."));
      }
      if IsNullOrWhiteSpace(comment) {
        return Fail(InvalidOperation(BlankComment));
      }
      r := RaiseEvent(Event(Unversioned, CommentAdded(id, commentId, comment, username)));
    }

    method EditComment(commentId: Guid, comment: string, username: string) returns (r: Outcome)
      modifies this
      ensures old(Valid()) ==> Valid()
      ensures committed == old(committed) && version == old(version)
      ensures Performed(old(State()), old(changes), EditCommentCommand(commentId, comment, username), r)
      ensures r.Pass? <==> old(active) && commentId in old(comments) && EqualsIgnoreCase(old(comments)[commentId].username, username)
      ensures r.Pass? ==> State() == old(State()).(comments := old(comments)[commentId := Comment(comment, username)])
    {
      EditCommentGuards(State(), commentId, comment, username);
      if !active {
        return Fail(InvalidOperation("You can't edit a comment to an inactive post."));
      }
      if commentId !in comments {
        return Fail(KeyNotFound);
      }
      if !EqualsIgnoreCase(comments[commentId].username, username) {
        return Fail(InvalidOperation(NotYourCommentToEdit));
      }
      r := RaiseEvent(Event(Unversioned, CommentUpdated(id, commentId, comment, username)));
    }

    method RemoveComment(commentId: Guid, username: string) returns (r: Outcome)
      modifies this
      ensures old(Valid()) ==> Valid()
      ensures committed == old(committed) && version == old(version)
      ensures Performed(old(State()), old(changes), RemoveCommentCommand(commentId, username), r)
      ensures r.Pass? <==> old(active) && commentId in old(comments) && EqualsIgnoreCase(old(comments)[commentId].username, username)
      ensures r.Pass? ==> State() == old(State()).(comments := old(comments) - {commentId})
    {
      EditCommentGuards(State(), commentId, "", username);
      if !active {
        return Fail(InvalidOperation("You can't delete a comment to an inactive post."));
      }
      if commentId !in comments {
        return Fail(KeyNotFound);
      }
      if !EqualsIgnoreCase(comments[commentId].username, username) {
        return Fail(InvalidOperation(NotYourCommentToDelete));
      }
      r := RaiseEvent(Event(Unversioned, CommentRemoved(id, commentId)));
    }

    method DeletePost(username: string) returns (r: Outcome)
      modifies this
      ensures old(Valid()) ==> Valid()
      ensures committed == old(committed) && version == old(version)
      ensures Performed(old(State()), old(changes), DeletePostCommand(username), r)
      ensures r.Pass? <==> old(active) && EqualsIgnoreCase(old(author), username)
      ensures r.Pass? ==> State() == old(State()).(active := false)
    {
      if !active {
        return Fail(InvalidOperation("The post has already been removed."));
      }
      DeleteOnlyByAuthor(State(), username);
      if !EqualsIgnoreCase(author, username) {
        return Fail(InvalidOperation(NotYourPost));
      }
      r := RaiseEvent(Event(Unversioned, PostRemoved(id)));
    }

    /** `ReplayEvents`: apply the events in the given order without recording them. On
        an aggregate with no uncommitted changes the replayed state becomes the new
        committed state. */
    method ReplayEvents(events: seq<Event>) returns (r: Outcome)
      modifies this
      ensures changes == old(changes) && version == old(version)
      ensures r.Pass? <==> Replay(old(State()), events).Some?
      ensures r.Pass? ==> Some(State()) == Replay(old(State()), events)
      ensures r.Fail? ==> r.error == DuplicateKey
      ensures r.Pass? && changes == [] ==> Valid() && committed == State()
    {
      ghost var start := State();
      var i := 0;
      while i < |events|
        invariant 0 <= i <= |events|
        invariant Replay(start, events[..i]) == Some(State())
        invariant changes == old(changes) && version == old(version)
      {
        var ok := Apply(events[i]);
        ReplayAppend(start, events[..i], events[i]);
        assert events[..i + 1] == events[..i] + [events[i]];
        if !ok {
          ReplayFailureSticks(start, events, i + 1);
          return Fail(DuplicateKey);
        }
        i := i + 1;
      }
      assert events[..i] == events;
      if changes == [] {
        committed := State();
      }
      r := Pass;
    }

    /** `MarkChangesAsCommitted`: forget the uncommitted changes. */
    method MarkChangesAsCommitted()
      modifies this
      ensures changes == [] && State() == old(State()) && version == old(version)
      ensures Valid() && committed == State()
    {
      changes := [];
      committed := State();
    }
  }

  /** Once a prefix of the events fails to replay, the whole sequence fails. */
  lemma {:induction false} ReplayFailureSticks(s: PostState, events: seq<Event>, k: nat)
    requires k <= |events|
    requires Replay(s, events[..k]).None?
    ensures Replay(s, events).None?
    decreases |events| - k
  {
    if k < |events| {
      ReplayAppend(s, events[..k], events[k]);
      assert events[..k + 1] == events[..k] + [events[k]];
      ReplayFailureSticks(s, events, k + 1);
    } else {
      assert events[..k] == events;
    }
  }
}
