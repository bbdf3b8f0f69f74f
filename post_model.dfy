/** The post aggregate as a pure decider: `Evolve` is what the seven `Apply`
    overloads do to the aggregate's fields, `Decide` is what the six business
    methods check before they raise an event, and `Replay` is the fold that
    rebuilds a post from its events. The class in post_aggregate.dfy is proved
    against these functions. */
module PostModel {
  import opened Core
  import opened Events
  import opened Text

  /** One entry of `_comments`: the comment's text and the username that wrote it. */
  datatype Comment = Comment(text: string, username: string)

  /** The fields of a post: `Id`, `Active`, `_author` and `_comments`. */
  datatype PostState = PostState(id: Guid, active: bool, author: string, comments: map<Guid, Comment>)

  /** The state of `new PostAggregate()`. The author is null in C#; it is read only
      once a `PostCreatedEvent` has made the post active, and that event sets it. */
  const Fresh: PostState := PostState(EmptyGuid, false, "", map[])

  predicate IsCommentEvent(d: EventData) {
    d.CommentAdded? || d.CommentUpdated? || d.CommentRemoved?
  }

  /** The seven `Apply` overloads. Each sets `Id` from the event; only
      `Apply(CommentAddedEvent)` can fail, when `Dictionary.Add` meets a comment id
      that is already present. */
  function Evolve(s: PostState, d: EventData): (r: Option<PostState>)
    ensures r.None? <==> d.CommentAdded? && d.commentId in s.comments
    ensures r.Some? ==> r.value.id == d.id
    ensures r.Some? ==> r.value.author == if d.PostCreated? then d.author else s.author
    ensures r.Some? ==> r.value.active == if d.PostCreated? then true else if d.PostRemoved? then false else s.active
    ensures r.Some? && !IsCommentEvent(d) ==> r.value.comments == s.comments
    ensures r.Some? && IsCommentEvent(d) ==>
      forall k :: k != d.commentId ==>
        (k in r.value.comments <==> k in s.comments) &&
        (k in s.comments ==> r.value.comments[k] == s.comments[k])
    ensures r.Some? && (d.CommentAdded? || d.CommentUpdated?) ==>
      d.commentId in r.value.comments && r.value.comments[d.commentId] == Comment(d.comment, d.username)
    ensures r.Some? && d.CommentRemoved? ==> d.commentId !in r.value.comments
  {
    match d
    case PostCreated(id, author, _) => Some(s.(id := id, active := true, author := author))
    case MessageUpdated(id, _) => Some(s.(id := id))
    case PostLiked(id) => Some(s.(id := id))
    case CommentAdded(id, commentId, comment, username) =>
      if commentId in s.comments then None
      else Some(s.(id := id, comments := s.comments[commentId := Comment(comment, username)]))
    case CommentUpdated(id, commentId, comment, username) =>
      Some(s.(id := id, comments := s.comments[commentId := Comment(comment, username)]))
    case CommentRemoved(id, commentId) => Some(s.(id := id, comments := s.comments - {commentId}))
    case PostRemoved(id) => Some(s.(id := id, active := false))
  }

  /** `ReplayEvents`: apply the events in order, stopping at the first failing one. */
  function Replay(s: PostState, events: seq<Event>): Option<PostState>
    decreases |events|
  {
    if events == [] then Some(s)
    else match Evolve(s, events[0].data)
      case None => None
      case Some(t) => Replay(t, events[1..])
  }

  /** Replaying one more event is applying it to the replayed state: the fold can be
      extended one event at a time, as the aggregate does while it raises events. */
  lemma {:induction false} ReplayAppend(s: PostState, events: seq<Event>, e: Event)
    ensures Replay(s, events + [e]) ==
      match Replay(s, events)
      case None => None
      case Some(t) => Evolve(t, e.data)
    decreases |events|
  {
    if events == [] {
      assert events + [e] == [e];
      assert [e][1..] == [];
    } else {
      assert (events + [e])[0] == events[0];
      assert (events + [e])[1..] == events[1..] + [e];
      match Evolve(s, events[0].data)
      case None =>
      case Some(t) => ReplayAppend(t, events[1..], e);
    }
  }

  /** Replaying a concatenation is replaying the second part on top of the first. */
  lemma {:induction false} ReplayConcat(s: PostState, a: seq<Event>, b: seq<Event>)
    ensures Replay(s, a + b) ==
      match Replay(s, a)
      case None => None
      case Some(t) => Replay(t, b)
    decreases |a|
  {
    if a == [] {
      assert a + b == b;
    } else {
      assert (a + b)[0] == a[0];
      assert (a + b)[1..] == a[1..] + b;
      match Evolve(s, a[0].data)
      case None =>
      case Some(t) => ReplayConcat(t, a[1..], b);
    }
  }

  /** Replay looks only at the events' payloads: restamping versions changes nothing. */
  lemma {:induction false} ReplaySameData(s: PostState, a: seq<Event>, b: seq<Event>)
    requires |a| == |b| && forall i :: 0 <= i < |a| ==> a[i].data == b[i].data
    ensures Replay(s, a) == Replay(s, b)
    decreases |a|
  {
    if a != [] {
      assert a[0].data == b[0].data;
      match Evolve(s, a[0].data)
      case None =>
      case Some(t) =>
        assert forall i :: 0 <= i < |a| - 1 ==> a[1..][i].data == b[1..][i].data by {
          forall i | 0 <= i < |a| - 1 ensures a[1..][i].data == b[1..][i].data {
            assert a[1..][i] == a[i + 1] && b[1..][i] == b[i + 1];
          }
        }
        ReplaySameData(t, a[1..], b[1..]);
    }
  }

  /** The business commands, one per business method of the aggregate.
      `AddCommentCommand` carries the fresh id that the C# `AddComment` draws with
      `Guid.NewGuid()`. */
  datatype Command =
    | EditMessageCommand(message: string)
    | LikePostCommand
    | AddCommentCommand(commentId: Guid, comment: string, username: string)
    | EditCommentCommand(commentId: Guid, comment: string, username: string)
    | RemoveCommentCommand(commentId: Guid, username: string)
    | DeletePostCommand(username: string)

  /** The message each command throws when the post is not active. */
  function InactiveMessage(c: Command): string {
    match c
    case EditMessageCommand(_) => "You can't edit the message of an inactive post."
    case LikePostCommand => "You can't like an inactive post."
    case AddCommentCommand(_, _, _) => "You can't add a comment to an inactive post."
    case EditCommentCommand(_, _, _) => "You can't edit a comment to an inactive post."
    case RemoveCommentCommand(_, _) => "You can't delete a comment to an inactive post."
    case DeletePostCommand(_) => "The post has already been removed."
  }

  const BlankMessage := "The value of message can't be null or empty. Please provide a valid message."
  const BlankComment := "The value of comment can't be null or empty. Please provide a valid comment"
  const NotYourCommentToEdit := "Your are not allowed to edit a comment that was made by another user."
  const NotYourCommentToDelete := "Your are not allowed to delete a comment that was made by another user."
  const NotYourPost := "You are not allowed to delete a post that was made by someone else."

  /** May `username` act on comment `commentId`? The recorded username must equal it,
      ignoring case. */
  predicate OwnsComment(s: PostState, commentId: Guid, username: string)
    requires commentId in s.comments
  {
    EqualsIgnoreCase(s.comments[commentId].username, username)
  }

  /** The guards of the business methods and the event each one raises. */
  function Decide(s: PostState, c: Command): (r: Result<EventData>)
    ensures !s.active ==> r == Failure(InvalidOperation(InactiveMessage(c)))
    ensures r.Success? ==> s.active && r.value.id == s.id
    ensures r.Success? && (c.EditMessageCommand? || c.AddCommentCommand?) ==>
      !IsNullOrWhiteSpace(if c.EditMessageCommand? then c.message else c.comment)
    ensures r.Success? && (c.EditCommentCommand? || c.RemoveCommentCommand?) ==>
      c.commentId in s.comments && OwnsComment(s, c.commentId, c.username)
    ensures r.Success? && c.DeletePostCommand? ==> EqualsIgnoreCase(s.author, c.username)
    ensures s.active && (c.EditCommentCommand? || c.RemoveCommentCommand?) && c.commentId !in s.comments ==>
      r == Failure(KeyNotFound)
  {
    if !s.active then Failure(InvalidOperation(InactiveMessage(c)))
    else match c
      case EditMessageCommand(message) =>
        if IsNullOrWhiteSpace(message) then Failure(InvalidOperation(BlankMessage))
        else Success(MessageUpdated(s.id, message))
      case LikePostCommand =>
        Success(PostLiked(s.id))
      case AddCommentCommand(commentId, comment, username) =>
        if IsNullOrWhiteSpace(comment) then Failure(InvalidOperation(BlankComment))
        else Success(CommentAdded(s.id, commentId, comment, username))
      case EditCommentCommand(commentId, comment, username) =>
        if commentId !in s.comments then Failure(KeyNotFound)
        else if !OwnsComment(s, commentId, username) then Failure(InvalidOperation(NotYourCommentToEdit))
        else Success(CommentUpdated(s.id, commentId, comment, username))
      case RemoveCommentCommand(commentId, username) =>
        if commentId !in s.comments then Failure(KeyNotFound)
        else if !OwnsComment(s, commentId, username) then Failure(InvalidOperation(NotYourCommentToDelete))
        else Success(CommentRemoved(s.id, commentId))
      case DeletePostCommand(username) =>
        if !EqualsIgnoreCase(s.author, username) then Failure(InvalidOperation(NotYourPost))
        else Success(PostRemoved(s.id))
  }

  /** A successful command: the event it raised and the state it left. */
  datatype Step = Step(event: Event, next: PostState)

  /** A business method followed by `RaiseEvent`: decide, then apply the event. The
      `Apply` failure surfaces as the command's failure. */
  function Execute(s: PostState, c: Command): (r: Result<Step>)
    ensures r.Success? ==> r.value.event.version == Unversioned && Decide(s, c) == Success(r.value.event.data)
    ensures r.Success? ==> Evolve(s, r.value.event.data) == Some(r.value.next)
    ensures r.Failure? ==> Decide(s, c).Failure? || r.error == DuplicateKey
  {
    match Decide(s, c)
    case Failure(err) => Failure(err)
    case Success(d) =>
      match Evolve(s, d)
      case None => Failure(DuplicateKey)
      case Some(t) => Success(Step(Event(Unversioned, d), t))
  }

  /** A session of commands: each rejected command leaves the state as it was and
      raises nothing; each accepted one applies and records its event. */
  datatype Session = Session(state: PostState, raised: seq<Event>)

  function Run(s: PostState, commands: seq<Command>): Session
  {
    if commands == [] then Session(s, [])
    else
      var before := Run(s, commands[..|commands| - 1]);
      match Execute(before.state, commands[|commands| - 1])
      case Failure(_) => before
      case Success(step) => Session(step.next, before.raised + [step.event])
  }

  /** Replay reproduces direct application: replaying the events raised by any run of
      commands from a state yields exactly the state the run ended in. */
  lemma {:induction false} RunReplays(s: PostState, commands: seq<Command>)
    ensures Replay(s, Run(s, commands).raised) == Some(Run(s, commands).state)
  {
    if commands != [] {
      var before := Run(s, commands[..|commands| - 1]);
      RunReplays(s, commands[..|commands| - 1]);
      match Execute(before.state, commands[|commands| - 1])
      case Failure(_) =>
      case Success(step) => ReplayAppend(s, before.raised, step.event);
    }
  }

  /** The three-argument constructor: a `PostCreatedEvent` on a fresh post sets `Id`,
      makes the post active and records the author, with no comments. */
  lemma CreatedPost(id: Guid, author: string, message: string)
    ensures Replay(Fresh, [Event(Unversioned, PostCreated(id, author, message))])
      == Some(PostState(id, true, author, map[]))
  {
    assert [Event(Unversioned, PostCreated(id, author, message))][1..] == [];
  }

  /** A removed post rejects every further command, a second delete included. */
  lemma RemovedPostRejectsEverything(s: PostState, username: string, c: Command)
    requires Execute(s, DeletePostCommand(username)).Success?
    ensures !Execute(s, DeletePostCommand(username)).value.next.active
    ensures Execute(Execute(s, DeletePostCommand(username)).value.next, c)
      == Failure(InvalidOperation(InactiveMessage(c)))
  {
  }

  /** Editing the message succeeds exactly on an active post with a non-blank
      message; it raises `PostMessageUpdatedEvent`, whose `Apply` copies only the id,
      so the post's fields stay as they were. A blank message fails with its message. */
  lemma EditMessageGuards(s: PostState, message: string)
    ensures Execute(s, EditMessageCommand(message)).Success? <==> s.active && !IsNullOrWhiteSpace(message)
    ensures s.active && IsNullOrWhiteSpace(message) ==>
      Execute(s, EditMessageCommand(message)) == Failure(InvalidOperation(BlankMessage))
    ensures Execute(s, EditMessageCommand(message)).Success? ==>
      Execute(s, EditMessageCommand(message)).value == Step(Event(Unversioned, MessageUpdated(s.id, message)), s)
  {
  }

  /** Liking succeeds exactly on an active post; it raises `PostLikedEvent` and leaves
      the post's fields as they were. */
  lemma LikePostGuards(s: PostState)
    ensures Execute(s, LikePostCommand).Success? <==> s.active
    ensures Execute(s, LikePostCommand).Success? ==>
      Execute(s, LikePostCommand).value == Step(Event(Unversioned, PostLiked(s.id)), s)
  {
  }

  /** Only the post's author, compared ignoring case, may delete an active post; the
      delete raises `PostRemovedEvent` and leaves the post inactive, all else kept. */
  lemma DeleteOnlyByAuthor(s: PostState, username: string)
    requires s.active
    ensures Execute(s, DeletePostCommand(username)).Success? <==> EqualsIgnoreCase(s.author, username)
    ensures !EqualsIgnoreCase(s.author, username) ==>
      Execute(s, DeletePostCommand(username)) == Failure(InvalidOperation(NotYourPost))
    ensures Execute(s, DeletePostCommand(username)).Success? ==>
      Execute(s, DeletePostCommand(username)).value == Step(Event(Unversioned, PostRemoved(s.id)), s.(active := false))
  {
  }

  /** Editing or removing a comment succeeds exactly when the post is active, the comment
      exists and the caller wrote it (ignoring case); editing accepts a blank text. An
      edit overwrites the comment's text and username, a removal deletes the comment,
      and nothing else changes. */
  lemma EditCommentGuards(s: PostState, commentId: Guid, comment: string, username: string)
    ensures Execute(s, EditCommentCommand(commentId, comment, username)).Success? <==>
      s.active && commentId in s.comments && OwnsComment(s, commentId, username)
    ensures Execute(s, RemoveCommentCommand(commentId, username)).Success? <==>
      s.active && commentId in s.comments && OwnsComment(s, commentId, username)
    ensures s.active && commentId in s.comments && !OwnsComment(s, commentId, username) ==>
      Execute(s, EditCommentCommand(commentId, comment, username)) == Failure(InvalidOperation(NotYourCommentToEdit)) &&
      Execute(s, RemoveCommentCommand(commentId, username)) == Failure(InvalidOperation(NotYourCommentToDelete))
    ensures Execute(s, EditCommentCommand(commentId, comment, username)).Success? ==>
      Execute(s, EditCommentCommand(commentId, comment, username)).value ==
        Step(Event(Unversioned, CommentUpdated(s.id, commentId, comment, username)),
             s.(comments := s.comments[commentId := Comment(comment, username)]))
    ensures Execute(s, RemoveCommentCommand(commentId, username)).Success? ==>
      Execute(s, RemoveCommentCommand(commentId, username)).value ==
        Step(Event(Unversioned, CommentRemoved(s.id, commentId)), s.(comments := s.comments - {commentId}))
  {
  }

  /** Adding a comment succeeds exactly when the post is active, the text is not blank
      and the fresh id is not yet used; it raises `CommentAddedEvent` and the new comment
      is the only change. A blank text fails with its message. */
  lemma AddCommentGuards(s: PostState, commentId: Guid, comment: string, username: string)
    ensures Execute(s, AddCommentCommand(commentId, comment, username)).Success? <==>
      s.active && !IsNullOrWhiteSpace(comment) && commentId !in s.comments
    ensures s.active && IsNullOrWhiteSpace(comment) ==>
      Execute(s, AddCommentCommand(commentId, comment, username)) == Failure(InvalidOperation(BlankComment))
    ensures s.active && !IsNullOrWhiteSpace(comment) && commentId in s.comments ==>
      Execute(s, AddCommentCommand(commentId, comment, username)) == Failure(DuplicateKey)
    ensures Execute(s, AddCommentCommand(commentId, comment, username)).Success? ==>
      Execute(s, AddCommentCommand(commentId, comment, username)).value ==
        Step(Event(Unversioned, CommentAdded(s.id, commentId, comment, username)),
             s.(comments := s.comments[commentId := Comment(comment, username)]))
  {
  }

  /** Scenario: alice creates a post, bob comments, carol may not edit bob's comment,
      and the comment keeps its text. */
  lemma ScenarioForeignEditRejected(id: Guid, commentId: Guid)
    ensures
      var created := PostState(id, true, "alice", map[]);
      var commented := Execute(created, AddCommentCommand(commentId, "nice!", "bob"));
      && commented.Success?
      && Execute(commented.value.next, EditCommentCommand(commentId, "nicer!", "carol"))
           == Failure(InvalidOperation(NotYourCommentToEdit))
      && commented.value.next.comments[commentId].text == "nice!"
  {
    var created := PostState(id, true, "alice", map[]);
    assert !IsNullOrWhiteSpace("nice!") by { assert !IsWhiteSpace("nice!"[0]); }
    var next := created.(comments := map[commentId := Comment("nice!", "bob")]);
    assert !EqualsIgnoreCase("bob", "carol") by { assert Lower("bob")[0] != Lower("carol")[0]; }
    assert !OwnsComment(next, commentId, "carol");
  }

  /** Scenario: after alice deletes her post, liking it fails as inactive. */
  lemma ScenarioLikeAfterDelete(id: Guid)
    ensures
      var created := PostState(id, true, "alice", map[]);
      var deleted := Execute(created, DeletePostCommand("alice"));
      && deleted.Success?
      && Execute(deleted.value.next, LikePostCommand)
           == Failure(InvalidOperation("You can't like an inactive post."))
  {
    Text.EqualsIgnoreCaseIsEquivalence("alice", "alice", "alice");
  }
}
