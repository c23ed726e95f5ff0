/** Comments: what is stored, what the events tell and who wrote it are the same, one to one. */
module Discussion {
  import opened Kernel
  import opened TicketDomain
  import opened Tables
  import opened TicketTransactions
  import opened Changes

  function IsCommentOf(commentId: Id): Message -> bool {
    (m: Message) => m.event.payload.CommentAdded? && m.event.payload.commentId == commentId
  }

  /** One event for a stored comment, with its ticket, tenant, author and instant; none for any other id.
      What is stored is never empty nor too long. */
  ghost predicate CommentTold(comments: map<Id, CommentRow>, outbox: seq<Message>, commentId: Id) {
    var log := Filter(IsCommentOf(commentId), outbox);
    if commentId in comments then
      var row := comments[commentId];
      && |log| == 1
      && log[0].event.payload.CommentAdded?
      && row == CommentRow(log[0].event.tenantId, log[0].event.aggregateId, log[0].event.payload.authorId, row.body, log[0].event.occurredAt)
      && 1 <= |row.body| <= BODY_MAX
    else log == []
  }

  ghost predicate AllCommentsTold(comments: map<Id, CommentRow>, outbox: seq<Message>) {
    forall commentId: Id :: CommentTold(comments, outbox, commentId)
  }

  lemma CommentToldOn(comments: map<Id, CommentRow>, outbox: seq<Message>, after: map<Id, CommentRow>, m: Message, commentId: Id)
    requires CommentTold(comments, outbox, commentId) && CommentStored(comments, after, m.event)
    ensures CommentTold(after, outbox + [m], commentId)
  {
    FilterAppend(IsCommentOf(commentId), outbox, m);
  }

  lemma OtherMessage(comments: map<Id, CommentRow>, outbox: seq<Message>, m: Message, commentId: Id)
    requires CommentTold(comments, outbox, commentId) && !m.event.payload.CommentAdded?
    ensures CommentTold(comments, outbox + [m], commentId)
  {
    FilterAppend(IsCommentOf(commentId), outbox, m);
  }

  lemma CommentsStep(t: Tables, ch: Change)
    requires AllCommentsTold(t.comments, t.outbox) && Sound(t, ch)
    ensures AllCommentsTold(Applied(t, ch).comments, Applied(t, ch).outbox)
  {
    var after := Applied(t, ch);
    forall commentId: Id ensures CommentTold(after.comments, after.outbox, commentId) {
      assert CommentTold(t.comments, t.outbox, commentId);
      if ch.TicketEvent? {
        CommentToldOn(t.comments, t.outbox, ch.comments, ch.m, commentId);
      } else if ch.NewTicket? || ch.BreachClock? {
        OtherMessage(t.comments, t.outbox, ch.m, commentId);
      }
    }
  }
}
