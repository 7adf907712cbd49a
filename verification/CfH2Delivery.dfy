/** What becomes of replies: when a channel fails, and what its client is handed until then and afterwards. */
module CfH2Delivery {
  import opened Prelude
  import opened Bytes
  import opened CfH2Channel
  import opened CfH2Invariants
  import opened CfH2System
  import opened CfH2Safety
  import opened CfH2Theorems

  // ----- When a channel fails

  /** Sixteen replies wait already, or with this one more than 8 MiB would. */
  predicate TooMuch(waiting: seq<bytes>, reply: bytes) {
    |waiting| >= 16 || |Join(waiting)| + |reply| > 8 * 1024 * 1024
  }

  /** The only events that make an open channel fail. */
  ghost predicate Breaks(s: System, e: Event, c: nat)
    requires c in s.channels
  {
    var ch := s.channels[c];
    match e
    case StartClose(d) => d == c
    case PostRaised(d, _) => d == c
    case PostReturned(d, t, _) =>
      d == c && t in ch.requests.frames && ch.requests.frames[t].content != []
      && TooMuch(Waiting(ch.replies.queue), ch.requests.frames[t].content)
    case _ => false
  }

  lemma {:induction false} OnlyReplies(queue: seq<Item>)
    requires Failure !in queue
    ensures |Waiting(queue)| == |queue| && |Join(Waiting(queue))| == QueueBytes(queue)
    ensures queue != [] ==> queue[0].Reply? && Waiting(queue) == [queue[0].body] + Waiting(queue[1..])
  {
    if queue != [] {
      assert queue[0] in queue && forall item <- queue[1..] :: item in queue;
      OnlyReplies(queue[1..]);
      assert queue[0].Reply?;
    }
  }

  lemma {:induction false} WaitingAppend(queue: seq<Item>, reply: bytes)
    ensures Waiting(queue + [Reply(reply)]) == Waiting(queue) + [reply]
  {
    if queue == [] {
      assert (queue + [Reply(reply)])[1..] == [];
    } else {
      assert (queue + [Reply(reply)])[1..] == queue[1..] + [Reply(reply)];
      WaitingAppend(queue[1..], reply);
    }
  }

  /** What is waiting after a step of an open channel that stays open. */
  ghost function WaitingAfter(s: System, e: Event, c: nat): seq<bytes>
    requires c in s.channels
  {
    var waiting, frames := Waiting(s.channels[c].replies.queue), s.channels[c].requests.frames;
    match e
    case Take(d) => if d == c && waiting != [] then waiting[1..] else waiting
    case PostReturned(d, t, _) =>
      if d == c && t in frames && frames[t].content != [] then waiting + [frames[t].content] else waiting
    case _ => waiting
  }

  /**
    An open channel fails exactly when it is closed, a request of it fails, or a reply comes that is too much; then
    what was waiting is thrown away and the failure itself is what its client is handed next. Every other step leaves
    it open, with a reply that came behind those that were waiting.
  */
  lemma FailsExactly(s: System, e: Event, c: nat)
    requires Reachable(s) && Enabled(s, e) && IsOpen(s, c)
    ensures c in Step(s, e).channels
    ensures
      var ch := Step(s, e).channels[c];
      && (ch.closed <==> Breaks(s, e, c))
      && (ch.closed ==> ch.replies.queue == [Failure])
      && (!ch.closed ==> Waiting(ch.replies.queue) == WaitingAfter(s, e, c) && Failure !in ch.replies.queue)
  {
    RepliesHold(s, c);
    hide SystemInv;
    if e.PostReturned? && e.c == c {
      ReturnDecides(s, e.t, e.now, c);
    } else {
      OthersDecide(s, e, c);
    }
  }

  lemma RepliesHold(s: System, c: nat)
    requires Reachable(s) && c in s.channels
    ensures RepliesInv(s.channels[c].replies, s.channels[c].closed)
  {
    hide SystemInv, LaneInv, TicketInv, RequestsInv, HistoryInv, LinkInv, RepliesInv;
    ReachableHolds(s);
    SystemParts(s);
    Parts(s.channels[c]);
  }

  lemma ReturnDecides(s: System, t: Task, now: real, c: nat)
    requires IsOpen(s, c) && RepliesInv(s.channels[c].replies, false) && Enabled(s, PostReturned(c, t, now))
    ensures
      var e := PostReturned(c, t, now);
      c in Step(s, e).channels
      && var ch := Step(s, e).channels[c];
         && (ch.closed <==> Breaks(s, e, c))
         && (ch.closed ==> ch.replies.queue == [Failure])
         && (!ch.closed ==> Waiting(ch.replies.queue) == WaitingAfter(s, e, c) && Failure !in ch.replies.queue)
  {
    var ch := s.channels[c];
    OnlyReplies(ch.replies.queue);
    WaitingAppend(ch.replies.queue, ch.requests.frames[t].content);
    hide Detach, OwnerIn, RemoveRequest, NoteReply, Waiting, QueueBytes, OrderKnown;
  }

  lemma OthersDecide(s: System, e: Event, c: nat)
    requires IsOpen(s, c) && RepliesInv(s.channels[c].replies, false) && Enabled(s, e)
    requires !(e.PostReturned? && e.c == c)
    ensures c in Step(s, e).channels
    ensures
      var ch := Step(s, e).channels[c];
      && (ch.closed <==> Breaks(s, e, c))
      && (ch.closed ==> ch.replies.queue == [Failure])
      && (!ch.closed ==> Waiting(ch.replies.queue) == WaitingAfter(s, e, c) && Failure !in ch.replies.queue)
  {
    OnlyReplies(s.channels[c].replies.queue);
    QueueMoves(s, e, c);
    hide Enabled, Step, Waiting, QueueBytes;
  }

  lemma QueueMoves(s: System, e: Event, c: nat)
    requires IsOpen(s, c) && Enabled(s, e) && !(e.PostReturned? && e.c == c)
    ensures c in Step(s, e).channels
    ensures
      var ch, ch' := s.channels[c], Step(s, e).channels[c];
      && (ch'.closed <==> e == StartClose(c) || (e.PostRaised? && e.c == c))
      && (e == Take(c) ==> ch.replies.queue != [])
      && ch'.replies.queue == if ch'.closed then [Failure] else if e == Take(c) then ch.replies.queue[1..]
                              else ch.replies.queue
  {
    hide CapacityCandidate, ReplayDue, OverdueOriginal, ReplacementChosen, Detach, OwnerIn, RemoveRequest, Recorded;
    hide HasCapacity, LaneHasCapacity, OrderKnown, CapacityEligible, WaitsForRoom, ReplayTarget, NoteReply;
    hide OriginalOwner, ReplyFits, Enqueue, IsReply;
  }

  /** A failed channel stays failed, and hands out nothing but its failure. */
  lemma FailedStays(s: System, e: Event, c: nat)
    requires Enabled(s, e) && c in s.channels && s.channels[c].closed
    ensures c in Step(s, e).channels
    ensures
      var ch := Step(s, e).channels[c];
      && ch.closed
      && ch.replies.queue == if e == Take(c) then s.channels[c].replies.queue[1..] else s.channels[c].replies.queue
  {
    hide CapacityCandidate, ReplayDue, OverdueOriginal, ReplacementChosen, Detach, OwnerIn, RemoveRequest, Recorded;
    hide HasCapacity, LaneHasCapacity, OrderKnown, CapacityEligible, WaitsForRoom, ReplayTarget, NoteReply;
    hide OriginalOwner;
  }

  /** Once a channel is closed for good nothing of it is retained, replayed or waited for. */
  lemma ClosedForGood(s: System, c: nat)
    requires c in s.channels && s.channels[c].closed && s.channels[c].requests.pending == map[]
    ensures Enabled(s, EndClose(c)) && c in Step(s, EndClose(c)).channels
    ensures
      var ch := Step(s, EndClose(c)).channels[c];
      && ch.closed && ch.requests.pending == map[] && ch.requests.sentSince == map[] && ch.requests.replays == {}
      && ch.history.order == []
  {}
}
