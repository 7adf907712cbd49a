/** What every interleaving of a lane and its channels keeps. */
module CfH2Safety {
  import opened Prelude
  import opened Bytes
  import opened CfH2Channel
  import opened CfH2Invariants
  import opened CfH2Steps
  import opened CfH2System

  // ----- The invariant

  function PendingCount(ch: Channel): nat {
    |ch.requests.pending|
  }

  ghost function PendingBytes(ch: Channel): nat {
    SumOf(ch.requests.pending, Same)
  }

  function FrameContent(f: Frame): nat {
    |f.content|
  }

  ghost function HeldReplies(ch: Channel): nat {
    SumOf(ch.requests.frames, FrameContent)
  }

  function HoldLength(h: Hold): nat {
    h.length
  }

  /** The lane's three counters are exactly what its channels and the slots on their way back hold. */
  ghost predicate LaneInv(s: System) {
    && s.lane.inflight == SumOf(s.channels, PendingCount) + |s.releasing| <= MAX_LANE_REQUESTS
    && s.lane.queued == SumOf(s.channels, PendingBytes) + SumOf(s.releasing, HoldLength) <= MAX_LANE_BYTES
    && s.lane.replyBuffer == SumOf(s.channels, HeldReplies) <= MAX_LANE_REPLY_BYTES
  }

  predicate Pends(s: System, c: nat, t: Task) {
    c in s.channels && t in s.channels[c].requests.pending
  }

  /** Every ticket ever issued is in exactly one place: one channel, on its way back, or returned. */
  ghost predicate TicketInv(s: System) {
    && (forall c: nat, t: Task :: Pends(s, c, t) ==> t < s.next && t !in s.releasing && t !in s.released)
    && (forall c: nat, d: nat, t: Task :: Pends(s, c, t) && Pends(s, d, t) ==> c == d)
    && (forall t <- s.releasing :: t < s.next && t !in s.released)
    && (forall t <- s.released :: t < s.next)
    && (forall t: Task :: t < s.next ==> t in s.releasing || t in s.released || exists c: nat :: Pends(s, c, t))
  }

  ghost predicate SystemInv(s: System) {
    && (forall c <- s.channels :: ChannelInv(s.channels[c]))
    && LaneInv(s)
    && TicketInv(s)
    && s.clock > 0.0
  }

  // ----- The two halves, one channel at a time

  /** The counters follow when one channel changes and the slots on their way back change with it. */
  lemma CountersFollow(s: System, s': System, c: nat, ch: Channel)
    requires LaneInv(s) && c in s.channels && s'.channels == s.channels[c := ch]
    requires s'.lane.inflight - PendingCount(ch) - |s'.releasing|
             == s.lane.inflight - PendingCount(s.channels[c]) - |s.releasing|
    requires s'.lane.queued - PendingBytes(ch) - SumOf(s'.releasing, HoldLength)
             == s.lane.queued - PendingBytes(s.channels[c]) - SumOf(s.releasing, HoldLength)
    requires s'.lane.replyBuffer - HeldReplies(ch) == s.lane.replyBuffer - HeldReplies(s.channels[c])
    requires s'.lane.inflight <= MAX_LANE_REQUESTS && s'.lane.queued <= MAX_LANE_BYTES
    requires s'.lane.replyBuffer <= MAX_LANE_REPLY_BYTES
    ensures LaneInv(s')
  {
    SumOfUpdate<nat, Channel>(s.channels, PendingCount, c, ch);
    SumOfUpdate<nat, Channel>(s.channels, PendingBytes, c, ch);
    SumOfUpdate<nat, Channel>(s.channels, HeldReplies, c, ch);
  }

  lemma SamePlaces(s: System, s': System)
    requires TicketInv(s)
    requires forall c: nat, t: Task :: Pends(s', c, t) <==> Pends(s, c, t)
    requires s'.releasing.Keys == s.releasing.Keys && s'.released == s.released && s'.next == s.next
    ensures TicketInv(s')
  {}

  predicate SameSlots(ch: Channel, ch': Channel) {
    ch'.requests.pending == ch.requests.pending && ch'.requests.frames == ch.requests.frames
  }

  lemma QuietKeeps(s: System, c: nat, ch: Channel, now: real)
    requires SystemInv(s) && c in s.channels && s.clock <= now
    requires ChannelInv(ch) && SameSlots(s.channels[c], ch)
    ensures SystemInv(Put(s, c, ch).(clock := now))
  {
    hide ChannelInv, LaneInv, TicketInv;
    var s' := Put(s, c, ch).(clock := now);
    Bounds(s);
    CountersFollow(s, s', c, ch);
    SamePlaces(s, s');
  }

  lemma Bounds(s: System)
    requires LaneInv(s)
    ensures s.lane.inflight <= MAX_LANE_REQUESTS && s.lane.queued <= MAX_LANE_BYTES
    ensures s.lane.replyBuffer <= MAX_LANE_REPLY_BYTES
  {}

  lemma OpenKeeps(s: System, c: nat, now: real)
    requires SystemInv(s) && c !in s.channels && s.clock <= now
    ensures SystemInv(Put(s, c, NewChannel(now)).(clock := now))
  {
    hide ChannelInv, LaneInv, TicketInv;
    NewChannelHolds(now);
    OpenKeepsLane(s, c, now);
    SamePlaces(s, Put(s, c, NewChannel(now)).(clock := now));
  }

  lemma NewChannelHolds(now: real)
    ensures ChannelInv(NewChannel(now))
  {}

  lemma OpenKeepsLane(s: System, c: nat, now: real)
    requires LaneInv(s) && c !in s.channels
    ensures LaneInv(Put(s, c, NewChannel(now)).(clock := now))
  {
    SumOfInsert<nat, Channel>(s.channels, PendingCount, c, NewChannel(now));
    SumOfInsert<nat, Channel>(s.channels, PendingBytes, c, NewChannel(now));
    SumOfInsert<nat, Channel>(s.channels, HeldReplies, c, NewChannel(now));
  }

  // ----- Slots taken

  lemma Fresh(s: System, c: nat)
    requires TicketInv(s) && c in s.channels
    ensures s.next !in s.channels[c].requests.pending && s.next !in s.releasing
  {
    assert !Pends(s, c, s.next);
  }

  /** A reserved slot becomes a request of channel `c`. */
  lemma EnterKeeps(s: System, s': System, c: nat, ch: Channel, f: Frame, now: real)
    requires SystemInv(s) && c in s.channels && s.clock <= now && LaneHasCapacity(s.lane, |f.body|)
    requires ChannelInv(ch) && f.content == []
    requires s.channels[c].requests.frames.Keys == s.channels[c].requests.pending.Keys
    requires ch.requests.pending == s.channels[c].requests.pending[s.next := |f.body|]
    requires ch.requests.frames == s.channels[c].requests.frames[s.next := f]
    requires s' == Put(s, c, ch).(
      lane := s.lane.(inflight := s.lane.inflight + 1, queued := s.lane.queued + |f.body|),
      next := s.next + 1, clock := now)
    ensures SystemInv(s')
  {
    hide ChannelInv, LaneInv, TicketInv, SumOf;
    var q := s.channels[c].requests;
    Fresh(s, c);
    SumOfInsert<Task, nat>(q.pending, Same, s.next, |f.body|);
    SumOfInsert<Task, Frame>(q.frames, FrameContent, s.next, f);
    Bounds(s);
    CountersFollow(s, s', c, ch);
    EnterKeepsTickets(s, s', c, ch);
  }

  lemma EnterKeepsTickets(s: System, s': System, c: nat, ch: Channel)
    requires TicketInv(s) && c in s.channels
    requires ch.requests.pending.Keys == s.channels[c].requests.pending.Keys + {s.next}
    requires s'.channels == s.channels[c := ch] && s'.next == s.next + 1
    requires s'.releasing == s.releasing && s'.released == s.released
    ensures TicketInv(s')
  {
    assert forall t: Task :: t in ch.requests.pending <==> t in ch.requests.pending.Keys;
    assert forall d: nat, t: Task :: Pends(s', d, t) <==> Pends(s, d, t) || (d == c && t == s.next);
    assert Pends(s', c, s.next);
  }

  /** A reserved slot is given back at once. */
  lemma AbortKeeps(s: System, s': System, c: nat, ch: Channel, length: nat, now: real)
    requires SystemInv(s) && c in s.channels && s.clock <= now && LaneHasCapacity(s.lane, length)
    requires ChannelInv(ch) && SameSlots(s.channels[c], ch)
    requires s' == Put(s, c, ch).(
      lane := s.lane.(inflight := s.lane.inflight + 1, queued := s.lane.queued + length),
      next := s.next + 1, releasing := s.releasing[s.next := Hold(length, c)], clock := now)
    ensures SystemInv(s')
  {
    hide ChannelInv, LaneInv, TicketInv;
    Fresh(s, c);
    SumOfInsert<Task, Hold>(s.releasing, HoldLength, s.next, Hold(length, c));
    Bounds(s);
    CountersFollow(s, s', c, ch);
    AbortKeepsTickets(s, s');
  }

  lemma AbortKeepsTickets(s: System, s': System)
    requires TicketInv(s)
    requires forall c: nat, t: Task :: Pends(s', c, t) <==> Pends(s, c, t)
    requires s'.releasing.Keys == s.releasing.Keys + {s.next} && s'.released == s.released && s'.next == s.next + 1
    ensures TicketInv(s')
  {}

  // ----- Slots given back

  lemma EndKeeps(s: System, c: nat, t: Task, ch: Channel, now: real)
    requires SystemInv(s) && Running(s, c, t) && s.clock <= now
    requires ChannelInv(ch)
    requires ch.requests.pending == s.channels[c].requests.pending - {t}
    requires ch.requests.frames == s.channels[c].requests.frames - {t}
    ensures SystemInv(EndRequest(s, c, t, ch).(clock := now))
  {
    hide ChannelInv, LaneInv, TicketInv;
    NotReleasing(s, c, t);
    var q := s.channels[c].requests;
    var s' := EndRequest(s, c, t, ch).(clock := now);
    SumOfRemove<Task, nat>(q.pending, Same, t);
    SumOfRemove<Task, Frame>(q.frames, FrameContent, t);
    SumOfInsert<Task, Hold>(s.releasing, HoldLength, t, Hold(q.pending[t], c));
    assert |q.pending - {t}| == |q.pending| - 1;
    Bounds(s);
    CountersFollow(s, s', c, ch);
    EndKeepsTickets(s, s', c, t, ch);
  }

  lemma NotReleasing(s: System, c: nat, t: Task)
    requires TicketInv(s) && Running(s, c, t)
    ensures Pends(s, c, t) && t !in s.releasing
  {
    assert Pends(s, c, t);
  }

  lemma EndKeepsTickets(s: System, s': System, c: nat, t: Task, ch: Channel)
    requires TicketInv(s) && Pends(s, c, t)
    requires ch.requests.pending.Keys == s.channels[c].requests.pending.Keys - {t}
    requires s'.channels == s.channels[c := ch] && s'.next == s.next
    requires s'.releasing.Keys == s.releasing.Keys + {t} && s'.released == s.released
    ensures TicketInv(s')
  {
    forall d: nat, u: Task
      ensures Pends(s', d, u) <==> Pends(s, d, u) && u != t
    {
      assert d != c ==> !(Pends(s, c, t) && Pends(s, d, t));
      assert u in ch.requests.pending <==> u in ch.requests.pending.Keys;
    }
  }

  /** The slot is back; whoever held the send lock while returning it is not yet told. */
  function Returned(s: System, t: Task): System
    requires t in s.releasing
  {
    s.(lane := s.lane.(inflight := s.lane.inflight - 1, queued := s.lane.queued - s.releasing[t].length),
       releasing := s.releasing - {t}, released := s.released + {t})
  }

  lemma ReturnedKeeps(s: System, t: Task)
    requires SystemInv(s) && t in s.releasing
    ensures SystemInv(Returned(s, t))
  {
    hide ChannelInv, LaneInv, TicketInv;
    ReturnedKeepsLane(s, t);
    ReturnedKeepsTickets(s, t);
  }

  lemma ReturnedKeepsLane(s: System, t: Task)
    requires LaneInv(s) && t in s.releasing
    ensures LaneInv(Returned(s, t))
  {
    SumOfRemove<Task, Hold>(s.releasing, HoldLength, t);
    assert (s.releasing - {t}).Keys == s.releasing.Keys - {t};
    assert |(s.releasing - {t}).Keys| == |s.releasing.Keys| - 1;
  }

  lemma ReturnedKeepsTickets(s: System, t: Task)
    requires TicketInv(s) && t in s.releasing
    ensures TicketInv(Returned(s, t))
  {
    assert forall d: nat, u: Task :: Pends(Returned(s, t), d, u) <==> Pends(s, d, u);
  }

  lemma ReleaseKeeps(s: System, t: Task)
    requires SystemInv(s) && t in s.releasing
    ensures SystemInv(ReleaseSlot(s, t))
  {
    hide LaneInv, TicketInv, ChannelInv;
    ReturnedKeeps(s, t);
    var s1 := Returned(s, t);
    var c := s.releasing[t].channel;
    if c in s.channels && s.channels[c].sender == Aborting(t) {
      LeaveSendKeeps(s.channels[c]);
      QuietKeeps(s1, c, LeaveSend(s.channels[c]), s1.clock);
    }
  }

  // ----- Changes of the two loops' positions

  lemma MoveKeeps(ch: Channel, sender: Sender, recovery: Recovery)
    requires ChannelInv(ch)
    requires PhaseInv(ch.(sender := sender, recovery := recovery))
    ensures ChannelInv(ch.(sender := sender, recovery := recovery))
    ensures SameSlots(ch, ch.(sender := sender, recovery := recovery))
  {}

  lemma LeaveSendKeeps(ch: Channel)
    requires ChannelInv(ch)
    ensures ChannelInv(LeaveSend(ch)) && SameSlots(ch, LeaveSend(ch))
  {}

  lemma EnterReadyKeeps(ch: Channel)
    requires ChannelInv(ch) && ch.sender.Checking?
    ensures ChannelInv(EnterReady(ch)) && SameSlots(ch, EnterReady(ch))
  {
    hide ChannelInv, RequestsInv, HistoryInv, LinkInv, RepliesInv;
    Parts(ch);
    MoveKeeps(ch, EnterReady(ch).sender, EnterReady(ch).recovery);
  }

  lemma TryReplayKeeps(ch: Channel, body: bytes)
    requires ChannelInv(ch) && |ch.requests.replays| < MAX_CHANNEL_REPLAYS && !ch.recovery.Replaying?
    ensures ChannelInv(TryReplay(ch, body)) && SameSlots(ch, TryReplay(ch, body))
  {
    hide ChannelInv, RequestsInv, HistoryInv, LinkInv, RepliesInv;
    Parts(ch);
    MoveKeeps(ch, TryReplay(ch, body).sender, TryReplay(ch, body).recovery);
  }

  lemma PendingReplay(ch: Channel, id: nat, t: Task)
    requires ChannelInv(ch) && id in ch.history.order
    requires id in ch.history.packets && ch.history.packets[id].pending == Some(t)
    ensures t in ch.requests.replays
  {}

  lemma RecoverKeeps(ch: Channel, id: nat, replace: Option<Task>, now: real)
    requires ChannelInv(ch) && id in ch.history.order && id in ch.history.packets
    requires ch.recovery.Watching? && ReplacementChosen(ch, id, replace, now)
    ensures
      var body := ch.history.packets[id].body;
      var ch' := if replace.Some? then ch.(recovery := Replacing(replace.value, body)) else TryReplay(ch, body);
      ChannelInv(ch') && SameSlots(ch, ch')
  {
    hide ChannelInv, RequestsInv, HistoryInv, LinkInv, RepliesInv;
    Parts(ch);
    var body := ch.history.packets[id].body;
    match replace {
      case None => TryReplayKeeps(ch, body);
      case Some(t) =>
        if ch.history.packets[id].pending == Some(t) { PendingReplay(ch, id, t); }
        MoveKeeps(ch, ch.sender, Replacing(t, body));
    }
  }

  lemma ReplacedKeeps(ch: Channel)
    requires ChannelInv(ch) && ch.recovery.Replacing? && ch.recovery.task !in ch.requests.pending
    ensures ChannelInv(TryReplay(ch, ch.recovery.body)) && SameSlots(ch, TryReplay(ch, ch.recovery.body))
  {
    assert ch.recovery.task !in ch.requests.replays;
    hide ChannelInv, RequestsInv, HistoryInv, LinkInv, RepliesInv;
    Parts(ch);
    TryReplayKeeps(ch, ch.recovery.body);
  }

  // ----- Every event

  lemma ReserveKeeps(s: System, c: nat, now: real)
    requires SystemInv(s) && Enabled(s, Reserve(c, now))
    ensures SystemInv(Step(s, Reserve(c, now)))
  {
    hide ChannelInv, LaneInv, TicketInv, SumOf;
    var ch := s.channels[c];
    var body, replay := ch.sender.body, ch.sender.replay;
    if s.lane.closed || !LaneHasCapacity(s.lane, |body|) {
      LeaveSendKeeps(ch);
      QuietKeeps(s, c, LeaveSend(ch), now);
    } else {
      var s' := ReserveSlot(s, c, now).(clock := now);
      Fresh(s, c);
      SameKeys(ch);
      var target := if replay then ReplayTarget(ch, body, now) else None;
      if ch.closed || (replay && target.None?) {
        AbortingKeeps(ch, s.next);
        AbortKeeps(s, s', c, ch.(sender := Aborting(s.next)), |body|, now);
      } else if replay {
        CommitReplayKeeps(ch, s.next, target.value, now);
        EnterKeeps(s, s', c, CommitReplay(ch, s.next, target.value, now),
                   Frame(body, true, target, []), now);
      } else {
        CommitNativeKeeps(ch, s.next, now);
        EnterKeeps(s, s', c, CommitNative(ch, s.next, body, now),
                   Frame(body, false, Recorded(ch.history, s.next, body, now, ch.sequence + 1).1, []), now);
      }
    }
  }

  lemma SameKeys(ch: Channel)
    requires ChannelInv(ch)
    ensures ch.requests.frames.Keys == ch.requests.pending.Keys
  {}

  lemma AbortingKeeps(ch: Channel, t: Task)
    requires ChannelInv(ch)
    ensures ChannelInv(ch.(sender := Aborting(t)))
  {}

  lemma ChunkKeeps(s: System, c: nat, t: Task, data: bytes, now: real)
    requires SystemInv(s) && Enabled(s, Chunk(c, t, data, now))
    ensures SystemInv(Step(s, Chunk(c, t, data, now)))
  {
    hide ChannelInv, LaneInv, TicketInv;
    var ch := s.channels[c];
    ReceiveChunkKeeps(ch, t, data, now);
    var f := ch.requests.frames[t];
    SumOfUpdate<Task, Frame>(ch.requests.frames, FrameContent, t, f.(content := f.content + data));
    var s' := Step(s, Chunk(c, t, data, now));
    Bounds(s);
    CountersFollow(s, s', c, ReceiveChunk(ch, t, data, now));
    SamePlaces(s, s');
  }

  lemma EndStepKeeps(s: System, e: Event)
    requires SystemInv(s) && Enabled(s, e)
    requires e.PostReturned? || e.PostRaised? || e.Cancelled? || e.NeverStarted?
    ensures SystemInv(Step(s, e))
  {
    hide ChannelInv, LaneInv, TicketInv, SumOf;
    var ch := s.channels[e.c];
    match e
    case PostReturned(c, t, now) =>
      CompleteKeeps(ch, t, now);
      EndKeeps(s, c, t, Complete(ch, t, now), now);
    case PostRaised(c, t) =>
      ErroredKeeps(ch, t);
      EndKeeps(s, c, t, Errored(ch, t), s.clock);
    case Cancelled(c, t) =>
      FinishKeeps(ch, t, ch.requests.frames[t].packet);
      EndKeeps(s, c, t, Finish(ch, t, ch.requests.frames[t].packet), s.clock);
    case NeverStarted(c, t) =>
      FinishKeeps(ch, t, None);
      EndKeeps(s, c, t, Finish(ch, t, None), s.clock);
  }

  lemma SenderStepKeeps(s: System, e: Event)
    requires SystemInv(s) && Enabled(s, e)
    requires e.Ready? || e.GiveUp? || e.UploadDone? || e.ResponseStart?
    ensures SystemInv(Step(s, e))
  {
    hide ChannelInv, LaneInv, TicketInv, SumOf;
    match e
    case Ready(c) => EnterReadyKeeps(s.channels[c]); QuietKeeps(s, c, EnterReady(s.channels[c]), s.clock);
    case GiveUp(c) => LeaveSendKeeps(s.channels[c]); QuietKeeps(s, c, LeaveSend(s.channels[c]), s.clock);
    case UploadDone(c, t, now) =>
      ProgressKeeps(s.channels[c], t, now);
      QuietKeeps(s, c, Uploaded(s.channels[c], t, now), now);
    case ResponseStart(c, t, now) =>
      ProgressKeeps(s.channels[c], t, now);
      QuietKeeps(s, c, ResponseStarted(s.channels[c], t, now), now);
  }

  lemma QuietStepKeeps(s: System, e: Event)
    requires SystemInv(s) && Enabled(s, e)
    requires e.Take? || e.WriteDone? || e.Rotate? || e.StartClose? || e.EndClose?
    ensures SystemInv(Step(s, e))
  {
    hide ChannelInv, LaneInv, TicketInv, SumOf;
    match e
    case Take(c) => ReceiveKeeps(s.channels[c], s.clock); QuietKeeps(s, c, Receive(s.channels[c]), s.clock);
    case WriteDone(c, now) => ReceiveKeeps(s.channels[c], now); QuietKeeps(s, c, Delivered(s.channels[c], now), now);
    case Rotate(_, v, t, now) => RetireKeeps(s.channels[v], t); QuietKeeps(s, v, Retire(s.channels[v], t), now);
    case StartClose(c) => FailKeeps(s.channels[c]); QuietKeeps(s, c, Close(s.channels[c]), s.clock);
    case EndClose(c) => CloseDoneKeeps(s.channels[c]); QuietKeeps(s, c, CloseDone(s.channels[c]), s.clock);
  }

  lemma SendKeeps(s: System, c: nat, body: bytes)
    requires SystemInv(s) && Enabled(s, Send(c, body))
    ensures SystemInv(Step(s, Send(c, body)))
  {
    hide ChannelInv, LaneInv, TicketInv, RequestsInv, HistoryInv, LinkInv, RepliesInv;
    var ch := s.channels[c];
    Parts(ch);
    MoveKeeps(ch, Checking(body, false), ch.recovery);
    QuietKeeps(s, c, ch.(sender := Checking(body, false)), s.clock);
  }

  lemma StepKeeps(s: System, e: Event)
    requires SystemInv(s) && Enabled(s, e)
    ensures SystemInv(Step(s, e))
  {
    hide ChannelInv, LaneInv, TicketInv;
    match e
    case Open(c, now) => OpenKeeps(s, c, now);
    case Send(c, body) => SendKeeps(s, c, body);
    case Reserve(c, now) => ReserveKeeps(s, c, now);
    case Release(t) => ReleaseKeeps(s, t);
    case Chunk(c, t, data, now) => ChunkKeeps(s, c, t, data, now);
    case PostReturned(_, _, _) => EndStepKeeps(s, e);
    case PostRaised(_, _) => EndStepKeeps(s, e);
    case Cancelled(_, _) => EndStepKeeps(s, e);
    case NeverStarted(_, _) => EndStepKeeps(s, e);
    case Recover(c, id, replace, at, now) =>
      RecoverKeeps(s.channels[c], id, replace, at);
      QuietKeeps(s, c, Step(s, e).channels[c], now);
    case Replaced(c) =>
      ReplacedKeeps(s.channels[c]);
      QuietKeeps(s, c, Step(s, e).channels[c], s.clock);
    case CloseLane => CloseLaneKeeps(s);
    case _ =>
      if e.Ready? || e.GiveUp? || e.UploadDone? || e.ResponseStart? {
        SenderStepKeeps(s, e);
      } else {
        QuietStepKeeps(s, e);
      }
  }

  lemma CloseLaneKeeps(s: System)
    requires SystemInv(s)
    ensures SystemInv(s.(lane := s.lane.(closed := true)))
  {
    hide ChannelInv, TicketInv;
    SamePlaces(s, s.(lane := s.lane.(closed := true)));
  }

  lemma InitialHolds(now: real)
    requires now > 0.0
    ensures SystemInv(Initial(now))
  {}

  /** Every run keeps the invariant. */
  lemma {:induction false} RunKeeps(s: System, es: seq<Event>)
    requires SystemInv(s) && IsRun(s, es)
    ensures SystemInv(After(s, es))
    decreases |es|
  {
    hide SystemInv;
    if es != [] {
      StepKeeps(s, es[0]);
      RunKeeps(Step(s, es[0]), es[1..]);
    }
  }
}
