/** Each atomic step of a channel keeps its invariant. */
module CfH2Steps {
  import opened Prelude
  import opened Bytes
  import opened CfH2Channel
  import opened CfH2Invariants

  // ----- A packet changed in place

  lemma AlterKeepsLink(h: History, frames: map<Task, Frame>, id: nat, p: Packet)
    requires LinkInv(h, frames) && id in h.packets
    requires p.body == h.packets[id].body && p.originals == h.packets[id].originals
    requires p.pending == h.packets[id].pending
    ensures LinkInv(Altered(h, id, p), frames)
  {}

  lemma SamePacket(h: History, id: nat, p: Packet, sequence: nat)
    requires HistoryInv(h, sequence) && id in h.packets
    requires var o := h.packets[id];
      p.sentAt == o.sentAt && p.body == o.body && p.sequence == o.sequence && p.attempts == o.attempts
      && p.lastAttemptAt == o.lastAttemptAt && p.log == o.log
    ensures HistoryInv(Altered(h, id, p), sequence)
  {
    assert PacketInv(id, p) by { assert PacketInv(id, h.packets[id]); }
    hide PacketInv, HistoryInv;
    AlterKeepsHistory(h, id, p, sequence);
  }

  lemma NotedReplyInv(h: History, id: nat, reply: bytes, sequence: nat)
    requires HistoryInv(h, sequence) && id in h.packets
    ensures
      var p := h.packets[id];
      HistoryInv(Altered(h, id, p.(replyId := Some(reply), attempts := 0, log := p.log + [NewReply])), sequence)
  {
    var p := h.packets[id];
    assert PacketInv(id, p);
    NewReplyKeepsLog(p, reply);
    AlterKeepsHistory(h, id, p.(replyId := Some(reply), attempts := 0, log := p.log + [NewReply]), sequence);
    hide HistoryInv;
  }

  lemma NoteReplyKeeps(ch: Channel, id: nat, reply: bytes)
    requires ChannelInv(ch) && id in ch.history.packets
    ensures ChannelInv(ch.(history := NoteReply(ch.history, id, reply)))
  {
    hide ChannelInv, LinkInv, RequestsInv, RepliesInv, HistoryInv;
    Parts(ch);
    var p := ch.history.packets[id];
    NotedReplyInv(ch.history, id, Prefix(reply, 24), ch.sequence);
    AlterKeepsLink(ch.history, ch.requests.frames, id,
                   p.(replyId := Some(Prefix(reply, 24)), attempts := 0, log := p.log + [NewReply]));
    Whole(ch.(history := NoteReply(ch.history, id, reply)));
  }

  // ----- Requests leaving

  /** The packet that `_finish_request` works on is the only retained one that knows the task. */
  lemma OwnerIsUnique(h: History, frames: map<Task, Frame>, t: Task, packet: Option<nat>, id: nat)
    requires LinkInv(h, frames) && t in frames
    requires packet.Some? ==> packet == frames[t].packet
    requires id in h.order && (t in h.packets[id].originals || h.packets[id].pending == Some(t))
    ensures Some(id) == (if packet.Some? then packet else OwnerIn(h, h.order, t))
  {}

  lemma DropFrameKeepsPacket(id: nat, p: Packet, frames: map<Task, Frame>, t: Task)
    requires PacketLinked(id, p, frames)
    requires t !in p.originals && p.pending != Some(t)
    ensures PacketLinked(id, p, frames - {t})
  {}

  lemma DetachKeepsPacket(id: nat, p: Packet, frames: map<Task, Frame>, t: Task)
    requires PacketLinked(id, p, frames)
    ensures PacketLinked(id, p.(originals := p.originals - {t},
                                 pending := if p.pending == Some(t) then None else p.pending),
                         frames - {t})
  {}

  lemma DetachKeepsFrame(h: History, id: nat, t: Task, u: Task, f: Frame)
    requires FrameLinked(h, u, f) && id in h.packets && u != t
    ensures FrameLinked(Detach(h, id, t), u, f)
  {}

  lemma FinishKeepsLink(h: History, frames: map<Task, Frame>, t: Task, packet: Option<nat>)
    requires LinkInv(h, frames) && t in frames
    requires packet.Some? ==> packet == frames[t].packet
    ensures
      var owner := if packet.Some? then packet else OwnerIn(h, h.order, t);
      LinkInv(if owner.Some? then Detach(h, owner.value, t) else h, frames - {t})
  {
    var owner := if packet.Some? then packet else OwnerIn(h, h.order, t);
    assert FrameLinked(h, t, frames[t]);
    var h' := if owner.Some? then Detach(h, owner.value, t) else h;
    hide PacketLinked, FrameLinked;
    forall id | id in h'.order
      ensures PacketLinked(id, h'.packets[id], frames - {t})
    {
      if owner == Some(id) {
        DetachKeepsPacket(id, h.packets[id], frames, t);
      } else {
        if t in h.packets[id].originals || h.packets[id].pending == Some(t) {
          OwnerIsUnique(h, frames, t, packet, id);
        }
        DropFrameKeepsPacket(id, h.packets[id], frames, t);
      }
    }
    forall u | u in frames - {t}
      ensures FrameLinked(h', u, frames[u])
    {
      if owner.Some? { DetachKeepsFrame(h, owner.value, t, u, frames[u]); }
    }
  }

  /** Fewer requests leave more room, and never more replays. */
  lemma RemovalKeepsPhase(ch: Channel, ch': Channel, t: Task)
    requires PhaseInv(ch) && t in ch.requests.pending && ch.requests.pending[t] >= 0
    requires ch'.requests == RemoveRequest(ch.requests, t) && ch'.sender == ch.sender && ch'.recovery == ch.recovery
    requires ch'.history.key == ch.history.key
    ensures PhaseInv(ch')
  {}

  lemma FinishKeeps(ch: Channel, t: Task, packet: Option<nat>)
    requires ChannelInv(ch) && t in ch.requests.pending
    requires packet.Some? ==> t in ch.requests.frames && packet == ch.requests.frames[t].packet
    ensures OrderKnown(ch.history) && (packet.Some? ==> packet.value in ch.history.packets)
    ensures ChannelInv(Finish(ch, t, packet))
  {
    hide ChannelInv, LinkInv, RequestsInv, RepliesInv, HistoryInv, PhaseInv;
    Parts(ch);
    var h, q := ch.history, ch.requests;
    assert FrameLinked(h, t, q.frames[t]);
    hide FrameLinked, OrderKnown;
    RemoveRequestKeeps(q, t);
    FinishKeepsLink(h, q.frames, t, packet);
    RemovalKeepsPhase(ch, Finish(ch, t, packet), t);
    var owner := if packet.Some? then packet else OwnerIn(h, h.order, t);
    if owner.Some? {
      var p := h.packets[owner.value];
      SamePacket(h, owner.value, p.(originals := p.originals - {t},
                                    pending := if p.pending == Some(t) then None else p.pending), ch.sequence);
    }
    Whole(Finish(ch, t, packet));
  }

  lemma FailKeeps(ch: Channel)
    requires ChannelInv(ch)
    ensures ChannelInv(Fail(ch))
  {}

  lemma {:induction false} QueueAppend(queue: seq<Item>, reply: bytes)
    ensures QueueBytes(queue + [Reply(reply)]) == QueueBytes(queue) + |reply|
    ensures Waiting(queue + [Reply(reply)]) == Waiting(queue) + [reply]
  {
    if queue == [] {
      assert queue + [Reply(reply)] == [Reply(reply)];
      assert [Reply(reply)][1..] == [];
    } else {
      assert (queue + [Reply(reply)])[1..] == queue[1..] + [Reply(reply)];
      QueueAppend(queue[1..], reply);
    }
  }

  lemma EnqueueKeeps(ch: Channel, reply: bytes)
    requires ChannelInv(ch) && !ch.closed && ReplyFits(ch.replies, reply)
    ensures ChannelInv(ch.(replies := Enqueue(ch.replies, reply)))
  {
    hide ChannelInv, HistoryInv, LinkInv, RequestsInv;
    Parts(ch);
    QueueAppend(ch.replies.queue, reply);
    assert RepliesInv(Enqueue(ch.replies, reply), false);
    hide RepliesInv;
    Whole(ch.(replies := Enqueue(ch.replies, reply)));
  }

  lemma FrameOf(ch: Channel, t: Task)
    requires ChannelInv(ch) && t in ch.requests.pending
    ensures t in ch.requests.frames
    ensures ch.requests.frames[t].packet.Some? ==> ch.requests.frames[t].packet.value in ch.history.packets
    ensures OrderKnown(ch.history)
  {}

  lemma TouchKeeps(ch: Channel, now: real)
    requires ChannelInv(ch)
    ensures ChannelInv(ch.(lastProgress := now))
  {}

  lemma CompleteKeeps(ch: Channel, t: Task, now: real)
    requires ChannelInv(ch) && t in ch.requests.pending
    ensures t in ch.requests.frames && OrderKnown(ch.history)
    ensures ch.requests.frames[t].packet.Some? ==> ch.requests.frames[t].packet.value in ch.history.packets
    ensures ChannelInv(Complete(ch, t, now))
  {
    hide ChannelInv;
    FrameOf(ch, t);
    var f := ch.requests.frames[t];
    var ch1 := ch.(lastProgress := now);
    TouchKeeps(ch, now);
    if f.content != [] && !ch.closed {
      if f.packet.Some? { NoteReplyKeeps(ch1, f.packet.value, f.content); }
      var ch3 := if f.packet.Some? then ch1.(history := NoteReply(ch1.history, f.packet.value, f.content)) else ch1;
      if ReplyFits(ch3.replies, f.content) {
        EnqueueKeeps(ch3, f.content);
        FinishKeeps(ch3.(replies := Enqueue(ch3.replies, f.content)), t, f.packet);
      } else {
        FailKeeps(ch3);
        FinishKeeps(Fail(ch3), t, f.packet);
      }
    } else {
      FinishKeeps(ch1, t, f.packet);
    }
  }

  lemma ErroredKeeps(ch: Channel, t: Task)
    requires ChannelInv(ch) && t in ch.requests.pending
    ensures t in ch.requests.frames && OrderKnown(ch.history)
    ensures ch.requests.frames[t].packet.Some? ==> ch.requests.frames[t].packet.value in ch.history.packets
    ensures ChannelInv(Errored(ch, t))
  {
    hide ChannelInv;
    FrameOf(ch, t);
    FailKeeps(ch);
    FinishKeeps(Fail(ch), t, ch.requests.frames[t].packet);
  }

  // ----- Requests entering

  lemma RememberKeepsLink(h: History, frames: map<Task, Frame>, body: bytes, now: real, sequence: nat)
    requires HistoryInv(h, sequence) && LinkInv(h, frames)
    ensures LinkInv(Remember(h, body, now, sequence + 1).0, frames)
  {
    hide PacketInv;
    var h' := Remember(h, body, now, sequence + 1).0;
    assert forall id <- h.packets :: id in h'.packets && h'.packets[id] == h.packets[id];
    forall t | t in frames ensures FrameLinked(h', t, frames[t]) {
      assert FrameLinked(h, t, frames[t]);
    }
    hide FrameLinked;
    forall id | id in h'.order ensures id in h'.packets && PacketLinked(id, h'.packets[id], frames) {
      if id in h.order { assert PacketLinked(id, h.packets[id], frames); }
    }
  }

  /** A new request of packet `id`: the packet learns the task. */
  lemma NewFrameKeepsLink(h: History, frames: map<Task, Frame>, t: Task, f: Frame, id: nat, p: Packet)
    requires LinkInv(h, frames) && t !in frames && id in h.packets
    requires p.body == h.packets[id].body == f.body && f.packet == Some(id)
    requires f.replay ==>
               p.originals == h.packets[id].originals && h.packets[id].pending == None && p.pending == Some(t)
    requires !f.replay ==> p.originals == h.packets[id].originals + {t} && p.pending == h.packets[id].pending
    ensures LinkInv(Altered(h, id, p), frames[t := f])
  {}

  lemma LooseFrameKeepsLink(h: History, frames: map<Task, Frame>, t: Task, f: Frame)
    requires LinkInv(h, frames) && t !in frames && !f.replay && f.packet.None?
    ensures LinkInv(h, frames[t := f])
  {}

  lemma AddOriginalKeepsHistory(h: History, id: nat, t: Task, sequence: nat)
    requires HistoryShape(h, sequence) && id in h.packets
    ensures HistoryShape(AddOriginal(h, id, t), sequence)
  {}

  lemma FewerRetained(h: History, frames: map<Task, Frame>, h': History)
    requires LinkInv(h, frames)
    requires h'.packets == h.packets && forall id <- h'.order :: id in h.order
    ensures LinkInv(h', frames)
  {}

  lemma HistoryOrderKnown(h: History, sequence: nat)
    requires HistoryShape(h, sequence)
    ensures OrderKnown(h)
  {}

  lemma RecordedKeeps(h: History, frames: map<Task, Frame>, t: Task, body: bytes, now: real, sequence: nat)
    requires HistoryInv(h, sequence) && LinkInv(h, frames) && t !in frames
    ensures OrderKnown(h)
    ensures
      var (h', id) := Recorded(h, t, body, now, sequence + 1);
      HistoryInv(h', sequence + 1) && LinkInv(h', frames[t := Frame(body, false, id, [])])
  {
    HistoryOrderKnown(h, sequence);
    hide HistoryShape, HistoryInv, LinkInv;
    var (h1, id) := Remember(h, body, now, sequence + 1);
    RememberKeeps(h, body, now, sequence);
    RememberKeepsLink(h, frames, body, now, sequence);
    if id.Some? {
      var h2 := AddOriginal(h1, id.value, t);
      AddOriginalKeepsHistory(h1, id.value, t, sequence + 1);
      NewFrameKeepsLink(h1, frames, t, Frame(body, false, id, []), id.value, h2.packets[id.value]);
      TrimKeeps(h2, sequence + 1, now);
      TrimmedSelects(h2, h2.order, now);
      FewerRetained(h2, frames[t := Frame(body, false, id, [])], Trim(h2, now));
    } else {
      LooseFrameKeepsLink(h1, frames, t, Frame(body, false, id, []));
    }
  }

  lemma RecordedKeepsKey(h: History, t: Task, body: bytes, now: real, sequence: nat)
    requires OrderKnown(h) && KeyInv(h) && |body| >= MIN_PACKET
    ensures KeyInv(Recorded(h, t, body, now, sequence).0)
  {}

  lemma CommitNativeKeeps(ch: Channel, t: Task, now: real)
    requires ChannelInv(ch) && t !in ch.requests.pending
    requires ch.sender.Reserving? && !ch.sender.replay
    ensures OrderKnown(ch.history)
    ensures ChannelInv(CommitNative(ch, t, ch.sender.body, now))
  {
    hide ChannelInv, RepliesInv, RequestsInv, HistoryInv, LinkInv, OrderKnown, Recorded, HasCapacity, FrameLinked;
    Parts(ch);
    var body := ch.sender.body;
    RecordedKeeps(ch.history, ch.requests.frames, t, body, now, ch.sequence);
    RecordedKeepsKey(ch.history, t, body, now, ch.sequence + 1);
    hide KeyInv;
    AddRequestKeeps(ch.requests, t, Frame(body, false, Recorded(ch.history, t, body, now, ch.sequence + 1).1, []));
    Whole(CommitNative(ch, t, body, now));
  }

  lemma ReplayIsBounded(h: History, id: nat, t: Task, now: real, sequence: nat)
    requires HistoryInv(h, sequence) && id in h.packets && now > 0.0
    requires
      var p := h.packets[id];
      && 0.0 <= now - p.sentAt <= REPLAY_MAX_AGE
      && p.attempts < REPLAY_MAX_ATTEMPTS
      && (p.HasReplayed() ==> now - p.lastAttemptAt >= REPLAY_RETRY_SECONDS)
    ensures
      var p := h.packets[id];
      HistoryInv(Altered(h, id, p.(attempts := p.attempts + 1, lastAttemptAt := now, pending := Some(t),
                                   log := p.log + [Replayed(now)])), sequence + 1)
  {
    var p := h.packets[id];
    assert PacketInv(id, p);
    ReplayKeepsLog(p, t, now);
    var p' := p.(attempts := p.attempts + 1, lastAttemptAt := now, pending := Some(t), log := p.log + [Replayed(now)]);
    assert PacketInv(id, p');
    hide PacketInv;
    AlterKeepsHistory(h, id, p', sequence);
  }

  lemma ReplayWithinLimits(ch: Channel, id: nat, now: real)
    requires id in ch.history.packets && ReplayDue(ch, id, now)
    ensures
      var p := ch.history.packets[id];
      && 0.0 <= now - p.sentAt <= REPLAY_MAX_AGE
      && p.attempts < REPLAY_MAX_ATTEMPTS
      && (p.HasReplayed() ==> now - p.lastAttemptAt >= REPLAY_RETRY_SECONDS)
  {}

  lemma CommitReplayKeepsPhase(ch: Channel, t: Task, id: nat, now: real)
    requires PhaseInv(ch) && ch.sender.Reserving? && ch.sender.replay && id in ch.history.packets
    ensures PhaseInv(CommitReplay(ch, t, id, now))
  {}

  lemma CommitReplayKeeps(ch: Channel, t: Task, id: nat, now: real)
    requires ChannelInv(ch) && t !in ch.requests.pending && now > 0.0
    requires ch.sender.Reserving? && ch.sender.replay
    requires id in ch.history.packets && ch.history.packets[id].body == ch.sender.body
    requires ch.history.packets[id].pending.None? && ReplayDue(ch, id, now)
    ensures ChannelInv(CommitReplay(ch, t, id, now))
  {
    hide ChannelInv, RepliesInv, RequestsInv, HistoryInv, LinkInv, HasCapacity, ReplayDue, FrameLinked;
    Parts(ch);
    CommitReplayKeepsPhase(ch, t, id, now);
    assert HasCapacity(ch.requests, |ch.sender.body|);
    hide PhaseInv;
    ReplayWithinLimits(ch, id, now);
    var p := ch.history.packets[id];
    var p' := p.(attempts := p.attempts + 1, lastAttemptAt := now, pending := Some(t), log := p.log + [Replayed(now)]);
    var f := Frame(p.body, true, Some(id), []);
    ReplayIsBounded(ch.history, id, t, now, ch.sequence);
    AddRequestKeeps(ch.requests, t, f);
    NewFrameKeepsLink(ch.history, ch.requests.frames, t, f, id, p');
    Whole(CommitReplay(ch, t, id, now));
  }

  // ----- The other steps

  lemma ProgressKeeps(ch: Channel, t: Task, now: real)
    requires ChannelInv(ch) && t in ch.requests.pending
    ensures ChannelInv(Uploaded(ch, t, now))
    ensures ChannelInv(ResponseStarted(ch, t, now))
  {}

  lemma ChunkKeepsLink(h: History, frames: map<Task, Frame>, t: Task, content: bytes)
    requires LinkInv(h, frames) && t in frames
    ensures LinkInv(h, frames[t := frames[t].(content := content)])
  {}

  lemma ReceiveChunkKeeps(ch: Channel, t: Task, data: bytes, now: real)
    requires ChannelInv(ch) && t in ch.requests.frames
    requires |ch.requests.frames[t].content| + |data| <= MAX_PACKET
    ensures ChannelInv(ReceiveChunk(ch, t, data, now))
  {
    hide ChannelInv, HistoryInv, LinkInv, RepliesInv;
    Parts(ch);
    ChunkKeepsLink(ch.history, ch.requests.frames, t, ch.requests.frames[t].content + data);
    assert RequestsInv(ReceiveChunk(ch, t, data, now).requests);
    hide RequestsInv;
    Whole(ReceiveChunk(ch, t, data, now));
  }

  lemma ReceiveKeeps(ch: Channel, now: real)
    requires ChannelInv(ch)
    ensures ch.replies.queue != [] ==> ChannelInv(Receive(ch))
    ensures ChannelInv(Delivered(ch, now))
  {
    hide ChannelInv, HistoryInv, LinkInv, RequestsInv;
    Parts(ch);
    Whole(Delivered(ch, now));
    if ch.replies.queue != [] {
      var r := ch.replies;
      assert forall item <- r.queue[1..] :: item in r.queue;
      assert RepliesInv(Receive(ch).replies, ch.closed);
      hide RepliesInv;
      Whole(Receive(ch));
    }
  }

  lemma SentSubset(q: Requests, t: Task)
    requires RequestsInv(q)
    ensures RequestsInv(q.(sentSince := q.sentSince - {t}))
  {}

  lemma RetireKeepsPhase(ch: Channel, t: Task)
    requires PhaseInv(ch) && OrderKnown(ch.history)
    ensures PhaseInv(Retire(ch, t))
  {}

  lemma RetireKeeps(ch: Channel, t: Task)
    requires ChannelInv(ch)
    ensures OrderKnown(ch.history)
    ensures ChannelInv(Retire(ch, t))
  {
    hide ChannelInv, RepliesInv, RequestsInv, HistoryInv, LinkInv, PhaseInv;
    Parts(ch);
    RetireKeepsPhase(ch, t);
    SentSubset(ch.requests, t);
    var owner := OriginalOwner(ch.history, ch.history.order, t);
    if owner.Some? {
      var p := ch.history.packets[owner.value];
      SamePacket(ch.history, owner.value, p.(retired := true), ch.sequence);
      AlterKeepsLink(ch.history, ch.requests.frames, owner.value, p.(retired := true));
    }
    Whole(Retire(ch, t));
  }

  lemma CloseDoneKeeps(ch: Channel)
    requires ChannelInv(ch) && ch.requests.pending == map[]
    ensures ChannelInv(CloseDone(ch))
  {}
}
