/**
  The channel and lane objects themselves: the fields of `_HttpLane` and `_HttpChannel` updated in place.
  Each method is the code between two suspension points and changes exactly what the value-level step says.
*/
module CfH2Objects {
  import opened Prelude
  import opened Bytes
  import opened CfH2Channel
  import opened CfH2Invariants
  import CfH2System

  datatype Attempt = Reserved | NoRoom | LaneClosed

  class HttpLane {
    var inflight: int
    var queuedBytes: int
    var replyBufferBytes: int
    var closed: bool

    function Model(): CfH2System.Lane
      reads this
    {
      CfH2System.Lane(inflight, queuedBytes, replyBufferBytes, closed)
    }

    constructor ()
      ensures Model() == CfH2System.Initial(0.0).lane
    {
      inflight, queuedBytes, replyBufferBytes, closed := 0, 0, 0, false;
    }

    /** `_reserve` once it holds the lane's lock and, when it may wait, has been woken. */
    method TryReserve(length: nat) returns (attempt: Attempt)
      modifies this
      ensures attempt == (if old(closed) then LaneClosed
                          else if CfH2System.LaneHasCapacity(old(Model()), length) then Reserved else NoRoom)
      ensures Model() == if attempt.Reserved?
                         then old(Model()).(inflight := old(inflight) + 1, queued := old(queuedBytes) + length)
                         else old(Model())
    {
      if closed { return LaneClosed; }
      if !(inflight < CfH2System.MAX_LANE_REQUESTS && queuedBytes + length <= CfH2System.MAX_LANE_BYTES) {
        return NoRoom;
      }
      inflight := inflight + 1;
      queuedBytes := queuedBytes + length;
      return Reserved;
    }

    method Release(length: nat)
      modifies this
      ensures Model() == old(Model()).(inflight := old(inflight) - 1, queued := old(queuedBytes) - length)
    {
      inflight := inflight - 1;
      queuedBytes := queuedBytes - length;
    }

    /** The memory check of one response chunk in `_post`. */
    method BufferChunk(length: nat) returns (fits: bool)
      modifies this
      ensures fits <==> old(replyBufferBytes) + length <= CfH2System.MAX_LANE_REPLY_BYTES
      ensures Model() == if fits then old(Model()).(replyBuffer := old(replyBufferBytes) + length) else old(Model())
    {
      fits := replyBufferBytes + length <= CfH2System.MAX_LANE_REPLY_BYTES;
      if fits { replyBufferBytes := replyBufferBytes + length; }
    }

    /** The `finally` of `_post`: the chunks of a response are no longer held. */
    method Unbuffer(length: nat)
      modifies this
      ensures Model() == old(Model()).(replyBuffer := old(replyBufferBytes) - length)
    {
      replyBufferBytes := replyBufferBytes - length;
    }
  }

  class HttpChannel {
    var closed: bool
    var pending: map<Task, nat>
    var pendingBytes: int
    var sentSince: map<Task, real>
    var receivingTasks: set<Task>
    var replayPending: set<Task>
    var frames: map<Task, Frame>
    var queue: seq<Item>
    var replyBytes: int
    var delivering: bool
    var replayKey: Option<bytes>
    var replayHistory: seq<nat>
    var packets: map<nat, Packet>
    var requests: nat
    var lastProgress: real
    var sender: Sender
    var recovery: Recovery
    ghost var accepted: seq<bytes>
    ghost var taken: seq<bytes>

    ghost function Model(): Channel
      reads this
    {
      Channel(closed,
              Requests(pending, pendingBytes, sentSince, receivingTasks, replayPending, frames),
              History(replayKey, replayHistory, packets),
              Replies(queue, replyBytes, delivering, accepted, taken),
              requests, lastProgress, sender, recovery)
    }

    constructor (now: real)
      ensures Model() == NewChannel(now)
    {
      closed, pending, pendingBytes, sentSince, receivingTasks := false, map[], 0, map[], {};
      replayPending, frames, queue, replyBytes, delivering := {}, map[], [], 0, false;
      replayKey, replayHistory, packets, requests, lastProgress := None, [], map[], 0, now;
      sender, recovery, accepted, taken := Free, Watching, [], [];
    }

    method Find(body: bytes) returns (id: Option<nat>)
      requires OrderKnown(Model().history)
      ensures id == FindPacket(Model().history, replayHistory, body)
    {
      var i := 0;
      while i < |replayHistory|
        invariant 0 <= i <= |replayHistory|
        invariant FindPacket(Model().history, replayHistory, body)
                  == FindPacket(Model().history, replayHistory[i..], body)
      {
        if packets[replayHistory[i]].body == body { return Some(replayHistory[i]); }
        i := i + 1;
      }
      return None;
    }

    /** `_remember_packet`, for the request counted just before. */
    method RememberPacket(body: bytes, now: real) returns (id: Option<nat>)
      requires OrderKnown(Model().history)
      modifies this`replayKey, this`replayHistory, this`packets
      ensures (Model().history, id) == Remember(old(Model().history), body, now, requests)
    {
      var key := Prefix(body, 8);
      if key == ZERO_KEY { return None; }
      if replayKey != Some(key) {
        replayHistory := [];
        replayKey := Some(key);
      }
      if |body| > REPLAY_HISTORY_BYTES { return None; }
      id := Find(body);
      if id.None? {
        packets := packets[requests := Packet(now, body, requests, 0, 0.0, None, {}, false, None, [])];
        replayHistory := replayHistory + [requests];
        id := Some(requests);
      }
    }

    method RetainedBytes() returns (total: nat)
      requires OrderKnown(Model().history)
      ensures total == HistoryBytes(Model().history, replayHistory)
    {
      total := 0;
      for i := 0 to |replayHistory|
        invariant total + HistoryBytes(Model().history, replayHistory[i..])
                  == HistoryBytes(Model().history, replayHistory)
      {
        total := total + |packets[replayHistory[i]].body|;
      }
    }

    /** The `next(...)` of `_trim_history`: where the packet to give up stands. */
    method FindVictim(now: real) returns (k: nat)
      requires replayHistory != [] && OrderKnown(Model().history)
      ensures k == VictimIndex(Model().history, replayHistory, now)
    {
      k := 0;
      while k < |replayHistory|
        invariant 0 <= k <= |replayHistory|
        invariant FirstUnprotected(Model().history, replayHistory, now)
                  == k + FirstUnprotected(Model().history, replayHistory[k..], now)
      {
        var p := packets[replayHistory[k]];
        if p.originals == {} && !(p.retired && p.attempts < REPLAY_MAX_ATTEMPTS && now - p.sentAt <= REPLAY_MAX_AGE) {
          return k;
        }
        k := k + 1;
      }
      return 0;
    }

    method TrimHistory(now: real)
      requires OrderKnown(Model().history)
      modifies this`replayHistory
      ensures Model().history == Trim(old(Model().history), now)
    {
      var retained := RetainedBytes();
      while |replayHistory| > REPLAY_HISTORY_PACKETS || retained > REPLAY_HISTORY_BYTES
        invariant OrderKnown(Model().history)
        invariant retained == HistoryBytes(old(Model().history), replayHistory)
        invariant Trimmed(old(Model().history), replayHistory, now)
                  == Trimmed(old(Model().history), old(replayHistory), now)
        decreases |replayHistory|
      {
        HistoryBytesSame(old(Model().history), Model().history, replayHistory);
        var k := FindVictim(now);
        VictimSame(old(Model().history), Model().history, replayHistory, now);
        RemovedBytes(old(Model().history), replayHistory, k);
        retained := retained - |packets[replayHistory[k]].body|;
        replayHistory := replayHistory[..k] + replayHistory[k + 1..];
      }
    }

    /** The request tables gain the task of a new request. */
    method Admit(task: Task, frame: Frame)
      modifies this`pending, this`pendingBytes, this`frames, this`replayPending
      ensures Model().requests == AddRequest(old(Model().requests), task, frame)
    {
      pendingBytes := pendingBytes + |frame.body|;
      pending := pending[task := |frame.body|];
      frames := frames[task := frame];
      if frame.replay { replayPending := replayPending + {task}; }
    }

    method AttachOriginal(id: nat, task: Task)
      requires id in packets
      modifies this`packets
      ensures Model().history == AddOriginal(old(Model().history), id, task)
    {
      packets := packets[id := packets[id].(originals := packets[id].originals + {task})];
    }

    /** The native packet enters the history with its task, and the history is trimmed. */
    method RecordPacket(task: Task, body: bytes, now: real) returns (id: Option<nat>)
      requires OrderKnown(Model().history)
      modifies this`replayKey, this`replayHistory, this`packets
      ensures (Model().history, id) == Recorded(old(Model().history), task, body, now, requests)
    {
      RememberedKnown(Model().history, body, now, requests);
      hide Remember, Trim;
      id := RememberPacket(body, now);
      if id.Some? {
        AttachOriginal(id.value, task);
        TrimHistory(now);
      }
    }

    /** The end of `_send` for a native packet, once its slot is reserved and nothing stands in the way. */
    method CommitNativeSend(task: Task, body: bytes, now: real)
      requires OrderKnown(Model().history)
      modifies this
      ensures Model() == CommitNative(old(Model()), task, body, now)
    {
      hide Recorded, AddRequest, OrderKnown;
      requests, sender := requests + 1, Free;
      ghost var before := Model();
      var id := RecordPacket(task, body, now);
      assert Model() == before.(history := Model().history);
      Admit(task, Frame(body, false, id, []));
      assert Model().history == Recorded(before.history, task, body, now, requests).0;
    }

    method CommitReplaySend(task: Task, id: nat, now: real)
      requires id in packets
      modifies this
      ensures Model() == CommitReplay(old(Model()), task, id, now)
    {
      var p := packets[id];
      requests := requests + 1;
      Admit(task, Frame(p.body, true, Some(id), []));
      packets := packets[id := p.(attempts := p.attempts + 1, lastAttemptAt := now, pending := Some(task),
                                  log := p.log + [Replayed(now)])];
      sender, recovery := Free, Watching;
    }

    method FindOwner(task: Task) returns (owner: Option<nat>)
      requires OrderKnown(Model().history)
      ensures owner == OwnerIn(Model().history, replayHistory, task)
    {
      var i := 0;
      while i < |replayHistory|
        invariant 0 <= i <= |replayHistory|
        invariant OwnerIn(Model().history, replayHistory, task) == OwnerIn(Model().history, replayHistory[i..], task)
      {
        var p := packets[replayHistory[i]];
        if task in p.originals || p.pending == Some(task) { return Some(replayHistory[i]); }
        i := i + 1;
      }
      return None;
    }

    /** The request tables lose a task. */
    method Drop(task: Task)
      requires task in pending
      modifies this`pending, this`pendingBytes, this`sentSince, this`receivingTasks, this`replayPending, this`frames
      ensures Model().requests == RemoveRequest(old(Model().requests), task)
    {
      pendingBytes := pendingBytes - pending[task];
      pending := pending - {task};
      sentSince := sentSince - {task};
      replayPending := replayPending - {task};
      receivingTasks := receivingTasks - {task};
      frames := frames - {task};
    }

    method DetachFrom(id: nat, task: Task)
      requires id in packets
      modifies this`packets
      ensures Model().history == Detach(old(Model().history), id, task)
    {
      var p := packets[id];
      packets := packets[id := p.(originals := p.originals - {task},
                                  pending := if p.pending == Some(task) then None else p.pending)];
    }

    /** `_finish_request` before its suspension; the result is what `_release` is then called with, if at all. */
    method FinishRequest(task: Task, packet: Option<nat>) returns (length: Option<nat>)
      requires OrderKnown(Model().history) && (packet.Some? ==> packet.value in packets)
      modifies this
      ensures Model() == Finish(old(Model()), task, packet)
      ensures length == if task in old(pending) then Some(old(pending)[task]) else None
    {
      if task !in pending { return None; }
      length := Some(pending[task]);
      Drop(task);
      var owner := packet;
      if owner.None? { owner := FindOwner(task); }
      if owner.Some? { DetachFrom(owner.value, task); }
    }

    method FailWith()
      modifies this`closed, this`queue, this`replyBytes
      ensures Model() == Fail(old(Model()))
    {
      if closed { return; }
      closed := true;
      while queue != []
        invariant Model() == old(Model()).(closed := true, replies := old(Model()).replies.(queue := queue))
        decreases |queue|
      {
        queue := queue[1..];
      }
      replyBytes := 0;
      queue := queue + [Failure];
    }

    /** A reply with a new id renews the packet's replay budget. */
    method NoteReplyOf(id: nat, reply: bytes)
      requires id in packets
      modifies this`packets
      ensures Model().history == NoteReply(old(Model().history), id, reply)
    {
      var p := packets[id];
      if p.replyId != Some(Prefix(reply, 24)) {
        packets := packets[id := p.(replyId := Some(Prefix(reply, 24)), attempts := 0, log := p.log + [NewReply])];
      }
    }

    /** The reply joins the queue, or the queue is over its bound and the channel fails. */
    method AcceptReply(reply: bytes)
      modifies this`queue, this`replyBytes, this`closed, this`accepted
      ensures Model() == if ReplyFits(old(Model().replies), reply)
                         then old(Model()).(replies := Enqueue(old(Model().replies), reply))
                         else Fail(old(Model()))
    {
      if |queue| >= MAX_QUEUE || replyBytes + |reply| > MAX_CHANNEL_BYTES {
        FailWith();
      } else {
        replyBytes := replyBytes + |reply|;
        queue := queue + [Reply(reply)];
        accepted := accepted + [reply];
      }
    }

    /** `_run_request` after `_post` returned. */
    method CompleteRequest(task: Task, now: real) returns (length: Option<nat>)
      requires OrderKnown(Model().history) && task in frames
      requires frames[task].packet.Some? ==> frames[task].packet.value in packets
      modifies this
      ensures Model() == Complete(old(Model()), task, now)
      ensures length == if task in old(pending) then Some(old(pending)[task]) else None
    {
      hide Finish, Enqueue, Fail, ReplyFits;
      var reply, packet := frames[task].content, frames[task].packet;
      lastProgress := now;
      if reply != [] && !closed {
        if packet.Some? { NoteReplyOf(packet.value, reply); }
        AcceptReply(reply);
      }
      length := FinishRequest(task, packet);
    }

    method ReceiveReply() returns (item: Item)
      requires queue != []
      modifies this
      ensures item == old(queue[0])
      ensures Model() == CfH2Channel.Receive(old(Model()))
    {
      item := queue[0];
      queue := queue[1..];
      if item.Reply? {
        replyBytes := replyBytes - |item.body|;
        delivering := !closed;
        taken := taken + [item.body];
      }
    }

    method FindOriginalOwner(task: Task) returns (owner: Option<nat>)
      requires OrderKnown(Model().history)
      ensures owner == OriginalOwner(Model().history, replayHistory, task)
    {
      var i := 0;
      while i < |replayHistory|
        invariant 0 <= i <= |replayHistory|
        invariant OriginalOwner(Model().history, replayHistory, task)
                  == OriginalOwner(Model().history, replayHistory[i..], task)
      {
        if task in packets[replayHistory[i]].originals { return Some(replayHistory[i]); }
        i := i + 1;
      }
      return None;
    }

    /** `_capacity_candidate`: the best request to give up, if there is any. */
    method FindCapacityCandidate(now: real) returns (best: Option<Task>)
      requires OrderKnown(Model().history)
      ensures best.Some? ==> CapacityCandidate(Model(), best.value, now)
      ensures best.None? ==> forall t :: !CapacityEligible(Model(), t, now)
    {
      best := None;
      var todo := sentSince.Keys;
      while todo != {}
        invariant todo <= sentSince.Keys
        invariant best.Some? ==> CapacityEligible(Model(), best.value, now)
        invariant forall t <- sentSince.Keys - todo :: CapacityEligible(Model(), t, now) ==>
                    best.Some? && best.value in sentSince && RotatesBefore(Model().requests, best.value, t)
        decreases todo
      {
        var t :| t in todo;
        todo := todo - {t};
        if t !in receivingTasks && now - sentSince[t] >= REPLAY_REQUEST_SECONDS {
          var owner := FindOriginalOwner(t);
          if t in replayPending || (owner.Some? && now - packets[owner.value].sentAt <= REPLAY_MAX_AGE) {
            assert CapacityEligible(Model(), t, now);
            if best.None?
               || (t in replayPending && best.value !in replayPending)
               || ((t in replayPending) == (best.value in replayPending) && sentSince[t] < sentSince[best.value]) {
              best := Some(t);
            }
          }
        }
      }
    }

    /** What `_make_upload_room` does to the channel it takes a request from, before it cancels it. */
    method RetireRequest(task: Task)
      requires OrderKnown(Model().history)
      modifies this
      ensures Model() == Retire(old(Model()), task)
    {
      if task !in replayPending {
        var owner := FindOriginalOwner(task);
        if owner.Some? { packets := packets[owner.value := packets[owner.value].(retired := true)]; }
      }
      sentSince := sentSince - {task};
    }
  }

  /** The objects of the lane and of channel `c` are at state `s`. */
  ghost predicate Show(lane: HttpLane, channel: HttpChannel, s: CfH2System.System, c: nat)
    reads lane, channel
  {
    lane.Model() == s.lane && c in s.channels && channel.Model() == s.channels[c]
  }

  /** `_reserve` and the rest of `_send` for a native packet, once the lane has room or is closed. */
  method ReserveNative(lane: HttpLane, channel: HttpChannel, now: real, ghost s: CfH2System.System, ghost c: nat,
                       task: Task)
    requires Show(lane, channel, s, c) && OrderKnown(channel.Model().history) && task == s.next
    requires channel.sender.Reserving? && !channel.sender.replay
    requires lane.closed || CfH2System.LaneHasCapacity(lane.Model(), |channel.sender.body|)
    modifies lane, channel
    ensures Show(lane, channel, CfH2System.ReserveSlot(s, c, now), c)
  {
    hide CommitNative, OrderKnown;
    var body := channel.sender.body;
    var attempt := lane.TryReserve(|body|);
    if !attempt.Reserved? {
      channel.sender := Free;
      channel.recovery := if channel.recovery.Replaying? then Watching else channel.recovery;
    } else if channel.closed {
      channel.sender := Aborting(task);
    } else {
      channel.CommitNativeSend(task, body, now);
    }
  }

  /**
    A request from the return of `_post` to its slot back at the lane, when `_release` finds the lane's lock free:
    the two steps of the machine in a row.
  */
  method CompleteAndRelease(lane: HttpLane, channel: HttpChannel, task: Task, now: real, ghost s: CfH2System.System,
                            ghost c: nat)
    requires Show(lane, channel, s, c) && CfH2System.Running(s, c, task) && s.channels[c].sender != Aborting(task)
    modifies lane, channel
    ensures Show(lane, channel, CfH2System.ReleaseSlot(CfH2System.EndRequest(s, c, task,
                   Complete(s.channels[c], task, now)), task), c)
  {
    CompleteKeepsSender(channel.Model(), task, now);
    hide Complete, OrderKnown;
    lane.Unbuffer(|channel.frames[task].content|);
    var length := channel.CompleteRequest(task, now);
    if length.Some? { lane.Release(length.value); }
  }

  lemma CompleteKeepsSender(ch: Channel, t: Task, now: real)
    requires t in ch.requests.frames && OrderKnown(ch.history)
    requires ch.requests.frames[t].packet.Some? ==> ch.requests.frames[t].packet.value in ch.history.packets
    ensures Complete(ch, t, now).sender == ch.sender
  {}

  lemma RememberedKnown(h: History, body: bytes, now: real, sequence: nat)
    requires OrderKnown(h)
    ensures OrderKnown(Remember(h, body, now, sequence).0)
    ensures var (h', id) := Remember(h, body, now, sequence); id.Some? ==> id.value in h'.packets
  {}

  lemma {:induction false} VictimSame(h: History, h': History, order: seq<nat>, now: real)
    requires h.packets == h'.packets && forall id <- order :: id in h.packets
    ensures FirstUnprotected(h, order, now) == FirstUnprotected(h', order, now)
  {}

  lemma {:induction false} RemovedBytes(h: History, order: seq<nat>, k: nat)
    requires k < |order| && forall id <- order :: id in h.packets
    ensures HistoryBytes(h, RemoveAt(order, k)) == HistoryBytes(h, order) - |h.packets[order[k]].body|
  {
    if k == 0 {
      assert RemoveAt(order, 0) == order[1..];
    } else {
      assert RemoveAt(order, k)[1..] == RemoveAt(order[1..], k - 1);
      RemovedBytes(h, order[1..], k - 1);
    }
  }
}
