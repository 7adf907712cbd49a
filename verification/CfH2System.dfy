/**
  One lane shared by any number of channels (`_HttpLane` with its `_HttpChannel`s in proxy/cf_h2.py), as a
  state machine whose events are the atomic steps of all running coroutines, in any order.
*/
module CfH2System {
  import opened Prelude
  import opened Bytes
  import opened CfH2Channel
  import opened CfH2Invariants

  const MAX_LANE_REQUESTS := 64
  const MAX_LANE_BYTES := 32 * 1024 * 1024
  const MAX_LANE_REPLY_BYTES := 32 * 1024 * 1024

  datatype Lane = Lane(inflight: int, queued: int, replyBuffer: int, closed: bool)

  /** A slot whose `_release` is still waiting for the lane's lock. */
  datatype Hold = Hold(length: nat, channel: nat)

  /**
    Every slot is a ticket: the task of its request, or a number of its own when `_send` gives it back
    before a request exists. `releasing` holds the tickets on their way back, `released` those returned.
  */
  datatype System = System(
    lane: Lane,
    channels: map<nat, Channel>,
    releasing: map<Task, Hold>,
    released: set<Task>,
    next: Task,
    clock: real)

  datatype Event =
    | Open(c: nat, now: real)
    | Send(c: nat, body: bytes)
    | Ready(c: nat)
    | GiveUp(c: nat)
    | Reserve(c: nat, now: real)
    | Release(t: Task)
    | UploadDone(c: nat, t: Task, now: real)
    | ResponseStart(c: nat, t: Task, now: real)
    | Chunk(c: nat, t: Task, data: bytes, now: real)
    | PostReturned(c: nat, t: Task, now: real)
    | PostRaised(c: nat, t: Task)
    | Cancelled(c: nat, t: Task)
    | NeverStarted(c: nat, t: Task)
    | Take(c: nat)
    | WriteDone(c: nat, now: real)
    | Recover(c: nat, id: nat, replace: Option<Task>, at: real, now: real)
    | Replaced(c: nat)
    | Rotate(c: nat, victim: nat, t: Task, now: real)
    | StartClose(c: nat)
    | EndClose(c: nat)
    | CloseLane

  function Initial(now: real): System {
    System(Lane(0, 0, 0, false), map[], map[], {}, 0, now)
  }

  predicate LaneHasCapacity(lane: Lane, length: nat) {
    lane.inflight < MAX_LANE_REQUESTS && lane.queued + length <= MAX_LANE_BYTES
  }

  /** What `_post` makes of a complete response body. */
  predicate IsReply(content: bytes) {
    |content| % 4 == 0 && (|content| == 4 ==> content[3] < 0x80)
  }

  function Put(s: System, c: nat, ch: Channel): System {
    s.(channels := s.channels[c := ch])
  }

  function Now(e: Event, clock: real): real {
    match e
    case Open(_, now) => now
    case Reserve(_, now) => now
    case UploadDone(_, _, now) => now
    case ResponseStart(_, _, now) => now
    case Chunk(_, _, _, now) => now
    case PostReturned(_, _, now) => now
    case WriteDone(_, now) => now
    case Recover(_, _, _, _, now) => now
    case Rotate(_, _, _, now) => now
    case _ => clock
  }

  predicate Running(s: System, c: nat, t: Task) {
    c in s.channels && t in s.channels[c].requests.pending && t in s.channels[c].requests.frames
    && OrderKnown(s.channels[c].history)
    && (var f := s.channels[c].requests.frames[t]; f.packet.Some? ==> f.packet.value in s.channels[c].history.packets)
  }

  /** Which pending replay `_recover` gives up, if it has to give one up, to replay packet `id`. */
  predicate ReplacementChosen(ch: Channel, id: nat, replace: Option<Task>, now: real)
    requires id in ch.history.packets
  {
    var entry := ch.history.packets[id];
    match replace
    case None => entry.pending.None? && |ch.requests.replays| < MAX_CHANNEL_REPLAYS
    case Some(t) =>
      && (entry.pending == Some(t) ||
          (entry.pending.None? && |ch.requests.replays| >= MAX_CHANNEL_REPLAYS && t in ch.requests.replays))
      && t !in ch.requests.receiving
      && t in ch.requests.sentSince
      && now - ch.requests.sentSince[t] >= REPLAY_SLOT_SECONDS
  }

  /** The waiting upload that `_make_upload_room` works for, and the channels it may take a request from. */
  predicate WaitsForRoom(s: System, c: nat, victim: nat)
    requires c in s.channels
  {
    var ch := s.channels[c];
    && !ch.closed
    && ((ch.sender.Checking? && !ch.sender.replay && !HasCapacity(ch.requests, |ch.sender.body|) && victim == c) ||
        (ch.sender.Reserving? && !ch.sender.replay && !LaneHasCapacity(s.lane, |ch.sender.body|)))
  }

  /** `c` is scanned before `d`: it holds an upload finished before every one of `d`. */
  predicate ScannedBefore(c: Channel, d: Channel) {
    exists t <- c.requests.sentSince ::
      forall u <- d.requests.sentSince :: c.requests.sentSince[t] < d.requests.sentSince[u]
  }

  ghost predicate Enabled(s: System, e: Event) {
    && s.clock <= Now(e, s.clock)
    && match e
       case Open(c, _) => c !in s.channels
       case Send(c, body) => c in s.channels && s.channels[c].sender.Free? && |body| >= MIN_PACKET
       case Ready(c) =>
         && c in s.channels
         && (var ch := s.channels[c];
             ch.sender.Checking? && (ch.closed || ch.sender.replay || HasCapacity(ch.requests, |ch.sender.body|)))
       case GiveUp(c) =>
         c in s.channels && (s.channels[c].sender.Checking? || s.channels[c].sender.Reserving?)
       case Reserve(c, _) =>
         && c in s.channels && OrderKnown(s.channels[c].history)
         && (var ch := s.channels[c];
             ch.sender.Reserving?
             && (ch.sender.replay || s.lane.closed || LaneHasCapacity(s.lane, |ch.sender.body|)))
       case Release(t) => t in s.releasing
       case UploadDone(c, t, _) => Running(s, c, t)
       case ResponseStart(c, t, _) => Running(s, c, t)
       case Chunk(c, t, data, _) =>
         && Running(s, c, t) && t in s.channels[c].requests.receiving
         && |s.channels[c].requests.frames[t].content| + |data| <= MAX_PACKET
         && s.lane.replyBuffer + |data| <= MAX_LANE_REPLY_BYTES
       case PostReturned(c, t, _) => Running(s, c, t) && IsReply(s.channels[c].requests.frames[t].content)
       case PostRaised(c, t) => Running(s, c, t)
       case Cancelled(c, t) => Running(s, c, t)
       case NeverStarted(c, t) => Running(s, c, t) && s.channels[c].closed
       case Take(c) => c in s.channels && s.channels[c].replies.queue != [] && !s.channels[c].replies.delivering
       case WriteDone(c, _) => c in s.channels && s.channels[c].replies.delivering
       // The clock was read before room was made for an upload, which may have waited for the request given up.
       case Recover(c, id, replace, at, now) =>
         && at <= now && c in s.channels
         && (var ch := s.channels[c];
             && !ch.closed && ch.recovery.Watching? && !NativeBackpressure(ch.replies)
             && id in ch.history.order && id in ch.history.packets && ReplayDue(ch, id, at)
             && ReplacementChosen(ch, id, replace, at))
       case Replaced(c) =>
         && c in s.channels && s.channels[c].recovery.Replacing?
         && s.channels[c].recovery.task !in s.channels[c].requests.pending
         && s.channels[c].recovery.task !in s.releasing
       case Rotate(c, victim, t, now) =>
         && c in s.channels && victim in s.channels && WaitsForRoom(s, c, victim)
         && OrderKnown(s.channels[victim].history)
         && CapacityCandidate(s.channels[victim], t, now)
         && (s.channels[c].sender.Reserving? ==>
               forall d <- s.channels ::
                 OrderKnown(s.channels[d].history) && ScannedBefore(s.channels[d], s.channels[victim]) ==>
                   forall u :: !CapacityCandidate(s.channels[d], u, now))
       case StartClose(c) => c in s.channels
       case EndClose(c) =>
         c in s.channels && s.channels[c].closed && s.channels[c].requests.pending == map[]
       case CloseLane => true
  }

  /** `send(replay=True)`: it never queues behind another holder of the lock. */
  function TryReplay(ch: Channel, body: bytes): Channel {
    if ch.sender.Free? then ch.(sender := Checking(body, true), recovery := Replaying)
    else ch.(recovery := Watching)
  }

  function LeaveSend(ch: Channel): Channel {
    ch.(sender := Free, recovery := if ch.recovery.Replaying? then Watching else ch.recovery)
  }

  function EnterReady(ch: Channel): Channel
    requires ch.sender.Checking?
  {
    if ch.closed || !HasCapacity(ch.requests, |ch.sender.body|) then LeaveSend(ch)
    else ch.(sender := Reserving(ch.sender.body, ch.sender.replay))
  }

  /** The packet a replay may be sent for once its slot is reserved. */
  function ReplayTarget(ch: Channel, body: bytes, now: real): (r: Option<nat>)
    requires OrderKnown(ch.history)
    ensures r.Some? ==> r.value in ch.history.packets && r.value in ch.history.order
                        && ch.history.packets[r.value].body == body
                        && ch.history.packets[r.value].pending.None? && ReplayDue(ch, r.value, now)
  {
    match FindPacket(ch.history, ch.history.order, body)
    case None => None
    case Some(id) =>
      if ch.history.packets[id].pending.None? && ReplayDue(ch, id, now) then Some(id) else None
  }

  /** `_reserve` and the rest of `_send`. */
  function ReserveSlot(s: System, c: nat, now: real): System
    requires c in s.channels && OrderKnown(s.channels[c].history)
    requires s.channels[c].sender.Reserving?
  {
    var ch := s.channels[c];
    var body, replay := ch.sender.body, ch.sender.replay;
    if s.lane.closed || !LaneHasCapacity(s.lane, |body|) then Put(s, c, LeaveSend(ch))
    else
      var t := s.next;
      var s1 := s.(lane := s.lane.(inflight := s.lane.inflight + 1, queued := s.lane.queued + |body|), next := t + 1);
      var target := if replay then ReplayTarget(ch, body, now) else None;
      if ch.closed || (replay && target.None?) then
        Put(s1.(releasing := s1.releasing[t := Hold(|body|, c)]), c, ch.(sender := Aborting(t)))
      else if replay then Put(s1, c, CommitReplay(ch, t, target.value, now))
      else Put(s1, c, CommitNative(ch, t, body, now))
  }

  function ReleaseSlot(s: System, t: Task): System
    requires t in s.releasing
  {
    var hold := s.releasing[t];
    var s1 := s.(lane := s.lane.(inflight := s.lane.inflight - 1, queued := s.lane.queued - hold.length),
                 releasing := s.releasing - {t},
                 released := s.released + {t});
    if hold.channel in s.channels && s.channels[hold.channel].sender == Aborting(t)
    then Put(s1, hold.channel, LeaveSend(s.channels[hold.channel]))
    else s1
  }

  /** A request ends: `ch` is its channel afterwards, and its slot starts its way back. */
  function EndRequest(s: System, c: nat, t: Task, ch: Channel): System
    requires Running(s, c, t)
  {
    var q := s.channels[c].requests;
    Put(s, c, ch).(lane := s.lane.(replyBuffer := s.lane.replyBuffer - |q.frames[t].content|),
                   releasing := s.releasing[t := Hold(q.pending[t], c)])
  }

  ghost function Step(s: System, e: Event): System
    requires Enabled(s, e)
  {
    var s' :=
      match e
      case Open(c, now) => Put(s, c, NewChannel(now))
      case Send(c, body) => Put(s, c, s.channels[c].(sender := Checking(body, false)))
      case Ready(c) => Put(s, c, EnterReady(s.channels[c]))
      case GiveUp(c) => Put(s, c, LeaveSend(s.channels[c]))
      case Reserve(c, now) => ReserveSlot(s, c, now)
      case Release(t) => ReleaseSlot(s, t)
      case UploadDone(c, t, now) => Put(s, c, Uploaded(s.channels[c], t, now))
      case ResponseStart(c, t, now) => Put(s, c, ResponseStarted(s.channels[c], t, now))
      case Chunk(c, t, data, now) =>
        Put(s, c, ReceiveChunk(s.channels[c], t, data, now)).(
          lane := s.lane.(replyBuffer := s.lane.replyBuffer + |data|))
      case PostReturned(c, t, now) => EndRequest(s, c, t, Complete(s.channels[c], t, now))
      case PostRaised(c, t) => EndRequest(s, c, t, Errored(s.channels[c], t))
      case Cancelled(c, t) => EndRequest(s, c, t, Finish(s.channels[c], t, s.channels[c].requests.frames[t].packet))
      case NeverStarted(c, t) => EndRequest(s, c, t, Finish(s.channels[c], t, None))
      case Take(c) => Put(s, c, Receive(s.channels[c]))
      case WriteDone(c, now) => Put(s, c, Delivered(s.channels[c], now))
      case Recover(c, id, replace, at, now) =>
        var ch := s.channels[c];
        var body := ch.history.packets[id].body;
        Put(s, c, if replace.Some? then ch.(recovery := Replacing(replace.value, body)) else TryReplay(ch, body))
      case Replaced(c) => Put(s, c, TryReplay(s.channels[c], s.channels[c].recovery.body))
      case Rotate(c, victim, t, now) => Put(s, victim, Retire(s.channels[victim], t))
      case StartClose(c) => Put(s, c, Close(s.channels[c]))
      case EndClose(c) => Put(s, c, CloseDone(s.channels[c]))
      case CloseLane => s.(lane := s.lane.(closed := true));
    s'.(clock := Now(e, s.clock))
  }

  /** Any interleaving of the coroutines. */
  ghost predicate IsRun(s: System, es: seq<Event>)
    decreases |es|
  {
    es == [] || (Enabled(s, es[0]) && IsRun(Step(s, es[0]), es[1..]))
  }

  ghost function After(s: System, es: seq<Event>): System
    requires IsRun(s, es)
    decreases |es|
  {
    if es == [] then s else After(Step(s, es[0]), es[1..])
  }
}
