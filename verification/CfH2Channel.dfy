/**
  One native channel of the multiplexed HTTP/2 route (`_HttpChannel` in proxy/cf_h2.py), on values.

  Each function below is the code between two suspension points of the channel's coroutines. Tasks are
  numbers, the clock is a real argument, and a replay packet is identified by its sequence number, which
  the channel never hands out twice.
*/
module CfH2Channel {
  import opened Prelude
  import opened Bytes

  const MIN_PACKET := 24
  const MAX_PACKET := 4 * 1024 * 1024
  const MAX_CHANNEL_REQUESTS := 8
  const MAX_CHANNEL_BYTES := 8 * 1024 * 1024
  const MAX_CHANNEL_REPLAYS := 2
  const MAX_QUEUE := 16
  const REPLAY_IDLE_SECONDS := 1.0
  const REPLAY_REQUEST_SECONDS := 3.0
  const REPLAY_MAX_AGE := 30.0
  const REPLAY_HISTORY_BYTES := 64 * 1024
  const REPLAY_HISTORY_PACKETS := 16
  const REPLAY_SLOT_SECONDS := 30.0
  const REPLAY_RETRY_SECONDS := 2.0
  const REPLAY_MAX_ATTEMPTS := 3
  const ZERO_KEY: bytes := [0, 0, 0, 0, 0, 0, 0, 0]

  type Task = nat

  /** What happened to a retained packet, oldest first; a history variable that no operation reads. */
  datatype Mark = Replayed(at: real) | NewReply

  /** `_ReplayPacket`. */
  datatype Packet = Packet(
    sentAt: real,
    body: bytes,
    sequence: nat,
    attempts: nat,
    lastAttemptAt: real,
    pending: Option<Task>,
    originals: set<Task>,
    retired: bool,
    replyId: Option<bytes>,
    log: seq<Mark>)
  {
    predicate HasReplayed() {
      lastAttemptAt > 0.0 || attempts > 0
    }
  }

  /**
    `replay_key`, `replay_history` (as packet numbers) and every packet object still referenced,
    whether or not it is retained.
  */
  datatype History = History(key: Option<bytes>, order: seq<nat>, packets: map<nat, Packet>)

  /** The arguments of one running `_run_request`, and what its `_post` has received so far. */
  datatype Frame = Frame(body: bytes, replay: bool, packet: Option<nat>, content: bytes)

  /** `pending`, `pending_bytes`, `sent_since`, `receiving_tasks`, `replay_pending`. */
  datatype Requests = Requests(
    pending: map<Task, nat>,
    bytes: int,
    sentSince: map<Task, real>,
    receiving: set<Task>,
    replays: set<Task>,
    frames: map<Task, Frame>)

  datatype Item = Reply(body: bytes) | Failure

  /**
    `queue`, `reply_bytes`, whether a native write is in progress (`delivering_since`), and two history
    variables: the replies accepted for delivery and the replies handed out, in order.
  */
  datatype Replies = Replies(
    queue: seq<Item>,
    bytes: int,
    delivering: bool,
    accepted: seq<bytes>,
    taken: seq<bytes>)

  /** Where the holder of `send_lock` stands. */
  datatype Sender =
    | Free
    | Checking(body: bytes, replay: bool)
    | Reserving(body: bytes, replay: bool)
    | Aborting(ticket: Task)

  /** Where the single `_recover` loop stands. */
  datatype Recovery = Watching | Replacing(task: Task, body: bytes) | Replaying

  datatype Channel = Channel(
    closed: bool,
    requests: Requests,
    history: History,
    replies: Replies,
    sequence: nat,
    lastProgress: real,
    sender: Sender,
    recovery: Recovery)

  function NewChannel(now: real): Channel {
    Channel(false, Requests(map[], 0, map[], {}, {}, map[]), History(None, [], map[]),
            Replies([], 0, false, [], []), 0, now, Free, Watching)
  }

  // ----- Capacity

  predicate HasCapacity(q: Requests, length: nat) {
    |q.pending| < MAX_CHANNEL_REQUESTS && q.bytes + length <= MAX_CHANNEL_BYTES
  }

  // ----- Replay history

  predicate OrderKnown(h: History) {
    forall id <- h.order :: id in h.packets
  }

  function HistoryBytes(h: History, order: seq<nat>): nat
    requires forall id <- order :: id in h.packets
  {
    if order == [] then 0 else |h.packets[order[0]].body| + HistoryBytes(h, order[1..])
  }

  function FindPacket(h: History, order: seq<nat>, body: bytes): (r: Option<nat>)
    requires forall id <- order :: id in h.packets
    ensures r.Some? ==> r.value in order && h.packets[r.value].body == body
    ensures r.None? ==> forall id <- order :: h.packets[id].body != body
  {
    if order == [] then None
    else if h.packets[order[0]].body == body then Some(order[0])
    else FindPacket(h, order[1..], body)
  }

  predicate Retainable(body: bytes) {
    Prefix(body, 8) != ZERO_KEY && |body| <= REPLAY_HISTORY_BYTES
  }

  /** `_remember_packet`, with the packet it returns. */
  function Remember(h: History, body: bytes, now: real, sequence: nat): (r: (History, Option<nat>))
    requires OrderKnown(h)
  {
    var key := Prefix(body, 8);
    if key == ZERO_KEY then (h, None)
    else
      var h1 := if h.key == Some(key) then h else h.(order := [], key := Some(key));
      if |body| > REPLAY_HISTORY_BYTES then (h1, None)
      else
        match FindPacket(h1, h1.order, body)
        case Some(id) => (h1, Some(id))
        case None => (Appended(h1, body, now, sequence), Some(sequence))
  }

  function Appended(h: History, body: bytes, now: real, sequence: nat): History {
    h.(order := h.order + [sequence],
       packets := h.packets[sequence := Packet(now, body, sequence, 0, 0.0, None, {}, false, None, [])])
  }

  /** A packet the trimmer spares while any other can go. */
  predicate Protected(p: Packet, now: real) {
    p.originals != {} ||
    (p.retired && p.attempts < REPLAY_MAX_ATTEMPTS && now - p.sentAt <= REPLAY_MAX_AGE)
  }

  function FirstUnprotected(h: History, order: seq<nat>, now: real): (k: nat)
    requires forall id <- order :: id in h.packets
    ensures k <= |order|
    ensures forall i :: 0 <= i < k ==> Protected(h.packets[order[i]], now)
    ensures k < |order| ==> !Protected(h.packets[order[k]], now)
  {
    if order == [] then 0
    else if !Protected(h.packets[order[0]], now) then 0
    else 1 + FirstUnprotected(h, order[1..], now)
  }

  function RemoveAt(order: seq<nat>, k: nat): seq<nat>
    requires k < |order|
  {
    order[..k] + order[k + 1..]
  }

  predicate OverLimit(h: History, order: seq<nat>)
    requires forall id <- order :: id in h.packets
  {
    |order| > REPLAY_HISTORY_PACKETS || HistoryBytes(h, order) > REPLAY_HISTORY_BYTES
  }

  function VictimIndex(h: History, order: seq<nat>, now: real): (k: nat)
    requires order != []
    requires forall id <- order :: id in h.packets
    ensures k < |order|
  {
    var k := FirstUnprotected(h, order, now);
    if k < |order| then k else 0
  }

  /** `_trim_history`: the numbers that stay. */
  function Trimmed(h: History, order: seq<nat>, now: real): (r: seq<nat>)
    requires forall id <- order :: id in h.packets
    decreases |order|
  {
    if OverLimit(h, order) then Trimmed(h, RemoveAt(order, VictimIndex(h, order, now)), now) else order
  }

  function Trim(h: History, now: real): History
    requires OrderKnown(h)
  {
    h.(order := Trimmed(h, h.order, now))
  }

  // ----- Replay decisions

  predicate OverdueOriginal(ch: Channel, p: Packet, now: real) {
    p.retired ||
    exists t :: t in p.originals && t in ch.requests.sentSince && t !in ch.requests.receiving &&
                now - ch.requests.sentSince[t] >= REPLAY_REQUEST_SECONDS
  }

  predicate IsLast(h: History, id: nat) {
    h.order != [] && h.order[|h.order| - 1] == id
  }

  function ReplayLimit(h: History, id: nat): nat
    requires id in h.packets
  {
    var p := h.packets[id];
    if p.originals != {} || p.retired || IsLast(h, id) then REPLAY_MAX_ATTEMPTS else 0
  }

  predicate NativeBackpressure(r: Replies) {
    r.bytes != 0 || r.delivering
  }

  datatype Blocker =
    Expired | BudgetUsed | Backpressure | OriginalBody | ReplayBody | BackoffOrProgress | ReceiverActive

  /** `_replay_blocker`. */
  function ReplayBlocker(ch: Channel, id: nat, now: real): Option<Blocker>
    requires id in ch.history.packets
  {
    var p := ch.history.packets[id];
    var q := ch.requests;
    if !(0.0 <= now - p.sentAt <= REPLAY_MAX_AGE) then Some(Expired)
    else if p.attempts >= ReplayLimit(ch.history, id) then Some(BudgetUsed)
    else if NativeBackpressure(ch.replies) then Some(Backpressure)
    else if p.originals * q.receiving != {} then Some(OriginalBody)
    else if p.pending.Some? && p.pending.value in q.receiving then Some(ReplayBody)
    else if p.HasReplayed() && now - p.lastAttemptAt < REPLAY_RETRY_SECONDS then Some(BackoffOrProgress)
    else if OverdueOriginal(ch, p, now) then None
    else if !IsLast(ch.history, id) || exists t :: t in q.pending && p.pending != Some(t) then Some(ReceiverActive)
    else if p.HasReplayed() && now - ch.lastProgress < REPLAY_IDLE_SECONDS then Some(BackoffOrProgress)
    else None
  }

  predicate ReplayDue(ch: Channel, id: nat, now: real)
    requires id in ch.history.packets
  {
    ReplayBlocker(ch, id, now).None?
  }

  // ----- Requests entering

  function AddRequest(q: Requests, t: Task, f: Frame): Requests {
    q.(pending := q.pending[t := |f.body|],
       bytes := q.bytes + |f.body|,
       frames := q.frames[t := f],
       replays := if f.replay then q.replays + {t} else q.replays)
  }

  function AddOriginal(h: History, id: nat, t: Task): History
    requires id in h.packets
  {
    var p := h.packets[id];
    h.(packets := h.packets[id := p.(originals := p.originals + {t})])
  }

  /** What the history becomes when a native packet is sent, and the packet that stands for it. */
  function Recorded(h: History, t: Task, body: bytes, now: real, sequence: nat): (r: (History, Option<nat>))
    requires OrderKnown(h)
  {
    var (h1, id) := Remember(h, body, now, sequence);
    (if id.Some? then Trim(AddOriginal(h1, id.value, t), now) else h1, id)
  }

  /** The second half of `_send` for a packet coming from the native client. */
  function CommitNative(ch: Channel, t: Task, body: bytes, now: real): Channel
    requires OrderKnown(ch.history)
  {
    var (h', id) := Recorded(ch.history, t, body, now, ch.sequence + 1);
    ch.(requests := AddRequest(ch.requests, t, Frame(body, false, id, [])),
        history := h',
        sequence := ch.sequence + 1,
        sender := Free)
  }

  /** The second half of `_send` for a replay of the retained packet `id`. */
  function CommitReplay(ch: Channel, t: Task, id: nat, now: real): Channel
    requires id in ch.history.packets
  {
    var p := ch.history.packets[id];
    var p' := p.(attempts := p.attempts + 1, lastAttemptAt := now, pending := Some(t), log := p.log + [Replayed(now)]);
    ch.(requests := AddRequest(ch.requests, t, Frame(p.body, true, Some(id), [])),
        history := ch.history.(packets := ch.history.packets[id := p']),
        sequence := ch.sequence + 1,
        sender := Free,
        recovery := Watching)
  }

  // ----- Requests leaving

  function RemoveRequest(q: Requests, t: Task): Requests
    requires t in q.pending
  {
    q.(pending := q.pending - {t},
       bytes := q.bytes - q.pending[t],
       sentSince := q.sentSince - {t},
       receiving := q.receiving - {t},
       replays := q.replays - {t},
       frames := q.frames - {t})
  }

  /** The retained packet that knows the task, searched in order. */
  function OwnerIn(h: History, order: seq<nat>, t: Task): (r: Option<nat>)
    requires forall id <- order :: id in h.packets
    ensures r.Some? ==> r.value in order
    ensures r.Some? ==> t in h.packets[r.value].originals || h.packets[r.value].pending == Some(t)
    ensures r.None? ==> forall id <- order :: t !in h.packets[id].originals && h.packets[id].pending != Some(t)
  {
    if order == [] then None
    else if t in h.packets[order[0]].originals || h.packets[order[0]].pending == Some(t) then Some(order[0])
    else OwnerIn(h, order[1..], t)
  }

  function Detach(h: History, id: nat, t: Task): History
    requires id in h.packets
  {
    var p := h.packets[id];
    h.(packets := h.packets[id := p.(originals := p.originals - {t},
                                     pending := if p.pending == Some(t) then None else p.pending)])
  }

  /** `_finish_request` up to its first suspension; the slot itself is released by the lane afterwards. */
  function Finish(ch: Channel, t: Task, packet: Option<nat>): Channel
    requires OrderKnown(ch.history)
    requires packet.Some? ==> packet.value in ch.history.packets
  {
    if t !in ch.requests.pending then ch
    else
      var owner := if packet.Some? then packet else OwnerIn(ch.history, ch.history.order, t);
      ch.(requests := RemoveRequest(ch.requests, t),
          history := if owner.Some? then Detach(ch.history, owner.value, t) else ch.history)
  }

  /** `_fail`. */
  function Fail(ch: Channel): Channel {
    if ch.closed then ch
    else ch.(closed := true, replies := ch.replies.(queue := [Failure], bytes := 0))
  }

  function NoteReply(h: History, id: nat, reply: bytes): History
    requires id in h.packets
  {
    var p := h.packets[id];
    if p.replyId == Some(Prefix(reply, 24)) then h
    else h.(packets := h.packets[id := p.(replyId := Some(Prefix(reply, 24)), attempts := 0,
                                       log := p.log + [NewReply])])
  }

  predicate ReplyFits(r: Replies, reply: bytes) {
    |r.queue| < MAX_QUEUE && r.bytes + |reply| <= MAX_CHANNEL_BYTES
  }

  function Enqueue(r: Replies, reply: bytes): Replies {
    r.(queue := r.queue + [Reply(reply)], bytes := r.bytes + |reply|, accepted := r.accepted + [reply])
  }

  /** `_run_request` from the return of `_post` to the first suspension of `_finish_request`. */
  function Complete(ch: Channel, t: Task, now: real): Channel
    requires t in ch.requests.frames
    requires OrderKnown(ch.history)
    requires ch.requests.frames[t].packet.Some? ==> ch.requests.frames[t].packet.value in ch.history.packets
  {
    var f := ch.requests.frames[t];
    var reply := f.content;
    var ch1 := ch.(lastProgress := now);
    var ch2 :=
      if reply != [] && !ch.closed then
        var ch3 := if f.packet.Some? then ch1.(history := NoteReply(ch1.history, f.packet.value, reply)) else ch1;
        if ReplyFits(ch3.replies, reply) then ch3.(replies := Enqueue(ch3.replies, reply)) else Fail(ch3)
      else ch1;
    Finish(ch2, t, f.packet)
  }

  /** A `_post` that raised: the channel fails and the request ends. */
  function Errored(ch: Channel, t: Task): Channel
    requires t in ch.requests.frames
    requires OrderKnown(ch.history)
    requires ch.requests.frames[t].packet.Some? ==> ch.requests.frames[t].packet.value in ch.history.packets
  {
    Finish(Fail(ch), t, ch.requests.frames[t].packet)
  }

  // ----- Progress of a running request

  function Uploaded(ch: Channel, t: Task, now: real): Channel {
    ch.(requests := ch.requests.(sentSince := ch.requests.sentSince[t := now]))
  }

  function ResponseStarted(ch: Channel, t: Task, now: real): Channel {
    ch.(requests := ch.requests.(receiving := ch.requests.receiving + {t}), lastProgress := now)
  }

  function ReceiveChunk(ch: Channel, t: Task, data: bytes, now: real): Channel
    requires t in ch.requests.frames
  {
    var f := ch.requests.frames[t];
    ch.(requests := ch.requests.(frames := ch.requests.frames[t := f.(content := f.content + data)]),
        lastProgress := now)
  }

  // ----- Delivery

  /** `receive`, and the start of the native write that follows it. */
  function Receive(ch: Channel): Channel
    requires ch.replies.queue != []
  {
    var r := ch.replies;
    match r.queue[0]
    case Failure => ch.(replies := r.(queue := r.queue[1..]))
    case Reply(body) =>
      ch.(replies := r.(queue := r.queue[1..], bytes := r.bytes - |body|, delivering := !ch.closed,
                          taken := r.taken + [body]))
  }

  function Delivered(ch: Channel, now: real): Channel {
    ch.(replies := ch.replies.(delivering := false), lastProgress := now)
  }

  // ----- Capacity rotation

  function OriginalOwner(h: History, order: seq<nat>, t: Task): (r: Option<nat>)
    requires forall id <- order :: id in h.packets
    ensures r.Some? ==> r.value in order && t in h.packets[r.value].originals
    ensures r.None? ==> forall id <- order :: t !in h.packets[id].originals
  {
    if order == [] then None
    else if t in h.packets[order[0]].originals then Some(order[0])
    else OriginalOwner(h, order[1..], t)
  }

  predicate CapacityEligible(ch: Channel, t: Task, now: real)
    requires OrderKnown(ch.history)
  {
    && t in ch.requests.sentSince
    && t !in ch.requests.receiving
    && now - ch.requests.sentSince[t] >= REPLAY_REQUEST_SECONDS
    && (t in ch.requests.replays ||
        var owner := OriginalOwner(ch.history, ch.history.order, t);
        owner.Some? && now - ch.history.packets[owner.value].sentAt <= REPLAY_MAX_AGE)
  }

  /** Replays go first, then the request whose upload finished earliest. */
  predicate RotatesBefore(q: Requests, t: Task, u: Task)
    requires t in q.sentSince && u in q.sentSince
  {
    (t in q.replays && u !in q.replays) ||
    ((t in q.replays) == (u in q.replays) && q.sentSince[t] <= q.sentSince[u])
  }

  ghost predicate CapacityCandidate(ch: Channel, t: Task, now: real)
    requires OrderKnown(ch.history)
  {
    CapacityEligible(ch, t, now) &&
    forall u :: CapacityEligible(ch, u, now) ==> RotatesBefore(ch.requests, t, u)
  }

  /** `_make_upload_room` once the request to give up is chosen, up to its cancellation. */
  function Retire(ch: Channel, t: Task): Channel
    requires OrderKnown(ch.history)
  {
    var q := ch.requests.(sentSince := ch.requests.sentSince - {t});
    if t in q.replays then ch.(requests := q)
    else
      match OriginalOwner(ch.history, ch.history.order, t)
      case None => ch.(requests := q)
      case Some(id) =>
        ch.(requests := q,
            history := ch.history.(packets := ch.history.packets[id := ch.history.packets[id].(retired := true)]))
  }

  // ----- Closing

  function Close(ch: Channel): Channel {
    Fail(ch)
  }

  function CloseDone(ch: Channel): Channel {
    ch.(requests := ch.requests.(sentSince := map[], replays := {}), history := ch.history.(order := []))
  }
}
