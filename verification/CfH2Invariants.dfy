/** What every atomic step of a channel keeps. */
module CfH2Invariants {
  import opened Prelude
  import opened Bytes
  import opened CfH2Channel

  // ----- The invariant

  function Same(n: nat): nat {
    n
  }

  /** Request accounting: the byte counter, the task sets and the bounds of one channel. */
  ghost predicate RequestsInv(q: Requests) {
    && q.frames.Keys == q.pending.Keys
    && (forall t <- q.pending :: q.pending[t] == |q.frames[t].body|)
    && q.bytes == SumOf(q.pending, Same)
    && q.sentSince.Keys <= q.pending.Keys
    && q.receiving <= q.pending.Keys
    && (forall t :: t in q.replays <==> t in q.frames && q.frames[t].replay)
    && |q.pending| <= MAX_CHANNEL_REQUESTS
    && q.bytes <= MAX_CHANNEL_BYTES
    && (forall t <- q.frames :: |q.frames[t].content| <= MAX_PACKET)
  }

  /** The times at which a packet was replayed. */
  function ReplayTimes(log: seq<Mark>): seq<real> {
    if log == [] then []
    else
      var rest := ReplayTimes(log[..|log| - 1]);
      match log[|log| - 1]
      case Replayed(at) => rest + [at]
      case NewReply => rest
  }

  /** Replays since the last reply with a new id. */
  function Unanswered(log: seq<Mark>): nat {
    if log == [] then 0
    else
      match log[|log| - 1]
      case Replayed(_) => 1 + Unanswered(log[..|log| - 1])
      case NewReply => 0
  }

  predicate Spaced(times: seq<real>) {
    forall i :: 0 < i < |times| ==> times[i] - times[i - 1] >= REPLAY_RETRY_SECONDS
  }

  predicate LogInv(p: Packet) {
    var times := ReplayTimes(p.log);
    && Spaced(times)
    && (times == [] ==> p.lastAttemptAt == 0.0)
    && (times != [] ==> times[|times| - 1] == p.lastAttemptAt > 0.0
                        && p.sentAt <= times[0] && p.lastAttemptAt <= p.sentAt + REPLAY_MAX_AGE)
    && p.attempts == Unanswered(p.log)
    && (forall k :: 0 <= k <= |p.log| ==> Unanswered(p.log[..k]) <= REPLAY_MAX_ATTEMPTS)
  }

  predicate PacketInv(id: nat, p: Packet) {
    p.sequence == id && Retainable(p.body) && LogInv(p)
  }

  predicate Increasing(order: seq<nat>) {
    forall i, j :: 0 <= i < j < |order| ==> order[i] < order[j]
  }

  predicate DistinctBodies(h: History)
    requires OrderKnown(h)
  {
    forall i, j :: 0 <= i < j < |h.order| ==> h.packets[h.order[i]].body != h.packets[h.order[j]].body
  }

  /** Everything about the history except its two size limits. */
  predicate HistoryShape(h: History, sequence: nat) {
    && (forall id <- h.packets :: id <= sequence && PacketInv(id, h.packets[id]))
    && OrderKnown(h)
    && (forall id <- h.order :: h.key == Some(Prefix(h.packets[id].body, 8)))
    && Increasing(h.order)
    && DistinctBodies(h)
  }

  predicate HistoryInv(h: History, sequence: nat) {
    HistoryShape(h, sequence) && !OverLimit(h, h.order)
  }

  /** Requests and packets know each other. */
  predicate LinkInv(h: History, frames: map<Task, Frame>) {
    && (forall id <- h.order :: id in h.packets && PacketLinked(id, h.packets[id], frames))
    && (forall t <- frames :: FrameLinked(h, t, frames[t]))
  }

  predicate PacketLinked(id: nat, p: Packet, frames: map<Task, Frame>) {
    && (forall t <- p.originals :: t in frames && !frames[t].replay && frames[t].packet == Some(id))
    && (p.pending.Some? ==>
          var t := p.pending.value;
          t in frames && frames[t].replay && frames[t].packet == Some(id))
  }

  predicate FrameLinked(h: History, t: Task, f: Frame) {
    && (f.packet.Some? ==> f.packet.value in h.packets && h.packets[f.packet.value].body == f.body)
    && (f.replay ==> f.packet.Some? && h.packets[f.packet.value].pending == Some(t))
    && (!f.replay && f.packet.Some? ==> t in h.packets[f.packet.value].originals)
  }

  function ItemBytes(item: Item): nat {
    match item
    case Reply(body) => |body|
    case Failure => 0
  }

  function QueueBytes(queue: seq<Item>): nat {
    if queue == [] then 0 else ItemBytes(queue[0]) + QueueBytes(queue[1..])
  }

  function Waiting(queue: seq<Item>): seq<bytes> {
    if queue == [] then []
    else
      match queue[0]
      case Reply(body) => [body] + Waiting(queue[1..])
      case Failure => Waiting(queue[1..])
  }

  /** The reply counter, its bound, and order of delivery until the channel fails. */
  predicate RepliesInv(r: Replies, closed: bool) {
    && r.bytes == QueueBytes(r.queue) <= MAX_CHANNEL_BYTES
    && |r.queue| <= MAX_QUEUE
    && (!closed ==> Failure !in r.queue && r.accepted == r.taken + Waiting(r.queue))
    && (closed ==> forall item <- r.queue :: item == Failure)
  }

  predicate ReplaySender(s: Sender) {
    (s.Checking? || s.Reserving?) && s.replay
  }

  /** A key is the first eight bytes of a native packet that is no handshake. */
  predicate KeyInv(h: History) {
    h.key.Some? ==> |h.key.value| == 8 && h.key.value != ZERO_KEY
  }

  predicate PhaseInv(ch: Channel) {
    && KeyInv(ch.history)
    && ((ch.sender.Checking? || ch.sender.Reserving?) && !ch.sender.replay ==> |ch.sender.body| >= MIN_PACKET)
    && (ch.sender.Reserving? ==> HasCapacity(ch.requests, |ch.sender.body|))
    && (ReplaySender(ch.sender) ==> ch.recovery.Replaying?)
    && |ch.requests.replays| <= MAX_CHANNEL_REPLAYS
    && (ch.recovery.Replaying? ==> |ch.requests.replays| < MAX_CHANNEL_REPLAYS)
    && (ch.recovery.Replacing? ==>
          ch.recovery.task in ch.requests.replays || |ch.requests.replays| < MAX_CHANNEL_REPLAYS)
  }

  ghost predicate ChannelInv(ch: Channel) {
    && RequestsInv(ch.requests)
    && HistoryInv(ch.history, ch.sequence)
    && LinkInv(ch.history, ch.requests.frames)
    && RepliesInv(ch.replies, ch.closed)
    && PhaseInv(ch)
  }

  /** The invariant taken apart, with the facts that make the step functions well defined. */
  lemma Parts(ch: Channel)
    requires ChannelInv(ch)
    ensures RequestsInv(ch.requests) && HistoryInv(ch.history, ch.sequence) && LinkInv(ch.history, ch.requests.frames)
    ensures RepliesInv(ch.replies, ch.closed) && PhaseInv(ch)
    ensures OrderKnown(ch.history)
    ensures ch.requests.frames.Keys == ch.requests.pending.Keys
    ensures forall t <- ch.requests.pending :: FrameLinked(ch.history, t, ch.requests.frames[t])
  {}

  /** The invariant put together again. */
  lemma Whole(ch: Channel)
    requires RequestsInv(ch.requests) && HistoryInv(ch.history, ch.sequence) && LinkInv(ch.history, ch.requests.frames)
    requires RepliesInv(ch.replies, ch.closed) && PhaseInv(ch)
    ensures ChannelInv(ch)
  {}

  // ----- Requests

  lemma AddRequestKeeps(q: Requests, t: Task, f: Frame)
    requires RequestsInv(q)
    requires t !in q.pending && HasCapacity(q, |f.body|) && f.content == []
    ensures RequestsInv(AddRequest(q, t, f))
  {
    hide SumOf;
    SumOfInsert<Task, nat>(q.pending, Same, t, |f.body|);
    var q' := AddRequest(q, t, f);
    assert SumOf(q'.pending, Same) == SumOf(q.pending, Same) + Same(|f.body|);
    assert q'.pending.Keys == q.pending.Keys + {t};
    assert q'.frames.Keys == q.frames.Keys + {t};
  }

  lemma RemoveRequestKeeps(q: Requests, t: Task)
    requires RequestsInv(q) && t in q.pending
    ensures RequestsInv(RemoveRequest(q, t))
  {
    hide SumOf;
    SumOfRemove<Task, nat>(q.pending, Same, t);
    FewerPending(q.pending, t);
    var q' := RemoveRequest(q, t);
    assert q'.frames.Keys == q.frames.Keys - {t};
    assert forall u <- q'.pending :: q'.pending[u] == q.pending[u] && q'.frames[u] == q.frames[u];
  }

  lemma FewerPending(pending: map<Task, nat>, t: Task)
    requires t in pending
    ensures (pending - {t}).Keys == pending.Keys - {t} && |pending - {t}| < |pending|
  {
    assert |(pending - {t}).Keys| == |pending.Keys| - 1;
  }

  // ----- Replay log

  lemma ReplayKeepsLog(p: Packet, t: Task, now: real)
    requires LogInv(p) && now > 0.0
    requires 0.0 <= now - p.sentAt <= REPLAY_MAX_AGE
    requires p.attempts < REPLAY_MAX_ATTEMPTS
    requires p.HasReplayed() ==> now - p.lastAttemptAt >= REPLAY_RETRY_SECONDS
    ensures LogInv(p.(attempts := p.attempts + 1, lastAttemptAt := now, pending := Some(t),
                        log := p.log + [Replayed(now)]))
  {
    var log := p.log + [Replayed(now)];
    assert log[..|log| - 1] == p.log;
    assert ReplayTimes(log) == ReplayTimes(p.log) + [now];
    forall k | 0 <= k <= |log|
      ensures Unanswered(log[..k]) <= REPLAY_MAX_ATTEMPTS
    {
      if k <= |p.log| { assert log[..k] == p.log[..k]; } else { assert log[..k] == log; }
    }
  }

  lemma NewReplyKeepsLog(p: Packet, id: bytes)
    requires LogInv(p)
    ensures LogInv(p.(replyId := Some(id), attempts := 0, log := p.log + [NewReply]))
  {
    var log := p.log + [NewReply];
    assert log[..|log| - 1] == p.log;
    forall k | 0 <= k <= |log|
      ensures Unanswered(log[..k]) <= REPLAY_MAX_ATTEMPTS
    {
      if k <= |p.log| { assert log[..k] == p.log[..k]; } else { assert log[..k] == log; }
    }
  }

  // ----- History

  /** Only the bodies matter for the byte count. */
  lemma {:induction false} HistoryBytesSame(h: History, h': History, order: seq<nat>)
    requires forall id <- order :: id in h.packets && id in h'.packets && h.packets[id].body == h'.packets[id].body
    ensures HistoryBytes(h, order) == HistoryBytes(h', order)
  {
    if order != [] {
      HistoryBytesSame(h, h', order[1..]);
    }
  }

  /** `h` with one packet changed in place. */
  function Altered(h: History, id: nat, p: Packet): History {
    h.(packets := h.packets[id := p])
  }

  lemma AlterKeepsHistory(h: History, id: nat, p: Packet, sequence: nat)
    requires HistoryInv(h, sequence) && id in h.packets
    requires PacketInv(id, p) && p.body == h.packets[id].body
    ensures HistoryInv(Altered(h, id, p), sequence)
  {
    HistoryBytesSame(h, Altered(h, id, p), h.order);
  }

  /** The result is an ordered selection of the given numbers. */
  predicate Selection(r: seq<nat>, order: seq<nat>) {
    && |r| <= |order|
    && (Increasing(order) ==> Increasing(r))
    && (forall id <- r :: id in order)
  }

  lemma {:induction false} TrimmedSelects(h: History, order: seq<nat>, now: real)
    requires forall id <- order :: id in h.packets
    ensures Selection(Trimmed(h, order, now), order)
    decreases |order|
  {
    if OverLimit(h, order) {
      TrimmedSelects(h, RemoveAt(order, VictimIndex(h, order, now)), now);
    }
  }

  lemma {:induction false} TrimmedFits(h: History, order: seq<nat>, now: real)
    requires forall id <- order :: id in h.packets
    ensures forall id <- Trimmed(h, order, now) :: id in h.packets
    ensures !OverLimit(h, Trimmed(h, order, now))
    decreases |order|
  {
    TrimmedSelects(h, order, now);
    if OverLimit(h, order) {
      TrimmedFits(h, RemoveAt(order, VictimIndex(h, order, now)), now);
    }
  }

  /** The packet just remembered stays: it is the last one, it has an original in flight, and it fits alone. */
  lemma {:induction false} TrimmedKeepsLast(h: History, order: seq<nat>, now: real)
    requires order != [] && forall id <- order :: id in h.packets
    requires h.packets[order[|order| - 1]].originals != {}
    requires |h.packets[order[|order| - 1]].body| <= REPLAY_HISTORY_BYTES
    ensures order[|order| - 1] in Trimmed(h, order, now)
    decreases |order|
  {
    if OverLimit(h, order) {
      var k := VictimIndex(h, order, now);
      if |order| == 1 {
        assert HistoryBytes(h, order) == |h.packets[order[0]].body| + HistoryBytes(h, order[1..]);
        assert false;
      }
      var rest := RemoveAt(order, k);
      assert rest[|rest| - 1] == order[|order| - 1];
      TrimmedKeepsLast(h, rest, now);
    }
  }

  /** A spared packet is given up only when nothing else is left to give up. */
  lemma {:induction false} TrimmedPrefersUnprotected(h: History, order: seq<nat>, now: real, id: nat)
    requires forall i <- order :: i in h.packets
    requires Increasing(order) && id in order && Protected(h.packets[id], now)
    ensures id in Trimmed(h, order, now) ||
            forall other <- Trimmed(h, order, now) :: other in h.packets && Protected(h.packets[other], now)
    decreases |order|
  {
    TrimmedFits(h, order, now);
    if OverLimit(h, order) {
      var k := VictimIndex(h, order, now);
      var rest := RemoveAt(order, k);
      if order[k] == id {
        TrimmedSelects(h, rest, now);
      } else {
        assert id in rest;
        TrimmedPrefersUnprotected(h, rest, now, id);
      }
    }
  }

  lemma SelectionKeepsShape(h: History, r: seq<nat>, sequence: nat)
    requires HistoryShape(h, sequence) && Selection(r, h.order)
    ensures HistoryShape(h.(order := r), sequence)
  {}

  lemma TrimKeeps(h: History, sequence: nat, now: real)
    requires HistoryShape(h, sequence)
    ensures HistoryInv(Trim(h, now), sequence)
  {
    TrimmedSelects(h, h.order, now);
    TrimmedFits(h, h.order, now);
    SelectionKeepsShape(h, Trimmed(h, h.order, now), sequence);
    HistoryBytesSame(h, Trim(h, now), Trim(h, now).order);
  }

  lemma ForgetKeeps(h: History, key: bytes, sequence: nat)
    requires HistoryInv(h, sequence)
    ensures HistoryInv(h.(order := [], key := Some(key)), sequence + 1)
    ensures HistoryInv(h, sequence + 1)
  {}

  lemma AppendKeepsShape(h: History, body: bytes, now: real, sequence: nat)
    requires HistoryInv(h, sequence)
    requires h.key == Some(Prefix(body, 8)) && Retainable(body)
    requires forall id <- h.order :: h.packets[id].body != body
    ensures HistoryShape(Appended(h, body, now, sequence + 1), sequence + 1)
  {}

  lemma RememberKeeps(h: History, body: bytes, now: real, sequence: nat)
    requires HistoryInv(h, sequence)
    ensures
      var (h', id) := Remember(h, body, now, sequence + 1);
      && HistoryShape(h', sequence + 1)
      && OrderKnown(h')
      && (id.None? ==> HistoryInv(h', sequence + 1))
      && (id.Some? ==> id.value in h'.order && h'.packets[id.value].body == body)
  {
    ForgetKeeps(h, Prefix(body, 8), sequence);
    var key := Prefix(body, 8);
    if Retainable(body) {
      var h1 := if h.key == Some(key) then h else h.(order := [], key := Some(key));
      assert HistoryInv(h1, sequence) by { if h1 != h { assert HistoryBytes(h1, []) == 0; } }
      if FindPacket(h1, h1.order, body).None? {
        AppendKeepsShape(h1, body, now, sequence);
      }
    }
  }
}
