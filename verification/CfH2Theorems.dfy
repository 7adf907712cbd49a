/** The guarantees of the shared lane, over every run from an empty lane. */
module CfH2Theorems {
  import opened Prelude
  import opened Bytes
  import opened CfH2Channel
  import opened CfH2Invariants
  import opened CfH2Steps
  import opened CfH2System
  import opened CfH2Safety

  ghost predicate Reachable(s: System) {
    exists now: real, es: seq<Event> :: now > 0.0 && IsRun(Initial(now), es) && s == After(Initial(now), es)
  }

  lemma ReachableHolds(s: System)
    requires Reachable(s)
    ensures SystemInv(s)
  {
    hide SystemInv;
    var now: real, es: seq<Event> :| now > 0.0 && IsRun(Initial(now), es) && s == After(Initial(now), es);
    InitialHolds(now);
    RunKeeps(Initial(now), es);
  }

  // ----- Slots

  /** The lane's counters are the sums over its channels plus what is on its way back; no bound is ever passed. */
  lemma SlotAccounting(s: System)
    requires Reachable(s)
    ensures s.lane.inflight == SumOf(s.channels, PendingCount) + |s.releasing| <= MAX_LANE_REQUESTS
    ensures s.lane.queued == SumOf(s.channels, PendingBytes) + SumOf(s.releasing, HoldLength) <= MAX_LANE_BYTES
    ensures forall c <- s.channels ::
      var q := s.channels[c].requests;
      && |q.pending| <= MAX_CHANNEL_REQUESTS
      && q.bytes == SumOf(q.pending, Same) <= MAX_CHANNEL_BYTES
      && (forall t <- q.pending :: t in q.frames && q.pending[t] == |q.frames[t].body|)
  {
    hide SystemInv;
    ReachableHolds(s);
    SystemParts(s);
    hide TicketInv;
    forall c | c in s.channels
      ensures RequestsInv(s.channels[c].requests)
    {
      hide HistoryInv, LinkInv, RepliesInv;
      Parts(s.channels[c]);
    }
    hide ChannelInv;
  }

  lemma SystemParts(s: System)
    requires SystemInv(s)
    ensures LaneInv(s) && TicketInv(s)
    ensures forall c <- s.channels :: ChannelInv(s.channels[c])
  {}

  function Releases(es: seq<Event>, t: Task): nat {
    if es == [] then 0 else (if es[0] == Release(t) then 1 else 0) + Releases(es[1..], t)
  }

  function Returns(s: System, t: Task): nat {
    if t in s.released then 1 else 0
  }

  lemma StepReturns(s: System, e: Event, t: Task)
    requires TicketInv(s) && Enabled(s, e)
    ensures Returns(Step(s, e), t) == Returns(s, t) + (if e == Release(t) then 1 else 0)
  {}

  /** A slot is given back by exactly one release, however its request ended. */
  lemma {:induction false} SlotReturnedOnce(s: System, es: seq<Event>, t: Task)
    requires SystemInv(s) && IsRun(s, es)
    ensures Returns(After(s, es), t) == Returns(s, t) + Releases(es, t)
    decreases |es|
  {
    hide SystemInv, Enabled, Step, TicketInv, LaneInv, ChannelInv;
    if es != [] {
      SystemParts(s);
      StepReturns(s, es[0], t);
      StepKeeps(s, es[0]);
      SlotReturnedOnce(Step(s, es[0]), es[1..], t);
    }
  }

  lemma {:induction false} NothingHeld<K, V>(m: map<K, V>, weight: V -> nat)
    requires forall k <- m :: weight(m[k]) == 0
    ensures SumOf(m, weight) == 0
    decreases |m|
  {
    if m != map[] {
      var k :| k in m && SumOf(m, weight) == weight(m[k]) + SumOf(m - {k}, weight);
      NothingHeld(m - {k}, weight);
    }
  }

  /** Once every request has ended and every release has run, nothing is counted and every ticket is back. */
  lemma DrainedLaneIsEmpty(s: System)
    requires Reachable(s)
    requires s.releasing == map[] && forall c <- s.channels :: s.channels[c].requests.pending == map[]
    ensures s.lane.inflight == 0 && s.lane.queued == 0 && s.lane.replyBuffer == 0
    ensures forall t: Task :: t < s.next <==> t in s.released
  {
    hide SystemInv;
    ReachableHolds(s);
    SystemParts(s);
    forall c | c in s.channels
      ensures PendingCount(s.channels[c]) == 0 && PendingBytes(s.channels[c]) == 0 && HeldReplies(s.channels[c]) == 0
    {
      hide HistoryInv, LinkInv, RepliesInv;
      Parts(s.channels[c]);
      assert s.channels[c].requests.frames.Keys == {};
    }
    hide ChannelInv;
    NothingHeld<nat, Channel>(s.channels, PendingCount);
    NothingHeld<nat, Channel>(s.channels, PendingBytes);
    NothingHeld<nat, Channel>(s.channels, HeldReplies);
    forall t: Task | t < s.next
      ensures t in s.released
    {
      assert forall c: nat :: !Pends(s, c, t);
    }
  }

  // ----- Replays

  lemma {:induction false} SpacedGrows(times: seq<real>, i: nat)
    requires Spaced(times) && i < |times|
    ensures times[i] >= times[0] + REPLAY_RETRY_SECONDS * (i as real)
  {
    if i > 0 {
      SpacedGrows(times, i - 1);
    }
  }

  /** Within 30 seconds and at least 2 seconds apart there is room for 16. */
  lemma AtMostSixteen(p: Packet)
    requires LogInv(p)
    ensures |ReplayTimes(p.log)| <= 16
  {
    var times := ReplayTimes(p.log);
    if times != [] {
      SpacedGrows(times, |times| - 1);
    }
  }

  /** From mark `i` up to mark `j`, nothing but replays. */
  predicate OnlyReplays(log: seq<Mark>, i: nat, j: nat)
    requires i <= j <= |log|
  {
    forall k :: i <= k < j ==> log[k].Replayed?
  }

  lemma {:induction false} WindowIsUnanswered(log: seq<Mark>, i: nat, j: nat)
    requires i <= j <= |log| && OnlyReplays(log, i, j)
    ensures Unanswered(log[..j]) >= j - i
    decreases j
  {
    if i < j {
      assert log[..j][..|log[..j]| - 1] == log[..j - 1];
      WindowIsUnanswered(log, i, j - 1);
    }
  }

  /**
    Replays of one retained packet: at most 16 ever, at least 2 seconds apart and none later than 30 seconds
    after it was first sent; at most 3 between two replies with a new id.
  */
  lemma ReplayIsBoundedOnEveryRun(s: System, c: nat, id: nat)
    requires Reachable(s) && c in s.channels && id in s.channels[c].history.packets
    ensures
      var p := s.channels[c].history.packets[id];
      var times := ReplayTimes(p.log);
      && |times| <= 16
      && Spaced(times)
      && (times != [] ==> p.sentAt <= times[0] && times[|times| - 1] <= p.sentAt + REPLAY_MAX_AGE)
      && (forall i: nat, j: nat :: i <= j <= |p.log| && OnlyReplays(p.log, i, j) ==> j - i <= REPLAY_MAX_ATTEMPTS)
  {
    hide LogInv;
    var p := s.channels[c].history.packets[id];
    LogOf(s, c, id);
    AtMostSixteen(p);
    LogMeans(p);
  }

  lemma LogOf(s: System, c: nat, id: nat)
    requires Reachable(s) && c in s.channels && id in s.channels[c].history.packets
    ensures LogInv(s.channels[c].history.packets[id])
  {
    hide SystemInv, ChannelInv, LaneInv, TicketInv, RequestsInv, LinkInv, RepliesInv, LogInv;
    ReachableHolds(s);
    SystemParts(s);
    Parts(s.channels[c]);
    assert PacketInv(id, s.channels[c].history.packets[id]);
  }

  lemma LogMeans(p: Packet)
    requires LogInv(p)
    ensures Spaced(ReplayTimes(p.log))
    ensures ReplayTimes(p.log) != [] ==>
      var times := ReplayTimes(p.log);
      p.sentAt <= times[0] && times[|times| - 1] <= p.sentAt + REPLAY_MAX_AGE
    ensures forall i: nat, j: nat :: i <= j <= |p.log| && OnlyReplays(p.log, i, j) ==> j - i <= REPLAY_MAX_ATTEMPTS
  {
    forall i: nat, j: nat | i <= j <= |p.log| && OnlyReplays(p.log, i, j)
      ensures j - i <= REPLAY_MAX_ATTEMPTS
    {
      WindowIsUnanswered(p.log, i, j);
      assert Unanswered(p.log[..j]) <= REPLAY_MAX_ATTEMPTS;
    }
  }

  /** At most one replay of a packet and two of a channel are in flight at any moment. */
  lemma FewReplaysInFlight(s: System, c: nat)
    requires Reachable(s) && c in s.channels
    ensures
      var q := s.channels[c].requests;
      && |q.replays| <= MAX_CHANNEL_REPLAYS
      && (forall t :: t in q.replays <==> t in q.frames && q.frames[t].replay)
      && (forall t, u :: t in q.replays && u in q.replays && q.frames[t].packet == q.frames[u].packet ==> t == u)
  {
    hide SystemInv, LaneInv, TicketInv, HistoryInv, RepliesInv;
    ReachableHolds(s);
    SystemParts(s);
    var ch := s.channels[c];
    Parts(ch);
    hide ChannelInv, LinkInv;
    forall t, u | t in ch.requests.replays && u in ch.requests.replays
                  && ch.requests.frames[t].packet == ch.requests.frames[u].packet
      ensures t == u
    {
      assert FrameLinked(ch.history, t, ch.requests.frames[t]);
      assert FrameLinked(ch.history, u, ch.requests.frames[u]);
    }
  }

  // ----- Capacity rotation

  /**
    A request given up to make room had finished uploading at least 3 seconds before, had no response yet,
    was no handshake and not over 64 KiB, and is either a replay itself or leaves behind a retained packet with
    the same body, young enough and marked for recovery.
  */
  lemma RotationIsSafe(s: System, c: nat, victim: nat, t: Task, now: real)
    requires Reachable(s) && Enabled(s, Rotate(c, victim, t, now))
    ensures
      var ch := s.channels[victim];
      var after := Step(s, Rotate(c, victim, t, now)).channels[victim];
      && t in ch.requests.frames && t in ch.requests.sentSince
      && now - ch.requests.sentSince[t] >= REPLAY_REQUEST_SECONDS
      && t !in ch.requests.receiving
      && Retainable(ch.requests.frames[t].body)
      && (ch.requests.frames[t].replay ||
          exists id :: id in after.history.order && id in after.history.packets
                       && after.history.packets[id].body == ch.requests.frames[t].body
                       && after.history.packets[id].retired
                       && now - after.history.packets[id].sentAt <= REPLAY_MAX_AGE)
  {
    RotateMeans(s, c, victim, t, now);
    hide SystemInv, ChannelInv, LaneInv, TicketInv, Enabled, Step, Retire, Retainable;
    ReachableHolds(s);
    SystemParts(s);
    RetiredSafely(s.channels[victim], t, now);
  }

  lemma RotateMeans(s: System, c: nat, victim: nat, t: Task, now: real)
    requires Enabled(s, Rotate(c, victim, t, now))
    ensures victim in s.channels && OrderKnown(s.channels[victim].history)
    ensures CapacityEligible(s.channels[victim], t, now) && CapacityCandidate(s.channels[victim], t, now)
    ensures victim in Step(s, Rotate(c, victim, t, now)).channels
    ensures Step(s, Rotate(c, victim, t, now)).channels[victim] == Retire(s.channels[victim], t)
  {}

  lemma RetiredSafely(ch: Channel, t: Task, now: real)
    requires ChannelInv(ch) && OrderKnown(ch.history) && CapacityEligible(ch, t, now)
    ensures t in ch.requests.frames && Retainable(ch.requests.frames[t].body)
    ensures
      var after := Retire(ch, t);
      || ch.requests.frames[t].replay
      || exists id :: id in after.history.order && id in after.history.packets
                      && after.history.packets[id].body == ch.requests.frames[t].body
                      && after.history.packets[id].retired
                      && now - after.history.packets[id].sentAt <= REPLAY_MAX_AGE
  {
    hide ChannelInv, RepliesInv, LogInv;
    Parts(ch);
    var q := ch.requests;
    assert t in q.frames;
    assert FrameLinked(ch.history, t, q.frames[t]);
    if t in q.replays {
      var id := q.frames[t].packet.value;
      assert PacketInv(id, ch.history.packets[id]);
    } else {
      var owner := OriginalOwner(ch.history, ch.history.order, t);
      var id := owner.value;
      assert PacketLinked(id, ch.history.packets[id], q.frames);
      assert PacketInv(id, ch.history.packets[id]);
      var after := Retire(ch, t);
      assert id in after.history.order && after.history.packets[id].retired;
    }
  }

  // ----- Replay history

  /** The retained packets: few, small, of one connection key, all different, in sending order. */
  lemma HistoryIsWellFormed(s: System, c: nat)
    requires Reachable(s) && c in s.channels
    ensures
      var h := s.channels[c].history;
      && OrderKnown(h)
      && |h.order| <= REPLAY_HISTORY_PACKETS
      && HistoryBytes(h, h.order) <= REPLAY_HISTORY_BYTES
      && (h.key.Some? ==> |h.key.value| == 8 && h.key.value != ZERO_KEY)
      && (forall id <- h.order :: h.packets[id].sequence == id && h.key == Some(Prefix(h.packets[id].body, 8)))
      && Increasing(h.order)
      && DistinctBodies(h)
  {
    hide SystemInv, LaneInv, TicketInv, RequestsInv, LinkInv, RepliesInv, LogInv;
    ReachableHolds(s);
    SystemParts(s);
    Parts(s.channels[c]);
    hide ChannelInv;
    var h := s.channels[c].history;
    assert forall id <- h.order :: PacketInv(id, h.packets[id]);
  }

  /** A packet just sent is retained whenever it may be, and knows its request. */
  lemma SentPacketIsRetained(ch: Channel, t: Task, body: bytes, now: real)
    requires ChannelInv(ch) && OrderKnown(ch.history)
    ensures
      var (h, id) := Recorded(ch.history, t, body, now, ch.sequence + 1);
      && (id.Some? <==> Retainable(body))
      && (id.Some? ==> id.value in h.order && id.value in h.packets
                       && h.packets[id.value].body == body && t in h.packets[id.value].originals)
  {
    hide ChannelInv, RequestsInv, LinkInv, RepliesInv, PacketInv;
    Parts(ch);
    RememberKeeps(ch.history, body, now, ch.sequence);
    var (h1, id) := Remember(ch.history, body, now, ch.sequence + 1);
    if id.Some? {
      assert HistoryShape(h1, ch.sequence + 1);
      var h2 := AddOriginal(h1, id.value, t);
      if id.value in ch.history.order && h1 == ch.history {
        // Nothing new: the history still fits, so nothing goes.
        HistoryBytesSame(ch.history, h2, h2.order);
      } else {
        assert h2.order[|h2.order| - 1] == id.value;
        TrimmedKeepsLast(h2, h2.order, now);
      }
    }
  }

  // ----- Replies

  /** The reply a returning `_post` brings to channel `c`, if any. */
  ghost function Completed(s: System, e: Event, c: nat): seq<bytes> {
    if e.PostReturned? && e.c == c && Running(s, c, e.t) && s.channels[c].requests.frames[e.t].content != []
    then [s.channels[c].requests.frames[e.t].content] else []
  }

  ghost function HandedOut(s: System, e: Event, c: nat): seq<bytes> {
    if e.Take? && e.c == c && c in s.channels && s.channels[c].replies.queue != []
    then Waiting(s.channels[c].replies.queue[..1]) else []
  }

  ghost function AllCompleted(s: System, es: seq<Event>, c: nat): seq<bytes>
    requires IsRun(s, es)
    decreases |es|
  {
    if es == [] then [] else Completed(s, es[0], c) + AllCompleted(Step(s, es[0]), es[1..], c)
  }

  ghost function AllHandedOut(s: System, es: seq<Event>, c: nat): seq<bytes>
    requires IsRun(s, es)
    decreases |es|
  {
    if es == [] then [] else HandedOut(s, es[0], c) + AllHandedOut(Step(s, es[0]), es[1..], c)
  }

  ghost predicate IsOpen(s: System, c: nat) {
    c in s.channels && !s.channels[c].closed
  }

  ghost function Accepted(s: System, c: nat): seq<bytes> {
    if c in s.channels then s.channels[c].replies.accepted else []
  }

  ghost function Taken(s: System, c: nat): seq<bytes> {
    if c in s.channels then s.channels[c].replies.taken else []
  }

  lemma StepOpens(s: System, e: Event, c: nat)
    requires Enabled(s, e) && IsOpen(Step(s, e), c)
    ensures c in s.channels ==> IsOpen(s, c)
  {}

  lemma StepAccepts(s: System, e: Event, c: nat)
    requires Enabled(s, e) && IsOpen(Step(s, e), c)
    ensures Accepted(Step(s, e), c) == Accepted(s, c) + Completed(s, e, c)
  {
    hide CapacityCandidate, ReplayDue, OverdueOriginal, ReplacementChosen, Detach, OwnerIn, RemoveRequest, Recorded;
    hide HasCapacity, LaneHasCapacity, OrderKnown, CapacityEligible, WaitsForRoom, ReplayTarget;
  }

  lemma StepTakes(s: System, e: Event, c: nat)
    requires Enabled(s, e) && IsOpen(Step(s, e), c)
    ensures Taken(Step(s, e), c) == Taken(s, c) + HandedOut(s, e, c)
  {
    hide CapacityCandidate, ReplayDue, OverdueOriginal, ReplacementChosen, Detach, OwnerIn, RemoveRequest, Recorded;
    hide HasCapacity, LaneHasCapacity, OrderKnown, CapacityEligible, WaitsForRoom, ReplayTarget, Waiting;
    if e.Take? {
      OneWaiting(s.channels[e.c].replies.queue);
    }
  }

  lemma OneWaiting(queue: seq<Item>)
    requires queue != []
    ensures Waiting(queue[..1]) == if queue[0].Reply? then [queue[0].body] else []
  {}

  lemma {:induction false} RunReplies(s: System, es: seq<Event>, c: nat)
    requires SystemInv(s) && IsRun(s, es) && IsOpen(After(s, es), c)
    ensures c in s.channels ==> IsOpen(s, c)
    ensures Accepted(After(s, es), c) == Accepted(s, c) + AllCompleted(s, es, c)
    ensures Taken(After(s, es), c) == Taken(s, c) + AllHandedOut(s, es, c)
    decreases |es|
  {
    hide SystemInv, Enabled, Step, Completed, HandedOut, Accepted, Taken;
    if es != [] {
      StepKeeps(s, es[0]);
      var s1 := Step(s, es[0]);
      RunReplies(s1, es[1..], c);
      OpenBefore(s1, es[1..], c, s, es[0]);
      var done, rest := Completed(s, es[0], c), AllCompleted(s1, es[1..], c);
      assert Accepted(s, c) + done + rest == Accepted(s, c) + (done + rest);
      var out, others := HandedOut(s, es[0], c), AllHandedOut(s1, es[1..], c);
      assert Taken(s, c) + out + others == Taken(s, c) + (out + others);
    } else {
      assert Accepted(s, c) + [] == Accepted(s, c) && Taken(s, c) + [] == Taken(s, c);
    }
  }

  /** The head of a run, given what its tail did. */
  lemma OpenBefore(s1: System, rest: seq<Event>, c: nat, s: System, e: Event)
    requires Enabled(s, e) && s1 == Step(s, e) && IsRun(s1, rest)
    requires c in s1.channels ==> IsOpen(s1, c)
    ensures c in s.channels ==> IsOpen(s, c)
    ensures Accepted(s1, c) == Accepted(s, c) + Completed(s, e, c)
    ensures Taken(s1, c) == Taken(s, c) + HandedOut(s, e, c)
  {
    if c in s1.channels {
      StepOpens(s, e, c);
      StepAccepts(s, e, c);
      StepTakes(s, e, c);
    } else {
      AbsentStays(s, e, c);
    }
  }

  lemma AbsentStays(s: System, e: Event, c: nat)
    requires Enabled(s, e) && c !in Step(s, e).channels
    ensures c !in s.channels && Completed(s, e, c) == [] && HandedOut(s, e, c) == []
  {}

  /**
    Until a channel fails, the replies handed out are the non-empty responses in the order they completed,
    none lost and none twice; the rest are waiting, and the counter says how many bytes that is.
  */
  lemma RepliesInCompletionOrder(now: real, es: seq<Event>, c: nat)
    requires now > 0.0 && IsRun(Initial(now), es) && IsOpen(After(Initial(now), es), c)
    ensures
      var r := After(Initial(now), es).channels[c].replies;
      && AllCompleted(Initial(now), es, c) == AllHandedOut(Initial(now), es, c) + Waiting(r.queue)
      && r.bytes == QueueBytes(r.queue) <= MAX_CHANNEL_BYTES
      && |r.queue| <= MAX_QUEUE
  {
    hide SystemInv, LaneInv, TicketInv, RequestsInv, HistoryInv, LinkInv;
    var s := After(Initial(now), es);
    InitialHolds(now);
    RunKeeps(Initial(now), es);
    RunReplies(Initial(now), es, c);
    SystemParts(s);
    Parts(s.channels[c]);
    hide ChannelInv;
    assert [] + AllCompleted(Initial(now), es, c) == AllCompleted(Initial(now), es, c);
    assert [] + AllHandedOut(Initial(now), es, c) == AllHandedOut(Initial(now), es, c);
  }

  /** The lane's reply counter is exactly what its running responses hold, and bounded. */
  lemma ReplyMemory(s: System)
    requires Reachable(s)
    ensures s.lane.replyBuffer == SumOf(s.channels, HeldReplies) <= MAX_LANE_REPLY_BYTES
  {
    hide SystemInv;
    ReachableHolds(s);
    SystemParts(s);
    hide ChannelInv, TicketInv;
  }
}
