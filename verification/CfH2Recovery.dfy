/** When a packet is sent again: exactly which ones `_recover` may choose, and that a lost one is. */
module CfH2Recovery {
  import opened Prelude
  import opened Bytes
  import opened CfH2Channel
  import opened CfH2Invariants
  import opened CfH2System
  import opened CfH2Safety
  import opened CfH2Theorems
  import CfH2Delivery

  // ----- Which packets

  /** A running request that carries the packet, as it was first sent or again. */
  predicate Carries(ch: Channel, t: Task, id: nat, replay: bool) {
    t in ch.requests.frames && ch.requests.frames[t].packet == Some(id) && ch.requests.frames[t].replay == replay
  }

  /** Uploaded at least so long ago, and nothing has come back. */
  predicate Unanswering(ch: Channel, t: Task, now: real, seconds: real) {
    t in ch.requests.sentSince && now - ch.requests.sentSince[t] >= seconds && t !in ch.requests.receiving
  }

  predicate BeingReplayed(ch: Channel, id: nat) {
    exists t <- ch.requests.frames :: Carries(ch, t, id, true)
  }

  /** Its request was given up for room, or has had no response for three seconds after its upload. */
  predicate Lost(ch: Channel, id: nat, now: real)
    requires id in ch.history.packets
  {
    || ch.history.packets[id].retired
    || exists t <- ch.requests.frames :: Carries(ch, t, id, false) && Unanswering(ch, t, now, 3.0)
  }

  /** The newest packet, nothing under way but a replay of itself, and if it was replayed no progress for a second. */
  predicate Idle(ch: Channel, id: nat, now: real)
    requires id in ch.history.packets
  {
    && IsLast(ch.history, id)
    && (forall t <- ch.requests.frames :: Carries(ch, t, id, true))
    && (ReplayTimes(ch.history.packets[id].log) != [] ==> now - ch.lastProgress >= 1.0)
  }

  /** Thirty seconds old at most, last replayed two seconds ago at least, and not three times without an answer. */
  predicate Replayable(p: Packet, now: real) {
    var times := ReplayTimes(p.log);
    0.0 <= now - p.sentAt <= 30.0 && Unanswered(p.log) < 3 && (times != [] ==> now - times[|times| - 1] >= 2.0)
  }

  predicate NothingArriving(ch: Channel, id: nat) {
    && (forall t <- ch.requests.frames :: ch.requests.frames[t].packet == Some(id) ==> t !in ch.requests.receiving)
    && Join(Waiting(ch.replies.queue)) == [] && !ch.replies.delivering
  }

  /** The replay that has to make room: one that has had no response for thirty seconds. */
  predicate MakesRoom(ch: Channel, id: nat, replace: Option<Task>, now: real) {
    match replace
    case None => !BeingReplayed(ch, id) && |ch.requests.replays| < 2
    case Some(t) =>
      && Unanswering(ch, t, now, 30.0)
      && (Carries(ch, t, id, true)
          || (!BeingReplayed(ch, id) && |ch.requests.replays| >= 2
              && t in ch.requests.frames && ch.requests.frames[t].replay))
  }

  // ----- The invariant in these terms

  lemma {:induction false} NeverReplayed(log: seq<Mark>)
    requires ReplayTimes(log) == []
    ensures Unanswered(log) == 0
  {
    if log != [] { NeverReplayed(log[..|log| - 1]); }
  }

  lemma LogTells(p: Packet, now: real)
    requires LogInv(p)
    ensures p.attempts == Unanswered(p.log)
    ensures p.HasReplayed() <==> ReplayTimes(p.log) != []
    ensures ReplayTimes(p.log) != [] ==> p.lastAttemptAt == ReplayTimes(p.log)[|ReplayTimes(p.log)| - 1]
  {
    if ReplayTimes(p.log) == [] { NeverReplayed(p.log); }
  }

  lemma LinksTell(ch: Channel, id: nat)
    requires LinkInv(ch.history, ch.requests.frames) && id in ch.history.order
    ensures id in ch.history.packets
    ensures forall t: Task :: t in ch.history.packets[id].originals <==> Carries(ch, t, id, false)
    ensures forall t: Task :: ch.history.packets[id].pending == Some(t) <==> Carries(ch, t, id, true)
    ensures ch.history.packets[id].pending.None? <==> !BeingReplayed(ch, id)
  {
    assert PacketLinked(id, ch.history.packets[id], ch.requests.frames);
    assert forall t <- ch.requests.frames :: FrameLinked(ch.history, t, ch.requests.frames[t]);
  }

  lemma QueueTells(r: Replies)
    requires RepliesInv(r, false)
    ensures r.bytes == 0 <==> Join(Waiting(r.queue)) == []
  {
    CfH2Delivery.OnlyReplies(r.queue);
  }

  lemma HistoryTells(ch: Channel, id: nat)
    requires HistoryInv(ch.history, ch.sequence) && id in ch.history.order
    ensures id in ch.history.packets && LogInv(ch.history.packets[id])
  {
    assert PacketInv(id, ch.history.packets[id]);
  }

  // ----- The decision

  lemma DueMeans(ch: Channel, id: nat, now: real)
    requires HistoryInv(ch.history, ch.sequence) && LinkInv(ch.history, ch.requests.frames)
    requires RepliesInv(ch.replies, false) && RequestsInv(ch.requests) && id in ch.history.order
    ensures id in ch.history.packets
    ensures ReplayDue(ch, id, now) && !NativeBackpressure(ch.replies) <==>
              && Replayable(ch.history.packets[id], now) && NothingArriving(ch, id)
              && (Lost(ch, id, now) || Idle(ch, id, now))
  {
    HistoryTells(ch, id);
    LinksTell(ch, id);
    QueueTells(ch.replies);
    var p := ch.history.packets[id];
    LogTells(p, now);
    KeysTell(ch.requests);
    hide HistoryInv, LinkInv, RepliesInv, RequestsInv, LogInv, Unanswered, ReplayTimes, Join, Waiting, QueueBytes;
    OverdueMeans(ch, id, now);
    ArrivingMeans(ch, id);
    UnderWayMeans(ch, id);
    assert Lost(ch, id, now) ==> p.originals != {} || p.retired;
    hide OverdueOriginal, Lost, Carries;
  }

  lemma ArrivingMeans(ch: Channel, id: nat)
    requires id in ch.history.packets && ch.requests.receiving <= ch.requests.frames.Keys
    requires forall t: Task :: t in ch.history.packets[id].originals <==> Carries(ch, t, id, false)
    requires forall t: Task :: ch.history.packets[id].pending == Some(t) <==> Carries(ch, t, id, true)
    ensures
      var p, q := ch.history.packets[id], ch.requests;
      p.originals * q.receiving == {} && !(p.pending.Some? && p.pending.value in q.receiving) <==>
        forall t <- q.frames :: q.frames[t].packet == Some(id) ==> t !in q.receiving
  {
    var p, q := ch.history.packets[id], ch.requests;
    if t :| t in q.frames && q.frames[t].packet == Some(id) && t in q.receiving {
      assert Carries(ch, t, id, q.frames[t].replay);
      if !q.frames[t].replay { assert t in p.originals * q.receiving; }
    }
    if t :| t in p.originals * q.receiving { assert Carries(ch, t, id, false); }
    if p.pending.Some? { assert Carries(ch, p.pending.value, id, true); }
  }

  lemma UnderWayMeans(ch: Channel, id: nat)
    requires id in ch.history.packets && forall t: Task :: t in ch.requests.pending <==> t in ch.requests.frames
    requires forall t: Task :: ch.history.packets[id].pending == Some(t) <==> Carries(ch, t, id, true)
    ensures
      (exists t :: t in ch.requests.pending && ch.history.packets[id].pending != Some(t)) <==>
        !forall t <- ch.requests.frames :: Carries(ch, t, id, true)
  {}

  lemma OverdueMeans(ch: Channel, id: nat, now: real)
    requires id in ch.history.packets
    requires forall t: Task :: t in ch.history.packets[id].originals <==> Carries(ch, t, id, false)
    ensures OverdueOriginal(ch, ch.history.packets[id], now) <==> Lost(ch, id, now)
  {}

  lemma KeysTell(q: Requests)
    requires RequestsInv(q)
    ensures q.frames.Keys == q.pending.Keys && q.receiving <= q.frames.Keys && q.sentSince.Keys <= q.frames.Keys
    ensures forall t: Task :: t in q.pending <==> t in q.frames
    ensures forall t: Task :: t in q.replays <==> t in q.frames && q.frames[t].replay
    ensures forall t <- q.pending :: q.pending[t] == |q.frames[t].body|
  {
    assert forall t: Task :: t in q.pending.Keys <==> t in q.frames.Keys;
  }

  lemma ChosenMeans(ch: Channel, id: nat, replace: Option<Task>, now: real)
    requires LinkInv(ch.history, ch.requests.frames) && RequestsInv(ch.requests) && id in ch.history.order
    ensures id in ch.history.packets
    ensures ReplacementChosen(ch, id, replace, now) <==> MakesRoom(ch, id, replace, now)
  {
    LinksTell(ch, id);
    KeysTell(ch.requests);
    hide LinkInv, RequestsInv;
  }

  /**
    The recovery loop may choose a packet exactly when its channel is open and at rest, the packet is lost or the last
    one with nothing under way, it may be replayed once more, and there is a replay slot for it.
  */
  lemma RecoveryIsExact(s: System, c: nat, id: nat, replace: Option<Task>, now: real)
    requires Reachable(s) && c in s.channels
    ensures
      var ch := s.channels[c];
      Enabled(s, Recover(c, id, replace, now, now)) <==>
        && s.clock <= now && !ch.closed && ch.recovery.Watching?
        && id in ch.history.order && id in ch.history.packets
        && Replayable(ch.history.packets[id], now) && NothingArriving(ch, id)
        && (Lost(ch, id, now) || Idle(ch, id, now))
        && MakesRoom(ch, id, replace, now)
  {
    InvariantOf(s, c);
    RecoverEnabled(s, c, id, replace, now);
    var ch := s.channels[c];
    hide RequestsInv, HistoryInv, LinkInv, RepliesInv, Enabled, ReplayDue, ReplacementChosen, NativeBackpressure;
    hide Replayable, NothingArriving, Lost, Idle, MakesRoom, Reachable;
    if id in ch.history.order && !ch.closed {
      DueMeans(ch, id, now);
      ChosenMeans(ch, id, replace, now);
    }
  }

  lemma InvariantOf(s: System, c: nat)
    requires Reachable(s) && c in s.channels
    ensures
      var ch := s.channels[c];
      && RequestsInv(ch.requests) && HistoryInv(ch.history, ch.sequence) && LinkInv(ch.history, ch.requests.frames)
      && RepliesInv(ch.replies, ch.closed) && OrderKnown(ch.history)
  {
    hide SystemInv, LaneInv, TicketInv, RequestsInv, HistoryInv, LinkInv, RepliesInv;
    ReachableHolds(s);
    SystemParts(s);
    Parts(s.channels[c]);
  }

  lemma RecoverEnabled(s: System, c: nat, id: nat, replace: Option<Task>, now: real)
    requires c in s.channels
    ensures
      var ch := s.channels[c];
      Enabled(s, Recover(c, id, replace, now, now)) <==>
        && s.clock <= now && !ch.closed && ch.recovery.Watching? && id in ch.history.order && id in ch.history.packets
        && !NativeBackpressure(ch.replies) && ReplayDue(ch, id, now) && ReplacementChosen(ch, id, replace, now)
  {
    hide ReplayDue, ReplacementChosen, NativeBackpressure;
  }

  // ----- And it is done

  lemma RunOfThree(s: System, a: Event, b: Event, c: Event)
    requires Enabled(s, a) && Enabled(Step(s, a), b) && Enabled(Step(Step(s, a), b), c)
    ensures IsRun(s, [a, b, c]) && After(s, [a, b, c]) == Step(Step(Step(s, a), b), c)
  {
    hide Enabled, Step;
    var s2 := Step(Step(s, a), b);
    assert [a, b, c][1..] == [b, c] && [b, c][1..] == [c] && [c][1..] == [];
    assert IsRun(Step(s2, c), []) && After(Step(s2, c), []) == Step(s2, c);
    assert IsRun(s2, [c]) && After(s2, [c]) == Step(s2, c);
    assert IsRun(Step(s, a), [b, c]) && After(Step(s, a), [b, c]) == Step(s2, c);
  }

  /** Where its two loops stand does not matter to what a channel may replay. */
  lemma DueAnywhere(ch: Channel, sender: Sender, recovery: Recovery, id: nat, now: real)
    requires id in ch.history.packets
    ensures ReplayDue(ch.(sender := sender, recovery := recovery), id, now) == ReplayDue(ch, id, now)
  {
    var ch' := ch.(sender := sender, recovery := recovery);
    assert OverdueOriginal(ch', ch.history.packets[id], now) == OverdueOriginal(ch, ch.history.packets[id], now);
    hide OverdueOriginal;
  }

  lemma {:induction false} FoundAgain(h: History, order: seq<nat>, id: nat)
    requires forall i <- order :: i in h.packets
    requires forall i, j :: 0 <= i < j < |order| ==> h.packets[order[i]].body != h.packets[order[j]].body
    requires id in order
    ensures FindPacket(h, order, h.packets[id].body) == Some(id)
  {
    if order[0] != id { FoundAgain(h, order[1..], id); }
  }

  /** Room for one more request, in the channel and in the lane. */
  predicate RoomFor(s: System, c: nat, length: nat)
    requires c in s.channels
  {
    && |s.channels[c].requests.pending| < 8 && s.channels[c].requests.bytes + length <= 8 * 1024 * 1024
    && !s.lane.closed && s.lane.inflight < 64 && s.lane.queued + length <= 32 * 1024 * 1024
  }

  /** One request more, of the slot that was next; everything else about requests as before. */
  function Joined(q: Requests, t: Task, f: Frame): Requests {
    Requests(q.pending[t := |f.body|], q.bytes + |f.body|, q.sentSince, q.receiving,
             if f.replay then q.replays + {t} else q.replays, q.frames[t := f])
  }

  /**
    A lost packet is sent again: with a free replay slot, room and nobody sending, the loop's three steps put a
    replay of the same body on its way, and note it.
  */
  lemma LostIsReplayed(s: System, c: nat, id: nat, now: real)
    requires Reachable(s) && c in s.channels && s.clock <= now
    requires
      var ch := s.channels[c];
      && !ch.closed && ch.recovery.Watching? && ch.sender.Free?
      && id in ch.history.order && id in ch.history.packets
      && Replayable(ch.history.packets[id], now) && NothingArriving(ch, id)
      && (Lost(ch, id, now) || Idle(ch, id, now))
      && !BeingReplayed(ch, id) && |ch.requests.replays| < 2
      && RoomFor(s, c, |ch.history.packets[id].body|)
    ensures
      var run := [Recover(c, id, None, now, now), Ready(c), Reserve(c, now)];
      && IsRun(s, run) && c in After(s, run).channels
      && var ch, ch' := s.channels[c], After(s, run).channels[c];
         && ch'.requests == Joined(ch.requests, s.next, Frame(ch.history.packets[id].body, true, Some(id), []))
         && id in ch'.history.packets && ch'.history.packets[id].log == ch.history.packets[id].log + [Replayed(now)]
         && ch'.history.order == ch.history.order && ch'.replies == ch.replies && !ch'.closed
         && ch'.sender.Free? && ch'.recovery.Watching?
  {
    RecoveryIsExact(s, c, id, None, now);
    RecoverEnabled(s, c, id, None, now);
    InvariantOf(s, c);
    var ch := s.channels[c];
    FoundAgain(ch.history, ch.history.order, id);
    ReplayRuns(s, c, id, now);
  }

  lemma ReadyRuns(s: System, ch: Channel, c: nat, id: nat, now: real)
    requires c in s.channels && id in ch.history.packets && s.clock <= now && !ch.closed
    requires s.channels[c] == ch.(sender := Checking(ch.history.packets[id].body, true), recovery := Replaying)
    ensures
      var s2 := Step(s, Ready(c));
      && Enabled(s, Ready(c)) && c in s2.channels && s2.lane == s.lane && s2.next == s.next && s2.clock == s.clock
      && s2.channels[c] == if HasCapacity(ch.requests, |ch.history.packets[id].body|)
                           then ch.(sender := Reserving(ch.history.packets[id].body, true), recovery := Replaying)
                           else ch.(sender := Free, recovery := Watching)
  {
    hide HasCapacity;
  }

  lemma TargetFound(ch: Channel, id: nat, now: real)
    requires OrderKnown(ch.history) && id in ch.history.packets && ch.history.packets[id].pending.None?
    requires ReplayDue(ch, id, now)
    requires FindPacket(ch.history, ch.history.order, ch.history.packets[id].body) == Some(id)
    ensures ReplayTarget(ch.(sender := Reserving(ch.history.packets[id].body, true), recovery := Replaying),
                         ch.history.packets[id].body, now) == Some(id)
  {
    DueAnywhere(ch, Reserving(ch.history.packets[id].body, true), Replaying, id, now);
    hide ReplayDue, FindPacket;
  }

  lemma ReserveRuns(s: System, ch: Channel, c: nat, id: nat, now: real)
    requires c in s.channels && id in ch.history.packets && s.clock <= now && !ch.closed && OrderKnown(ch.history)
    requires s.channels[c] == ch.(sender := Reserving(ch.history.packets[id].body, true), recovery := Replaying)
    requires !s.lane.closed && LaneHasCapacity(s.lane, |ch.history.packets[id].body|)
    requires ReplayTarget(s.channels[c], ch.history.packets[id].body, now) == Some(id)
    ensures
      var s2 := Step(s, Reserve(c, now));
      Enabled(s, Reserve(c, now)) && c in s2.channels && s2.channels[c] == CommitReplay(ch, s.next, id, now)
  {
    hide ReplayTarget, LaneHasCapacity;
  }

  /** The last two steps of sending a packet again, from wherever the recovery loop came. */
  lemma ReplayCommits(s: System, ch: Channel, c: nat, id: nat, now: real)
    requires c in s.channels && id in ch.history.packets && s.clock <= now && !ch.closed && OrderKnown(ch.history)
    requires s.channels[c] == ch.(sender := Checking(ch.history.packets[id].body, true), recovery := Replaying)
    requires RoomFor(s, c, |ch.history.packets[id].body|)
    requires ch.history.packets[id].pending.None? && ReplayDue(ch, id, now)
    requires FindPacket(ch.history, ch.history.order, ch.history.packets[id].body) == Some(id)
    ensures Enabled(s, Ready(c)) && Enabled(Step(s, Ready(c)), Reserve(c, now))
    ensures
      var s2 := Step(Step(s, Ready(c)), Reserve(c, now));
      c in s2.channels && s2.channels[c] == CommitReplay(ch, s.next, id, now)
  {
    hide Enabled, Step, ReplayDue, FindPacket, OrderKnown, ReplayTarget, CommitReplay;
    ReadyRuns(s, ch, c, id, now);
    TargetFound(ch, id, now);
    ReserveRuns(Step(s, Ready(c)), ch, c, id, now);
  }

  lemma ReplayRuns(s: System, c: nat, id: nat, now: real)
    requires Enabled(s, Recover(c, id, None, now, now)) && s.channels[c].sender.Free?
    requires OrderKnown(s.channels[c].history) && RoomFor(s, c, |s.channels[c].history.packets[id].body|)
    requires
      var h := s.channels[c].history;
      FindPacket(h, h.order, h.packets[id].body) == Some(id)
    ensures
      var run := [Recover(c, id, None, now, now), Ready(c), Reserve(c, now)];
      && IsRun(s, run) && c in After(s, run).channels
      && After(s, run).channels[c] == CommitReplay(s.channels[c], s.next, id, now)
  {
    hide ReplayDue, FindPacket, NativeBackpressure, OrderKnown;
    var ch := s.channels[c];
    var body, recover := ch.history.packets[id].body, Recover(c, id, None, now, now);
    var s1 := Step(s, recover);
    assert s1.channels[c] == ch.(sender := Checking(body, true), recovery := Replaying);
    assert s1.lane == s.lane && s1.next == s.next && s1.clock == now;
    assert ch.history.packets[id].pending.None? && ReplayDue(ch, id, now) && !ch.closed;
    hide Enabled, Step, IsRun, After, CommitReplay;
    ReplayCommits(s1, ch, c, id, now);
    RunOfThree(s, recover, Ready(c), Reserve(c, now));
  }
}
