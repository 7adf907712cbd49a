/** The other ways of `_recover` and of the sender: a stalled replay is replaced, and nobody keeps the send lock. */
module CfH2Stalled {
  import opened Prelude
  import opened Bytes
  import opened CfH2Channel
  import opened CfH2Invariants
  import opened CfH2System
  import opened CfH2Safety
  import opened CfH2Theorems
  import opened CfH2Recovery
  import opened CfH2Requests
  import opened CfH2Answers
  import opened CfH2Rotation

  // ----- A replay that stalls

  /** A channel without its stalled replay of packet `id`, while the loop is about to replace it. */
  function WithoutReplay(ch: Channel, t: Task, id: nat): Channel
    requires t in ch.requests.pending && id in ch.history.packets
  {
    ch.(requests := RemoveRequest(ch.requests, t), history := Detach(ch.history, id, t),
        recovery := Replacing(t, ch.history.packets[id].body))
  }

  lemma StillDue(ch: Channel, t: Task, id: nat, now: real)
    requires t in ch.requests.pending && id in ch.history.packets && Carries(ch, t, id, true)
    requires Replayable(ch.history.packets[id], now) && NothingArriving(ch, id)
    requires Lost(ch, id, now) || Idle(ch, id, now)
    ensures
      var ch' := WithoutReplay(ch, t, id);
      && id in ch'.history.packets && Replayable(ch'.history.packets[id], now) && NothingArriving(ch', id)
      && (Lost(ch', id, now) || Idle(ch', id, now))
  {
    hide Unanswered, ReplayTimes, Waiting, Join;
    var ch' := WithoutReplay(ch, t, id);
    if u :| u in ch.requests.frames && Carries(ch, u, id, false) && Unanswering(ch, u, now, 3.0) {
      assert Carries(ch', u, id, false) && Unanswering(ch', u, now, 3.0);
    }
    assert forall u <- ch'.requests.frames ::
        u in ch.requests.frames && (Carries(ch, u, id, true) ==> Carries(ch', u, id, true));
  }

  /** The stalled replay is given up. */
  lemma GiveUpRuns(s: System, c: nat, id: nat, t: Task, now: real)
    requires Enabled(s, Recover(c, id, Some(t), now, now)) && Running(s, c, t)
    requires s.channels[c].requests.frames[t].packet == Some(id) && s.channels[c].sender.Free?
    ensures
      var run := [Recover(c, id, Some(t), now, now), Cancelled(c, t), Release(t)];
      && IsRun(s, run) && c in After(s, run).channels && t !in After(s, run).releasing
      && After(s, run).channels[c] == WithoutReplay(s.channels[c], t, id)
      && After(s, run).next == s.next && After(s, run).clock == now
      && After(s, run).lane.closed == s.lane.closed
      && After(s, run).lane.inflight == s.lane.inflight - 1
      && After(s, run).lane.queued == s.lane.queued - s.channels[c].requests.pending[t]
  {
    hide ReplayDue, ReplacementChosen, NativeBackpressure, OrderKnown, RemoveRequest, Detach;
    RunOfThree(s, Recover(c, id, Some(t), now, now), Cancelled(c, t), Release(t));
  }

  /** And the packet is sent again in its place. */
  lemma ReplacedRuns(s: System, c: nat, id: nat, now: real)
    requires ReplaceReady(s, c, id, now)
    ensures
      var run := [Replaced(c), Ready(c), Reserve(c, now)];
      && IsRun(s, run) && c in After(s, run).channels
      && After(s, run).channels[c] == CommitReplay(s.channels[c], s.next, id, now)
  {
    hide ReplayDue, FindPacket, OrderKnown;
    var ch := s.channels[c];
    var body := ch.history.packets[id].body;
    var s1 := Step(s, Replaced(c));
    assert s1.channels[c] == ch.(sender := Checking(body, true), recovery := Replaying);
    assert s1.lane == s.lane && s1.next == s.next && s1.clock == s.clock;
    hide Step, IsRun, After, CommitReplay;
    ReplayCommits(s1, ch, c, id, now);
    assert Enabled(s, Replaced(c));
    hide Enabled;
    RunOfThree(s, Replaced(c), Ready(c), Reserve(c, now));
  }

  /** All that the second half needs. */
  predicate ReplaceReady(s: System, c: nat, id: nat, now: real) {
    && c in s.channels && id in s.channels[c].history.packets && OrderKnown(s.channels[c].history)
    && var ch := s.channels[c];
       var body := ch.history.packets[id].body;
       && s.clock <= now && !ch.closed && ch.sender.Free? && RoomFor(s, c, |body|)
       && ch.recovery.Replacing? && ch.recovery.body == body
       && ch.recovery.task !in ch.requests.pending && ch.recovery.task !in s.releasing
       && ch.history.packets[id].pending.None? && ReplayDue(ch, id, now)
       && FindPacket(ch.history, ch.history.order, body) == Some(id)
  }

  lemma StalledReplayGoes(s: System, c: nat, id: nat, t: Task, now: real)
    requires Reachable(s) && c in s.channels && Enabled(s, Recover(c, id, Some(t), now, now))
    requires Carries(s.channels[c], t, id, true) && s.channels[c].sender.Free? && !s.lane.closed
    ensures id in s.channels[c].history.packets && t in s.channels[c].requests.pending
    ensures
      var first := [Recover(c, id, Some(t), now, now), Cancelled(c, t), Release(t)];
      && IsRun(s, first) && ReplaceReady(After(s, first), c, id, now) && After(s, first).next == s.next
      && After(s, first).channels[c] == WithoutReplay(s.channels[c], t, id)
  {
    hide Enabled, Step, IsRun, After, Reachable, RequestsInv, HistoryInv, LinkInv, RepliesInv, OrderKnown, FindPacket;
    hide Replayable, NothingArriving, Lost, Idle, MakesRoom, ReplayDue, Running, WithoutReplay;
    var ch := s.channels[c];
    RecoveryIsExact(s, c, id, Some(t), now);
    InvariantOf(s, c);
    StillKnown(s, c);
    assert t in ch.requests.pending by { KeysTell(ch.requests); }
    WithinBounds(s, c);
    GiveUpRuns(s, c, id, t, now);
    var s1 := After(s, [Recover(c, id, Some(t), now, now), Cancelled(c, t), Release(t)]);
    ReachableOn(s, [Recover(c, id, Some(t), now, now), Cancelled(c, t), Release(t)]);
    InvariantOf(s1, c);
    ReadyToReplace(ch, t, id, now);
  }

  /**
    A replay without a response for thirty seconds is replaced: the loop gives it up and puts a new one of the same
    packet on its way, in the room that the old one leaves.
  */
  lemma StalledReplayIsReplaced(s: System, c: nat, id: nat, t: Task, now: real)
    requires Reachable(s) && c in s.channels && Enabled(s, Recover(c, id, Some(t), now, now))
    requires Carries(s.channels[c], t, id, true) && s.channels[c].sender.Free? && !s.lane.closed
    ensures
      var run := [Recover(c, id, Some(t), now, now), Cancelled(c, t), Release(t)]
                 + [Replaced(c), Ready(c), Reserve(c, now)];
      && IsRun(s, run) && c in After(s, run).channels && id in s.channels[c].history.packets
      && var ch, ch' := s.channels[c], After(s, run).channels[c];
         ch'.requests.frames ==
           (ch.requests.frames - {t})[s.next := Frame(ch.history.packets[id].body, true, Some(id), [])]
  {
    hide Enabled, Step, IsRun, After, Reachable;
    var first := [Recover(c, id, Some(t), now, now), Cancelled(c, t), Release(t)];
    StalledReplayGoes(s, c, id, t, now);
    ReplacedRuns(After(s, first), c, id, now);
    RunsJoin(s, first, [Replaced(c), Ready(c), Reserve(c, now)]);
    hide ReplaceReady;
  }

  /** Without the stalled replay the packet is due, and there is as much room as the replay took. */
  lemma ReadyToReplace(ch: Channel, t: Task, id: nat, now: real)
    requires RequestsInv(ch.requests) && LinkInv(ch.history, ch.requests.frames)
    requires id in ch.history.order && Carries(ch, t, id, true) && id in ch.history.packets && t in ch.requests.pending
    requires Replayable(ch.history.packets[id], now) && NothingArriving(ch, id)
    requires Lost(ch, id, now) || Idle(ch, id, now)
    requires
      var ch1 := WithoutReplay(ch, t, id);
      && HistoryInv(ch1.history, ch1.sequence) && LinkInv(ch1.history, ch1.requests.frames) && RequestsInv(ch1.requests)
      && RepliesInv(ch1.replies, ch1.closed) && !ch.closed
    ensures
      var ch1, body := WithoutReplay(ch, t, id), ch.history.packets[id].body;
      && ch1.closed == ch.closed && ch1.sender == ch.sender && ch1.recovery == Replacing(t, body)
      && id in ch1.history.packets && ch1.history.packets[id].body == body && ch1.history.packets[id].pending.None?
      && t !in ch1.requests.pending && |ch1.requests.pending| < |ch.requests.pending|
      && ch1.requests.bytes == ch.requests.bytes - |body| && ch.requests.pending[t] == |body|
      && ch1.requests.frames == ch.requests.frames - {t}
      && OrderKnown(ch1.history) && ReplayDue(ch1, id, now)
      && FindPacket(ch1.history, ch1.history.order, body) == Some(id)
  {
    hide Replayable, NothingArriving, Lost, Idle, ReplayDue, RequestsInv, HistoryInv, LinkInv, RepliesInv;
    StillDue(ch, t, id, now);
    var ch1 := WithoutReplay(ch, t, id);
    KnownOrder(ch1);
    DueMeans(ch1, id, now);
    FoundIn(ch1, id);
    LinksTell(ch, id);
    KeysTell(ch.requests);
    BodyOf(ch, t, id);
    FewerPending(ch.requests.pending, t);
  }

  lemma WithinBounds(s: System, c: nat)
    requires Reachable(s) && c in s.channels
    ensures s.lane.inflight <= 64 && s.lane.queued <= 32 * 1024 * 1024
    ensures |s.channels[c].requests.pending| <= 8 && s.channels[c].requests.bytes <= 8 * 1024 * 1024
  {
    SlotAccounting(s);
  }

  lemma KnownOrder(ch: Channel)
    requires HistoryInv(ch.history, ch.sequence)
    ensures OrderKnown(ch.history)
  {}

  lemma BodyOf(ch: Channel, t: Task, id: nat)
    requires LinkInv(ch.history, ch.requests.frames) && t in ch.requests.frames
    requires ch.requests.frames[t].packet == Some(id)
    ensures id in ch.history.packets && ch.requests.frames[t].body == ch.history.packets[id].body
  {
    assert FrameLinked(ch.history, t, ch.requests.frames[t]);
  }

  lemma FoundIn(ch: Channel, id: nat)
    requires HistoryInv(ch.history, ch.sequence) && OrderKnown(ch.history) && id in ch.history.order
    ensures FindPacket(ch.history, ch.history.order, ch.history.packets[id].body) == Some(id)
  {
    FoundAgain(ch.history, ch.history.order, id);
  }

  // ----- The send lock

  /** A send that finds its channel closed once it has a slot gives the slot back and frees the send lock. */
  lemma AbortedSendReturns(s: System, c: nat, now: real)
    requires Reachable(s) && c in s.channels && s.clock <= now
    requires s.channels[c].closed && s.channels[c].sender.Reserving? && !s.lane.closed
    requires s.lane.inflight < 64 && s.lane.queued + |s.channels[c].sender.body| <= 32 * 1024 * 1024
    ensures
      var run := [Reserve(c, now), Release(s.next)];
      && IsRun(s, run) && c in After(s, run).channels && After(s, run).lane == s.lane
      && var ch, ch' := s.channels[c], After(s, run).channels[c];
         && ch'.sender.Free? && !ch'.recovery.Replaying? && ch'.requests == ch.requests && ch'.history == ch.history
         && s.next in After(s, run).released
  {
    InvariantOf(s, c);
    hide Reachable, RequestsInv, HistoryInv, LinkInv, RepliesInv, Enabled, Step;
    ClosedReserves(s, c, now);
    var s1 := Step(s, Reserve(c, now));
    AbortReleases(s1, c, s.next);
    RunOfTwo(s, Reserve(c, now), Release(s.next));
  }

  lemma ClosedReserves(s: System, c: nat, now: real)
    requires c in s.channels && s.clock <= now && OrderKnown(s.channels[c].history)
    requires s.channels[c].closed && s.channels[c].sender.Reserving? && !s.lane.closed
    requires s.lane.inflight < 64 && s.lane.queued + |s.channels[c].sender.body| <= 32 * 1024 * 1024
    ensures
      var s1, length := Step(s, Reserve(c, now)), |s.channels[c].sender.body|;
      && Enabled(s, Reserve(c, now)) && c in s1.channels
      && s1.channels[c] == s.channels[c].(sender := Aborting(s.next))
      && s.next in s1.releasing && s1.releasing[s.next] == Hold(length, c)
      && s1.lane == s.lane.(inflight := s.lane.inflight + 1, queued := s.lane.queued + length)
  {
    hide OrderKnown, CommitNative, CommitReplay, ReplayTarget;
  }

  lemma AbortReleases(s: System, c: nat, t: Task)
    requires c in s.channels && s.channels[c].sender == Aborting(t) && t in s.releasing && s.releasing[t].channel == c
    ensures
      var s1, ch := Step(s, Release(t)), s.channels[c];
      && Enabled(s, Release(t)) && c in s1.channels && t in s1.released
      && s1.lane == s.lane.(inflight := s.lane.inflight - 1, queued := s.lane.queued - s.releasing[t].length)
      && s1.channels[c].sender.Free? && !s1.channels[c].recovery.Replaying?
      && s1.channels[c].requests == ch.requests && s1.channels[c].history == ch.history
  {}

  /** A send may be given up before it has a slot, and frees the send lock. */
  lemma SendIsGivenUp(s: System, c: nat)
    requires c in s.channels && (s.channels[c].sender.Checking? || s.channels[c].sender.Reserving?)
    ensures Enabled(s, GiveUp(c)) && c in Step(s, GiveUp(c)).channels
    ensures
      var ch, ch' := s.channels[c], Step(s, GiveUp(c)).channels[c];
      && ch'.sender.Free? && !ch'.recovery.Replaying? && ch'.requests == ch.requests && ch'.history == ch.history
  {}

  /** A closed lane stays closed, and no channel gets another request. */
  lemma ClosedLaneTakesNothing(s: System, e: Event, c: nat)
    requires Enabled(s, e) && s.lane.closed && c in s.channels
    ensures Step(s, e).lane.closed && c in Step(s, e).channels
    ensures Step(s, e).channels[c].requests.frames.Keys <= s.channels[c].requests.frames.Keys
    ensures e.Reserve? && e.c == c ==> Step(s, e).channels[c].sender.Free?
  {
    hide OrderKnown, CapacityCandidate, WaitsForRoom, ReplayDue, ReplacementChosen, Detach, OwnerIn, NoteReply;
    hide ReplyFits, Enqueue, OriginalOwner, HasCapacity, LaneHasCapacity, IsReply, Recorded, ReplayTarget;
  }

  // ----- Small steps

  /** A channel that opens is at rest, with nothing under way and nothing retained. */
  lemma OpenedAtRest(s: System, c: nat, now: real)
    requires c !in s.channels && s.clock <= now
    ensures Enabled(s, Open(c, now)) && c in Step(s, Open(c, now)).channels
    ensures
      var ch := Step(s, Open(c, now)).channels[c];
      AtRest(ch) && ch.requests.pending == map[] && ch.requests.bytes == 0 && ch.history.order == []
  {
    assert Join([]) == [];
  }

  /** Progress, which keeps the idle channel's last packet from being replayed again, is exactly this. */
  lemma ProgressIsNoted(s: System, e: Event, c: nat)
    requires Enabled(s, e) && c in s.channels
    ensures c in Step(s, e).channels
    ensures Step(s, e).channels[c].lastProgress ==
            if (e.ResponseStart? || e.Chunk? || e.PostReturned? || e.WriteDone?) && e.c == c then e.now
            else s.channels[c].lastProgress
  {
    hide OrderKnown, CapacityCandidate, WaitsForRoom, ReplayDue, ReplacementChosen, Detach, OwnerIn, NoteReply;
    hide ReplyFits, Enqueue, OriginalOwner, HasCapacity, LaneHasCapacity, IsReply, Recorded, ReplayTarget;
  }
}
