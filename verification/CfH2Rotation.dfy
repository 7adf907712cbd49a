/** When a waiting upload is made room for, and that what is given up for it can be recovered. */
module CfH2Rotation {
  import opened Prelude
  import opened Bytes
  import opened CfH2Channel
  import opened CfH2Invariants
  import opened CfH2System
  import opened CfH2Safety
  import opened CfH2Theorems
  import opened CfH2Recovery
  import opened CfH2Requests
  import opened CfH2Answers

  /**
    A request that may be given up: uploaded three seconds ago and without a response, and either a replay or the
    request of a retained packet of at most thirty seconds.
  */
  predicate GivesWay(ch: Channel, t: Task, now: real) {
    && t in ch.requests.frames && Unanswering(ch, t, now, 3.0)
    && (ch.requests.frames[t].replay
        || exists id <- ch.history.order :: Carries(ch, t, id, false) && id in ch.history.packets
                                            && now - ch.history.packets[id].sentAt <= 30.0)
  }

  lemma EligibleMeans(ch: Channel, t: Task, now: real)
    requires RequestsInv(ch.requests) && LinkInv(ch.history, ch.requests.frames) && OrderKnown(ch.history)
    ensures CapacityEligible(ch, t, now) <==> GivesWay(ch, t, now)
  {
    KeysTell(ch.requests);
    forall id | id in ch.history.order
      ensures t in ch.history.packets[id].originals <==> Carries(ch, t, id, false)
    {
      LinksTell(ch, id);
    }
    var owner := OriginalOwner(ch.history, ch.history.order, t);
    hide RequestsInv, LinkInv, OriginalOwner;
    if owner.Some? { assert Carries(ch, t, owner.value, false); }
  }

  lemma {:induction false} BestExists(ch: Channel, tasks: set<Task>, now: real) returns (best: Task)
    requires OrderKnown(ch.history) && tasks != {} && forall t <- tasks :: CapacityEligible(ch, t, now)
    ensures best in tasks && forall t <- tasks :: t in ch.requests.sentSince
    ensures forall t <- tasks :: RotatesBefore(ch.requests, best, t)
    decreases |tasks|
  {
    var t :| t in tasks;
    if tasks == {t} {
      best := t;
    } else {
      var other := BestExists(ch, tasks - {t}, now);
      best := if RotatesBefore(ch.requests, t, other) then t else other;
      hide CapacityEligible;
      assert forall u <- tasks :: u == t || u in tasks - {t};
    }
  }

  lemma CandidateExists(ch: Channel, now: real)
    requires RequestsInv(ch.requests) && LinkInv(ch.history, ch.requests.frames) && OrderKnown(ch.history)
    ensures (exists t :: CapacityCandidate(ch, t, now)) <==> exists t <- ch.requests.frames :: GivesWay(ch, t, now)
  {
    forall t: Task
      ensures CapacityEligible(ch, t, now) <==> GivesWay(ch, t, now)
    {
      EligibleMeans(ch, t, now);
    }
    if t :| t in ch.requests.frames && GivesWay(ch, t, now) {
      var eligible := set u | u in ch.requests.frames && CapacityEligible(ch, u, now);
      assert t in eligible;
      var best := BestExists(ch, eligible, now);
      forall u | CapacityEligible(ch, u, now)
        ensures RotatesBefore(ch.requests, best, u)
      {
        assert GivesWay(ch, u, now) && u in eligible;
      }
      assert CapacityCandidate(ch, best, now);
    }
  }

  /** Of some channels with uploads behind them, one is scanned before all others. */
  lemma {:induction false} FirstScanned(channels: map<nat, Channel>, some: set<nat>) returns (first: nat)
    requires some != {} && forall c <- some :: c in channels && channels[c].requests.sentSince != map[]
    ensures first in some && forall c <- some :: !ScannedBefore(channels[c], channels[first])
    decreases |some|
  {
    var x :| x in some;
    if some == {x} {
      first := x;
    } else {
      var other := FirstScanned(channels, some - {x});
      assert forall c <- some :: c == x || c in some - {x};
      if ScannedBefore(channels[x], channels[other]) {
        first := x;
        forall c <- some - {x}
          ensures !ScannedBefore(channels[c], channels[x])
        {
          if ScannedBefore(channels[c], channels[x]) { ScannedInOrder(channels[c], channels[x], channels[other]); }
        }
      } else {
        first := other;
      }
    }
  }

  lemma ScannedInOrder(a: Channel, b: Channel, c: Channel)
    requires ScannedBefore(a, b) && ScannedBefore(b, c)
    ensures ScannedBefore(a, c)
  {}

  /** An upload that waits for room in its channel, or in the lane. */
  predicate WaitsInChannel(ch: Channel) {
    && !ch.closed && ch.sender.Checking? && !ch.sender.replay
    && (|ch.requests.pending| >= 8 || ch.requests.bytes + |ch.sender.body| > 8 * 1024 * 1024)
  }

  predicate WaitsInLane(ch: Channel, lane: Lane) {
    && !ch.closed && ch.sender.Reserving? && !ch.sender.replay
    && (lane.inflight >= 64 || lane.queued + |ch.sender.body| > 32 * 1024 * 1024)
  }

  /** Its own channel makes room for an upload exactly when one of its requests may be given up. */
  lemma ChannelMakesRoom(s: System, c: nat, now: real)
    requires Reachable(s) && c in s.channels && s.clock <= now && WaitsInChannel(s.channels[c])
    ensures (exists t :: Enabled(s, Rotate(c, c, t, now))) <==>
            exists t <- s.channels[c].requests.frames :: GivesWay(s.channels[c], t, now)
  {
    InvariantOf(s, c);
    CandidateExists(s.channels[c], now);
    forall t: Task
      ensures Enabled(s, Rotate(c, c, t, now)) <==> CapacityCandidate(s.channels[c], t, now)
    {
      RotateInChannel(s, c, t, now);
    }
    hide Enabled, CapacityCandidate, GivesWay, RequestsInv, HistoryInv, LinkInv, RepliesInv, Reachable;
  }

  lemma RotateInChannel(s: System, c: nat, t: Task, now: real)
    requires c in s.channels && s.clock <= now && WaitsInChannel(s.channels[c]) && OrderKnown(s.channels[c].history)
    ensures Enabled(s, Rotate(c, c, t, now)) <==> CapacityCandidate(s.channels[c], t, now)
  {
    hide CapacityCandidate, OrderKnown;
  }

  predicate Willing(ch: Channel, now: real) {
    exists t <- ch.requests.frames :: GivesWay(ch, t, now)
  }

  /** The whole lane makes room for an upload exactly when any request of any channel may be given up. */
  lemma LaneMakesRoom(s: System, c: nat, now: real)
    requires Reachable(s) && c in s.channels && s.clock <= now && WaitsInLane(s.channels[c], s.lane)
    ensures (exists v: nat, t: Task :: Enabled(s, Rotate(c, v, t, now))) <==>
            exists d <- s.channels :: Willing(s.channels[d], now)
  {
    var willing := set d | d in s.channels && Willing(s.channels[d], now);
    forall d | d in s.channels
      ensures OrderKnown(s.channels[d].history)
      ensures (exists t :: CapacityCandidate(s.channels[d], t, now)) <==> d in willing
      ensures d in willing ==> s.channels[d].requests.sentSince != map[]
    {
      InvariantOf(s, d);
      CandidateExists(s.channels[d], now);
    }
    hide CapacityCandidate, Willing, OrderKnown, ScannedBefore, Reachable, Enabled, WaitsInLane;
    if willing != {} {
      var v := FirstScanned(s.channels, willing);
      var t :| CapacityCandidate(s.channels[v], t, now);
      RotateInLane(s, c, v, t, now);
    }
    if v: nat, t: Task :| Enabled(s, Rotate(c, v, t, now)) {
      RotateMeans(s, c, v, t, now);
      RotateInLane(s, c, v, t, now);
    }
  }

  lemma RotateInLane(s: System, c: nat, v: nat, t: Task, now: real)
    requires c in s.channels && s.clock <= now && WaitsInLane(s.channels[c], s.lane)
    requires v in s.channels && forall d <- s.channels :: OrderKnown(s.channels[d].history)
    ensures Enabled(s, Rotate(c, v, t, now)) <==>
              && CapacityCandidate(s.channels[v], t, now)
              && forall d <- s.channels :: ScannedBefore(s.channels[d], s.channels[v]) ==>
                   forall u :: !CapacityCandidate(s.channels[d], u, now)
  {
    hide CapacityCandidate, OrderKnown, ScannedBefore;
  }

  // ----- Giving way

  /** Replays go before native requests, and of either the one uploaded first. */
  predicate GoesFirst(ch: Channel, t: Task, u: Task)
    requires t in ch.requests.frames && u in ch.requests.frames
    requires t in ch.requests.sentSince && u in ch.requests.sentSince
  {
    if ch.requests.frames[t].replay == ch.requests.frames[u].replay
    then ch.requests.sentSince[t] <= ch.requests.sentSince[u] else ch.requests.frames[t].replay
  }

  lemma CandidateIsFirst(ch: Channel, t: Task, now: real)
    requires RequestsInv(ch.requests) && LinkInv(ch.history, ch.requests.frames) && OrderKnown(ch.history)
    requires CapacityCandidate(ch, t, now)
    ensures GivesWay(ch, t, now)
    ensures forall u <- ch.requests.frames :: GivesWay(ch, u, now) ==> GoesFirst(ch, t, u)
  {
    KeysTell(ch.requests);
    EligibleMeans(ch, t, now);
    forall u | u in ch.requests.frames && GivesWay(ch, u, now)
      ensures GoesFirst(ch, t, u)
    {
      EligibleMeans(ch, u, now);
    }
    hide RequestsInv, LinkInv, CapacityEligible;
  }

  /**
    What is given up is gone with its slot, and unless it was a replay its packet is left to be replayed: it is
    retained, young, and counts as lost.
  */
  lemma RoomIsMade(s: System, c: nat, v: nat, t: Task, now: real)
    requires Reachable(s) && Enabled(s, Rotate(c, v, t, now))
    ensures
      var run := [Rotate(c, v, t, now), Cancelled(v, t), Release(t)];
      && IsRun(s, run) && v in After(s, run).channels
      && var ch, ch' := s.channels[v], After(s, run).channels[v];
         && GivesWay(ch, t, now)
         && (forall u <- ch.requests.frames :: GivesWay(ch, u, now) ==> GoesFirst(ch, t, u))
         && ch'.requests.frames == ch.requests.frames - {t} && ch'.requests.pending == ch.requests.pending - {t}
         && ch'.requests.bytes == ch.requests.bytes - |ch.requests.frames[t].body|
         && (!ch.requests.frames[t].replay ==>
               exists id <- ch'.history.order ::
                 && id in ch'.history.packets && ch'.history.packets[id].body == ch.requests.frames[t].body
                 && now - ch'.history.packets[id].sentAt <= 30.0 && Lost(ch', id, now))
  {
    hide Enabled, Step, IsRun, After, Reachable, RequestsInv, HistoryInv, LinkInv, RepliesInv, OrderKnown, Retire;
    hide Finish, Retainable, CapacityEligible, CapacityCandidate, GoesFirst;
    RotateMeans(s, c, v, t, now);
    InvariantOf(s, v);
    var ch := s.channels[v];
    CandidateIsFirst(ch, t, now);
    RotationIsSafe(s, c, v, t, now);
    var e := Rotate(c, v, t, now);
    var s1 := Step(s, e);
    RunOfOne(s, e);
    ReachableOn(s, [e]);
    StillKnown(s1, v);
    RetireKeepsFrames(ch, t);
    CancelRuns(s1, v, t);
    KeysTell(s1.channels[v].requests) by { InvariantOf(s1, v); }
    RunHead(s, e, [Cancelled(v, t), Release(t)]);
    assert [e] + [Cancelled(v, t), Release(t)] == [e, Cancelled(v, t), Release(t)];
    FinishKeepsRetired(s1.channels[v], t);
  }

  lemma RetireKeepsFrames(ch: Channel, t: Task)
    requires OrderKnown(ch.history)
    ensures
      var q := Retire(ch, t).requests;
      q.frames == ch.requests.frames && q.pending == ch.requests.pending && q.bytes == ch.requests.bytes
  {}

  lemma CancelRuns(s: System, c: nat, t: Task)
    requires Running(s, c, t)
    ensures
      var run := [Cancelled(c, t), Release(t)];
      && IsRun(s, run) && c in After(s, run).channels
      && var ch, ch' := s.channels[c], After(s, run).channels[c];
         var done := Finish(ch, t, ch.requests.frames[t].packet);
         ch'.requests == done.requests && ch'.history == done.history
  {
    hide Finish, OrderKnown;
    RunOfTwo(s, Cancelled(c, t), Release(t));
  }

  lemma FinishKeepsRetired(ch: Channel, t: Task)
    requires OrderKnown(ch.history) && t in ch.requests.pending && t in ch.requests.frames
    requires ch.requests.frames[t].packet.Some? ==> ch.requests.frames[t].packet.value in ch.history.packets
    ensures
      var done := Finish(ch, t, ch.requests.frames[t].packet);
      && done.requests == RemoveRequest(ch.requests, t)
      && done.history.order == ch.history.order
      && forall id <- ch.history.packets ::
           && id in done.history.packets && done.history.packets[id].retired == ch.history.packets[id].retired
           && done.history.packets[id].body == ch.history.packets[id].body
           && done.history.packets[id].sentAt == ch.history.packets[id].sentAt
  {}
}
