/** What comes of a packet the client sends: its request, its place in the history, and its second chance. */
module CfH2Requests {
  import opened Prelude
  import opened Bytes
  import opened CfH2Channel
  import opened CfH2Invariants
  import opened CfH2System
  import opened CfH2Safety
  import opened CfH2Theorems
  import opened CfH2Recovery

  // ----- The history a packet leaves

  /** Trimming goes no further than it must: the packet given up last was one too many. */
  lemma {:induction false} TrimmedGoesNoFurther(h: History, order: seq<nat>, now: real)
    requires forall id <- order :: id in h.packets
    ensures
      || (Trimmed(h, order, now) == order && !OverLimit(h, order))
      || exists o: seq<nat>, k: nat :: k < |o| && (forall id <- o :: id in h.packets) && OverLimit(h, o)
                                       && Trimmed(h, order, now) == RemoveAt(o, k)
    decreases |order|
  {
    if OverLimit(h, order) {
      var k := VictimIndex(h, order, now);
      var rest := RemoveAt(order, k);
      TrimmedGoesNoFurther(h, rest, now);
      if !OverLimit(h, rest) { assert Trimmed(h, order, now) == RemoveAt(order, k); }
    }
  }

  lemma {:induction false} BytesAppend(h: History, order: seq<nat>, id: nat)
    requires id in h.packets && forall i <- order :: i in h.packets
    ensures HistoryBytes(h, order + [id]) == HistoryBytes(h, order) + |h.packets[id].body|
  {
    if order == [] {
      assert (order + [id])[1..] == [];
    } else {
      assert (order + [id])[1..] == order[1..] + [id];
      BytesAppend(h, order[1..], id);
    }
  }

  /** A retained packet of the same body. */
  predicate Retained(h: History, body: bytes) {
    exists id <- h.order :: id in h.packets && h.packets[id].body == body
  }

  predicate HasSpace(h: History, body: bytes)
    requires OrderKnown(h)
  {
    |h.order| < 16 && HistoryBytes(h, h.order) + |body| <= 64 * 1024
  }

  /**
    What a native packet does to the history. Handshakes leave it alone. A packet of another key clears it. A packet
    of the same key stays out if it is over 64 KiB, adds its request to the retained packet of the same body, or else
    joins behind the others; and then none of those goes unless there are sixteen, or 64 KiB would be passed.
  */
  lemma SentHistory(h: History, t: Task, body: bytes, now: real, sequence: nat)
    requires HistoryInv(h, sequence) && OrderKnown(h)
    ensures
      var (h', id) := Recorded(h, t, body, now, sequence + 1);
      var key, small := Prefix(body, 8), |body| <= 64 * 1024;
      && (if key == ZERO_KEY then h' == h
          else
            && h'.key == Some(key)
            && (h.key != Some(key) ==> h'.order == if small then [sequence + 1] else [])
            && (h.key == Some(key) && (!small || Retained(h, body)) ==> h'.order == h.order)
            && (h.key == Some(key) && small && !Retained(h, body) && HasSpace(h, body) ==>
                  h'.order == h.order + [sequence + 1]))
      && (forall i <- h.packets :: i in h'.packets && (Some(i) != id ==> h'.packets[i] == h.packets[i]))
      && (id.Some? && id.value in h.packets ==>
            h'.packets[id.value] == h.packets[id.value].(originals := h.packets[id.value].originals + {t}))
      && (id.Some? && !Retained(h, body) ==>
            id.value in h'.packets
            && h'.packets[id.value] == Packet(now, body, sequence + 1, 0, 0.0, None, {t}, false, None, []))
  {
    hide HistoryShape;
    RememberMeans(h, body, now, sequence);
    var (h1, id) := Remember(h, body, now, sequence + 1);
    if id.Some? {
      var h2 := AddOriginal(h1, id.value, t);
      HistoryBytesSame(h1, h2, h1.order);
      if h.key == Some(Prefix(body, 8)) && !Retained(h, body) {
        BytesAppend(h1, h.order, sequence + 1);
        HistoryBytesSame(h, h1, h.order);
      } else if h.key == Some(Prefix(body, 8)) {
        HistoryBytesSame(h, h1, h.order);
      }
    }
  }

  lemma RememberMeans(h: History, body: bytes, now: real, sequence: nat)
    requires HistoryInv(h, sequence) && OrderKnown(h)
    ensures sequence + 1 !in h.packets && sequence + 1 !in h.order
    ensures
      var (h1, id) := Remember(h, body, now, sequence + 1);
      && (id.Some? <==> Retainable(body)) && OrderKnown(h1)
      && (Prefix(body, 8) == ZERO_KEY ==> h1 == h)
      && (Prefix(body, 8) != ZERO_KEY ==> h1.key == Some(Prefix(body, 8)))
      && (Prefix(body, 8) != ZERO_KEY && id.None? ==>
            h1.packets == h.packets && h1.order == if h.key == h1.key then h.order else [])
      && (id.Some? ==> id.value in h1.packets)
      && (id.Some? && h.key == h1.key && Retained(h, body) ==> h1 == h && id.value in h.order)
      && (id.Some? && !(h.key == h1.key && Retained(h, body)) ==>
            && id.value == sequence + 1
            && h1.order == (if h.key == h1.key then h.order else []) + [sequence + 1]
            && h1.packets == h.packets[sequence + 1 :=
                                         Packet(now, body, sequence + 1, 0, 0.0, None, {}, false, None, [])])
  {
    assert forall id <- h.packets :: id <= sequence;
  }

  // ----- Sending

  lemma SendRuns(s: System, c: nat, body: bytes, now: real)
    requires c in s.channels && OrderKnown(s.channels[c].history) && s.clock <= now && |body| >= 24
    requires !s.channels[c].closed && s.channels[c].sender.Free? && RoomFor(s, c, |body|)
    ensures
      var run := [Send(c, body), Ready(c), Reserve(c, now)];
      && IsRun(s, run)
      && After(s, run).channels == s.channels[c := CommitNative(s.channels[c], s.next, body, now)]
      && After(s, run).lane == s.lane.(inflight := s.lane.inflight + 1, queued := s.lane.queued + |body|)
      && After(s, run).next == s.next + 1 && After(s, run).clock == now
  {
    hide OrderKnown, CommitNative;
    var ch := s.channels[c];
    var s1 := Step(s, Send(c, body));
    assert s1.channels[c] == ch.(sender := Checking(body, false));
    var s2 := Step(s1, Ready(c));
    assert s2.channels[c] == ch.(sender := Reserving(body, false));
    assert s2.lane == s.lane && s2.next == s.next && s2.channels[c].history == ch.history;
    assert CommitNative(s2.channels[c], s.next, body, now) == CommitNative(ch, s.next, body, now) by {
      CommitFreesSender(ch, s.next, body, now);
    }
    RunOfThree(s, Send(c, body), Ready(c), Reserve(c, now));
  }

  lemma CommitFreesSender(ch: Channel, t: Task, body: bytes, now: real)
    requires OrderKnown(ch.history)
    ensures forall sender :: CommitNative(ch.(sender := sender), t, body, now) == CommitNative(ch, t, body, now)
  {}

  /** With room for it, a packet becomes a running request of the next slot, and nothing else about requests changes. */
  lemma SendIsCommitted(s: System, c: nat, body: bytes, now: real)
    requires Reachable(s) && c in s.channels && s.clock <= now && |body| >= 24
    requires !s.channels[c].closed && s.channels[c].sender.Free? && RoomFor(s, c, |body|)
    ensures
      var run, ch := [Send(c, body), Ready(c), Reserve(c, now)], s.channels[c];
      && IsRun(s, run) && c in After(s, run).channels && After(s, run).clock == now
      && (forall d <- s.channels ::
            d != c ==> d in After(s, run).channels && After(s, run).channels[d] == s.channels[d])
      && var ch', id := After(s, run).channels[c], if Retainable(body) then Some(Owner(ch, body)) else None;
         && ch'.requests == Joined(ch.requests, s.next, Frame(body, false, id, []))
         && OrderKnown(ch.history)
         && ch'.history == Recorded(ch.history, s.next, body, now, ch.sequence + 1).0
         && ch'.replies == ch.replies && !ch'.closed && ch'.sender.Free? && ch'.recovery == ch.recovery
  {
    hide Recorded, Reachable, Enabled, Step, IsRun, After, OrderKnown, RequestsInv, HistoryInv, LinkInv, RepliesInv;
    hide CommitNative, RoomFor, Retainable, Owner, Joined;
    InvariantOf(s, c);
    SendRuns(s, c, body, now);
    CommitMeans(s.channels[c], s.next, body, now);
  }

  lemma CommitMeans(ch: Channel, t: Task, body: bytes, now: real)
    requires HistoryInv(ch.history, ch.sequence) && OrderKnown(ch.history)
    ensures
      var ch', id := CommitNative(ch, t, body, now), if Retainable(body) then Some(Owner(ch, body)) else None;
      && ch'.requests == Joined(ch.requests, t, Frame(body, false, id, []))
      && ch'.history == Recorded(ch.history, t, body, now, ch.sequence + 1).0
      && ch'.replies == ch.replies && ch'.closed == ch.closed && ch'.sender.Free? && ch'.recovery == ch.recovery
      && ch'.sequence == ch.sequence + 1
  {
    OwnerMeans(ch, t, body, now);
    hide Recorded, HistoryInv, Retainable, Owner;
  }

  /** The retained packet that stands for a body: the one of the same body, or a new one. */
  ghost function Owner(ch: Channel, body: bytes): nat {
    if Retained(ch.history, body) then
      var id :| id in ch.history.order && id in ch.history.packets && ch.history.packets[id].body == body; id
    else ch.sequence + 1
  }

  lemma OwnerMeans(ch: Channel, t: Task, body: bytes, now: real)
    requires HistoryInv(ch.history, ch.sequence) && OrderKnown(ch.history)
    ensures Recorded(ch.history, t, body, now, ch.sequence + 1).1 ==
            if Retainable(body) then Some(Owner(ch, body)) else None
  {
    RememberMeans(ch.history, body, now, ch.sequence);
    if Retained(ch.history, body) { FoundAgain(ch.history, ch.history.order, Owner(ch, body)); }
  }

  // ----- A packet that is never answered

  lemma {:induction false} RunsJoin(s: System, a: seq<Event>, b: seq<Event>)
    requires IsRun(s, a) && IsRun(After(s, a), b)
    ensures IsRun(s, a + b) && After(s, a + b) == After(After(s, a), b)
    decreases |a|
  {
    hide Enabled, Step;
    if a == [] {
      assert a + b == b;
    } else {
      assert (a + b)[1..] == a[1..] + b;
      RunsJoin(Step(s, a[0]), a[1..], b);
    }
  }

  lemma ReachableOn(s: System, es: seq<Event>)
    requires Reachable(s) && IsRun(s, es)
    ensures Reachable(After(s, es))
  {
    hide IsRun, After;
    var now: real, before: seq<Event> :| now > 0.0 && IsRun(Initial(now), before) && s == After(Initial(now), before);
    RunsJoin(Initial(now), before, es);
  }

  lemma UploadRuns(s: System, c: nat, t: Task, now: real)
    requires Running(s, c, t) && s.clock <= now
    ensures
      var run := [UploadDone(c, t, now)];
      && IsRun(s, run)
      && After(s, run) == s.(channels := s.channels[c := Uploaded(s.channels[c], t, now)], clock := now)
  {
    var s1 := Step(s, UploadDone(c, t, now));
    assert IsRun(s1, []) && After(s1, []) == s1;
  }

  /** An open channel whose client has taken everything, with nobody sending and a free replay slot. */
  predicate AtRest(ch: Channel) {
    && !ch.closed && ch.sender.Free? && ch.recovery.Watching? && |ch.requests.replays| < 2
    && Join(Waiting(ch.replies.queue)) == [] && !ch.replies.delivering
  }

  predicate RoomForTwo(s: System, c: nat, length: nat)
    requires c in s.channels
  {
    && |s.channels[c].requests.pending| < 7 && s.channels[c].requests.bytes + 2 * length <= 8 * 1024 * 1024
    && !s.lane.closed && s.lane.inflight < 63 && s.lane.queued + 2 * length <= 32 * 1024 * 1024
  }

  /** Just sent and uploaded, a new packet is retained, never replayed, and carried by its request alone. */
  lemma JustSent(ch: Channel, t: Task, body: bytes, now: real, up: real)
    requires ChannelInv(ch) && OrderKnown(ch.history) && AtRest(ch) && t !in ch.requests.pending
    requires Retainable(body) && !Retained(ch.history, body)
    ensures
      var ch', id := Uploaded(CommitNative(ch, t, body, now), t, up), ch.sequence + 1;
      && id in ch'.history.order && id in ch'.history.packets
      && ch'.history.packets[id].body == body && ch'.history.packets[id].sentAt == now
      && ch'.history.packets[id].log == [] && AtRest(ch')
      && (forall u <- ch'.requests.frames :: ch'.requests.frames[u].packet == Some(id) ==> u == t)
      && Carries(ch', t, id, false) && t !in ch'.requests.receiving && ch'.requests.sentSince[t] == up
      && ch'.requests.pending == ch.requests.pending[t := |body|] && ch'.requests.bytes == ch.requests.bytes + |body|
  {
    hide ChannelInv, RequestsInv, HistoryInv, LinkInv, RepliesInv, PhaseInv, Recorded, Join, Waiting;
    Parts(ch);
    CommitMeans(ch, t, body, now);
    SentHistory(ch.history, t, body, now, ch.sequence);
    SentPacketIsRetained(ch, t, body, now);
    NewNumber(ch);
    OwnerMeans(ch, t, body, now);
    hide Retainable, CommitNative, Retained;
    KeysTell(ch.requests);
  }

  lemma NewNumber(ch: Channel)
    requires HistoryInv(ch.history, ch.sequence) && LinkInv(ch.history, ch.requests.frames)
    ensures forall u <- ch.requests.frames :: ch.requests.frames[u].packet != Some(ch.sequence + 1)
  {
    forall u <- ch.requests.frames
      ensures ch.requests.frames[u].packet != Some(ch.sequence + 1)
    {
      assert FrameLinked(ch.history, u, ch.requests.frames[u]);
    }
  }

  /**
    A new packet that stays without an answer is sent again: three seconds after its upload, on a channel otherwise at
    rest, the recovery loop puts a second request of the same body on its way.
  */
  lemma UnansweredIsSentAgain(s: System, c: nat, body: bytes, now: real, up: real, later: real)
    requires Reachable(s) && c in s.channels && AtRest(s.channels[c]) && RoomForTwo(s, c, |body|)
    requires s.clock <= now <= up && up + 3.0 <= later <= now + 30.0
    requires |body| >= 24 && Retainable(body) && !Retained(s.channels[c].history, body)
    ensures
      var t, id := s.next, s.channels[c].sequence + 1;
      var run := [Send(c, body), Ready(c), Reserve(c, now)] + [UploadDone(c, t, up)]
                 + [Recover(c, id, None, later, later), Ready(c), Reserve(c, later)];
      && IsRun(s, run) && c in After(s, run).channels
      && var frames := After(s, run).channels[c].requests.frames;
         frames == s.channels[c].requests.frames[t := Frame(body, false, Some(id), [])]
                                                [t + 1 := Frame(body, true, Some(id), [])]
  {
    var ch, t, id := s.channels[c], s.next, s.channels[c].sequence + 1;
    InvariantOf(s, c);
    ChannelHolds(s, c);
    JustSent(ch, t, body, now, up);
    SendIsCommitted(s, c, body, now);
    SendRuns(s, c, body, now);
    var send, upload := [Send(c, body), Ready(c), Reserve(c, now)], [UploadDone(c, t, up)];
    var again := [Recover(c, id, None, later, later), Ready(c), Reserve(c, later)];
    var s1 := After(s, send);
    hide Enabled, Step, IsRun, After, Reachable, RequestsInv, HistoryInv, LinkInv, RepliesInv, ChannelInv, Recorded;
    ReachableOn(s, send);
    StillKnown(s1, c);
    UploadRuns(s1, c, t, up);
    ReachableOn(s1, upload);
    var s2 := After(s1, upload);
    NeverReplayedYet(s2.channels[c], id, now, later);
    LostIsReplayed(s2, c, id, later);
    RunsJoin(s, send, upload);
    RunsJoin(s, send + upload, again);
  }

  lemma ChannelHolds(s: System, c: nat)
    requires Reachable(s) && c in s.channels
    ensures ChannelInv(s.channels[c]) && s.next !in s.channels[c].requests.pending
  {
    hide ChannelInv;
    ReachableHolds(s);
    Fresh(s, c);
  }

  lemma StillKnown(s: System, c: nat)
    requires Reachable(s) && c in s.channels
    ensures OrderKnown(s.channels[c].history)
    ensures forall t <- s.channels[c].requests.frames :: Running(s, c, t)
  {
    InvariantOf(s, c);
    var ch := s.channels[c];
    KeysTell(ch.requests);
    assert forall t <- ch.requests.frames :: FrameLinked(ch.history, t, ch.requests.frames[t]);
    hide RequestsInv, HistoryInv, LinkInv, RepliesInv, Reachable;
  }

  lemma NeverReplayedYet(ch: Channel, id: nat, now: real, later: real)
    requires id in ch.history.packets && ch.history.packets[id].log == []
    requires ch.history.packets[id].sentAt == now && now <= later <= now + 30.0
    ensures Replayable(ch.history.packets[id], later)
  {}
}
