/** What the log of a retained packet stands for, and the replays of a packet over every run. */
module CfH2Replays {
  import opened Prelude
  import opened Bytes
  import opened CfH2Channel
  import opened CfH2Invariants
  import opened CfH2System
  import opened CfH2Safety
  import opened CfH2Theorems
  import opened CfH2Recovery

  // ----- What can be seen of a packet's replays

  /** A step puts a replay of the packet on its way. */
  ghost predicate StartsReplay(s: System, e: Event, c: nat, id: nat)
    requires Enabled(s, e)
  {
    && c in s.channels && c in Step(s, e).channels && s.next !in s.channels[c].requests.frames
    && Carries(Step(s, e).channels[c], s.next, id, true)
  }

  /** A step brings an open channel a reply to the packet. */
  ghost predicate BringsReply(s: System, e: Event, c: nat, id: nat) {
    && e.PostReturned? && e.c == c && IsOpen(s, c) && e.t in s.channels[c].requests.frames
    && s.channels[c].requests.frames[e.t].packet == Some(id) && s.channels[c].requests.frames[e.t].content != []
  }

  /** The first 24 bytes of it, by which replies are told apart. */
  ghost function ReplyId(s: System, e: Event): bytes
    requires e.PostReturned? && IsOpen(s, e.c) && e.t in s.channels[e.c].requests.frames
  {
    Prefix(s.channels[e.c].requests.frames[e.t].content, 24)
  }

  /** What a step adds: a replay, or a reply that differs from the last one. */
  ghost function Marked(s: System, e: Event, c: nat, id: nat, last: Option<bytes>): seq<Mark>
    requires Enabled(s, e)
  {
    if BringsReply(s, e, c, id) then (if last == Some(ReplyId(s, e)) then [] else [NewReply])
    else if StartsReplay(s, e, c, id) then [Replayed(Now(e, s.clock))] else []
  }

  ghost function LastReply(s: System, e: Event, c: nat, id: nat, last: Option<bytes>): Option<bytes> {
    if BringsReply(s, e, c, id) then Some(ReplyId(s, e)) else last
  }

  /** The replays of a packet and the replies to it that differ from the one before, as the steps of a run show them. */
  ghost function Marks(s: System, es: seq<Event>, c: nat, id: nat, last: Option<bytes>): seq<Mark>
    requires IsRun(s, es)
    decreases |es|
  {
    if es == [] then []
    else Marked(s, es[0], c, id, last) + Marks(Step(s, es[0]), es[1..], c, id, LastReply(s, es[0], c, id, last))
  }

  // ----- The log says so

  predicate Logged(s: System, c: nat, id: nat, marks: seq<Mark>, last: Option<bytes>) {
    if c in s.channels && id in s.channels[c].history.packets then
      s.channels[c].history.packets[id].log == marks && s.channels[c].history.packets[id].replyId == last
    else marks == [] && last == None
  }

  /** The history keeps what it says of a packet. */
  predicate SameLog(h: History, h': History, id: nat) {
    && (id in h'.packets <==> id in h.packets)
    && (id in h.packets ==> h'.packets[id].log == h.packets[id].log && h'.packets[id].replyId == h.packets[id].replyId)
  }

  lemma FinishLogs(ch: Channel, t: Task, packet: Option<nat>, id: nat)
    requires OrderKnown(ch.history) && (packet.Some? ==> packet.value in ch.history.packets)
    ensures SameLog(ch.history, Finish(ch, t, packet).history, id)
  {}

  lemma RetireLogs(ch: Channel, t: Task, id: nat)
    requires OrderKnown(ch.history)
    ensures SameLog(ch.history, Retire(ch, t).history, id)
  {}

  lemma RecordLogs(h: History, t: Task, body: bytes, now: real, sequence: nat, id: nat)
    requires HistoryInv(h, sequence) && OrderKnown(h)
    ensures
      var h' := Recorded(h, t, body, now, sequence + 1).0;
      SameLog(h, h', id)
      || (id !in h.packets && id in h'.packets && h'.packets[id].log == [] && h'.packets[id].replyId == None)
  {
    assert sequence + 1 !in h.packets;
  }

  lemma CompleteLogs(ch: Channel, t: Task, now: real, id: nat)
    requires t in ch.requests.frames && OrderKnown(ch.history)
    requires ch.requests.frames[t].packet.Some? ==> ch.requests.frames[t].packet.value in ch.history.packets
    ensures
      var h, h', f := ch.history, Complete(ch, t, now).history, ch.requests.frames[t];
      if !ch.closed && f.packet == Some(id) && f.content != [] then
        var reply := Prefix(f.content, 24);
        && id in h.packets && id in h'.packets && h'.packets[id].replyId == Some(reply)
        && h'.packets[id].log ==
             h.packets[id].log + if h.packets[id].replyId == Some(reply) then [] else [NewReply]
      else SameLog(h, h', id)
  {
    hide Finish, ReplyFits, Enqueue, OrderKnown;
    var f := ch.requests.frames[t];
    SameLogItself(ch.history, id);
    if f.content != [] && !ch.closed && f.packet.Some? {
      NoteReplyLogs(ch.history, f.packet.value, f.content, id);
      hide NoteReply;
      var noted := ch.(lastProgress := now, history := NoteReply(ch.history, f.packet.value, f.content));
      KnownStays(ch.history, f.packet.value, f.content);
      FinishLogs(if ReplyFits(noted.replies, f.content) then noted.(replies := Enqueue(noted.replies, f.content))
                 else Fail(noted), t, f.packet, id);
    } else if f.content != [] && !ch.closed {
      var moved := ch.(lastProgress := now);
      FinishLogs(if ReplyFits(moved.replies, f.content) then moved.(replies := Enqueue(moved.replies, f.content))
                 else Fail(moved), t, f.packet, id);
    } else {
      FinishLogs(ch.(lastProgress := now), t, f.packet, id);
    }
  }

  lemma KnownStays(h: History, id: nat, reply: bytes)
    requires OrderKnown(h) && id in h.packets
    ensures OrderKnown(NoteReply(h, id, reply)) && id in NoteReply(h, id, reply).packets
  {}

  lemma NoteReplyLogs(h: History, owner: nat, reply: bytes, id: nat)
    requires owner in h.packets
    ensures
      var h', prefix := NoteReply(h, owner, reply), Prefix(reply, 24);
      if id != owner then SameLog(h, h', id)
      else
        && id in h'.packets && h'.packets[id].replyId == Some(prefix)
        && h'.packets[id].log == h.packets[id].log + if h.packets[id].replyId == Some(prefix) then [] else [NewReply]
  {
    assert h.packets[owner].log + [] == h.packets[owner].log;
  }

  /** Every step but the return of a request and the end of a reservation leaves the logs alone. */
  lemma QuietLogs(s: System, e: Event, c: nat, id: nat)
    requires SystemInv(s) && Enabled(s, e) && c in s.channels && !e.PostReturned? && !e.Reserve?
    ensures c in Step(s, e).channels && SameLog(s.channels[c].history, Step(s, e).channels[c].history, id)
  {
    hide SystemInv, Finish, Retire, OrderKnown, CapacityCandidate, WaitsForRoom, ReplayDue, ReplacementChosen, SameLog;
    SameLogItself(s.channels[c].history, id);
    match e
    case Cancelled(d, t) => FinishLogs(s.channels[d], t, s.channels[d].requests.frames[t].packet, id);
    case NeverStarted(d, t) => FinishLogs(s.channels[d], t, None, id);
    case PostRaised(d, t) => FinishLogs(Fail(s.channels[d]), t, s.channels[d].requests.frames[t].packet, id);
    case Rotate(_, v, t, _) => RetireLogs(s.channels[v], t, id);
    case _ =>
  }

  lemma SameLogItself(h: History, id: nat)
    ensures SameLog(h, h, id) && SameLog(h, h.(order := []), id)
  {}

  lemma QuietFrames(s: System, e: Event, c: nat)
    requires Enabled(s, e) && c in s.channels && !e.Reserve?
    ensures c in Step(s, e).channels
    ensures Step(s, e).channels[c].requests.frames.Keys <= s.channels[c].requests.frames.Keys
  {
    hide OrderKnown, CapacityCandidate, WaitsForRoom, ReplayDue, ReplacementChosen, Detach, OwnerIn, NoteReply;
    hide ReplyFits, Enqueue, OriginalOwner, HasCapacity, LaneHasCapacity, IsReply;
  }

  /** What a reservation leaves: a replay of one packet, a native request, or no request at all. */
  lemma ReserveLogs(s: System, c: nat, now: real, id: nat)
    requires SystemInv(s) && Enabled(s, Reserve(c, now))
    ensures c in Step(s, Reserve(c, now)).channels
    ensures
      var e := Reserve(c, now);
      var h, h' := s.channels[c].history, Step(s, e).channels[c].history;
      if StartsReplay(s, e, c, id) then
        && id in h.packets && id in h'.packets && h'.packets[id].replyId == h.packets[id].replyId
        && h'.packets[id].log == h.packets[id].log + [Replayed(now)]
      else SameLog(h, h', id)
           || (id !in h.packets && id in h'.packets && h'.packets[id].log == [] && h'.packets[id].replyId == None)
  {
    var ch, e := s.channels[c], Reserve(c, now);
    ChannelOf(s, c);
    Fresh(s, c);
    var target := ReserveMeans(s, c, now);
    var ch' := Step(s, e).channels[c];
    hide SystemInv, Enabled, Step, TicketInv, OrderKnown, HistoryInv, LinkInv, CommitReplay, CommitNative;
    if target.Some? && ch.sender.replay {
      CommitReplayLogs(ch, s.next, target.value, now, id);
    } else if target.Some? {
      CommitNativeLogs(ch, s.next, ch.sender.body, now, id);
    } else {
      SameLogItself(ch.history, id);
      hide SameLog;
    }
  }

  lemma ReserveMeans(s: System, c: nat, now: real) returns (target: Option<nat>)
    requires Enabled(s, Reserve(c, now)) && OrderKnown(s.channels[c].history)
    ensures c in Step(s, Reserve(c, now)).channels
    ensures
      var ch, ch' := s.channels[c], Step(s, Reserve(c, now)).channels[c];
      && ch.sender.Reserving?
      && if target.None? then ch'.history == ch.history && ch'.requests == ch.requests
         else if ch.sender.replay then
           target.value in ch.history.packets && ch' == CommitReplay(ch, s.next, target.value, now)
         else ch' == CommitNative(ch, s.next, ch.sender.body, now)
  {
    hide CommitReplay, CommitNative, LaneHasCapacity, OrderKnown;
    var ch := s.channels[c];
    var found := if ch.sender.replay then ReplayTarget(ch, ch.sender.body, now) else Some(0);
    target := if s.lane.closed || !LaneHasCapacity(s.lane, |ch.sender.body|) || ch.closed then None else found;
  }

  lemma CommitReplayLogs(ch: Channel, t: Task, target: nat, now: real, id: nat)
    requires target in ch.history.packets && t !in ch.requests.frames
    ensures
      var ch' := CommitReplay(ch, t, target, now);
      && (Carries(ch', t, id, true) <==> id == target)
      && if id == target then
           && id in ch'.history.packets && ch'.history.packets[id].replyId == ch.history.packets[id].replyId
           && ch'.history.packets[id].log == ch.history.packets[id].log + [Replayed(now)]
         else SameLog(ch.history, ch'.history, id)
  {}

  lemma CommitNativeLogs(ch: Channel, t: Task, body: bytes, now: real, id: nat)
    requires HistoryInv(ch.history, ch.sequence) && OrderKnown(ch.history)
    ensures
      var ch' := CommitNative(ch, t, body, now);
      var h, h' := ch.history, ch'.history;
      && !Carries(ch', t, id, true)
      && (SameLog(h, h', id)
          || (id !in h.packets && id in h'.packets && h'.packets[id].log == [] && h'.packets[id].replyId == None))
  {
    RecordLogs(ch.history, t, body, now, ch.sequence, id);
    hide Recorded, HistoryInv;
  }

  lemma ChannelOf(s: System, c: nat)
    requires SystemInv(s) && c in s.channels
    ensures
      var ch := s.channels[c];
      && HistoryInv(ch.history, ch.sequence) && LinkInv(ch.history, ch.requests.frames) && OrderKnown(ch.history)
      && ch.requests.frames.Keys == ch.requests.pending.Keys && TicketInv(s)
  {
    hide LaneInv, TicketInv, RequestsInv, HistoryInv, LinkInv, RepliesInv;
    SystemParts(s);
    Parts(s.channels[c]);
  }

  lemma ReturnLogs(s: System, e: Event, c: nat, id: nat)
    requires SystemInv(s) && Enabled(s, e) && e.PostReturned? && c in s.channels
    ensures c in Step(s, e).channels
    ensures
      var h, h' := s.channels[c].history, Step(s, e).channels[c].history;
      if BringsReply(s, e, c, id) then
        && id in h.packets && id in h'.packets && h'.packets[id].replyId == Some(ReplyId(s, e))
        && h'.packets[id].log ==
             h.packets[id].log + if h.packets[id].replyId == Some(ReplyId(s, e)) then [] else [NewReply]
      else SameLog(h, h', id)
  {
    hide SystemInv, OrderKnown, Complete;
    if c == e.c {
      CompleteLogs(s.channels[c], e.t, e.now, id);
    } else {
      SameLogItself(s.channels[c].history, id);
    }
    hide SameLog;
  }

  lemma StepLogs(s: System, e: Event, c: nat, id: nat, marks: seq<Mark>, last: Option<bytes>)
    requires SystemInv(s) && Enabled(s, e) && Logged(s, c, id, marks, last)
    ensures Logged(Step(s, e), c, id, marks + Marked(s, e, c, id, last), LastReply(s, e, c, id, last))
  {
    hide SystemInv, Enabled, Step;
    assert marks + [] == marks;
    if c !in s.channels {
      AbsentLogs(s, e, c, id);
    } else if e.Reserve? && e.c == c {
      ReserveLogs(s, c, e.now, id);
      hide StartsReplay;
    } else if e.PostReturned? {
      ReturnLogs(s, e, c, id);
      QuietFrames(s, e, c);
      NoReplayStarts(s, e, c, id);
      hide StartsReplay, BringsReply, ReplyId;
    } else {
      OtherLogs(s, e, c, id);
      NoReplayStarts(s, e, c, id);
      hide StartsReplay;
    }
  }

  lemma NoReplayStarts(s: System, e: Event, c: nat, id: nat)
    requires Enabled(s, e) && c in s.channels && c in Step(s, e).channels
    requires Step(s, e).channels[c].requests.frames.Keys <= s.channels[c].requests.frames.Keys
    ensures !StartsReplay(s, e, c, id)
  {
    hide Enabled, Step;
  }

  lemma OtherLogs(s: System, e: Event, c: nat, id: nat)
    requires SystemInv(s) && Enabled(s, e) && c in s.channels && !e.PostReturned? && !(e.Reserve? && e.c == c)
    ensures c in Step(s, e).channels && SameLog(s.channels[c].history, Step(s, e).channels[c].history, id)
    ensures Step(s, e).channels[c].requests.frames.Keys <= s.channels[c].requests.frames.Keys
  {
    if e.Reserve? {
      ReserveElsewhere(s, e.c, e.now, c);
      SameLogItself(s.channels[c].history, id);
    } else {
      QuietLogs(s, e, c, id);
      QuietFrames(s, e, c);
    }
    hide SystemInv, Enabled, Step, SameLog;
  }

  lemma ReserveElsewhere(s: System, d: nat, now: real, c: nat)
    requires Enabled(s, Reserve(d, now)) && c in s.channels && c != d
    ensures c in Step(s, Reserve(d, now)).channels && Step(s, Reserve(d, now)).channels[c] == s.channels[c]
  {
    hide OrderKnown, CommitReplay, CommitNative, LaneHasCapacity, ReplayTarget;
  }

  /** A channel that is not open yet, or opens with nothing in it. */
  lemma AbsentLogs(s: System, e: Event, c: nat, id: nat)
    requires Enabled(s, e) && c !in s.channels
    ensures !StartsReplay(s, e, c, id) && !BringsReply(s, e, c, id)
    ensures c in Step(s, e).channels ==> Step(s, e).channels[c].history.packets == map[]
  {
    hide OrderKnown, CommitReplay, CommitNative, Complete, Finish, Retire, Fail, CapacityCandidate, WaitsForRoom;
    hide ReplayDue, ReplacementChosen, ReplayTarget, LaneHasCapacity, HasCapacity, IsReply;
  }

  lemma {:induction false} RunLogs(s: System, es: seq<Event>, c: nat, id: nat, marks: seq<Mark>, last: Option<bytes>)
    requires SystemInv(s) && IsRun(s, es) && Logged(s, c, id, marks, last)
    ensures exists last' :: Logged(After(s, es), c, id, marks + Marks(s, es, c, id, last), last')
    decreases |es|
  {
    hide SystemInv, Enabled, Step, Logged, Marked, LastReply;
    if es == [] {
      assert marks + [] == marks;
      assert Logged(After(s, es), c, id, marks + Marks(s, es, c, id, last), last);
    } else {
      var e, s' := es[0], Step(s, es[0]);
      StepLogs(s, e, c, id, marks, last);
      StepKeeps(s, e);
      var more, next := Marked(s, e, c, id, last), LastReply(s, e, c, id, last);
      RunLogs(s', es[1..], c, id, marks + more, next);
      var rest := Marks(s', es[1..], c, id, next);
      var last' :| Logged(After(s', es[1..]), c, id, marks + more + rest, last');
      assert Marks(s, es, c, id, last) == more + rest && marks + more + rest == marks + (more + rest);
      assert Logged(After(s, es), c, id, marks + Marks(s, es, c, id, last), last');
    }
  }

  /**
    The replays of one packet that a run from the empty lane shows: at most 16, at least 2 seconds apart, none later
    than 30 seconds after the packet was first sent, and at most 3 between two replies that differ.
  */
  lemma ReplaysAreBounded(now: real, es: seq<Event>, c: nat, id: nat)
    requires now > 0.0 && IsRun(Initial(now), es)
    ensures
      var s, marks := After(Initial(now), es), Marks(Initial(now), es, c, id, None);
      var times := ReplayTimes(marks);
      && |times| <= 16
      && (forall i :: 0 < i < |times| ==> times[i] - times[i - 1] >= 2.0)
      && (times != [] ==>
            && c in s.channels && id in s.channels[c].history.packets
            && s.channels[c].history.packets[id].sentAt <= times[0]
            && times[|times| - 1] <= s.channels[c].history.packets[id].sentAt + 30.0)
      && (forall i: nat, j: nat :: i <= j <= |marks| && OnlyReplays(marks, i, j) ==> j - i <= 3)
  {
    hide SystemInv, Enabled, Step, IsRun, After, Marks, Spaced, ReplayTimes;
    InitialHolds(now);
    var s, marks := After(Initial(now), es), Marks(Initial(now), es, c, id, None);
    RunLogs(Initial(now), es, c, id, [], None);
    assert [] + marks == marks;
    var last' :| Logged(s, c, id, marks, last');
    if c in s.channels && id in s.channels[c].history.packets {
      assert Reachable(s);
      ReplayIsBoundedOnEveryRun(s, c, id);
      SpacedMeans(ReplayTimes(marks));
    } else {
      assert ReplayTimes([]) == [] by { NoTimes(); }
    }
  }

  lemma SpacedMeans(times: seq<real>)
    requires Spaced(times)
    ensures forall i :: 0 < i < |times| ==> times[i] - times[i - 1] >= 2.0
  {}

  lemma NoTimes()
    ensures ReplayTimes([]) == []
  {}
}
