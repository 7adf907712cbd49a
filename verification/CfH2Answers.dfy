/** From a response to the client: it is queued whole, and what is queued is handed out. */
module CfH2Answers {
  import opened Prelude
  import opened Bytes
  import opened CfH2Channel
  import opened CfH2Invariants
  import opened CfH2System
  import opened CfH2Safety
  import opened CfH2Theorems
  import opened CfH2Delivery
  import opened CfH2Recovery
  import opened CfH2Requests

  // ----- A response arrives

  /** An empty response is no reply. */
  function Nonempty(reply: bytes): seq<bytes> {
    if reply == [] then [] else [reply]
  }

  function Chunks(c: nat, t: Task, pieces: seq<bytes>, now: real): seq<Event> {
    if pieces == [] then [] else [Chunk(c, t, pieces[0], now)] + Chunks(c, t, pieces[1..], now)
  }

  /** A channel with more of a response, whenever it last made progress. */
  function Received(ch: Channel, t: Task, data: bytes, progress: real): Channel
    requires t in ch.requests.frames
  {
    var f := ch.requests.frames[t];
    ch.(requests := ch.requests.(frames := ch.requests.frames[t := f.(content := f.content + data)]),
        lastProgress := progress)
  }

  lemma NothingReceived(s: System, c: nat, t: Task)
    requires Running(s, c, t)
    ensures IsRun(s, []) && After(s, []) == s
    ensures s.channels == s.channels[c := Received(s.channels[c], t, [], s.channels[c].lastProgress)]
  {
    var f := s.channels[c].requests.frames[t];
    assert f.content + [] == f.content;
    assert s.channels[c].requests.frames == s.channels[c].requests.frames[t := f];
  }

  lemma RunHead(s: System, e: Event, rest: seq<Event>)
    requires Enabled(s, e) && IsRun(Step(s, e), rest)
    ensures IsRun(s, [e] + rest) && After(s, [e] + rest) == After(Step(s, e), rest)
  {
    assert ([e] + rest)[1..] == rest;
    hide Enabled, Step;
  }

  lemma {:induction false} ChunksArrive(s: System, c: nat, t: Task, pieces: seq<bytes>, now: real)
    requires Running(s, c, t) && t in s.channels[c].requests.receiving && s.clock <= now
    requires |s.channels[c].requests.frames[t].content| + |Join(pieces)| <= 4 * 1024 * 1024
    requires s.lane.replyBuffer + |Join(pieces)| <= 32 * 1024 * 1024
    ensures IsRun(s, Chunks(c, t, pieces, now))
    ensures
      var s' := After(s, Chunks(c, t, pieces, now));
      && c in s'.channels && s'.clock <= now
      && s' == s.(channels := s.channels[c := Received(s.channels[c], t, Join(pieces), s'.channels[c].lastProgress)],
                  lane := s.lane.(replyBuffer := s.lane.replyBuffer + |Join(pieces)|), clock := s'.clock)
    decreases |pieces|
  {
    if pieces == [] {
      NothingReceived(s, c, t);
    } else {
      var data, more := pieces[0], pieces[1..];
      var s1 := ChunkArrives(s, c, t, data, now);
      ChunksArrive(s1, c, t, more, now);
      RunHead(s, Chunk(c, t, data, now), Chunks(c, t, more, now));
      var s2 := After(s1, Chunks(c, t, more, now));
      assert Join(pieces) == data + Join(more);
      hide Join, Enabled, Step, IsRun, After;
      ReceivedTwice(s.channels[c], t, data, Join(more), now, s2.channels[c].lastProgress);
      assert s.channels[c := s2.channels[c]] == s1.channels[c := s2.channels[c]];
    }
  }

  lemma ReceivedTwice(ch: Channel, t: Task, a: bytes, b: bytes, p: real, q: real)
    requires t in ch.requests.frames
    ensures Received(Received(ch, t, a, p), t, b, q) == Received(ch, t, a + b, q)
  {
    var f := ch.requests.frames[t];
    assert f.content + a + b == f.content + (a + b);
  }

  lemma ChunkArrives(s: System, c: nat, t: Task, data: bytes, now: real) returns (s1: System)
    requires Running(s, c, t) && t in s.channels[c].requests.receiving && s.clock <= now
    requires |s.channels[c].requests.frames[t].content| + |data| <= 4 * 1024 * 1024
    requires s.lane.replyBuffer + |data| <= 32 * 1024 * 1024
    ensures Enabled(s, Chunk(c, t, data, now)) && s1 == Step(s, Chunk(c, t, data, now))
    ensures s1 == s.(channels := s.channels[c := Received(s.channels[c], t, data, now)],
                     lane := s.lane.(replyBuffer := s.lane.replyBuffer + |data|), clock := now)
    ensures Running(s1, c, t)
  {
    s1 := Step(s, Chunk(c, t, data, now));
  }

  lemma StartArrives(s: System, c: nat, t: Task, now: real)
    requires Running(s, c, t) && s.clock <= now
    ensures
      var s1 := Step(s, ResponseStart(c, t, now));
      && Enabled(s, ResponseStart(c, t, now)) && Running(s1, c, t)
      && s1 == s.(channels := s.channels[c := ResponseStarted(s.channels[c], t, now)], clock := now)
  {}

  /** What is left of a system once a request has ended and its slot is back. */
  lemma EndArrives(s: System, c: nat, t: Task, now: real)
    requires Running(s, c, t) && s.clock <= now && IsReply(s.channels[c].requests.frames[t].content)
    ensures
      var e := PostReturned(c, t, now);
      && Enabled(s, e) && Enabled(Step(s, e), Release(t))
      && var s2 := Step(Step(s, e), Release(t));
         && c in s2.channels && s2.channels[c].replies == Complete(s.channels[c], t, now).replies
         && s2.channels[c].closed == Complete(s.channels[c], t, now).closed
         && s2.channels[c].requests == RemoveRequest(s.channels[c].requests, t)
         && t in s2.released && t !in s2.releasing
  {
    CompleteRemoves(s.channels[c], t, now);
    hide Complete, RemoveRequest, OrderKnown;
  }

  lemma CompleteRemoves(ch: Channel, t: Task, now: real)
    requires t in ch.requests.frames && t in ch.requests.pending && OrderKnown(ch.history)
    requires ch.requests.frames[t].packet.Some? ==> ch.requests.frames[t].packet.value in ch.history.packets
    ensures Complete(ch, t, now).requests == RemoveRequest(ch.requests, t)
  {
    hide Detach, OwnerIn, RemoveRequest, NoteReply, ReplyFits, Enqueue;
  }

  /**
    A response with room for it, in whatever pieces it comes: it waits whole behind the others, its request is gone
    from every table, and its slot is back at the lane.
  */
  lemma AnswerIsQueued(s: System, c: nat, t: Task, pieces: seq<bytes>, now: real)
    requires Reachable(s) && IsOpen(s, c) && t in s.channels[c].requests.frames && s.clock <= now
    requires s.channels[c].requests.frames[t].content == []
    requires |Join(pieces)| % 4 == 0 && |Join(pieces)| <= 4 * 1024 * 1024
    requires |Join(pieces)| == 4 ==> Join(pieces)[3] < 0x80
    requires s.lane.replyBuffer + |Join(pieces)| <= 32 * 1024 * 1024
    requires !TooMuch(Waiting(s.channels[c].replies.queue), Join(pieces))
    ensures
      var run := [ResponseStart(c, t, now)] + Chunks(c, t, pieces, now) + [PostReturned(c, t, now), Release(t)];
      && IsRun(s, run) && IsOpen(After(s, run), c)
      && var ch, ch' := s.channels[c], After(s, run).channels[c];
         && Waiting(ch'.replies.queue) == Waiting(ch.replies.queue) + Nonempty(Join(pieces))
         && ch'.requests.pending == ch.requests.pending - {t} && ch'.requests.frames == ch.requests.frames - {t}
         && ch'.replies.delivering == ch.replies.delivering
         && t in After(s, run).released && t !in After(s, run).releasing
  {
    hide SystemInv, Running, Reachable, Enabled, Step, IsRun, After, Waiting, TooMuch, Join;
    StillKnown(s, c);
    StartArrives(s, c, t, now);
    var start, chunks := [ResponseStart(c, t, now)], Chunks(c, t, pieces, now);
    var s1 := Step(s, ResponseStart(c, t, now));
    RunOfOne(s, ResponseStart(c, t, now));
    ReachableOn(s, start);
    assert s1.channels[c].requests.frames == s.channels[c].requests.frames;
    ChunksArrive(s1, c, t, pieces, now);
    var s2 := After(s1, chunks);
    ReachableOn(s1, chunks);
    assert [] + Join(pieces) == Join(pieces);
    StillKnown(s2, c);
    EndArrives(s2, c, t, now);
    RepliesHold(s2, c);
    CompleteQueues(s2.channels[c], t, now);
    RunOfTwo(s2, PostReturned(c, t, now), Release(t));
    RunsJoin(s, start, chunks);
    RunsJoin(s, start + chunks, [PostReturned(c, t, now), Release(t)]);
  }

  lemma RunOfOne(s: System, a: Event)
    requires Enabled(s, a)
    ensures IsRun(s, [a]) && After(s, [a]) == Step(s, a)
  {
    hide Enabled, Step;
    assert IsRun(Step(s, a), []) && After(Step(s, a), []) == Step(s, a);
  }

  lemma RunOfTwo(s: System, a: Event, b: Event)
    requires Enabled(s, a) && Enabled(Step(s, a), b)
    ensures IsRun(s, [a, b]) && After(s, [a, b]) == Step(Step(s, a), b)
  {
    hide Enabled, Step;
    RunOfOne(Step(s, a), b);
    RunHead(s, a, [b]);
    assert [a] + [b] == [a, b];
  }

  lemma CompleteQueues(ch: Channel, t: Task, now: real)
    requires RepliesInv(ch.replies, false) && !ch.closed && OrderKnown(ch.history) && t in ch.requests.frames
    requires ch.requests.frames[t].packet.Some? ==> ch.requests.frames[t].packet.value in ch.history.packets
    requires !TooMuch(Waiting(ch.replies.queue), ch.requests.frames[t].content)
    ensures
      var ch', content := Complete(ch, t, now), ch.requests.frames[t].content;
      && !ch'.closed && ch'.replies.delivering == ch.replies.delivering
      && Waiting(ch'.replies.queue) == Waiting(ch.replies.queue) + Nonempty(content)
  {
    OnlyReplies(ch.replies.queue);
    WaitingAppend(ch.replies.queue, ch.requests.frames[t].content);
    hide Detach, OwnerIn, RemoveRequest, NoteReply, Waiting, QueueBytes, OrderKnown;
  }

  // ----- What waits is handed out

  function HandOver(c: nat, n: nat, now: real): seq<Event> {
    if n == 0 then [] else [Take(c), WriteDone(c, now)] + HandOver(c, n - 1, now)
  }

  lemma OneHandedOver(s: System, c: nat, now: real)
    requires IsOpen(s, c) && RepliesInv(s.channels[c].replies, false) && s.clock <= now
    requires Waiting(s.channels[c].replies.queue) != [] && !s.channels[c].replies.delivering
    ensures Enabled(s, Take(c)) && Enabled(Step(s, Take(c)), WriteDone(c, now))
    ensures
      var waiting, s2 := Waiting(s.channels[c].replies.queue), Step(Step(s, Take(c)), WriteDone(c, now));
      && HandedOut(s, Take(c), c) == waiting[..1] && IsOpen(s2, c) && s2.clock == now
      && Waiting(s2.channels[c].replies.queue) == waiting[1..] && !s2.channels[c].replies.delivering
      && s2.channels[c].requests == s.channels[c].requests
  {
    OnlyReplies(s.channels[c].replies.queue);
    OneWaiting(s.channels[c].replies.queue);
    hide Waiting;
  }

  /** With a client that goes on reading, all that waits is handed out, in order, and nothing holds recovery back. */
  lemma {:induction false} WaitingIsHandedOut(s: System, c: nat, now: real)
    requires Reachable(s) && IsOpen(s, c) && s.clock <= now && !s.channels[c].replies.delivering
    ensures
      var waiting := Waiting(s.channels[c].replies.queue);
      var run := HandOver(c, |waiting|, now);
      && IsRun(s, run) && AllHandedOut(s, run, c) == waiting
      && IsOpen(After(s, run), c) && !NativeBackpressure(After(s, run).channels[c].replies)
      && After(s, run).channels[c].requests == s.channels[c].requests
    decreases |Waiting(s.channels[c].replies.queue)|
  {
    hide Enabled, Step, Reachable, HandedOut, Waiting, IsRun, After, AllHandedOut;
    var waiting := Waiting(s.channels[c].replies.queue);
    RepliesHold(s, c);
    if waiting == [] {
      NothingHandedOut(s, c);
      QueueTells(s.channels[c].replies);
      assert Join([]) == [];
    } else {
      OneHandedOver(s, c, now);
      var s2 := Step(Step(s, Take(c)), WriteDone(c, now));
      RunOfTwo(s, Take(c), WriteDone(c, now));
      ReachableOn(s, [Take(c), WriteDone(c, now)]);
      WaitingIsHandedOut(s2, c, now);
      RunsJoin(s, [Take(c), WriteDone(c, now)], HandOver(c, |waiting| - 1, now));
      TakeHandsOut(s, c, HandOver(c, |waiting| - 1, now), now);
      assert waiting[..1] + waiting[1..] == waiting;
    }
  }

  lemma NothingHandedOut(s: System, c: nat)
    ensures IsRun(s, []) && After(s, []) == s && AllHandedOut(s, [], c) == []
  {}

  lemma TakeHandsOut(s: System, c: nat, rest: seq<Event>, now: real)
    requires Enabled(s, Take(c)) && Enabled(Step(s, Take(c)), WriteDone(c, now))
    requires IsRun(Step(Step(s, Take(c)), WriteDone(c, now)), rest)
    ensures IsRun(s, [Take(c), WriteDone(c, now)] + rest)
    ensures AllHandedOut(s, [Take(c), WriteDone(c, now)] + rest, c) ==
            HandedOut(s, Take(c), c) + AllHandedOut(Step(Step(s, Take(c)), WriteDone(c, now)), rest, c)
  {
    var run := [Take(c), WriteDone(c, now)] + rest;
    assert run[1..] == [WriteDone(c, now)] + rest && ([WriteDone(c, now)] + rest)[1..] == rest;
    hide Enabled, Step;
    var s1 := Step(s, Take(c));
    RunHead(s1, WriteDone(c, now), rest);
    RunHead(s, Take(c), [WriteDone(c, now)] + rest);
    assert run == [Take(c)] + ([WriteDone(c, now)] + rest);
    assert HandedOut(s1, WriteDone(c, now), c) == [];
  }
}
