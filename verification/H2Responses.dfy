/**
  What a consumer of an HTTP/2 response sees of what the peer sent (proxy/h2_transport.py), over every run. What the
  peer sent is told from the steps of the run alone.
*/
module H2Responses {
  import opened Prelude
  import opened Bytes
  import opened H2Receive

  // ----- The peer's story

  /** A stream since its slot was taken: payloads, end, reset, and whether the connection broke before its end. */
  datatype Story = Story(payloads: seq<bytes>, ended: bool, reset: bool, broken: bool)

  function Hear(s: Story, e: Event, id: StreamId): Story {
    match e
    case Data(i, data, _) => if i == id && data != [] then s.(payloads := s.payloads + [data]) else s
    case End(i) => if i == id then s.(ended := true) else s
    case Reset(i) => if i == id then s.(reset := true) else s
    case _ => s
  }

  function Broken(s: Story): Story {
    s.(broken := s.broken || !s.ended)
  }

  /** A batch, read up to its GOAWAY. */
  function Told(s: Story, events: seq<Event>, id: StreamId): Story
    decreases |events|
  {
    if events == [] then s
    else if events[0].GoAway? then Broken(s)
    else Told(Hear(s, events[0], id), events[1..], id)
  }

  function ToldStep(story: Option<Story>, step: Step, id: StreamId): Option<Story> {
    match step
    case Reserve(i, _) => if i == id then Some(Story([], false, false, false)) else story
    case Close(i) => if i == id then None else story
    case Batch(events) => if story.Some? then Some(Told(story.value, events, id)) else None
    case Break => if story.Some? then Some(Broken(story.value)) else None
    case _ => story
  }

  /** The story of a stream as the steps go on; there is none while its slot is free. */
  function ToldRun(story: Option<Story>, steps: seq<Step>, id: StreamId): Option<Story>
    decreases |steps|
  {
    if steps == [] then story else ToldRun(ToldStep(story, steps[0], id), steps[1..], id)
  }

  /** What the iterator has handed out since the slot was taken. */
  function Yielded(c: Connection, steps: seq<Step>, id: StreamId, before: seq<bytes>): seq<bytes>
    requires IsRun(c, steps)
    decreases |steps|
  {
    if steps == [] then before
    else
      var now :=
        match steps[0]
        case Reserve(i, _) => if i == id then [] else before
        case Take(i) => if i == id then before + [NextTurn(c.streams[id]).data] else before
        case _ => before;
      Yielded(Apply(c, steps[0]), steps[1..], id, now)
  }

  predicate Fails(step: Step) {
    step.Break? || (step.Batch? && GoAway in step.events)
  }

  // ----- The connection follows it

  predicate Matches(s: Stream, story: Story) {
    s.received == story.payloads && s.ended == story.ended && s.error == (story.reset || story.broken)
  }

  predicate Follows(c: Connection, id: StreamId, story: Option<Story>) {
    && (id in c.streams <==> story.Some?)
    && (story.Some? ==> Matches(c.streams[id], story.value))
  }

  /** Without a GOAWAY. */
  lemma {:induction false} HandleAllFollows(c: Connection, events: seq<Event>, terminated: bool, id: StreamId,
                                            story: Story)
    requires GoAway !in events && Follows(c, id, Some(story))
    ensures Follows(HandleAll(c, events, terminated), id, Some(Told(story, events, id)))
    decreases |events|
  {
    if events != [] {
      assert events[0] in events && forall e <- events[1..] :: e in events;
      HandleFollows(c, events[0], terminated, id, story);
      HandleAllFollows(Handle(c, events[0], terminated), events[1..], terminated, id, Hear(story, events[0], id));
    }
  }

  lemma HandleFollows(c: Connection, e: Event, terminated: bool, id: StreamId, story: Story)
    requires e != GoAway && Follows(c, id, Some(story))
    ensures Follows(Handle(c, e, terminated), id, Some(Hear(story, e, id)))
  {}

  /** Everything up to the GOAWAY is read, and then the connection fails. */
  lemma {:induction false} ToldToGoAway(story: Story, events: seq<Event>, id: StreamId)
    requires GoAway in events
    ensures GoAway !in BeforeGoAway(events)
    ensures Told(story, events, id) == Broken(Told(story, BeforeGoAway(events), id))
    decreases |events|
  {
    if !events[0].GoAway? {
      assert BeforeGoAway(events)[1..] == BeforeGoAway(events[1..]) && events == [events[0]] + events[1..];
      ToldToGoAway(Hear(story, events[0], id), events[1..], id);
    }
  }

  lemma BatchFollows(c: Connection, events: seq<Event>, id: StreamId, story: Option<Story>)
    requires !c.error && Follows(c, id, story)
    ensures Follows(ReadBatch(c, events), id, ToldStep(story, Batch(events), id))
  {
    var charged := Charged(c, events);
    HandleAllFrame(charged, events, false);
    HandleAllFrame(charged, BeforeGoAway(events), true);
    if story.Some? {
      assert Follows(charged, id, story);
      if GoAway in events {
        ToldToGoAway(story.value, events, id);
        HandleAllFollows(charged, BeforeGoAway(events), true, id, story.value);
      } else {
        HandleAllFollows(charged, events, false, id, story.value);
      }
    }
  }

  /** A connection that has failed leaves only ended streams without an error. */
  predicate AllTold(c: Connection) {
    c.error ==> forall id <- c.streams :: c.streams[id].ended || c.streams[id].error
  }

  lemma StepFollows(c: Connection, step: Step, id: StreamId, story: Option<Story>)
    requires Enabled(c, step) && AllTold(c) && Follows(c, id, story)
    ensures AllTold(Apply(c, step)) && Follows(Apply(c, step), id, ToldStep(story, step, id))
    ensures Apply(c, step).error <==> c.error || Fails(step)
  {
    hide ReadBatch, Told;
    if step.Batch? {
      BatchFollows(c, step.events, id, story);
      BatchFails(c, step.events);
    }
  }

  lemma BatchFails(c: Connection, events: seq<Event>)
    requires !c.error
    ensures AllTold(ReadBatch(c, events)) && (ReadBatch(c, events).error <==> GoAway in events)
  {
    HandleAllFrame(Charged(c, events), events, false);
    HandleAllFrame(Charged(c, events), BeforeGoAway(events), true);
  }

  lemma {:induction false} RunFollows(c: Connection, steps: seq<Step>, id: StreamId, story: Option<Story>)
    requires IsRun(c, steps) && AllTold(c) && Follows(c, id, story)
    ensures Follows(After(c, steps), id, ToldRun(story, steps, id)) && AllTold(After(c, steps))
    ensures After(c, steps).error <==> c.error || exists step <- steps :: Fails(step)
    decreases |steps|
  {
    hide Enabled, Apply, Follows, AllTold, ToldStep, Fails;
    if steps != [] {
      StepFollows(c, steps[0], id, story);
      RunFollows(Apply(c, steps[0]), steps[1..], id, ToldStep(story, steps[0], id));
      assert steps[0] in steps && forall step <- steps[1..] :: step in steps;
      assert (exists step <- steps :: Fails(step)) <==> Fails(steps[0]) || exists step <- steps[1..] :: Fails(step);
    }
  }

  predicate Handed(c: Connection, id: StreamId, yielded: seq<bytes>) {
    id in c.streams ==> c.streams[id].delivered == yielded
  }

  lemma BatchHands(c: Connection, events: seq<Event>, id: StreamId)
    ensures id in c.streams <==> id in ReadBatch(c, events).streams
    ensures id in c.streams ==> ReadBatch(c, events).streams[id].delivered == c.streams[id].delivered
  {
    HandleAllHands(Charged(c, events), events, false, id);
    HandleAllHands(Charged(c, events), BeforeGoAway(events), true, id);
  }

  lemma {:induction false} HandleAllHands(c: Connection, events: seq<Event>, terminated: bool, id: StreamId)
    ensures id in c.streams <==> id in HandleAll(c, events, terminated).streams
    ensures id in c.streams ==> HandleAll(c, events, terminated).streams[id].delivered == c.streams[id].delivered
    decreases |events|
  {
    if events != [] {
      HandleAllHands(Handle(c, events[0], terminated), events[1..], terminated, id);
    }
  }

  lemma {:induction false} RunHands(c: Connection, steps: seq<Step>, id: StreamId, yielded: seq<bytes>)
    requires IsRun(c, steps) && Handed(c, id, yielded)
    ensures Handed(After(c, steps), id, Yielded(c, steps, id, yielded))
    decreases |steps|
  {
    hide ReadBatch, Acceptable;
    if steps != [] {
      var now :=
        match steps[0]
        case Reserve(i, _) => if i == id then [] else yielded
        case Take(i) => if i == id then yielded + [NextTurn(c.streams[id]).data] else yielded
        case _ => yielded;
      if steps[0].Batch? { BatchHands(c, steps[0].events, id); }
      assert Handed(Apply(c, steps[0]), id, now);
      RunHands(Apply(c, steps[0]), steps[1..], id, now);
    }
  }

  // ----- The guarantees, over every run

  /**
    A consumer sees exactly what the peer sent: the payloads in order, then the normal end if the peer ended the
    stream, or an error as soon as the stream is reset or the connection breaks before its end, and otherwise it waits.
  */
  lemma ConsumerSeesThePeer(c: Connection, maxStreams: nat, steps: seq<Step>, id: StreamId)
    requires Reachable(c, maxStreams, steps)
    ensures id in c.streams <==> ToldRun(None, steps, id).Some?
    ensures c.error <==> exists step <- steps :: Fails(step)
    ensures id in c.streams ==>
      var story := ToldRun(None, steps, id).value;
      var yielded := Yielded(NewConnection(maxStreams), steps, id, []);
      && yielded <= story.payloads
      && NextTurn(c.streams[id]) ==
           if story.reset || story.broken then Raises
           else if |yielded| < |story.payloads| then Yields(story.payloads[|yielded|])
           else if story.ended then Stops
           else Waits
  {
    ReachableHolds(c, maxStreams, steps);
    RunFollows(NewConnection(maxStreams), steps, id, None);
    RunHands(NewConnection(maxStreams), steps, id, []);
    if id in c.streams {
      assert DeliveryInv(c.streams[id]);
      NextPayload(c.streams[id].chunks);
    }
  }

  lemma NextPayload(chunks: seq<Chunk>)
    ensures Payloads(chunks) == [] <==> chunks == []
    ensures chunks != [] ==> Payloads(chunks)[0] == chunks[0].data
  {}

  /** The iterator ends normally if and only if the peer has ended the stream and every payload is handed out. */
  lemma EndMeansComplete(c: Connection, maxStreams: nat, steps: seq<Step>, id: StreamId)
    requires Reachable(c, maxStreams, steps) && id in c.streams
    ensures ToldRun(None, steps, id).Some?
    ensures
      var story := ToldRun(None, steps, id).value;
      NextTurn(c.streams[id]).Stops? <==>
        && story.ended && !story.reset && !story.broken
        && Yielded(NewConnection(maxStreams), steps, id, []) == story.payloads
  {
    ConsumerSeesThePeer(c, maxStreams, steps, id);
  }

  /** A slot may be taken exactly while the connection works and fewer streams are open than both ends allow. */
  lemma SlotIsFree(c: Connection, maxStreams: nat, steps: seq<Step>, id: StreamId, limit: nat)
    requires Reachable(c, maxStreams, steps)
    ensures Enabled(c, Reserve(id, limit)) <==>
              && ToldRun(None, steps, id).None? && !(exists step <- steps :: Fails(step))
              && |c.streams| < maxStreams && |c.streams| < limit
  {
    ConsumerSeesThePeer(c, maxStreams, steps, id);
    MaxStreamsFixed(NewConnection(maxStreams), steps);
  }

  /**
    A consumer that is done with a chunk returns its credit in batches: the peer's window stays while more waits and
    less than 64 KiB have come together, and otherwise opens by all of it.
  */
  lemma CreditIsReturned(c: Connection, maxStreams: nat, steps: seq<Step>, id: StreamId)
    requires Reachable(c, maxStreams, steps) && !c.error && Enabled(c, Done(id)) && Live(c.streams[id])
    ensures id in Apply(c, Done(id)).streams
    ensures
      var s, s' := c.streams[id], Apply(c, Done(id)).streams[id];
      var total := s.consumedCredit + s.inHand.value.credit;
      && s'.inHand.None?
      && if s.chunks != [] && total < 64 * 1024 then s'.window == s.window && s'.consumedCredit == total
         else s'.window == s.window + total && s'.consumedCredit == 0
  {
    ReachableHolds(c, maxStreams, steps);
    assert StreamInv(c.streams[id], 0);
  }

  // ----- Responses that are complete

  lemma {:induction false} NoDataWhenDone(events: seq<Event>, done: set<StreamId>, id: StreamId)
    requires InOrder(events, done) && id in done
    ensures forall e <- events :: e.Data? ==> e.id != id
  {
    if events != [] {
      NoDataWhenDone(events[1..], DoneAfter(events[0], done), id);
    }
  }

  /** After its end nothing is added to a story but a reset. */
  lemma {:induction false} NothingAdded(s: Story, events: seq<Event>, id: StreamId)
    requires s.ended && forall e <- events :: e.Data? ==> e.id != id
    ensures Told(s, events, id) == s.(reset := Told(s, events, id).reset)
    decreases |events|
  {
    if events != [] {
      assert events[0] in events && forall e <- events[1..] :: e in events;
      NothingAdded(Hear(s, events[0], id), events[1..], id);
    }
  }

  lemma StepAdds(c: Connection, step: Step, id: StreamId, story: Story)
    requires Enabled(c, step) && step != Close(id) && Follows(c, id, Some(story)) && story.ended
    ensures ToldStep(Some(story), step, id).Some?
    ensures
      var after := ToldStep(Some(story), step, id).value;
      after == story.(reset := after.reset)
  {
    if step.Batch? {
      NoDataWhenDone(step.events, FinishedIds(c), id);
      NothingAdded(story, step.events, id);
    }
  }

  lemma {:induction false} RunAdds(c: Connection, more: seq<Step>, id: StreamId, story: Story)
    requires IsRun(c, more) && AllTold(c) && Close(id) !in more && Follows(c, id, Some(story)) && story.ended
    ensures ToldRun(Some(story), more, id).Some?
    ensures
      var after := ToldRun(Some(story), more, id).value;
      after == story.(reset := after.reset)
    decreases |more|
  {
    hide Enabled, Apply, Follows, AllTold, ToldStep;
    if more != [] {
      assert more[0] in more && forall step <- more[1..] :: step in more;
      StepAdds(c, more[0], id, story);
      StepFollows(c, more[0], id, Some(story));
      RunAdds(Apply(c, more[0]), more[1..], id, ToldStep(Some(story), more[0], id).value);
    }
  }

  /** The consumer's own steps to the end of a response. */
  function Drain(id: StreamId, inHand: bool, chunks: nat): seq<Step>
    decreases chunks
  {
    (if inHand then [Done(id)] else []) + (if chunks == 0 then [] else [Take(id)] + Drain(id, true, chunks - 1))
  }

  lemma RunCons(c: Connection, step: Step, rest: seq<Step>)
    requires Enabled(c, step) && IsRun(Apply(c, step), rest)
    ensures IsRun(c, [step] + rest) && After(c, [step] + rest) == After(Apply(c, step), rest)
  {
    hide Enabled, Apply;
    assert ([step] + rest)[1..] == rest;
  }

  /** It gets there: nothing but the consumer has to act. */
  lemma {:induction false} CompleteResponseDrains(c: Connection, id: StreamId)
    requires id in c.streams && c.streams[id].ended && !c.streams[id].error && DeliveryInv(c.streams[id])
    ensures
      var s := c.streams[id];
      var steps := Drain(id, s.inHand.Some?, |s.chunks|);
      && IsRun(c, steps) && id in After(c, steps).streams
      && NextTurn(After(c, steps).streams[id]).Stops? && After(c, steps).streams[id].delivered == s.received
    decreases |c.streams[id].chunks|, c.streams[id].inHand.Some?
  {
    hide IsRun, After;
    var s := c.streams[id];
    EmptyRun(c);
    if s.inHand.Some? {
      CompleteResponseDrains(Apply(c, Done(id)), id);
      RunCons(c, Done(id), Drain(id, false, |s.chunks|));
      assert Drain(id, true, |s.chunks|) == [Done(id)] + Drain(id, false, |s.chunks|);
    } else if s.chunks != [] {
      PopKeeps(s);
      CompleteResponseDrains(Apply(c, Take(id)), id);
      RunCons(c, Take(id), Drain(id, true, |s.chunks| - 1));
      assert Drain(id, false, |s.chunks|) == [Take(id)] + Drain(id, true, |s.chunks| - 1);
    }
  }

  lemma EmptyRun(c: Connection)
    ensures IsRun(c, []) && After(c, []) == c
  {}

  /**
    A response whose end has been read: whatever follows, a failure of the whole connection included, it is not lost
    and never waits, and it raises an error if and only if the peer resets the stream all the same. Otherwise its
    consumer alone gets to the end, and by then has been handed everything the peer had sent.
  */
  lemma CompleteResponseSurvives(c: Connection, maxStreams: nat, steps: seq<Step>, more: seq<Step>, id: StreamId,
                                 story: Story)
    requires Reachable(c, maxStreams, steps) && ToldRun(None, steps, id) == Some(story)
    requires story.ended && !story.reset && !story.broken && IsRun(c, more) && Close(id) !in more
    ensures id in After(c, more).streams && ToldRun(Some(story), more, id).Some?
    ensures
      var c' := After(c, more);
      var s := c'.streams[id];
      var yielded := Yielded(c, more, id, Yielded(NewConnection(maxStreams), steps, id, []));
      && !NextTurn(s).Waits?
      && (NextTurn(s).Raises? <==> ToldRun(Some(story), more, id).value.reset)
      && (!NextTurn(s).Raises? ==>
            var drain := Drain(id, s.inHand.Some?, |s.chunks|);
            && IsRun(c', drain) && id in After(c', drain).streams
            && NextTurn(After(c', drain).streams[id]).Stops?
            && Yielded(c', drain, id, yielded) == story.payloads)
  {
    var before := Yielded(NewConnection(maxStreams), steps, id, []);
    hide Enabled, Apply, DeliveryInv;
    ReachableHolds(c, maxStreams, steps);
    RunFollows(NewConnection(maxStreams), steps, id, None);
    RunHands(NewConnection(maxStreams), steps, id, []);
    RunKeeps(c, more);
    RunFollows(c, more, id, Some(story));
    RunHands(c, more, id, before);
    RunAdds(c, more, id, story);
    var c' := After(c, more);
    var s := c'.streams[id];
    assert DeliveryInv(s);
    hide IsRun, After, ConnectionInv;
    if !s.error {
      CompleteResponseDrains(c', id);
      RunHands(c', Drain(id, s.inHand.Some?, |s.chunks|), id, Yielded(c, more, id, before));
    }
  }

  /** A connection with one stream, between batches. */
  function OneStream(s: Stream): Connection {
    Connection(map[1 := s], CONNECTION_RECEIVE_WINDOW, false, 1)
  }

  lemma OneEvent(s: Stream, e: Event)
    requires e.Data? || e.End? || e.Reset?
    requires e.id == 1 && (e.Data? ==> Live(s) && 0 < |e.data| <= e.credit <= s.window <= STREAM_RECEIVE_WINDOW)
    requires 0 <= s.window
    ensures
      var step := Batch([e]);
      && Enabled(OneStream(s), step)
      && Apply(OneStream(s), step) == OneStream(
           match e
           case Data(_, data, credit) =>
             s.(window := s.window - credit, chunks := s.chunks + [Chunk(data, credit)],
                received := s.received + [data])
           case End(_) => s.(ended := true)
           case Reset(_) => s.(error := true, open := false))
  {
    var c := OneStream(s);
    assert [e][1..] == [] && TotalCredit([]) == 0 && StreamCredit([], 1) == 0;
    assert TotalCredit([e]) == CreditOf(e) && StreamCredit([e], 1) == CreditOf(e);
    assert InOrder([e], FinishedIds(c));
    var charged := Charged(c, [e]);
    assert charged.streams == map[1 := s.(window := s.window - CreditOf(e))];
    assert HandleAll(charged, [e], false) == Handle(charged, e, false);
    assert GoAway !in [e];
  }

  /** A reset that does follow the end, and spoils a response that was received whole. */
  lemma ResetSpoilsCompleteResponse()
    ensures
      var steps := [Reserve(1, 1)] + ([Batch([Data(1, [7], 1)])] + ([Batch([End(1)])] + ([Batch([Reset(1)])] + [])));
      && IsRun(NewConnection(1), steps)
      && ToldRun(None, steps, 1) == Some(Story([[7]], true, true, false))
      && var s := After(NewConnection(1), steps).streams;
         1 in s && s[1].delivered == [] && NextTurn(s[1]).Raises?
  {
    var data, end, reset := Data(1, [7], 1), End(1), Reset(1);
    var s0 := NewStream();
    var s1 := s0.(window := s0.window - 1, chunks := [Chunk([7], 1)], received := [[7]]);
    var s2 := s1.(ended := true);
    var s3 := s2.(error := true, open := false);
    assert Apply(NewConnection(1), Reserve(1, 1)) == OneStream(s0);
    assert [] + [Chunk([7], 1)] == [Chunk([7], 1)] && [] + [[7]] == [[7]];
    OneEvent(s0, data);
    OneEvent(s1, end);
    OneEvent(s2, reset);
    EmptyRun(OneStream(s3));
    hide Apply, Enabled, IsRun, After, ToldRun;
    RunCons(OneStream(s2), Batch([reset]), []);
    RunCons(OneStream(s1), Batch([end]), [Batch([reset])] + []);
    RunCons(OneStream(s0), Batch([data]), [Batch([end])] + ([Batch([reset])] + []));
    AnyReserve();
    ResetTold(data, end, reset);
    RunCons(NewConnection(1), Reserve(1, 1), [Batch([data])] + ([Batch([end])] + ([Batch([reset])] + [])));
  }

  lemma AnyReserve()
    ensures Enabled(NewConnection(1), Reserve(1, 1))
  {}

  lemma ResetTold(data: Event, end: Event, reset: Event)
    requires data == Data(1, [7], 1) && end == End(1) && reset == Reset(1)
    ensures ToldRun(None, [Reserve(1, 1)] + ([Batch([data])] + ([Batch([end])] + ([Batch([reset])] + []))), 1)
            == Some(Story([[7]], true, true, false))
  {
    TellOne(data);
    TellOne(end);
    TellOne(reset);
    assert [] + [[7]] == [[7]];
    hide ToldRun, Told;
    ToldNothing(Some(Story([[7]], true, true, false)));
    ToldCons(Some(Story([[7]], true, false, false)), Batch([reset]), []);
    ToldCons(Some(Story([[7]], false, false, false)), Batch([end]), [Batch([reset])] + []);
    ToldCons(Some(Story([], false, false, false)), Batch([data]), [Batch([end])] + ([Batch([reset])] + []));
    ToldCons(None, Reserve(1, 1), [Batch([data])] + ([Batch([end])] + ([Batch([reset])] + [])));
  }

  lemma ToldNothing(story: Option<Story>)
    ensures ToldRun(story, [], 1) == story
  {}

  lemma ToldCons(story: Option<Story>, step: Step, rest: seq<Step>)
    ensures ToldRun(story, [step] + rest, 1) == ToldRun(ToldStep(story, step, 1), rest, 1)
  {
    assert ([step] + rest)[1..] == rest;
  }

  lemma TellOne(e: Event)
    ensures forall s: Story, id: StreamId :: e != GoAway ==> Told(s, [e], id) == Hear(s, e, id)
  {
    assert [e][1..] == [];
  }
}
