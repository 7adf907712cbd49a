/**
  The receiving side of the HTTP/2 connection (proxy/h2_transport.py): flow-control credit, buffered responses
  and stream slots. The h2 library is a pair of window counters that rejects a peer overrunning them
  (section 6.9 of RFC 9113); everything else is the code between two suspension points.
*/
module H2Receive {
  import opened Prelude
  import opened Bytes

  const STREAM_RECEIVE_WINDOW := 256 * 1024
  const CONNECTION_RECEIVE_WINDOW := 4 * 1024 * 1024
  const IO_BATCH_SIZE := 64 * 1024

  type StreamId = nat

  datatype Chunk = Chunk(data: bytes, credit: nat)

  /**
    `_ResponseStream`. `window` is what the peer may still send on the stream, `open` whether the library still
    accepts window updates for it, `inHand` the chunk its consumer is working on. `received` and `delivered`
    are history variables.
  */
  datatype Stream = Stream(
    window: int,
    chunks: seq<Chunk>,
    inHand: Option<Chunk>,
    consumedCredit: nat,
    ended: bool,
    error: bool,
    open: bool,
    received: seq<bytes>,
    delivered: seq<bytes>)

  datatype Connection = Connection(
    streams: map<StreamId, Stream>,
    window: int,
    error: bool,
    maxStreams: nat)

  /** What `receive_data` reports, in order. */
  datatype Event =
    | Data(id: StreamId, data: bytes, credit: nat)
    | Headers(id: StreamId)
    | End(id: StreamId)
    | Reset(id: StreamId)
    | Settings
    | WindowUpdate
    | GoAway

  function NewStream(): Stream {
    Stream(STREAM_RECEIVE_WINDOW, [], None, 0, false, false, true, [], [])
  }

  function NewConnection(maxStreams: nat): Connection {
    Connection(map[], CONNECTION_RECEIVE_WINDOW, false, maxStreams)
  }

  // ----- The library

  function CreditOf(e: Event): nat {
    if e.Data? then e.credit else 0
  }

  function TotalCredit(events: seq<Event>): nat {
    if events == [] then 0 else CreditOf(events[0]) + TotalCredit(events[1..])
  }

  function StreamCredit(events: seq<Event>, id: StreamId): nat {
    if events == [] then 0
    else (if events[0].Data? && events[0].id == id then events[0].credit else 0) + StreamCredit(events[1..], id)
  }

  /** Section 6.9.1 of RFC 9113: a frame's whole length counts; an empty payload may still be padded. */
  predicate WellSized(e: Event) {
    e.Data? ==> |e.data| <= e.credit
  }

  /** No payload after the end or the reset of a stream. */
  predicate InOrder(events: seq<Event>, done: set<StreamId>) {
    events == [] ||
    (match events[0]
     case Data(id, _, _) => id !in done && InOrder(events[1..], done)
     case End(id) => InOrder(events[1..], done + {id})
     case Reset(id) => InOrder(events[1..], done + {id})
     case _ => InOrder(events[1..], done))
  }

  predicate Finished(c: Connection, id: StreamId) {
    id in c.streams && (c.streams[id].ended || !c.streams[id].open)
  }

  function FinishedIds(c: Connection): set<StreamId> {
    set id | id in c.streams && Finished(c, id)
  }

  /** The library accepts a batch only if it overruns no window. */
  predicate Acceptable(c: Connection, events: seq<Event>) {
    && TotalCredit(events) <= c.window
    && (forall id <- c.streams :: StreamCredit(events, id) <= c.streams[id].window)
    && (forall e <- events :: WellSized(e))
    && InOrder(events, FinishedIds(c))
  }

  /** It charges the whole batch before the first event is seen. */
  function Charged(c: Connection, events: seq<Event>): Connection {
    c.(window := c.window - TotalCredit(events),
       streams := map id | id in c.streams :: c.streams[id].(window := c.streams[id].window - StreamCredit(events, id)))
  }

  // ----- The connection

  /** `consumed`. */
  function Consumed(s: Stream, credit: nat): Stream {
    if credit > 0 && !s.ended then
      var total := s.consumedCredit + credit;
      if s.chunks != [] && total < IO_BATCH_SIZE then s.(consumedCredit := total)
      else if s.open then s.(window := s.window + total, consumedCredit := 0)
      else s.(consumedCredit := total)
    else s
  }

  function Arrive(s: Stream, data: bytes, credit: nat, terminated: bool): Stream {
    if data != [] then s.(chunks := s.chunks + [Chunk(data, credit)], received := s.received + [data])
    else if !terminated then Consumed(s, credit)
    else s
  }

  /** One event of a batch that has no GOAWAY, or comes before it. */
  function Handle(c: Connection, e: Event, terminated: bool): Connection {
    match e
    case Data(id, data, credit) =>
      if id in c.streams then c.(streams := c.streams[id := Arrive(c.streams[id], data, credit, terminated)]) else c
    case End(id) =>
      if id in c.streams then c.(streams := c.streams[id := c.streams[id].(ended := true)]) else c
    case Reset(id) =>
      if id in c.streams then c.(streams := c.streams[id := c.streams[id].(error := true, open := false)]) else c
    case _ => c
  }

  function HandleAll(c: Connection, events: seq<Event>, terminated: bool): Connection
    decreases |events|
  {
    if events == [] then c else HandleAll(Handle(c, events[0], terminated), events[1..], terminated)
  }

  function FailStream(s: Stream): Stream {
    if s.ended then s else s.(error := true)
  }

  /** `fail`: complete responses stay readable. */
  function Fail(c: Connection): Connection {
    if c.error then c
    else c.(error := true, streams := map id | id in c.streams :: FailStream(c.streams[id]))
  }

  function BeforeGoAway(events: seq<Event>): seq<Event> {
    if events == [] || events[0].GoAway? then [] else [events[0]] + BeforeGoAway(events[1..])
  }

  /** One turn of `read_loop`, from the library's events to the flush. */
  function ReadBatch(c: Connection, events: seq<Event>): Connection {
    var charged := Charged(c, events);
    if GoAway in events then Fail(HandleAll(charged, BeforeGoAway(events), true))
    else
      var handled := HandleAll(charged, events, false);
      handled.(window := handled.window + TotalCredit(events))
  }

  /** `reserve` when it stops waiting. */
  predicate CanReserve(c: Connection, remoteLimit: nat) {
    !c.error && |c.streams| < Min(c.maxStreams, remoteLimit)
  }

  function ReserveStream(c: Connection, id: StreamId): Connection {
    c.(streams := c.streams[id := NewStream()])
  }

  /** `release`, after which the stream object no longer acts on the connection. */
  function Release(c: Connection, id: StreamId): Connection {
    c.(streams := c.streams - {id})
  }

  // ----- The consumer

  datatype Turn = Raises | Yields(data: bytes) | Stops | Waits

  /** One pass of the iterator's loop over an unreleased stream. */
  function NextTurn(s: Stream): Turn {
    if s.error then Raises
    else if s.chunks != [] then Yields(s.chunks[0].data)
    else if s.ended then Stops
    else Waits
  }

  function Pop(s: Stream): Stream
    requires s.chunks != []
  {
    s.(chunks := s.chunks[1..], inHand := Some(s.chunks[0]), delivered := s.delivered + [s.chunks[0].data])
  }

  function PutDown(c: Connection, s: Stream): Stream
    requires s.inHand.Some?
  {
    var s' := s.(inHand := None);
    if c.error then s' else Consumed(s', s.inHand.value.credit)
  }

  // ----- Every interleaving

  datatype Step =
    | Batch(events: seq<Event>)
    | Reserve(id: StreamId, remoteLimit: nat)
    | Take(id: StreamId)
    | Done(id: StreamId)
    | Close(id: StreamId)
    | Break

  predicate Enabled(c: Connection, step: Step) {
    match step
    case Batch(events) => !c.error && Acceptable(c, events)
    case Reserve(id, limit) => id !in c.streams && CanReserve(c, limit)
    case Take(id) => id in c.streams && c.streams[id].inHand.None? && NextTurn(c.streams[id]).Yields?
    case Done(id) => id in c.streams && c.streams[id].inHand.Some?
    case Close(id) => id in c.streams
    case Break => true
  }

  function Apply(c: Connection, step: Step): Connection
    requires Enabled(c, step)
  {
    match step
    case Batch(events) => ReadBatch(c, events)
    case Reserve(id, _) => ReserveStream(c, id)
    case Take(id) => c.(streams := c.streams[id := Pop(c.streams[id])])
    case Done(id) => c.(streams := c.streams[id := PutDown(c, c.streams[id])])
    case Close(id) => Release(c, id)
    case Break => Fail(c)
  }

  predicate IsRun(c: Connection, steps: seq<Step>)
    decreases |steps|
  {
    steps == [] || (Enabled(c, steps[0]) && IsRun(Apply(c, steps[0]), steps[1..]))
  }

  function After(c: Connection, steps: seq<Step>): Connection
    requires IsRun(c, steps)
    decreases |steps|
  {
    if steps == [] then c else After(Apply(c, steps[0]), steps[1..])
  }

  // ----- Conservation of credit

  function Queued(chunks: seq<Chunk>): nat {
    if chunks == [] then 0 else chunks[0].credit + Queued(chunks[1..])
  }

  function Buffered(chunks: seq<Chunk>): nat {
    if chunks == [] then 0 else |chunks[0].data| + Buffered(chunks[1..])
  }

  function Payloads(chunks: seq<Chunk>): seq<bytes> {
    if chunks == [] then [] else [chunks[0].data] + Payloads(chunks[1..])
  }

  function InHandCredit(s: Stream): nat {
    if s.inHand.Some? then s.inHand.value.credit else 0
  }

  predicate Live(s: Stream) {
    s.open && !s.ended
  }

  /** With `due` credit charged by the library and not yet seen by the loop. */
  predicate StreamInv(s: Stream, due: nat) {
    var total := s.window + due + Queued(s.chunks) + InHandCredit(s) + s.consumedCredit;
    && s.window >= 0
    && total <= STREAM_RECEIVE_WINDOW
    && (Live(s) ==> total == STREAM_RECEIVE_WINDOW)
    && (Live(s) && s.chunks == [] && s.inHand.None? ==> s.consumedCredit == 0)
    && (Live(s) ==> s.consumedCredit < IO_BATCH_SIZE)
    && (forall chunk <- s.chunks :: 0 < |chunk.data| <= chunk.credit)
    && (s.inHand.Some? ==> 0 < |s.inHand.value.data| <= s.inHand.value.credit)
  }

  predicate DeliveryInv(s: Stream) {
    s.received == s.delivered + Payloads(s.chunks)
  }

  predicate ConnectionInv(c: Connection) {
    && |c.streams| <= c.maxStreams
    && (forall id <- c.streams :: DeliveryInv(c.streams[id]))
    && (!c.error ==> c.window == CONNECTION_RECEIVE_WINDOW && forall id <- c.streams :: StreamInv(c.streams[id], 0))
  }

  lemma {:induction false} ChunkAppended(chunks: seq<Chunk>, chunk: Chunk)
    ensures Queued(chunks + [chunk]) == Queued(chunks) + chunk.credit
    ensures Buffered(chunks + [chunk]) == Buffered(chunks) + |chunk.data|
    ensures Payloads(chunks + [chunk]) == Payloads(chunks) + [chunk.data]
  {
    if chunks == [] {
      assert (chunks + [chunk])[1..] == [];
    } else {
      assert (chunks + [chunk])[1..] == chunks[1..] + [chunk];
      ChunkAppended(chunks[1..], chunk);
    }
  }

  lemma ArriveKeeps(s: Stream, due: nat, data: bytes, credit: nat)
    requires StreamInv(s, due) && credit <= due && |data| <= credit && Live(s)
    ensures StreamInv(Arrive(s, data, credit, false), due - credit)
    ensures Live(Arrive(s, data, credit, false))
  {
    if data != [] {
      ChunkAppended(s.chunks, Chunk(data, credit));
      assert forall chunk <- s.chunks + [Chunk(data, credit)] :: chunk in s.chunks || chunk == Chunk(data, credit);
      assert s.delivered + (Payloads(s.chunks) + [data]) == s.delivered + Payloads(s.chunks) + [data];
    }
  }

  /** Everything the loop has still to see is accounted for, stream by stream. */
  ghost predicate MidBatch(c: Connection, events: seq<Event>, done: set<StreamId>) {
    && (forall id <- c.streams :: StreamInv(c.streams[id], StreamCredit(events, id)))
    && (forall id <- c.streams :: id !in done ==> Live(c.streams[id]))
    && (forall e <- events :: WellSized(e))
    && InOrder(events, done)
  }

  function DoneAfter(e: Event, done: set<StreamId>): set<StreamId> {
    if e.End? || e.Reset? then done + {e.id} else done
  }

  lemma HandleKeeps(c: Connection, events: seq<Event>, done: set<StreamId>)
    requires events != [] && MidBatch(c, events, done)
    ensures MidBatch(Handle(c, events[0], false), events[1..], DoneAfter(events[0], done))
  {
    var e, rest := events[0], events[1..];
    var c' := Handle(c, e, false);
    assert e in events && forall x <- rest :: x in events;
    hide StreamInv, Arrive;
    forall id | id in c'.streams
      ensures StreamInv(c'.streams[id], StreamCredit(rest, id))
      ensures id !in DoneAfter(e, done) ==> Live(c'.streams[id])
    {
      HandleKeepsStream(c.streams[id], id, events, done);
    }
  }

  /** The same for one stream of the connection. */
  lemma HandleKeepsStream(s: Stream, id: StreamId, events: seq<Event>, done: set<StreamId>)
    requires events != [] && WellSized(events[0]) && InOrder(events, done)
    requires StreamInv(s, StreamCredit(events, id)) && (id !in done ==> Live(s))
    ensures
      var e, due := events[0], StreamCredit(events[1..], id);
      var s' :=
        match e
        case Data(i, data, credit) => if i == id then Arrive(s, data, credit, false) else s
        case End(i) => if i == id then s.(ended := true) else s
        case Reset(i) => if i == id then s.(error := true, open := false) else s
        case _ => s;
      StreamInv(s', due) && (id !in DoneAfter(e, done) ==> Live(s'))
  {
    var e := events[0];
    if e.Data? && e.id == id {
      ArriveKeeps(s, StreamCredit(events, id), e.data, e.credit);
    }
  }

  /** Nothing but the streams changes, and no stream comes or goes. */
  predicate SameFrame(c: Connection, c': Connection) {
    c'.streams.Keys == c.streams.Keys && c'.window == c.window && c'.error == c.error && c'.maxStreams == c.maxStreams
  }

  lemma {:induction false} HandleAllFrame(c: Connection, events: seq<Event>, terminated: bool)
    ensures SameFrame(c, HandleAll(c, events, terminated))
    decreases |events|
  {
    if events != [] {
      assert SameFrame(c, Handle(c, events[0], terminated));
      HandleAllFrame(Handle(c, events[0], terminated), events[1..], terminated);
    }
  }

  /** What was received is what was delivered and what still waits, also while a connection breaks down. */
  ghost predicate Delivering(c: Connection) {
    forall id <- c.streams :: DeliveryInv(c.streams[id])
  }

  lemma HandleKeepsDelivery(c: Connection, e: Event, terminated: bool)
    requires Delivering(c)
    ensures Delivering(Handle(c, e, terminated))
  {
    if e.Data? && e.id in c.streams && e.data != [] {
      var s := c.streams[e.id];
      ChunkAppended(s.chunks, Chunk(e.data, e.credit));
      assert s.delivered + (Payloads(s.chunks) + [e.data]) == s.delivered + Payloads(s.chunks) + [e.data];
    }
  }

  lemma {:induction false} HandleAllKeepsDelivery(c: Connection, events: seq<Event>, terminated: bool)
    requires Delivering(c)
    ensures Delivering(HandleAll(c, events, terminated))
    decreases |events|
  {
    hide Delivering, Handle;
    if events != [] {
      HandleKeepsDelivery(c, events[0], terminated);
      HandleAllKeepsDelivery(Handle(c, events[0], terminated), events[1..], terminated);
    }
  }

  lemma {:induction false} HandleAllKeeps(c: Connection, events: seq<Event>, done: set<StreamId>)
    requires MidBatch(c, events, done)
    ensures forall id <- HandleAll(c, events, false).streams :: StreamInv(HandleAll(c, events, false).streams[id], 0)
    decreases |events|
  {
    hide StreamInv, Handle, InOrder;
    if events != [] {
      HandleKeeps(c, events, done);
      HandleAllKeeps(Handle(c, events[0], false), events[1..], DoneAfter(events[0], done));
    }
  }

  lemma ChargedKeeps(c: Connection, events: seq<Event>)
    requires ConnectionInv(c) && !c.error && Acceptable(c, events)
    ensures MidBatch(Charged(c, events), events, FinishedIds(c))
  {}

  lemma BatchKeeps(c: Connection, events: seq<Event>)
    requires ConnectionInv(c) && !c.error && Acceptable(c, events)
    ensures ConnectionInv(ReadBatch(c, events))
  {
    hide StreamInv, Acceptable, MidBatch, DeliveryInv;
    var charged := Charged(c, events);
    assert charged.streams.Keys == c.streams.Keys;
    ChargedDelivers(c, events);
    if GoAway in events {
      var c' := HandleAll(charged, BeforeGoAway(events), true);
      HandleAllKeepsDelivery(charged, BeforeGoAway(events), true);
      HandleAllFrame(charged, BeforeGoAway(events), true);
      FailKeepsDelivery(c');
      assert |c'.streams.Keys| == |c.streams.Keys|;
    } else {
      ChargedKeeps(c, events);
      HandleAllKeeps(charged, events, FinishedIds(c));
      HandleAllFrame(charged, events, false);
      HandleAllKeepsDelivery(charged, events, false);
      assert |HandleAll(charged, events, false).streams.Keys| == |c.streams.Keys|;
    }
  }

  lemma ChargedDelivers(c: Connection, events: seq<Event>)
    requires Delivering(c)
    ensures Delivering(Charged(c, events))
  {}

  lemma FailKeepsDelivery(c: Connection)
    requires Delivering(c)
    ensures Delivering(Fail(c)) && Fail(c).streams.Keys == c.streams.Keys
  {}

  lemma PopKeeps(s: Stream)
    requires DeliveryInv(s) && s.chunks != [] && s.inHand.None?
    ensures DeliveryInv(Pop(s))
    ensures StreamInv(s, 0) ==> StreamInv(Pop(s), 0)
  {}

  lemma PutDownKeeps(c: Connection, s: Stream)
    requires DeliveryInv(s) && s.inHand.Some?
    ensures DeliveryInv(PutDown(c, s))
    ensures StreamInv(s, 0) && !c.error ==> StreamInv(PutDown(c, s), 0)
  {}

  lemma StepKeeps(c: Connection, step: Step)
    requires ConnectionInv(c) && Enabled(c, step)
    ensures ConnectionInv(Apply(c, step))
  {
    hide ConnectionInv;
    match step
    case Batch(events) => BatchKeeps(c, events);
    case Reserve(id, _) => ReserveKeeps(c, id);
    case Take(id) => TakeKeeps(c, id);
    case Done(id) => DoneKeeps(c, id);
    case Close(id) => CloseKeeps(c, id);
    case Break => BreakKeeps(c);
  }

  lemma ReserveKeeps(c: Connection, id: StreamId)
    requires ConnectionInv(c) && id !in c.streams && |c.streams| < c.maxStreams
    ensures ConnectionInv(ReserveStream(c, id))
  {}

  lemma TakeKeeps(c: Connection, id: StreamId)
    requires ConnectionInv(c) && id in c.streams && c.streams[id].chunks != [] && c.streams[id].inHand.None?
    ensures ConnectionInv(c.(streams := c.streams[id := Pop(c.streams[id])]))
  {
    hide StreamInv, DeliveryInv;
    PopKeeps(c.streams[id]);
    ReplaceKeeps(c, id, Pop(c.streams[id]));
  }

  lemma DoneKeeps(c: Connection, id: StreamId)
    requires ConnectionInv(c) && id in c.streams && c.streams[id].inHand.Some?
    ensures ConnectionInv(c.(streams := c.streams[id := PutDown(c, c.streams[id])]))
  {
    hide StreamInv, DeliveryInv;
    PutDownKeeps(c, c.streams[id]);
    ReplaceKeeps(c, id, PutDown(c, c.streams[id]));
  }

  lemma CloseKeeps(c: Connection, id: StreamId)
    requires ConnectionInv(c) && id in c.streams
    ensures ConnectionInv(Release(c, id))
  {}

  lemma ReplaceKeeps(c: Connection, id: StreamId, s: Stream)
    requires ConnectionInv(c) && id in c.streams
    requires DeliveryInv(s) && (!c.error ==> StreamInv(s, 0))
    ensures ConnectionInv(c.(streams := c.streams[id := s]))
  {}

  lemma BreakKeeps(c: Connection)
    requires ConnectionInv(c)
    ensures ConnectionInv(Fail(c))
  {
    hide StreamInv, DeliveryInv;
    FailKeepsDelivery(c);
    assert |Fail(c).streams.Keys| == |c.streams.Keys|;
  }

  lemma {:induction false} RunKeeps(c: Connection, steps: seq<Step>)
    requires ConnectionInv(c) && IsRun(c, steps)
    ensures ConnectionInv(After(c, steps))
    decreases |steps|
  {
    hide ConnectionInv, Enabled, Apply;
    if steps != [] {
      StepKeeps(c, steps[0]);
      RunKeeps(Apply(c, steps[0]), steps[1..]);
    }
  }

  // ----- The guarantees, over every run

  predicate Reachable(c: Connection, maxStreams: nat, steps: seq<Step>) {
    IsRun(NewConnection(maxStreams), steps) && c == After(NewConnection(maxStreams), steps)
  }

  lemma ReachableHolds(c: Connection, maxStreams: nat, steps: seq<Step>)
    requires Reachable(c, maxStreams, steps)
    ensures ConnectionInv(c)
  {
    RunKeeps(NewConnection(maxStreams), steps);
  }

  /**
    Credit of an open stream is never lost and never doubled; between batches the connection window is whole,
    whatever the consumers do.
  */
  lemma CreditIsConserved(c: Connection, maxStreams: nat, steps: seq<Step>, id: StreamId)
    requires Reachable(c, maxStreams, steps) && !c.error && id in c.streams && Live(c.streams[id])
    ensures
      var s := c.streams[id];
      s.window + Queued(s.chunks) + InHandCredit(s) + s.consumedCredit == STREAM_RECEIVE_WINDOW
    ensures c.window == CONNECTION_RECEIVE_WINDOW
  {
    ReachableHolds(c, maxStreams, steps);
    assert StreamInv(c.streams[id], 0);
  }

  /** Whatever its streams do, while the connection works its window is whole after every batch. */
  lemma ConnectionWindowIsWhole(c: Connection, maxStreams: nat, steps: seq<Step>)
    requires Reachable(c, maxStreams, steps) && !c.error
    ensures c.window == CONNECTION_RECEIVE_WINDOW
  {
    ReachableHolds(c, maxStreams, steps);
  }

  /**
    Batching the updates cannot stall the peer: a consumer with nothing left has reopened the whole window, and
    even a slow one holds back less than one batch beyond what it has not yet read.
  */
  lemma BatchingNeverStalls(c: Connection, maxStreams: nat, steps: seq<Step>, id: StreamId)
    requires Reachable(c, maxStreams, steps) && !c.error && id in c.streams && Live(c.streams[id])
    ensures
      var s := c.streams[id];
      && (s.chunks == [] && s.inHand.None? ==> s.window == STREAM_RECEIVE_WINDOW)
      && s.window + Queued(s.chunks) + InHandCredit(s) > STREAM_RECEIVE_WINDOW - IO_BATCH_SIZE
  {
    ReachableHolds(c, maxStreams, steps);
    assert StreamInv(c.streams[id], 0);
  }

  lemma {:induction false} BufferedWithinCredit(chunks: seq<Chunk>)
    requires forall chunk <- chunks :: |chunk.data| <= chunk.credit
    ensures Buffered(chunks) <= Queued(chunks)
  {
    if chunks != [] {
      assert forall chunk <- chunks[1..] :: chunk in chunks;
      BufferedWithinCredit(chunks[1..]);
    }
  }

  /** Room for what a stream still has to take from a batch. */
  predicate HasRoom(c: Connection, events: seq<Event>) {
    forall id <- c.streams :: Buffered(c.streams[id].chunks) + StreamCredit(events, id) <= STREAM_RECEIVE_WINDOW
  }

  lemma HandleKeepsRoom(c: Connection, events: seq<Event>, terminated: bool)
    requires events != [] && HasRoom(c, events) && WellSized(events[0])
    ensures HasRoom(Handle(c, events[0], terminated), events[1..])
  {
    var e := events[0];
    if e.Data? && e.id in c.streams && e.data != [] {
      ChunkAppended(c.streams[e.id].chunks, Chunk(e.data, e.credit));
    }
  }

  lemma {:induction false} HandleAllKeepsRoom(c: Connection, events: seq<Event>, terminated: bool)
    requires HasRoom(c, events) && forall e <- events :: WellSized(e)
    ensures HasRoom(HandleAll(c, events, terminated), [])
    decreases |events|
  {
    hide HasRoom, Handle;
    if events != [] {
      assert events[0] in events && forall e <- events[1..] :: e in events;
      HandleKeepsRoom(c, events, terminated);
      HandleAllKeepsRoom(Handle(c, events[0], terminated), events[1..], terminated);
    }
  }

  lemma {:induction false} BeforeGoAwayIsPart(events: seq<Event>, id: StreamId)
    ensures StreamCredit(BeforeGoAway(events), id) <= StreamCredit(events, id)
    ensures forall e <- BeforeGoAway(events) :: e in events
  {
    if events != [] && !events[0].GoAway? {
      BeforeGoAwayIsPart(events[1..], id);
    }
  }

  lemma ChargedHasRoom(c: Connection, events: seq<Event>)
    requires ConnectionInv(c) && !c.error && Acceptable(c, events)
    ensures HasRoom(Charged(c, events), events) && HasRoom(Charged(c, events), BeforeGoAway(events))
  {
    forall id | id in c.streams
      ensures Buffered(c.streams[id].chunks) + StreamCredit(events, id) <= STREAM_RECEIVE_WINDOW
      ensures StreamCredit(BeforeGoAway(events), id) <= StreamCredit(events, id)
    {
      assert StreamInv(c.streams[id], 0);
      BufferedWithinCredit(c.streams[id].chunks);
      BeforeGoAwayIsPart(events, id);
    }
  }

  lemma BatchKeepsRoom(c: Connection, events: seq<Event>)
    requires ConnectionInv(c) && !c.error && Acceptable(c, events)
    ensures HasRoom(ReadBatch(c, events), [])
  {
    hide ConnectionInv, InOrder;
    ChargedHasRoom(c, events);
    BeforeGoAwayIsPart(events, 0);
    HandleAllKeepsRoom(Charged(c, events), if GoAway in events then BeforeGoAway(events) else events, GoAway in events);
  }

  lemma StepKeepsRoom(c: Connection, step: Step)
    requires ConnectionInv(c) && Enabled(c, step) && HasRoom(c, [])
    ensures HasRoom(Apply(c, step), [])
  {
    hide ConnectionInv, Acceptable, ReadBatch;
    if step.Batch? {
      BatchKeepsRoom(c, step.events);
    }
  }

  lemma {:induction false} RunKeepsRoom(c: Connection, steps: seq<Step>)
    requires ConnectionInv(c) && IsRun(c, steps) && HasRoom(c, [])
    ensures HasRoom(After(c, steps), [])
    decreases |steps|
  {
    hide ConnectionInv, Enabled, Apply, HasRoom;
    if steps != [] {
      StepKeeps(c, steps[0]);
      StepKeepsRoom(c, steps[0]);
      RunKeepsRoom(Apply(c, steps[0]), steps[1..]);
    }
  }

  /** No response buffers more than one window, ended or not, also after the connection has failed. */
  lemma BuffersAreBounded(c: Connection, maxStreams: nat, steps: seq<Step>, id: StreamId)
    requires Reachable(c, maxStreams, steps) && id in c.streams
    ensures Buffered(c.streams[id].chunks) <= STREAM_RECEIVE_WINDOW
    ensures |c.streams| <= maxStreams
  {
    ReachableHolds(c, maxStreams, steps);
    RunKeepsRoom(NewConnection(maxStreams), steps);
    MaxStreamsFixed(NewConnection(maxStreams), steps);
  }

  lemma {:induction false} MaxStreamsFixed(c: Connection, steps: seq<Step>)
    requires IsRun(c, steps)
    ensures After(c, steps).maxStreams == c.maxStreams
    decreases |steps|
  {
    if steps != [] {
      MaxStreamsFixed(Apply(c, steps[0]), steps[1..]);
      if steps[0].Batch? {
        var events, charged := steps[0].events, Charged(c, steps[0].events);
        HandleAllFrame(charged, events, false);
        HandleAllFrame(charged, BeforeGoAway(events), true);
      }
    }
  }

  // ----- The connection object

  class ReceivingConnection {
    var streams: map<StreamId, Stream>
    var window: int
    var error: bool
    const maxStreams: nat

    function Model(): Connection
      reads this
    {
      Connection(streams, window, error, maxStreams)
    }

    constructor (maxStreams: nat)
      ensures Model() == NewConnection(maxStreams)
    {
      this.maxStreams := maxStreams;
      streams, window, error := map[], CONNECTION_RECEIVE_WINDOW, false;
    }

    method ConsumeCredit(id: StreamId, credit: nat)
      requires id in streams
      modifies this`streams
      ensures streams == old(streams)[id := if error then old(streams)[id] else Consumed(old(streams)[id], credit)]
    {
      var s := streams[id];
      if credit > 0 && !s.ended && !error {
        s := s.(consumedCredit := s.consumedCredit + credit);
        if !(s.chunks != [] && s.consumedCredit < IO_BATCH_SIZE) && s.open {
          s := s.(window := s.window + s.consumedCredit, consumedCredit := 0);
        }
        streams := streams[id := s];
      } else {
        streams := streams[id := s];
      }
    }

    method FailAll()
      modifies this`streams, this`error
      ensures Model() == Fail(old(Model()))
    {
      if error { return; }
      error := true;
      var todo := streams.Keys;
      while todo != {}
        invariant error && todo <= streams.Keys == old(streams).Keys
        invariant forall id <- streams ::
          streams[id] == if id in todo then old(streams)[id] else FailStream(old(streams)[id])
        decreases todo
      {
        var id :| id in todo;
        todo := todo - {id};
        if !streams[id].ended { streams := streams[id := streams[id].(error := true)]; }
      }
      assert streams == Fail(old(Model())).streams;
    }

    method HandleEvent(e: Event, terminated: bool)
      requires !error
      modifies this`streams
      ensures Model() == Handle(old(Model()), e, terminated)
    {
      match e
      case Data(id, data, credit) =>
        if id in streams {
          if data != [] {
            var s := streams[id];
            streams := streams[id := s.(chunks := s.chunks + [Chunk(data, credit)], received := s.received + [data])];
          } else if !terminated {
            ConsumeCredit(id, credit);
          } else {
            assert streams == streams[id := streams[id]];
          }
        }
      case End(id) => if id in streams { streams := streams[id := streams[id].(ended := true)]; }
      case Reset(id) => if id in streams { streams := streams[id := streams[id].(error := true, open := false)]; }
      case _ =>
    }

    /** One turn of `read_loop`: the library charges its windows, then the events are worked off in order. */
    method ReadEvents(events: seq<Event>)
      requires !error && Acceptable(Model(), events)
      modifies this`streams, this`window, this`error
      ensures Model() == ReadBatch(old(Model()), events)
    {
      ghost var charged := Charged(Model(), events);
      streams := map id | id in streams :: streams[id].(window := streams[id].window - StreamCredit(events, id));
      window := window - TotalCredit(events);
      var terminated := GoAway in events;
      var connectionCredit := 0;
      var i := 0;
      while i < |events|
        invariant 0 <= i <= |events| && !error
        invariant terminated == (GoAway in events) && (terminated ==> GoAway in events[i..])
        invariant terminated ==>
          HandleAll(charged, BeforeGoAway(events), true) == HandleAll(Model(), BeforeGoAway(events[i..]), true)
        invariant !terminated ==> HandleAll(charged, events, false) == HandleAll(Model(), events[i..], false)
        invariant !terminated ==> connectionCredit + TotalCredit(events[i..]) == TotalCredit(events)
      {
        assert events[i..][1..] == events[i + 1..];
        if events[i].GoAway? {
          assert BeforeGoAway(events[i..]) == [];
          assert Model() == HandleAll(charged, BeforeGoAway(events), true);
          FailAll();
          return;
        }
        assert BeforeGoAway(events[i..])[1..] == BeforeGoAway(events[i + 1..]);
        HandleEvent(events[i], terminated);
        if !terminated { connectionCredit := connectionCredit + CreditOf(events[i]); }
        i := i + 1;
      }
      window := window + connectionCredit;
    }
  }
}
