/**
  The sending side of the HTTP/2 connection: any number of concurrent `send_body` loops
  (proxy/h2_transport.py), judged by the receiver's own flow-control rules (section 6.9.1 of RFC 9113).
*/
module H2Upload {
  import opened Prelude
  import opened Bytes

  const IO_BATCH_SIZE := 64 * 1024
  const INITIAL_WINDOW := 65535
  const MIN_FRAME_SIZE := 16384

  type StreamId = nat

  /** Frames sent and window changes received, in the order they take effect. */
  datatype Wire =
    | Open(id: StreamId)
    | Data(id: StreamId, data: bytes)
    | End(id: StreamId)
    | StreamUpdate(id: StreamId, increment: nat)
    | ConnectionUpdate(increment: nat)
    | NewSettings(delta: int, maxFrame: nat)

  // ----- The receiver

  datatype Windows = Windows(connection: int, streams: map<StreamId, int>, initial: int, maxFrame: nat)

  function FirstWindows(): Windows {
    Windows(INITIAL_WINDOW, map[], INITIAL_WINDOW, MIN_FRAME_SIZE)
  }

  /** What the receiver makes of one entry; None is a flow-control or frame-size error. */
  function Receiver(w: Windows, e: Wire): Option<Windows> {
    match e
    case Open(id) => Some(w.(streams := w.streams[id := w.initial]))
    case Data(id, data) =>
      if id in w.streams && |data| <= w.streams[id] && |data| <= w.connection && |data| <= w.maxFrame
      then Some(w.(connection := w.connection - |data|, streams := w.streams[id := w.streams[id] - |data|]))
      else None
    case End(id) => if id in w.streams then Some(w) else None
    case StreamUpdate(id, n) =>
      if id in w.streams then Some(w.(streams := w.streams[id := w.streams[id] + n])) else Some(w)
    case ConnectionUpdate(n) => Some(w.(connection := w.connection + n))
    case NewSettings(delta, maxFrame) =>
      Some(w.(streams := map id | id in w.streams :: w.streams[id] + delta,
              initial := w.initial + delta, maxFrame := maxFrame))
  }

  function Judge(log: seq<Wire>): Option<Windows> {
    if log == [] then Some(FirstWindows())
    else
      match Judge(log[..|log| - 1])
      case None => None
      case Some(w) => Receiver(w, log[|log| - 1])
  }

  /** The payload the receiver has for a stream. */
  function Payload(log: seq<Wire>, id: StreamId): bytes {
    if log == [] then []
    else
      var e := log[|log| - 1];
      Payload(log[..|log| - 1], id) + if e.Data? && e.id == id then e.data else []
  }

  // ----- The sender

  /** One `send_body`: the pieces its request yields, and how far the loop is. */
  datatype Upload = Upload(pieces: seq<bytes>, index: nat, offset: nat, ended: bool)

  datatype Connection = Connection(uploads: map<StreamId, Upload>, windows: Windows, log: seq<Wire>)

  function NewConnection(): Connection {
    Connection(map[], FirstWindows(), [])
  }

  predicate UploadInv(u: Upload) {
    && u.index <= |u.pieces|
    && (u.index < |u.pieces| ==> u.offset <= |u.pieces[u.index]|)
    && (u.index == |u.pieces| ==> u.offset == 0)
    && (u.ended ==> u.index == |u.pieces|)
  }

  function Done(u: Upload): bytes
    requires UploadInv(u)
  {
    Join(u.pieces[..u.index]) + if u.index < |u.pieces| then u.pieces[u.index][..u.offset] else []
  }

  /** `h2.local_flow_control_window`. */
  function SendWindow(c: Connection, id: StreamId): int
    requires id in c.windows.streams
  {
    Min(c.windows.connection, c.windows.streams[id])
  }

  function BatchCount(c: Connection, id: StreamId): int
    requires id in c.uploads && id in c.windows.streams && c.uploads[id].index < |c.uploads[id].pieces|
  {
    var u := c.uploads[id];
    Min(Min(|u.pieces[u.index]| - u.offset, IO_BATCH_SIZE), SendWindow(c, id))
  }

  predicate Sending(c: Connection, id: StreamId) {
    id in c.uploads && id in c.windows.streams && UploadInv(c.uploads[id])
    && c.uploads[id].index < |c.uploads[id].pieces|
  }

  /** One `send_data`, with the library's own bookkeeping. */
  function SendFrame(c: Connection, id: StreamId, end: nat): Connection
    requires Sending(c, id)
    requires c.uploads[id].offset <= end <= |c.uploads[id].pieces[c.uploads[id].index]|
  {
    var u, w := c.uploads[id], c.windows;
    var size := end - u.offset;
    Connection(c.uploads[id := u.(offset := end)],
               w.(connection := w.connection - size, streams := w.streams[id := w.streams[id] - size]),
               c.log + [Data(id, u.pieces[u.index][u.offset..end])])
  }

  /** The frames of one batch. */
  function SendUpTo(c: Connection, id: StreamId, batchEnd: nat): (r: Connection)
    requires Sending(c, id) && c.windows.maxFrame > 0
    requires c.uploads[id].offset <= batchEnd <= |c.uploads[id].pieces[c.uploads[id].index]|
    decreases batchEnd - c.uploads[id].offset
  {
    var u := c.uploads[id];
    if u.offset < batchEnd
    then SendUpTo(SendFrame(c, id, Min(batchEnd, u.offset + c.windows.maxFrame)), id, batchEnd)
    else c
  }

  datatype Step =
    | Begin(id: StreamId, pieces: seq<bytes>)
    | SendBatch(id: StreamId)
    | NextPiece(id: StreamId)
    | Finish(id: StreamId)
    | Update(change: Wire)

  predicate Enabled(c: Connection, step: Step) {
    match step
    case Begin(id, _) => id !in c.uploads && id !in c.windows.streams
    case SendBatch(id) =>
      Sending(c, id) && c.windows.maxFrame > 0 && c.uploads[id].offset < |c.uploads[id].pieces[c.uploads[id].index]|
      && BatchCount(c, id) > 0
    case NextPiece(id) =>
      Sending(c, id) && c.uploads[id].offset == |c.uploads[id].pieces[c.uploads[id].index]|
    case Finish(id) =>
      id in c.uploads && id in c.windows.streams && !c.uploads[id].ended
      && c.uploads[id].index == |c.uploads[id].pieces|
    case Update(change) =>
      match change
      case StreamUpdate(_, _) => true
      case ConnectionUpdate(_) => true
      case NewSettings(_, maxFrame) => maxFrame >= MIN_FRAME_SIZE
      case _ => false
  }

  function Apply(c: Connection, step: Step): Connection
    requires Enabled(c, step)
  {
    match step
    case Begin(id, pieces) =>
      Connection(c.uploads[id := Upload(pieces, 0, 0, false)], Receiver(c.windows, Open(id)).value, c.log + [Open(id)])
    case SendBatch(id) => SendUpTo(c, id, c.uploads[id].offset + BatchCount(c, id))
    case NextPiece(id) =>
      c.(uploads := c.uploads[id := c.uploads[id].(index := c.uploads[id].index + 1, offset := 0)])
    case Finish(id) => c.(uploads := c.uploads[id := c.uploads[id].(ended := true)], log := c.log + [End(id)])
    case Update(change) => c.(windows := Receiver(c.windows, change).value, log := c.log + [change])
  }

  predicate IsRun(c: Connection, steps: seq<Step>)
    decreases |steps|
  {
    steps == [] || (Enabled(c, steps[0]) && IsRun(Apply(c, steps[0]), steps[1..]))
  }

  function After(c: Connection, steps: seq<Step>): Connection
    requires IsRun(c, steps)
    decreases |steps|
  {
    if steps == [] then c else After(Apply(c, steps[0]), steps[1..])
  }

  // ----- The invariant

  /** END_STREAM is the last thing sent on a stream. */
  predicate EndsLast(log: seq<Wire>, id: StreamId) {
    forall i, j :: 0 <= i < j < |log| && log[i] == End(id) ==> !(log[j].Data? && log[j].id == id) && log[j] != End(id)
  }

  predicate UploadMatches(c: Connection, id: StreamId)
    requires id in c.uploads
  {
    var u := c.uploads[id];
    && UploadInv(u)
    && id in c.windows.streams
    && Payload(c.log, id) == Done(u)
    && (End(id) in c.log <==> u.ended)
    && EndsLast(c.log, id)
  }

  predicate Inv(c: Connection) {
    && Judge(c.log) == Some(c.windows)
    && c.windows.maxFrame >= MIN_FRAME_SIZE
    && (forall id <- c.uploads :: UploadMatches(c, id))
    && (forall e <- c.log :: e.Data? || e.End? ==> e.id in c.uploads)
  }

  lemma LogGrows(log: seq<Wire>, e: Wire)
    ensures Judge(log + [e]) == match Judge(log) case None => None case Some(w) => Receiver(w, e)
    ensures forall id :: Payload(log + [e], id) == Payload(log, id) + if e.Data? && e.id == id then e.data else []
  {}

  lemma {:induction false} NoPayload(log: seq<Wire>, id: StreamId)
    requires forall e <- log :: e.Data? ==> e.id != id
    ensures Payload(log, id) == []
  {
    if log != [] {
      assert forall e <- log[..|log| - 1] :: e in log;
      NoPayload(log[..|log| - 1], id);
    }
  }

  /** A log entry that concerns other uploads, or none, leaves an upload's part of the invariant alone. */
  lemma OtherUpload(c: Connection, c': Connection, e: Wire, id: StreamId)
    requires id in c.uploads && UploadMatches(c, id) && id in c'.windows.streams
    requires c'.log == c.log + [e] && id in c'.uploads && c'.uploads[id] == c.uploads[id]
    requires e.Data? || e.End? ==> e.id != id
    ensures UploadMatches(c', id)
  {}

  lemma BeginKeeps(c: Connection, id: StreamId, pieces: seq<bytes>)
    requires Inv(c) && Enabled(c, Begin(id, pieces))
    ensures Inv(Apply(c, Begin(id, pieces)))
  {
    hide UploadMatches;
    var c' := Apply(c, Begin(id, pieces));
    LogGrows(c.log, Open(id));
    BegunMatches(c, c', id, pieces);
    forall other | other in c.uploads
      ensures UploadMatches(c', other)
    {
      KnownStream(c, other);
      OtherUpload(c, c', Open(id), other);
    }
  }

  lemma KnownStream(c: Connection, id: StreamId)
    requires id in c.uploads && UploadMatches(c, id)
    ensures id in c.windows.streams && UploadInv(c.uploads[id])
  {}

  lemma BegunMatches(c: Connection, c': Connection, id: StreamId, pieces: seq<bytes>)
    requires forall e <- c.log :: e.Data? || e.End? ==> e.id in c.uploads
    requires id !in c.uploads && id in c'.uploads && id in c'.windows.streams
    requires c'.uploads[id] == Upload(pieces, 0, 0, false) && c'.log == c.log + [Open(id)]
    ensures UploadMatches(c', id)
  {
    NoPayload(c'.log, id);
    assert Join(pieces[..0]) == [];
    assert End(id) !in c'.log;
  }

  lemma FrameKeeps(c: Connection, id: StreamId, end: nat)
    requires Inv(c) && Sending(c, id)
    requires var u := c.uploads[id]; u.offset <= end <= |u.pieces[u.index]|
    requires end - c.uploads[id].offset <= Min(c.windows.maxFrame, SendWindow(c, id))
    ensures Inv(SendFrame(c, id, end))
  {
    hide UploadMatches;
    var u := c.uploads[id];
    var frame := Data(id, u.pieces[u.index][u.offset..end]);
    var c' := SendFrame(c, id, end);
    LogGrows(c.log, frame);
    SentMatches(c, id, end);
    forall other | other in c.uploads && other != id
      ensures UploadMatches(c', other)
    {
      KnownStream(c, other);
      OtherUpload(c, c', frame, other);
    }
  }

  lemma SentMatches(c: Connection, id: StreamId, end: nat)
    requires Sending(c, id) && UploadMatches(c, id)
    requires var u := c.uploads[id]; u.offset <= end <= |u.pieces[u.index]|
    ensures UploadMatches(SendFrame(c, id, end), id)
  {}

  lemma {:induction false} BatchKeeps(c: Connection, id: StreamId, batchEnd: nat)
    requires Inv(c) && Sending(c, id) && c.windows.maxFrame > 0
    requires var u := c.uploads[id]; u.offset <= batchEnd <= |u.pieces[u.index]|
    requires batchEnd - c.uploads[id].offset <= SendWindow(c, id)
    ensures Inv(SendUpTo(c, id, batchEnd))
    decreases batchEnd - c.uploads[id].offset
  {
    hide Inv;
    var u := c.uploads[id];
    if u.offset < batchEnd {
      var end := Min(batchEnd, u.offset + c.windows.maxFrame);
      FrameKeeps(c, id, end);
      BatchKeeps(SendFrame(c, id, end), id, batchEnd);
    }
  }

  lemma NextPieceKeeps(c: Connection, id: StreamId)
    requires Inv(c) && Enabled(c, NextPiece(id))
    ensures Inv(Apply(c, NextPiece(id)))
  {
    var u := c.uploads[id];
    assert u.pieces[..u.index + 1] == u.pieces[..u.index] + [u.pieces[u.index]];
    JoinLast(u.pieces[..u.index], u.pieces[u.index]);
    assert u.pieces[u.index][..u.offset] == u.pieces[u.index];
    var c' := Apply(c, NextPiece(id));
    assert UploadMatches(c', id) by {
      assert UploadMatches(c, id);
      if u.index + 1 < |u.pieces| { assert u.pieces[u.index + 1][..0] == []; }
    }
    forall other | other in c.uploads && other != id
      ensures UploadMatches(c', other)
    {
      assert UploadMatches(c, other);
    }
    hide UploadMatches;
  }

  lemma FinishKeeps(c: Connection, id: StreamId)
    requires Inv(c) && Enabled(c, Finish(id))
    ensures Inv(Apply(c, Finish(id)))
  {
    hide UploadMatches;
    var c' := Apply(c, Finish(id));
    LogGrows(c.log, End(id));
    FinishedMatches(c, id);
    forall other | other in c.uploads && other != id
      ensures UploadMatches(c', other)
    {
      KnownStream(c, other);
      OtherUpload(c, c', End(id), other);
    }
  }

  lemma FinishedMatches(c: Connection, id: StreamId)
    requires id in c.uploads && UploadMatches(c, id) && Enabled(c, Finish(id))
    ensures UploadMatches(Apply(c, Finish(id)), id)
  {}

  lemma UpdateKeeps(c: Connection, change: Wire)
    requires Inv(c) && Enabled(c, Update(change))
    ensures Inv(Apply(c, Update(change)))
  {
    hide UploadMatches;
    var c' := Apply(c, Update(change));
    LogGrows(c.log, change);
    forall id | id in c.uploads
      ensures UploadMatches(c', id)
    {
      KnownStream(c, id);
      OtherUpload(c, c', change, id);
    }
  }

  lemma StepKeeps(c: Connection, step: Step)
    requires Inv(c) && Enabled(c, step)
    ensures Inv(Apply(c, step))
  {
    hide Inv;
    match step
    case Begin(id, pieces) => BeginKeeps(c, id, pieces);
    case SendBatch(id) => BatchKeeps(c, id, c.uploads[id].offset + BatchCount(c, id));
    case NextPiece(id) => NextPieceKeeps(c, id);
    case Finish(id) => FinishKeeps(c, id);
    case Update(change) => UpdateKeeps(c, change);
  }

  lemma {:induction false} RunKeeps(c: Connection, steps: seq<Step>)
    requires Inv(c) && IsRun(c, steps)
    ensures Inv(After(c, steps))
    decreases |steps|
  {
    hide Inv, Enabled, Apply;
    if steps != [] {
      StepKeeps(c, steps[0]);
      RunKeeps(Apply(c, steps[0]), steps[1..]);
    }
  }

  /**
    However uploads and window changes interleave, the receiver never sees a window or frame-size violation;
    it has of each request exactly what its loop has sent, and the whole of it once END_STREAM arrives, after
    which nothing follows.
  */
  lemma UploadsRespectTheReceiver(steps: seq<Step>, id: StreamId)
    requires IsRun(NewConnection(), steps) && id in After(NewConnection(), steps).uploads
    ensures
      var c := After(NewConnection(), steps);
      && Judge(c.log) == Some(c.windows)
      && UploadInv(c.uploads[id]) && Payload(c.log, id) == Done(c.uploads[id])
      && (End(id) in c.log ==> Payload(c.log, id) == Join(c.uploads[id].pieces))
      && EndsLast(c.log, id)
  {
    assert Inv(NewConnection());
    RunKeeps(NewConnection(), steps);
    var c := After(NewConnection(), steps);
    hide Inv;
    assert UploadMatches(c, id) by { InvMeans(c, id); }
    assert c.uploads[id].pieces[..|c.uploads[id].pieces|] == c.uploads[id].pieces;
  }

  lemma InvMeans(c: Connection, id: StreamId)
    requires Inv(c) && id in c.uploads
    ensures UploadMatches(c, id) && Judge(c.log) == Some(c.windows)
  {}

  /** A batch that is started moves the upload forward: only an exhausted window makes the loop wait. */
  lemma {:induction false} BatchAdvances(c: Connection, id: StreamId, batchEnd: nat)
    requires Sending(c, id) && c.windows.maxFrame > 0
    requires var u := c.uploads[id]; u.offset <= batchEnd <= |u.pieces[u.index]|
    ensures id in SendUpTo(c, id, batchEnd).uploads
    ensures SendUpTo(c, id, batchEnd).uploads[id] == c.uploads[id].(offset := batchEnd)
    ensures forall other :: other != id ==>
              (other in SendUpTo(c, id, batchEnd).uploads <==> other in c.uploads)
    decreases batchEnd - c.uploads[id].offset
  {
    var u := c.uploads[id];
    if u.offset < batchEnd {
      BatchAdvances(SendFrame(c, id, Min(batchEnd, u.offset + c.windows.maxFrame)), id, batchEnd);
    }
  }

  // ----- Progress

  /** The number of bytes a request still has to send. */
  function Remaining(u: Upload): nat
    requires UploadInv(u)
  {
    if u.index == |u.pieces| then 0 else |Join(u.pieces[u.index..])| - u.offset
  }

  lemma RemainingHead(u: Upload)
    requires UploadInv(u) && u.index < |u.pieces|
    ensures Join(u.pieces[u.index..]) == u.pieces[u.index] + Join(u.pieces[u.index + 1..])
    ensures u.index + 1 == |u.pieces| ==> Join(u.pieces[u.index + 1..]) == []
  {
    assert u.pieces[u.index..][1..] == u.pieces[u.index + 1..];
  }

  /** How the loop of an upload may go on: the bytes of a piece wait while either window is shut, and nothing else. */
  predicate GoesOn(c: Connection, id: StreamId)
    requires id in c.uploads && id in c.windows.streams && UploadInv(c.uploads[id])
  {
    var u := c.uploads[id];
    if u.index == |u.pieces| then Enabled(c, Finish(id))
    else if u.offset == |u.pieces[u.index]| then Enabled(c, NextPiece(id))
    else
      var open := Min(c.windows.connection, c.windows.streams[id]);
      && (Enabled(c, SendBatch(id)) <==> open > 0)
      && (open > 0 ==>
            var sent := Min(Min(|u.pieces[u.index]| - u.offset, 64 * 1024), open);
            && id in Apply(c, SendBatch(id)).uploads
            && Apply(c, SendBatch(id)).uploads[id] == u.(offset := u.offset + sent))
  }

  /**
    An upload that is not over can always go on, except while a window is shut; otherwise it sends as much of its piece
    as the windows and 64 KiB allow.
  */
  lemma OnlyShutWindowsStall(steps: seq<Step>, id: StreamId)
    requires IsRun(NewConnection(), steps) && id in After(NewConnection(), steps).uploads
    requires !After(NewConnection(), steps).uploads[id].ended
    ensures
      var c := After(NewConnection(), steps);
      id in c.windows.streams && UploadInv(c.uploads[id]) && GoesOn(c, id)
  {
    assert Inv(NewConnection());
    hide GoesOn, UploadMatches, Judge, Apply, Enabled;
    RunKeeps(NewConnection(), steps);
    var c := After(NewConnection(), steps);
    InvMeans(c, id);
    KnownStream(c, id);
    assert c.windows.maxFrame > 0;
    hide Inv;
    LoopGoesOn(c, id);
  }

  lemma LoopGoesOn(c: Connection, id: StreamId)
    requires id in c.uploads && id in c.windows.streams && UploadInv(c.uploads[id]) && c.windows.maxFrame > 0
    requires !c.uploads[id].ended
    ensures GoesOn(c, id)
  {
    if Enabled(c, SendBatch(id)) {
      BatchAdvances(c, id, c.uploads[id].offset + BatchCount(c, id));
      hide SendUpTo;
    }
  }

  /** There are steps after which the receiver has the whole request and its end. */
  ghost predicate Completes(c: Connection, id: StreamId) {
    exists steps ::
      IsRun(c, steps) && id in After(c, steps).uploads && id in c.uploads
      && End(id) in After(c, steps).log && Payload(After(c, steps).log, id) == Join(c.uploads[id].pieces)
  }

  lemma CompletesAfter(c: Connection, step: Step, id: StreamId)
    requires Enabled(c, step) && Completes(Apply(c, step), id)
    requires id in c.uploads && Apply(c, step).uploads[id].pieces == c.uploads[id].pieces
    ensures Completes(c, id)
  {
    var rest :| IsRun(Apply(c, step), rest) && id in After(Apply(c, step), rest).uploads
                && End(id) in After(Apply(c, step), rest).log
                && Payload(After(Apply(c, step), rest).log, id) == Join(c.uploads[id].pieces);
    hide Enabled, Apply, Payload;
    assert ([step] + rest)[1..] == rest;
    assert IsRun(c, [step] + rest) && After(c, [step] + rest) == After(Apply(c, step), rest);
  }

  /** A batch takes from both windows what it sends. */
  lemma {:induction false} BatchSpends(c: Connection, id: StreamId, batchEnd: nat)
    requires Sending(c, id) && c.windows.maxFrame > 0
    requires var u := c.uploads[id]; u.offset <= batchEnd <= |u.pieces[u.index]|
    ensures
      var w, spent := SendUpTo(c, id, batchEnd).windows, batchEnd - c.uploads[id].offset;
      && id in w.streams && w.streams[id] == c.windows.streams[id] - spent
      && w.connection == c.windows.connection - spent
    decreases batchEnd - c.uploads[id].offset
  {
    var u := c.uploads[id];
    if u.offset < batchEnd {
      BatchSpends(SendFrame(c, id, Min(batchEnd, u.offset + c.windows.maxFrame)), id, batchEnd);
    }
  }

  /** A step of the loop gets nearer to the end and stays within the windows. */
  predicate Nears(c: Connection, c': Connection, id: StreamId)
    requires id in c.uploads
  {
    var u := c.uploads[id];
    && id in c'.uploads && id in c'.windows.streams
    && var u' := c'.uploads[id];
       && u'.pieces == u.pieces && UploadInv(u')
       && (u'.ended || u'.index == u.index + 1 || (u'.index == u.index && u'.offset > u.offset))
       && Remaining(u') <= Min(c'.windows.connection, c'.windows.streams[id])
  }

  lemma BatchNears(c: Connection, id: StreamId)
    requires Sending(c, id) && c.windows.maxFrame > 0 && !c.uploads[id].ended
    requires c.uploads[id].offset < |c.uploads[id].pieces[c.uploads[id].index]|
    requires Remaining(c.uploads[id]) <= Min(c.windows.connection, c.windows.streams[id])
    ensures Enabled(c, SendBatch(id)) && Nears(c, Apply(c, SendBatch(id)), id)
  {
    RemainingHead(c.uploads[id]);
    BatchAdvances(c, id, c.uploads[id].offset + BatchCount(c, id));
    BatchSpends(c, id, c.uploads[id].offset + BatchCount(c, id));
    hide SendUpTo, Join;
  }

  lemma PieceNears(c: Connection, id: StreamId)
    requires Sending(c, id) && c.uploads[id].offset == |c.uploads[id].pieces[c.uploads[id].index]|
    requires !c.uploads[id].ended && Remaining(c.uploads[id]) <= Min(c.windows.connection, c.windows.streams[id])
    ensures Enabled(c, NextPiece(id)) && Nears(c, Apply(c, NextPiece(id)), id)
  {
    RemainingHead(c.uploads[id]);
    hide Join;
  }

  /** What the loop does next, given the windows. */
  lemma NextStep(c: Connection, id: StreamId) returns (step: Step)
    requires Inv(c) && id in c.uploads && UploadMatches(c, id) && !c.uploads[id].ended
    requires Remaining(c.uploads[id]) <= Min(c.windows.connection, c.windows.streams[id])
    ensures Enabled(c, step) && Nears(c, Apply(c, step), id)
  {
    assert c.windows.maxFrame > 0;
    KnownStream(c, id);
    hide Inv, UploadMatches;
    var u := c.uploads[id];
    if u.index == |u.pieces| {
      step := Finish(id);
    } else if u.offset == |u.pieces[u.index]| {
      step := NextPiece(id);
      hide Nears, Apply;
      PieceNears(c, id);
    } else {
      step := SendBatch(id);
      hide Nears, Apply;
      BatchNears(c, id);
    }
  }

  /** With windows wide enough for all of it a request gets through by the steps of its own loop. */
  lemma {:induction false} UploadCompletes(c: Connection, id: StreamId)
    requires Inv(c) && id in c.uploads && UploadInv(c.uploads[id]) && id in c.windows.streams
    requires Remaining(c.uploads[id]) <= Min(c.windows.connection, c.windows.streams[id])
    ensures Completes(c, id)
    decreases if c.uploads[id].ended then 0 else 1, |c.uploads[id].pieces| - c.uploads[id].index,
              if c.uploads[id].index < |c.uploads[id].pieces|
              then |c.uploads[id].pieces[c.uploads[id].index]| - c.uploads[id].offset else 0
  {
    InvMeans(c, id);
    var u := c.uploads[id];
    if u.ended {
      EndedCompletes(c, id);
    } else {
      var step := NextStep(c, id);
      StepKeeps(c, step);
      InvMeans(Apply(c, step), id);
      UploadCompletes(Apply(c, step), id);
      CompletesAfter(c, step, id);
    }
  }

  lemma EndedCompletes(c: Connection, id: StreamId)
    requires id in c.uploads && UploadMatches(c, id) && c.uploads[id].ended
    ensures Completes(c, id)
  {
    var u := c.uploads[id];
    assert u.pieces[..|u.pieces|] == u.pieces;
    assert IsRun(c, []) && After(c, []) == c;
  }

  // ----- The connection object

  class SendingConnection {
    var uploads: map<StreamId, Upload>
    var connectionWindow: int
    var streamWindows: map<StreamId, int>
    var initialWindow: int
    var maxFrame: nat
    var log: seq<Wire>

    function Model(): Connection
      reads this
    {
      Connection(uploads, Windows(connectionWindow, streamWindows, initialWindow, maxFrame), log)
    }

    constructor ()
      ensures Model() == NewConnection()
    {
      uploads, connectionWindow, streamWindows := map[], INITIAL_WINDOW, map[];
      initialWindow, maxFrame, log := INITIAL_WINDOW, MIN_FRAME_SIZE, [];
    }

    /** `h2.send_data` for the next `size` bytes of an upload. */
    method SendData(id: StreamId, frameEnd: nat)
      requires Sending(Model(), id)
      requires uploads[id].offset <= frameEnd <= |uploads[id].pieces[uploads[id].index]|
      modifies this
      ensures Model() == SendFrame(old(Model()), id, frameEnd)
    {
      var u := uploads[id];
      log := log + [Data(id, u.pieces[u.index][u.offset..frameEnd])];
      connectionWindow := connectionWindow - (frameEnd - u.offset);
      streamWindows := streamWindows[id := streamWindows[id] - (frameEnd - u.offset)];
      uploads := uploads[id := u.(offset := frameEnd)];
    }

    /** One turn of the loop in `send_body` over a piece of the request; false means it has to wait. */
    method SendSome(id: StreamId) returns (sent: bool)
      requires Sending(Model(), id) && maxFrame > 0
      requires uploads[id].offset < |uploads[id].pieces[uploads[id].index]|
      modifies this
      ensures sent <==> BatchCount(old(Model()), id) > 0
      ensures Model() == if sent then Apply(old(Model()), SendBatch(id)) else old(Model())
    {
      var u := uploads[id];
      var offset, total := u.offset, |u.pieces[u.index]|;
      var count := Min(Min(total - offset, IO_BATCH_SIZE), Min(connectionWindow, streamWindows[id]));
      if count <= 0 { return false; }
      var batchEnd := offset + count;
      while offset < batchEnd
        invariant Sending(Model(), id) && maxFrame > 0
        invariant uploads[id] == u.(offset := offset) && offset <= batchEnd <= total
        invariant SendUpTo(Model(), id, batchEnd) == SendUpTo(old(Model()), id, batchEnd)
      {
        var frameEnd := Min(batchEnd, offset + maxFrame);
        SendData(id, frameEnd);
        offset := frameEnd;
      }
      sent := true;
    }
  }
}
