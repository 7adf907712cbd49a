/** The re-encrypting relay between a client and a WebSocket (proxy/bridge.py, proxy/tg_ws_proxy.py), end to end. */
module Relay {
  import opened Prelude
  import opened Bytes
  import opened Obfuscation
  import opened Streams
  import FakeTls
  import MsgSplitter
  import TlsHandshake
  import WebSocket

  const READ_SIZE := 65536

  // ----- The sending side of the socket

  function Payloads(frames: seq<WebSocket.Frame>): seq<bytes> {
    if frames == [] then [] else Payloads(frames[..|frames| - 1]) + [frames[|frames| - 1].data]
  }

  /** Masked, final, binary. */
  predicate Proper(f: WebSocket.Frame) {
    WebSocket.ValidFrame(f) && f.fin && f.opcode == WebSocket.OP_BINARY && f.mask.Some?
  }

  predicate AllProper(frames: seq<WebSocket.Frame>) {
    forall i :: 0 <= i < |frames| ==> Proper(frames[i])
  }

  /** The peer gets one message per frame. */
  lemma {:induction false} MessagePerFrame(frames: seq<WebSocket.Frame>)
    requires AllProper(frames)
    ensures WebSocket.Messages(frames) == Payloads(frames)
    decreases |frames|
  {
    if frames != [] {
      assert Proper(frames[0]);
      MessagePerFrame(frames[1..]);
      DataHead(frames);
      assert [] + frames[0].data == frames[0].data;
    }
  }

  lemma {:induction false} DataHead(frames: seq<WebSocket.Frame>)
    requires frames != []
    ensures Payloads(frames) == [frames[0].data] + Payloads(frames[1..])
    decreases |frames|
  {
    var n := |frames| - 1;
    if n > 0 {
      DataHead(frames[..n]);
      assert frames[..n][1..] == frames[1..][..n - 1];
    }
  }

  /** The WebSocket's writer: the log of frames written. */
  class FrameLog {
    var frames: seq<WebSocket.Frame>

    constructor ()
      ensures frames == []
    {
      frames := [];
    }

    /** `send`: a frame under a fresh mask. */
    method Send(data: bytes)
      requires |data| < 0x1_0000_0000_0000_0000 && AllProper(frames)
      modifies this
      ensures AllProper(frames) && Payloads(frames) == Payloads(old(frames)) + [data]
    {
      var b0: byte, b1: byte, b2: byte, b3: byte :| true;
      frames := frames + [WebSocket.Frame(true, WebSocket.OP_BINARY, data, Some([b0, b1, b2, b3]))];
      assert frames[..|frames| - 1] == old(frames);
    }

    /** `send_batch`. */
    method SendBatch(parts: seq<bytes>)
      requires forall p <- parts :: |p| < 0x1_0000_0000_0000_0000
      requires AllProper(frames)
      modifies this
      ensures AllProper(frames) && Payloads(frames) == Payloads(old(frames)) + parts
    {
      for i := 0 to |parts|
        invariant AllProper(frames) && Payloads(frames) == Payloads(old(frames)) + parts[..i]
      {
        assert parts[i] in parts && parts[..i + 1] == parts[..i] + [parts[i]];
        Send(parts[i]);
      }
      assert parts[..|parts|] == parts;
    }
  }

  // ----- Sizes: what the splitter hands out always fits a frame

  lemma {:induction false} PiecesFit(s: bytes, lens: seq<nat>)
    requires MsgSplitter.Total(lens) <= |s|
    ensures forall p <- MsgSplitter.Pieces(s, lens) :: |p| <= |s|
    decreases |lens|
  {
    if lens != [] {
      PiecesFit(s[lens[0]..], lens[1..]);
    }
  }

  lemma PartsFit(t: MsgSplitter.Transport, s: MsgSplitter.State, chunk: bytes, plain: bytes)
    requires |s.cipher| == |s.plain| && |chunk| == |plain|
    ensures forall p <- MsgSplitter.Split(t, s, chunk, plain).0 :: |p| <= |s.cipher| + |chunk|
  {
    PiecesFit(s.cipher + chunk, MsgSplitter.Cut(t, s.plain + plain).lens);
  }

  /** An incomplete packet is never longer than a header and the largest payload. */
  lemma WaitingFits(t: MsgSplitter.Transport, plain: bytes)
    requires MsgSplitter.NextLen(t, plain).None?
    ensures |plain| < 0x8000_0004
  {}

  // ----- The client's side

  /** What `bridge_ws_reencrypt` reads a client from: its connection, or the fake-TLS stream over it. */
  datatype Client = Direct(reader: StreamReader) | Tls(stream: FakeTls.FakeTlsStream) {
    function Repr(): set<object> {
      if Direct? then {reader} else {stream, stream.reader}
    }

    /** Everything still to be read. */
    function Left(): bytes
      reads Repr()
    {
      if Direct? then reader.input else stream.Remaining()
    }

    /** Whether reading past all of that raises an error instead of returning nothing. */
    predicate Raises()
      reads Repr()
    {
      Tls? && stream.RaisesAtEnd()
    }

    method Read(n: nat) returns (r: FakeTls.Outcome)
      requires n > 0
      modifies Repr()
      ensures
        if old(Left()) == [] then r == if old(Raises()) then FakeTls.Incomplete else FakeTls.Data([])
        else r.Data? && 0 < |r.data| <= n && r.data + Left() == old(Left()) && Raises() == old(Raises())
    {
      if Direct? {
        var data := reader.Read(n);
        return FakeTls.Data(data);
      }
      r := stream.Read(n);
    }
  }

  // ----- Up: client to Telegram

  /** Without a flush an incomplete packet at the end of the stream is never sent. */
  predicate LosesTail(t: MsgSplitter.Transport, plain: bytes, flushed: bool) {
    !flushed && !MsgSplitter.Cut(t, plain).bad && MsgSplitter.Total(MsgSplitter.Cut(t, plain).lens) < |plain|
  }

  /** How much of a stream that ended is sent. */
  function SentLength(t: MsgSplitter.Transport, plain: bytes, flushed: bool): (n: nat)
    ensures n <= |plain|
  {
    if LosesTail(t, plain, flushed) then MsgSplitter.Total(MsgSplitter.Cut(t, plain).lens) else |plain|
  }

  /** What is sent for a stream that ended: its packets, one per frame, then whatever is left over, if flushed. */
  predicate SentAs(t: MsgSplitter.Transport, cipher: bytes, plain: bytes, flushed: bool, sent: seq<bytes>)
    requires |cipher| == |plain|
  {
    var cuts := MsgSplitter.Cut(t, plain);
    var packets := MsgSplitter.Pieces(cipher, cuts.lens);
    var rest := cipher[MsgSplitter.Total(cuts.lens)..];
    && Join(sent) == cipher[..SentLength(t, plain, flushed)] && packets <= sent
    && (!cuts.bad ==> sent == packets + if rest == [] || !flushed then [] else [rest])
  }

  /** The state of the loop: the chunks so far, and what the splitter made of them. */
  ghost predicate Split(splitter: MsgSplitter.Splitter, chunks: seq<MsgSplitter.Chunk>, sent: seq<bytes>)
    reads splitter
  {
    && MsgSplitter.Paired(chunks)
    && (sent, splitter.Model()) == MsgSplitter.SplitAll(splitter.transport, chunks)
  }

  lemma SplitOneMore(t: MsgSplitter.Transport, chunks: seq<MsgSplitter.Chunk>, c: MsgSplitter.Chunk)
    requires MsgSplitter.Paired(chunks) && |c.cipher| == |c.plain|
    ensures MsgSplitter.Paired(chunks + [c])
    ensures
      var (parts, s) := MsgSplitter.SplitAll(t, chunks);
      var (more, s') := MsgSplitter.Split(t, s, c.cipher, c.plain);
      MsgSplitter.SplitAll(t, chunks + [c]) == (parts + more, s')
    ensures MsgSplitter.Plain(chunks + [c]) == MsgSplitter.Plain(chunks) + c.plain
    ensures MsgSplitter.Cipher(chunks + [c]) == MsgSplitter.Cipher(chunks) + c.cipher
  {}

  /** Between two chunks the buffer is short. */
  lemma BufferFits(t: MsgSplitter.Transport, chunks: seq<MsgSplitter.Chunk>)
    requires MsgSplitter.Paired(chunks)
    ensures |MsgSplitter.SplitAll(t, chunks).1.cipher| < 0x8000_0004
  {
    MsgSplitter.NothingIsLost(t, chunks);
    MsgSplitter.ChunkingDoesNotMatter(t, chunks);
    var s := MsgSplitter.SplitAll(t, chunks).1;
    if !s.disabled { WaitingFits(t, s.plain); }
  }

  /** The parts so far, with or without what the splitter still holds. */
  lemma PartsAreSent(t: MsgSplitter.Transport, chunks: seq<MsgSplitter.Chunk>, flushed: bool)
    requires MsgSplitter.Paired(chunks)
    ensures |MsgSplitter.Cipher(chunks)| == |MsgSplitter.Plain(chunks)|
    ensures
      var (parts, s) := MsgSplitter.SplitAll(t, chunks);
      SentAs(t, MsgSplitter.Cipher(chunks), MsgSplitter.Plain(chunks), flushed,
             if flushed then parts + MsgSplitter.Flush(s) else parts)
  {
    MsgSplitter.NothingIsLost(t, chunks);
    MsgSplitter.ChunkingDoesNotMatter(t, chunks);
    var cipher := MsgSplitter.Cipher(chunks);
    var cuts := MsgSplitter.Cut(t, MsgSplitter.Plain(chunks));
    assert cipher[..|cipher|] == cipher;
    if !cuts.bad { MsgSplitter.PiecesJoin(cipher, cuts.lens); }
  }

  lemma NothingYet(splitter: MsgSplitter.Splitter, ks: Keystream, pos: nat)
    requires splitter.Model() == MsgSplitter.START
    ensures Split(splitter, [], [])
    ensures MsgSplitter.Plain([]) == [] && MsgSplitter.Cipher([]) == Apply(ks, pos, [])
  {}

  /** The end of the client's stream: only a read that returned nothing leads to the flush. */
  method SendTail(end: FakeTls.Outcome, splitter: MsgSplitter.Splitter, ws: FrameLog,
                  ghost chunks: seq<MsgSplitter.Chunk>, ghost sent: seq<bytes>)
    returns (ghost tail: seq<bytes>)
    requires Split(splitter, chunks, sent) && AllProper(ws.frames)
    modifies splitter, ws
    ensures AllProper(ws.frames) && Payloads(ws.frames) == Payloads(old(ws.frames)) + tail
    ensures |MsgSplitter.Cipher(chunks)| == |MsgSplitter.Plain(chunks)|
    ensures SentAs(splitter.transport, MsgSplitter.Cipher(chunks), MsgSplitter.Plain(chunks), end.Data?, sent + tail)
  {
    hide Payloads, AllProper, SentAs, MsgSplitter.SplitAll;
    BufferFits(splitter.transport, chunks);
    PartsAreSent(splitter.transport, chunks, end.Data?);
    tail := [];
    assert sent + [] == sent;
    if end.Incomplete? { return; }
    var flushed := splitter.TakeTail();
    if flushed != [] {
      ws.Send(flushed[0]);
      assert flushed == [flushed[0]];
    }
    tail := flushed;
  }

  /** The loop's work on one chunk. */
  method Forward(splitter: MsgSplitter.Splitter, ws: FrameLog, cipher: bytes, plain: bytes,
                 ghost chunks: seq<MsgSplitter.Chunk>, ghost sent: seq<bytes>)
    returns (ghost more: seq<bytes>, ghost next: seq<MsgSplitter.Chunk>)
    requires |cipher| == |plain| <= READ_SIZE
    requires Split(splitter, chunks, sent) && AllProper(ws.frames)
    modifies splitter, ws
    ensures AllProper(ws.frames) && Payloads(ws.frames) == Payloads(old(ws.frames)) + more
    ensures Split(splitter, next, sent + more)
    ensures MsgSplitter.Plain(next) == MsgSplitter.Plain(chunks) + plain
    ensures MsgSplitter.Cipher(next) == MsgSplitter.Cipher(chunks) + cipher
  {
    hide Payloads, AllProper, MsgSplitter.SplitAll, MsgSplitter.Split;
    BufferFits(splitter.transport, chunks);
    PartsFit(splitter.transport, splitter.Model(), cipher, plain);
    SplitOneMore(splitter.transport, chunks, MsgSplitter.Chunk(cipher, plain));
    var parts := splitter.SplitChunk(cipher, plain);
    if |parts| > 1 {
      ws.SendBatch(parts);
    } else if parts != [] {
      ws.Send(parts[0]);
      assert parts == [parts[0]];
    }
    more, next := parts, chunks + [MsgSplitter.Chunk(cipher, plain)];
  }

  /**
    `tcp_to_ws` with a splitter: whatever pieces the client's ciphertext arrives in, the frames sent carry the plaintext
    under Telegram's keystream, one packet per frame as long as the framing is valid. A read that fails at the end of
    the stream leaves the loop before the flush.
  */
  method TcpToWs(client: Client, cltDec: Cipher, tgEnc: Cipher, splitter: MsgSplitter.Splitter, ws: FrameLog)
    returns (ghost sent: seq<bytes>)
    requires cltDec != tgEnc && splitter.Model() == MsgSplitter.START && AllProper(ws.frames)
    modifies client.Repr(), cltDec, tgEnc, splitter, ws
    ensures AllProper(ws.frames) && Payloads(ws.frames) == Payloads(old(ws.frames)) + sent
    ensures
      var plain := Apply(cltDec.ks, old(cltDec.pos), old(client.Left()));
      SentAs(splitter.transport, Apply(tgEnc.ks, old(tgEnc.pos), plain), plain, !old(client.Raises()), sent)
  {
    hide Client.Left, Client.Raises, Payloads, AllProper, Split, SentAs, Apply;
    hide MsgSplitter.SplitAll, MsgSplitter.Plain, MsgSplitter.Cipher;
    ghost var plaintext := Apply(cltDec.ks, cltDec.pos, client.Left());
    ghost var left, done: bytes := client.Left(), [];
    ghost var chunks: seq<MsgSplitter.Chunk> := [];
    ghost var more: seq<bytes>;
    sent := [];
    NothingYet(splitter, tgEnc.ks, tgEnc.pos);
    assert [] + plaintext == plaintext;
    while true
      invariant AllProper(ws.frames) && Payloads(ws.frames) == Payloads(old(ws.frames)) + sent
      invariant Split(splitter, chunks, sent) && client.Left() == left && client.Raises() == old(client.Raises())
      invariant MsgSplitter.Plain(chunks) == done && done + Apply(cltDec.ks, cltDec.pos, left) == plaintext
      invariant MsgSplitter.Cipher(chunks) == Apply(tgEnc.ks, old(tgEnc.pos), done)
      invariant tgEnc.pos == old(tgEnc.pos) + |done|
      decreases |left|
    {
      var chunk := client.Read(READ_SIZE);
      if chunk.Incomplete? || chunk.data == [] {
        NothingApplied(cltDec.ks, cltDec.pos);
        assert done + [] == done;
        more := SendTail(chunk, splitter, ws, chunks, sent);
        sent := sent + more;
        return;
      }
      ghost var rest := client.Left();
      var plain, cipher := Recrypt(cltDec, tgEnc, chunk.data, old(tgEnc.pos), done, rest);
      more, chunks := Forward(splitter, ws, cipher, plain, chunks, sent);
      left, sent, done := rest, sent + more, done + plain;
    }
  }

  /** A piece of a stream, deciphered and enciphered again, `done` before it and `rest` still to come. */
  method Recrypt(from: Cipher, to: Cipher, data: bytes, ghost q: nat, ghost done: bytes, ghost rest: bytes)
    returns (plain: bytes, cipher: bytes)
    requires from != to && to.pos == q + |done|
    modifies from, to
    ensures |plain| == |cipher| == |data| && to.pos == q + |done + plain|
    ensures done + Apply(from.ks, old(from.pos), data + rest) == done + plain + Apply(from.ks, from.pos, rest)
    ensures Apply(to.ks, q, done + plain) == Apply(to.ks, q, done) + cipher
  {
    hide Apply;
    OneMore(from.ks, from.pos, to.ks, q, done, data, rest);
    plain := from.Update(data);
    cipher := to.Update(plain);
  }

  /** One more piece of the client's stream, deciphered and enciphered again. */
  lemma OneMore(from: Keystream, p: nat, to: Keystream, q: nat, done: bytes, data: bytes, rest: bytes)
    ensures
      var plain := Apply(from, p, data);
      && done + Apply(from, p, data + rest) == done + plain + Apply(from, p + |data|, rest)
      && Apply(to, q, done + plain) == Apply(to, q, done) + Apply(to, q + |done|, plain)
  {
    hide Apply;
    ApplyAppend(from, p, data, rest);
    Associates(done, Apply(from, p, data), Apply(from, p + |data|, rest));
    ApplyAppend(to, q, done, Apply(from, p, data));
  }

  lemma NothingApplied(ks: Keystream, pos: nat)
    ensures Apply(ks, pos, []) == []
  {}

  /**
    `tcp_to_ws` without a splitter, as the Cloudflare workers are served: every chunk goes out as it comes, and nothing
    waits to be flushed, however the stream ends.
  */
  method TcpToWsWhole(client: Client, cltDec: Cipher, tgEnc: Cipher, ws: FrameLog)
    returns (ghost sent: seq<bytes>)
    requires cltDec != tgEnc && AllProper(ws.frames)
    modifies client.Repr(), cltDec, tgEnc, ws
    ensures AllProper(ws.frames) && Payloads(ws.frames) == Payloads(old(ws.frames)) + sent
    ensures
      var plain := Apply(cltDec.ks, old(cltDec.pos), old(client.Left()));
      Join(sent) == Apply(tgEnc.ks, old(tgEnc.pos), plain)
  {
    hide Client.Left, Client.Raises, Payloads, AllProper, Apply, Join;
    ghost var plaintext := Apply(cltDec.ks, cltDec.pos, client.Left());
    ghost var left, done: bytes := client.Left(), [];
    sent := [];
    NothingApplied(tgEnc.ks, tgEnc.pos);
    NoPieces();
    assert [] + plaintext == plaintext;
    while true
      invariant AllProper(ws.frames) && Payloads(ws.frames) == Payloads(old(ws.frames)) + sent
      invariant client.Left() == left && done + Apply(cltDec.ks, cltDec.pos, left) == plaintext
      invariant Join(sent) == Apply(tgEnc.ks, old(tgEnc.pos), done) && tgEnc.pos == old(tgEnc.pos) + |done|
      decreases |left|
    {
      var chunk := client.Read(READ_SIZE);
      if chunk.Incomplete? || chunk.data == [] {
        NothingApplied(cltDec.ks, cltDec.pos);
        assert done + [] == done;
        return;
      }
      ghost var rest := client.Left();
      var plain, cipher := Recrypt(cltDec, tgEnc, chunk.data, old(tgEnc.pos), done, rest);
      JoinLast(sent, cipher);
      ws.Send(cipher);
      left, sent, done := rest, sent + [cipher], done + plain;
    }
  }

  lemma NoPieces()
    ensures Join([]) == []
  {}

  /** Telegram misses the end of a stream if and only if it is not flushed and an incomplete packet is waiting. */
  lemma TailIsLost(t: MsgSplitter.Transport, cipher: bytes, plain: bytes, flushed: bool, sent: seq<bytes>)
    requires |cipher| == |plain| && SentAs(t, cipher, plain, flushed, sent)
    ensures Join(sent) == cipher <==> !LosesTail(t, plain, flushed)
    ensures LosesTail(t, plain, flushed) ==>
              sent == MsgSplitter.Pieces(cipher, MsgSplitter.Cut(t, plain).lens) && Join(sent) < cipher
  {
    assert cipher[..|cipher|] == cipher;
    assert sent + [] == sent;
  }

  /**
    A fake-TLS client that sends the first byte of a packet in one whole record and closes: its stream ends in the
    error, and the byte, which a client without fake TLS would have had sent, is lost.
  */
  lemma LostTail(ks: Keystream, pos: nat)
    ensures
      var wire := FakeTls.Wrap(Apply(ks, pos, [5]));
      && FakeTls.EndRaises(0, wire) && FakeTls.Plain(0, wire) == Apply(ks, pos, [5])
      && LosesTail(MsgSplitter.Abridged, [5], false) && SentLength(MsgSplitter.Abridged, [5], false) == 0
      && SentLength(MsgSplitter.Abridged, [5], true) == 1
  {
    var data := Apply(ks, pos, [5]);
    var wire := FakeTls.Wrap(data);
    assert wire + [] == wire && data + [] == data;
    FakeTls.PlainEmpty(0);
    FakeTls.PlainOfWrap(data, []);
    FakeTls.EndOfWrap(data, []);
    assert MsgSplitter.NextLen(MsgSplitter.Abridged, [5]) == None;
  }

  // ----- Down: Telegram to client

  /** The client's writer. */
  class WriteLog {
    var writes: seq<bytes>

    constructor ()
      ensures writes == []
    {
      writes := [];
    }

    method Write(data: bytes)
      modifies this
      ensures writes == old(writes) + [data]
    {
      writes := writes + [data];
    }
  }

  /** The whole stream is carried by frames a WebSocket can deliver. */
  ghost predicate Carries(frames: seq<WebSocket.Frame>) {
    WebSocket.Deliverable(frames) && forall m <- WebSocket.Messages(frames) :: |m| <= WebSocket.MAX_MESSAGE_LEN
  }

  /** Frames still to be received, and behind them the end of the stream: a close frame, or a broken connection. */
  ghost predicate Pending(ws: WebSocket.RawWebSocket, left: seq<WebSocket.Frame>, end: bytes)
    reads ws
  {
    && Carries(left) && ws.input == WebSocket.Wire(left) + end && WebSocket.Stops(end)
    && ws.frag == [] && !ws.closed
  }

  /** How a call of `recv` finds the stream ended: as it ends, or in the middle of a message already too long. */
  predicate EndsWith(r: WebSocket.Received, end: bytes) {
    r == WebSocket.EndOf(end) || r == WebSocket.Overflow
  }

  /** One call of `recv` takes the next message, or finds that none is left. */
  method ReceiveNext(ws: WebSocket.RawWebSocket, ghost left: seq<WebSocket.Frame>, ghost end: bytes)
    returns (r: WebSocket.Received, ghost rest: seq<WebSocket.Frame>)
    requires Pending(ws, left, end)
    modifies ws
    ensures if r.Message? then Pending(ws, rest, end) && |rest| < |left| else EndsWith(r, end)
    ensures WebSocket.Messages(left) == if r.Message? then [r.data] + WebSocket.Messages(rest) else []
  {
    hide WebSocket.Recv, WebSocket.FirstMessage, WebSocket.Deliverable, WebSocket.Wire, WebSocket.Stops;
    hide WebSocket.EndOf;
    NextMessage(left, ws.Model(), end);
    r := ws.Receive();
    rest := if r.Message? then WebSocket.FirstMessage(left, []).value.1 else left;
  }

  /**
    `ws_to_tcp`: whatever messages and fragments Telegram cuts its stream into, and however the stream ends, what is
    written to the client is the same plaintext under the client's keystream.
  */
  method WsToTcp(ws: WebSocket.RawWebSocket, tgDec: Cipher, cltEnc: Cipher, client: WriteLog,
                 ghost frames: seq<WebSocket.Frame>, ghost end: bytes)
    returns (r: WebSocket.Received)
    requires tgDec != cltEnc && Pending(ws, frames, end) && client.writes == []
    modifies ws, tgDec, cltEnc, client
    ensures
      var plaintext := Apply(tgDec.ks, old(tgDec.pos), Join(WebSocket.Messages(frames)));
      Join(client.writes) == Apply(cltEnc.ks, old(cltEnc.pos), plaintext)
    ensures EndsWith(r, end)
  {
    hide Pending, EndsWith, WebSocket.Messages, Apply, Join;
    ghost var left, done: bytes := frames, [];
    ghost var plaintext := Apply(tgDec.ks, tgDec.pos, Join(WebSocket.Messages(frames)));
    NothingApplied(cltEnc.ks, cltEnc.pos);
    NoPieces();
    assert [] + plaintext == plaintext;
    while true
      invariant Pending(ws, left, end)
      invariant done + Apply(tgDec.ks, tgDec.pos, Join(WebSocket.Messages(left))) == plaintext
      invariant Join(client.writes) == Apply(cltEnc.ks, old(cltEnc.pos), done) && cltEnc.pos == old(cltEnc.pos) + |done|
      decreases |left|
    {
      r, left := ReceiveNext(ws, left, end);
      if !r.Message? {
        NothingApplied(tgDec.ks, tgDec.pos);
        assert done + [] == done;
        return;
      }
      ghost var rest := Join(WebSocket.Messages(left));
      MsgSplitter.JoinHead(r.data, WebSocket.Messages(left));
      var plain, data := Recrypt(tgDec, cltEnc, r.data, old(cltEnc.pos), done, rest);
      JoinLast(client.writes, data);
      client.Write(data);
      done := done + plain;
    }
  }

  lemma NextMessage(left: seq<WebSocket.Frame>, ws: WebSocket.Socket, end: bytes)
    requires Carries(left) && ws.input == WebSocket.Wire(left) + end && WebSocket.Stops(end)
    requires ws.frag == [] && !ws.closed
    ensures
      var (r, ws') := WebSocket.Recv(ws);
      match WebSocket.FirstMessage(left, [])
      case None => EndsWith(r, end) && WebSocket.Messages(left) == []
      case Some((message, rest)) =>
        && r == WebSocket.Message(message) && WebSocket.Messages(left) == [message] + WebSocket.Messages(rest)
        && |rest| < |left| && Carries(rest)
        && ws'.input == WebSocket.Wire(rest) + end && ws'.frag == [] && !ws'.closed
  {
    hide WebSocket.Recv, WebSocket.Wire, WebSocket.ValidFrame, WebSocket.Stops, WebSocket.EndOf;
    WebSocket.MessagesStep(left);
    match WebSocket.FirstMessage(left, [])
    case None => WebSocket.RecvEnds(left, ws, end);
    case Some((message, rest)) =>
      assert WebSocket.Messages(left)[0] == message && WebSocket.Messages(left)[1..] == WebSocket.Messages(rest);
      WebSocket.RecvFirst(left, ws, end);
  }

  // ----- A whole connection

  /** `_handle_client`: the framing that goes with a protocol tag. */
  function TransportOf(tag: bytes): MsgSplitter.Transport {
    if tag == TAG_ABRIDGED then MsgSplitter.Abridged
    else if tag == TAG_INTERMEDIATE then MsgSplitter.Intermediate
    else MsgSplitter.Padded
  }

  /** The framing a client announces by its tag is the one its stream is split by. */
  lemma FramingOfTag(ctr: Ctr, sha: Hash, handshake: bytes, secret: bytes)
    requires |handshake| == HANDSHAKE_LEN && TryHandshake(ctr, sha, handshake, secret).Some?
    ensures
      var tag := TryHandshake(ctr, sha, handshake, secret).value.tag;
      || (tag == [0xEF, 0xEF, 0xEF, 0xEF] && TransportOf(tag) == MsgSplitter.Abridged)
      || (tag == [0xEE, 0xEE, 0xEE, 0xEE] && TransportOf(tag) == MsgSplitter.Intermediate)
      || (tag == [0xDD, 0xDD, 0xDD, 0xDD] && TransportOf(tag) == MsgSplitter.Padded)
  {}

  /**
    What Telegram, knowing nothing but the frames, finds in them: a handshake with the client's tag and the relay's
    DC index, then the client's plaintext, enciphered from position 64 of the handshake's keystream on and sent as
    one packet per message while its framing is valid; all of it, unless an incomplete packet was never flushed.
  */
  ghost predicate TelegramReads(ctr: Ctr, messages: seq<bytes>, a: Accepted, plaintext: bytes, flushed: bool) {
    && messages != [] && |messages[0]| == HANDSHAKE_LEN && FitsInt16(RelayIndex(a.dc, a.isMedia))
    && var init := messages[0];
       var ks := RelayKeystream(ctr, init);
       var clear := Apply(ks, 0, init);
       && clear[PROTO_TAG_POS..PROTO_TAG_POS + 4] == a.tag
       && GetInt16(clear[DC_IDX_POS..DC_IDX_POS + 2]) == RelayIndex(a.dc, a.isMedia)
       && Apply(ks, HANDSHAKE_LEN, Join(messages[1..]))
          == plaintext[..SentLength(TransportOf(a.tag), plaintext, flushed)]
       && SentAs(TransportOf(a.tag), Apply(ks, HANDSHAKE_LEN, plaintext), plaintext, flushed, messages[1..])
  }

  /** What a connection carries once fake TLS is taken off it, and whether its end raises an error. */
  datatype Stream = Stream(data: bytes, raises: bool)

  /**
    `_read_client_init` up to the obfuscated handshake: with a masking domain only a ClientHello made with the secret
    opens a stream, without one the connection is the stream.
  */
  function ClientStream(hmac: TlsHandshake.Hmac, secret: bytes, masking: bool, now: int, input: bytes): Option<Stream> {
    if !masking then Some(Stream(input, false))
    else if |input| < 5 || input[0] != FakeTls.RECORD_HANDSHAKE then None
    else
      var size := 5 + Be2(input[3..5]);
      if |input| < size || TlsHandshake.Verify(hmac, secret, now, input[..size]).None? then None
      else Some(Stream(FakeTls.Plain(0, input[size..]), FakeTls.EndRaises(0, input[size..])))
  }

  method ReadClientInit(hmac: TlsHandshake.Hmac, secret: bytes, masking: bool, now: int, reader: StreamReader)
    returns (r: Option<(bytes, Client)>)
    modifies reader
    ensures r.Some? ==> reader in r.value.1.Repr() && fresh(r.value.1.Repr() - {reader})
    ensures
      match ClientStream(hmac, secret, masking, now, old(reader.input))
      case None => r.None?
      case Some(s) =>
        && (r.Some? <==> |s.data| >= HANDSHAKE_LEN)
        && (r.Some? ==>
              && r.value.0 == s.data[..HANDSHAKE_LEN] && r.value.1.Left() == s.data[HANDSHAKE_LEN..]
              && r.value.1.Raises() == s.raises)
  {
    hide FakeTls.Plain, FakeTls.EndRaises, TlsHandshake.Verify;
    ghost var input := reader.input;
    var first := reader.ReadExactly(1);
    if first.None? { return None; }
    if first.value[0] == FakeTls.RECORD_HANDSHAKE && masking {
      var headerRest := reader.ReadExactly(4);
      if headerRest.None? { return None; }
      var header := first.value + headerRest.value;
      assert header == input[..5] && header[3..5] == input[3..5];
      var body := reader.ReadExactly(Be2(header[3..5]));
      if body.None? { return None; }
      assert header + body.value == input[..5 + |body.value|] && reader.input == input[5 + |body.value|..];
      if TlsHandshake.Verify(hmac, secret, now, header + body.value).None? { return None; }
      var stream := new FakeTls.FakeTlsStream(reader);
      var handshake := stream.ReadExactly(HANDSHAKE_LEN);
      if handshake.Incomplete? { return None; }
      return Some((handshake.data, Tls(stream)));
    } else if masking {
      return None;
    }
    var rest := reader.ReadExactly(HANDSHAKE_LEN - 1);
    if rest.None? { return None; }
    assert first.value + rest.value == input[..HANDSHAKE_LEN];
    return Some((first.value + rest.value, Direct(reader)));
  }

  /** What a client that opens such a stream asks for, and the plaintext behind its handshake. */
  function Request(ctr: Ctr, sha: Hash, secret: bytes, s: Stream): Option<(Accepted, bytes)> {
    if |s.data| < HANDSHAKE_LEN then None
    else
      var handshake := s.data[..HANDSHAKE_LEN];
      match TryHandshake(ctr, sha, handshake, secret)
      case None => None
      case Some(a) =>
        var ks := ClientKeystream(ctr, sha, handshake, secret);
        Some((a, Apply(ks, HANDSHAKE_LEN, s.data[HANDSHAKE_LEN..])))
  }

  /** What follows a handshake that is accepted, over a WebSocket taken from the pool. */
  method Serve(ctr: Ctr, sha: Hash, secret: bytes, handshake: bytes, a: Accepted, client: Client,
               random: bytes, noise: bytes, ws: FrameLog)
    requires |handshake| == HANDSHAKE_LEN && TryHandshake(ctr, sha, handshake, secret) == Some(a)
    requires |random| == HANDSHAKE_LEN && Inconspicuous(random) && |noise| == 2 && ws.frames == []
    modifies client.Repr(), ws
    ensures AllProper(ws.frames)
    ensures
      var plaintext := Apply(ClientKeystream(ctr, sha, handshake, secret), HANDSHAKE_LEN, old(client.Left()));
      TelegramReads(ctr, WebSocket.Messages(ws.frames), a, plaintext, !old(client.Raises()))
  {
    hide WebSocket.Messages, AllProper, TransportOf, TryHandshake, Inconspicuous, RelayIndex;
    hide Client.Left, Client.Raises, Payloads, SentAs, Apply, TelegramReads, Init;
    NothingSent();
    RelayIndexFits(ctr, sha, handshake, secret);
    var init := GenerateRelayInit(ctr, random, a.tag, RelayIndex(a.dc, a.isMedia), noise);
    var cltDec, cltEnc, tgEnc, tgDec := BuildCryptoCtx(ctr, sha, handshake, secret, init);
    var splitter := new MsgSplitter.Splitter(TransportOf(a.tag));
    ws.Send(init);
    assert Payloads(ws.frames) == [init];
    ghost var plaintext, flushed := Apply(cltDec.ks, cltDec.pos, client.Left()), !client.Raises();
    ghost var sent := TcpToWs(client, cltDec, tgEnc, splitter, ws);
    MessagePerFrame(ws.frames);
    assert WebSocket.Messages(ws.frames) == [init] + sent;
    SentIsRead(ctr, random, noise, a, plaintext, flushed, sent);
  }

  /**
    A client's connection up to its end of stream: without a proper ClientHello or handshake nothing is sent, any other
    connection is relayed transparently.
  */
  method HandleClient(ctr: Ctr, sha: Hash, hmac: TlsHandshake.Hmac, secret: bytes, masking: bool, now: int,
                      reader: StreamReader, random: bytes, noise: bytes)
    returns (ws: FrameLog)
    requires |random| == HANDSHAKE_LEN && Inconspicuous(random) && |noise| == 2
    modifies reader
    ensures AllProper(ws.frames)
    ensures
      var stream := ClientStream(hmac, secret, masking, now, old(reader.input));
      var request := if stream.Some? then Request(ctr, sha, secret, stream.value) else None;
      match request
      case None => ws.frames == []
      case Some((a, plaintext)) =>
        TelegramReads(ctr, WebSocket.Messages(ws.frames), a, plaintext, !stream.value.raises)
  {
    hide WebSocket.Messages, AllProper, TryHandshake, Inconspicuous, ClientStream;
    hide Client.Left, Client.Raises, Apply, TelegramReads;
    ws := new FrameLog();
    NothingSent();
    var arrived := ReadClientInit(hmac, secret, masking, now, reader);
    if arrived.None? { return; }
    var (handshake, client) := arrived.value;
    var accepted := TryHandshake(ctr, sha, handshake, secret);
    if accepted.None? { return; }
    Serve(ctr, sha, secret, handshake, accepted.value, client, random, noise, ws);
  }

  lemma NothingSent()
    ensures Payloads([]) == [] && AllProper([])
  {}

  lemma SentIsRead(ctr: Ctr, random: bytes, noise: bytes, a: Accepted, plaintext: bytes, flushed: bool,
                   sent: seq<bytes>)
    requires |random| == HANDSHAKE_LEN && |a.tag| == 4 && |noise| == 2 && FitsInt16(RelayIndex(a.dc, a.isMedia))
    requires
      var init := Init(RelayKeystream(ctr, random), random, a.tag, RelayIndex(a.dc, a.isMedia), noise);
      SentAs(TransportOf(a.tag), Apply(RelayKeystream(ctr, init), HANDSHAKE_LEN, plaintext), plaintext, flushed, sent)
    ensures
      var init := Init(RelayKeystream(ctr, random), random, a.tag, RelayIndex(a.dc, a.isMedia), noise);
      TelegramReads(ctr, [init] + sent, a, plaintext, flushed)
  {
    hide SentLength;
    var index := RelayIndex(a.dc, a.isMedia);
    var init := Init(RelayKeystream(ctr, random), random, a.tag, index, noise);
    RelayInitDecrypts(ctr, random, a.tag, index, noise);
    ApplyPrefix(RelayKeystream(ctr, init), HANDSHAKE_LEN, plaintext,
                SentLength(TransportOf(a.tag), plaintext, flushed));
    assert ([init] + sent)[1..] == sent;
  }

  /** Part of a ciphertext deciphers to the same part of the plaintext. */
  lemma ApplyPrefix(ks: Keystream, pos: nat, data: bytes, n: nat)
    requires n <= |data|
    ensures Apply(ks, pos, Apply(ks, pos, data)[..n]) == data[..n]
  {
    ApplyTwice(ks, pos, data[..n]);
    assert Apply(ks, pos, data)[..n] == Apply(ks, pos, data[..n]);
  }
}
