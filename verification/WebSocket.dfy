/** WebSocket framing, masking and reassembly (proxy/raw_websocket.py; RFC 6455, sections 5.2 to 5.5). */
module WebSocket {
  import opened Prelude
  import opened Bytes
  import opened ExclusiveOr

  const MAX_MESSAGE_LEN := 16 * 1024 * 1024

  const OP_CONT := 0x0
  const OP_TEXT := 0x1
  const OP_BINARY := 0x2
  const OP_CLOSE := 0x8
  const OP_PING := 0x9
  const OP_PONG := 0xA

  // ----- Masking

  /** Section 5.3 of RFC 6455. */
  function Masked(data: bytes, mask: bytes): (r: bytes)
    requires |mask| == 4
    ensures |r| == |data| && forall i :: 0 <= i < |data| ==> r[i] == Xor(data[i], mask[i % 4])
  {
    seq(|data|, i requires 0 <= i < |data| => Xor(data[i], mask[i % 4]))
  }

  lemma MaskingTwice(data: bytes, mask: bytes)
    requires |mask| == 4
    ensures Masked(Masked(data, mask), mask) == data
  {
    forall i | 0 <= i < |data|
      ensures Masked(Masked(data, mask), mask)[i] == data[i]
    {
      XorTwice(data[i], mask[i % 4]);
    }
  }

  /** One of the 256 translation tables. */
  function XorTable(key: byte): (table: seq<byte>)
    ensures |table| == 256
  {
    seq(256, value requires 0 <= value < 256 => Xor(value, key))
  }

  function Repeat(s: bytes, n: nat): bytes {
    if n == 0 then [] else s + Repeat(s, n - 1)
  }

  lemma {:induction false} RepeatAt(mask: bytes, n: nat, i: nat)
    requires |mask| == 4 && i < 4 * n
    ensures |Repeat(mask, n)| == 4 * n && Repeat(mask, n)[i] == mask[i % 4]
  {
    if i >= 4 {
      RepeatAt(mask, n - 1, i - 4);
    } else if n > 1 {
      RepeatAt(mask, n - 1, 0);
    } else {
      assert Repeat(mask, 0) == [];
    }
  }

  /** Which bytes are masked after the residues below `offset`, and those of `offset` itself before `i`. */
  predicate Progress(masked: seq<byte>, data: bytes, mask: bytes, offset: nat, i: nat)
    requires |mask| == 4
  {
    && |masked| == |data|
    && forall j :: 0 <= j < |data| ==>
         masked[j] == if j % 4 < offset || (j % 4 == offset && j < i) then Xor(data[j], mask[j % 4]) else data[j]
  }

  lemma NextOfResidue(masked: seq<byte>, data: bytes, mask: bytes, offset: nat, i: nat)
    requires |mask| == 4 && i < |data| && i % 4 == offset && Progress(masked, data, mask, offset, i)
    ensures masked[i] == data[i] && Progress(masked[i := Xor(data[i], mask[offset])], data, mask, offset, i + 4)
  {}

  lemma ResidueBegins(masked: seq<byte>, data: bytes, mask: bytes, offset: nat)
    requires |mask| == 4 && offset < 4 && Progress(masked, data, mask, offset, 0)
    ensures Progress(masked, data, mask, offset, offset) && |masked| == |data|
  {}

  lemma ResidueDone(masked: seq<byte>, data: bytes, mask: bytes, offset: nat, i: nat)
    requires |mask| == 4 && i >= |data| && Progress(masked, data, mask, offset, i)
    ensures Progress(masked, data, mask, offset + 1, 0)
  {}

  /** One strided slice: every fourth byte, from `offset` on, through one table. */
  method TranslateSlice(masked: array<byte>, table: seq<byte>, offset: nat, ghost data: bytes, ghost mask: bytes)
    requires offset < 4 && |mask| == 4 && table == XorTable(mask[offset])
    requires Progress(masked[..], data, mask, offset, 0)
    modifies masked
    ensures Progress(masked[..], data, mask, offset + 1, 0)
  {
    ResidueBegins(masked[..], data, mask, offset);
    hide Progress;
    var i := offset;
    while i < masked.Length
      invariant i % 4 == offset && masked.Length == |data|
      invariant Progress(masked[..], data, mask, offset, i)
    {
      ghost var before := masked[..];
      masked[i] := table[masked[i]];
      NextOfResidue(before, data, mask, offset, i);
      assert masked[..] == before[i := Xor(data[i], mask[offset])];
      i := i + 4;
    }
    ResidueDone(masked[..], data, mask, offset, i);
  }

  /** `_xor_mask`: a translation of each of the four residues, or one exclusive or of two big integers. */
  method XorMask(data: bytes, mask: bytes) returns (r: bytes)
    requires |mask| == 4
    ensures r == Masked(data, mask)
  {
    if data == [] { return data; }
    var n := |data|;
    if n >= 512 {
      var masked := new byte[n](i requires 0 <= i < n => data[i]);
      for offset := 0 to 4
        invariant Progress(masked[..], data, mask, offset, 0)
      {
        TranslateSlice(masked, XorTable(mask[offset]), offset, data, mask);
      }
      return masked[..];
    }
    r := XorAsNumbers(data, mask);
  }

  method XorAsNumbers(data: bytes, mask: bytes) returns (r: bytes)
    requires |mask| == 4
    ensures r == Masked(data, mask)
  {
    hide XorNat, FromBytes, ToBytes, Repeat;
    var n := |data|;
    RepeatAt(mask, n / 4 + 1, 0);
    var maskRep := Repeat(mask, n / 4 + 1)[..n];
    r := ToBytes(XorNat(FromBytes(data), FromBytes(maskRep)), n);
    XorOfNumbers(data, maskRep);
    ToInvertsFrom(XorSeq(data, maskRep));
    forall i | 0 <= i < n
      ensures maskRep[i] == mask[i % 4]
    {
      RepeatAt(mask, n / 4 + 1, i);
    }
  }

  // ----- Frames

  /** Any frame a peer may send; the proxy itself always sends final frames. */
  datatype Frame = Frame(fin: bool, opcode: byte, data: bytes, mask: Option<bytes>)

  predicate ValidFrame(f: Frame) {
    f.opcode < 16 && |f.data| < 0x1_0000_0000_0000_0000 && (f.mask.Some? ==> |f.mask.value| == 4)
  }

  function LengthField(length: nat, maskBit: nat): bytes
    requires length < 0x1_0000_0000_0000_0000 && (maskBit == 0 || maskBit == 0x80)
  {
    if length < 126 then [maskBit + length]
    else if length < 0x1_0000 then [maskBit + 126] + PutBe2(length)
    else [maskBit + 127] + ToBytes(length, 8)
  }

  function Head(f: Frame): (s: bytes)
    requires ValidFrame(f)
    ensures |s| >= 2
  {
    [(if f.fin then 0x80 else 0) + f.opcode] + LengthField(|f.data|, if f.mask.Some? then 0x80 else 0)
  }

  function Key(f: Frame): bytes {
    if f.mask.Some? then f.mask.value else []
  }

  /** The payload as it travels. */
  function Raw(f: Frame): bytes
    requires ValidFrame(f)
  {
    if f.mask.Some? then Masked(f.data, f.mask.value) else f.data
  }

  /** `_build_frame` for a final frame; the mask key is drawn at random. */
  function Encode(f: Frame): bytes
    requires ValidFrame(f)
  {
    Head(f) + Key(f) + Raw(f)
  }

  datatype ReadResult = Incomplete | TooLarge | Read(fin: bool, opcode: byte, payload: bytes, size: nat)

  /** The payload length and where the length field ends. */
  function ReadLength(s: bytes): (r: Option<(nat, nat)>)
    requires |s| >= 2
    ensures r.Some? ==> 2 <= r.value.1 <= |s|
  {
    var length := (s[1] as int) % 0x80;
    if length == 126 then (if |s| < 4 then None else Some((Be2(s[2..4]), 4)))
    else if length == 127 then (if |s| < 10 then None else Some((FromBytes(s[2..10]), 10)))
    else Some((length, 2))
  }

  /** `_read_frame`. */
  function ReadFrame(s: bytes): (r: ReadResult)
    ensures r.Read? ==> 2 <= r.size <= |s|
  {
    if |s| < 2 then Incomplete
    else
      match ReadLength(s)
      case None => Incomplete
      case Some((length, pos)) =>
        if length > MAX_MESSAGE_LEN then TooLarge
        else
          var start := if s[1] >= 0x80 then pos + 4 else pos;
          if |s| < start + length then Incomplete
          else
            var raw := s[start..start + length];
            var payload := if s[1] >= 0x80 then Masked(raw, s[pos..start]) else raw;
            Read(s[0] >= 0x80, (s[0] as int) % 0x10, payload, start + length)
  }

  lemma LongFieldSize()
    ensures Pow256(8) == 0x1_0000_0000_0000_0000
  {}

  lemma HeadRead(f: Frame, rest: bytes)
    requires ValidFrame(f)
    ensures
      var s := Head(f) + rest;
      && ReadLength(s) == Some((|f.data|, |Head(f)|))
      && (s[1] >= 0x80 <==> f.mask.Some?) && (s[0] >= 0x80 <==> f.fin) && (s[0] as int) % 0x10 == f.opcode
  {
    LongFieldSize();
    hide ToBytes, FromBytes, Pow256;
    var length := |f.data|;
    var s := Head(f) + rest;
    if 126 <= length < 0x1_0000 {
      assert s[2..4] == PutBe2(length);
    } else if length >= 0x1_0000 {
      assert s[2..10] == ToBytes(length, 8);
      FromInvertsTo(length, 8);
    }
  }

  /** Where the length field of so many bytes of data ends. */
  function HeadSize(n: nat): nat {
    if n <= 125 then 2 else if n <= 65535 then 4 else 10
  }

  /** The head of section 5.2 of RFC 6455: flags and opcode, then the length in 7, 16 or 64 bits. */
  lemma HeadLayout(f: Frame)
    requires ValidFrame(f)
    ensures
      var s, n := Head(f), |f.data|;
      && |s| == HeadSize(n)
      && s[0] == (if f.fin then 128 else 0) + f.opcode
      && s[1] == (if f.mask.Some? then 128 else 0) + (if n <= 125 then n else if n <= 65535 then 126 else 127)
      && (n > 125 ==> BigEndian(s[2..]) == n)
  {
    hide ToBytes, FromBytes, BigEndian;
    var s, n := Head(f), |f.data|;
    if 125 < n <= 65535 {
      assert s[2..] == PutBe2(n);
      TwoBytes(PutBe2(n));
    } else if n > 65535 {
      assert s[2..] == ToBytes(n, 8);
      LongFieldSize();
      FromInvertsTo(n, 8);
      FromBytesIs(ToBytes(n, 8));
    }
  }

  /** Behind the head come the masking key, if there is one, and the data under it. */
  lemma FrameLayout(f: Frame)
    requires ValidFrame(f)
    ensures Encode(f) == Head(f) + (if f.mask.Some? then f.mask.value else []) + Raw(f)
    ensures |Raw(f)| == |f.data| && forall i :: 0 <= i < |f.data| ==>
              Raw(f)[i] == if f.mask.Some? then XorNat(f.data[i], f.mask.value[i % 4]) else f.data[i]
  {
    hide XorNat, Head;
  }

  /** What is read after a length field that says `length`, with the mask and the payload behind it. */
  lemma ReadAfterLength(s: bytes, head: bytes, length: nat, key: bytes, raw: bytes, rest: bytes)
    requires |head| >= 2 && s == head + key + raw + rest && |raw| == length
    requires ReadLength(s) == Some((length, |head|))
    requires if s[1] >= 0x80 then |key| == 4 else key == []
    ensures ReadFrame(s) ==
            if length > MAX_MESSAGE_LEN then TooLarge
            else Read(s[0] >= 0x80, (s[0] as int) % 0x10, if s[1] >= 0x80 then Masked(raw, key) else raw,
                      |head| + |key| + length)
  {}

  /** A frame is read back as it was sent, in all three length encodings, masked or not; larger ones are refused. */
  lemma ReadInvertsEncode(f: Frame, rest: bytes)
    requires ValidFrame(f)
    ensures ReadFrame(Encode(f) + rest) ==
            if |f.data| <= MAX_MESSAGE_LEN then Read(f.fin, f.opcode, f.data, |Encode(f)|) else TooLarge
  {
    hide ReadLength, ReadFrame, Head, Masked;
    var behind := Key(f) + Raw(f) + rest;
    HeadRead(f, behind);
    assert Encode(f) + rest == Head(f) + behind;
    ReadAfterLength(Encode(f) + rest, Head(f), |f.data|, Key(f), Raw(f), rest);
    if f.mask.Some? {
      MaskingTwice(f.data, f.mask.value);
    }
  }

  // ----- Receiving messages

  /** What the socket writes on its own: the opcode and payload of a frame with a fresh mask. */
  /** A frame that is cut off anywhere is waited for, not mistaken for another. */
  lemma CutOff(f: Frame, k: nat)
    requires ValidFrame(f) && |f.data| <= MAX_MESSAGE_LEN && k < |Encode(f)|
    ensures ReadFrame(Encode(f)[..k]) == Incomplete
  {
    var s, cut, head := Encode(f), Encode(f)[..k], |Head(f)|;
    HeadRead(f, Key(f) + Raw(f));
    assert s == Head(f) + (Key(f) + Raw(f));
    hide ReadLength, Head, Masked;
    if k >= head {
      CutBehindHead(s, cut, head);
    } else if k >= 2 {
      CutInHead(s, cut);
    }
  }

  lemma CutInHead(s: bytes, cut: bytes)
    requires cut <= s && |cut| >= 2 && ReadLength(s).Some? && |cut| < ReadLength(s).value.1
    ensures ReadLength(cut).None?
  {
    hide FromBytes;
  }

  /** The length field says the same of all that follows it. */
  lemma CutBehindHead(s: bytes, cut: bytes, head: nat)
    requires cut <= s && 2 <= head <= |cut| && ReadLength(s).Some? && ReadLength(s).value.1 == head
    ensures ReadLength(cut) == ReadLength(s) && cut[1] == s[1]
  {
    hide FromBytes;
    assert head >= 4 ==> cut[2..4] == s[2..4];
    assert head >= 10 ==> cut[2..10] == s[2..10];
  }

  datatype Control = Control(opcode: byte, payload: bytes)

  datatype Socket = Socket(input: bytes, frag: bytes, closed: bool, written: seq<Control>)

  /** A message, a closed socket, or one of three errors: the stream ended, a frame or a message is too large. */
  datatype Received = Message(data: bytes) | NoMessage | Broken | Oversize | Overflow

  predicate IsData(opcode: byte) {
    opcode == OP_CONT || opcode == OP_TEXT || opcode == OP_BINARY
  }

  /** `recv`. */
  function Recv(ws: Socket): (Received, Socket)
    decreases |ws.input|
  {
    if ws.closed then (NoMessage, ws)
    else
      match ReadFrame(ws.input)
      case Incomplete => (Broken, ws)
      case TooLarge => (Oversize, ws)
      case Read(fin, opcode, payload, size) =>
        var ws1 := ws.(input := ws.input[size..]);
        if opcode == OP_CLOSE then
          (NoMessage, ws1.(closed := true, written := ws.written + [Control(OP_CLOSE, Prefix(payload, 2))]))
        else if opcode == OP_PING then Recv(ws1.(written := ws.written + [Control(OP_PONG, payload)]))
        else if !IsData(opcode) then Recv(ws1)
        else if fin && ws.frag == [] then (Message(payload), ws1)
        else
          var frag := ws.frag + payload;
          if |frag| > MAX_MESSAGE_LEN then (Overflow, ws1.(frag := frag))
          else if !fin then Recv(ws1.(frag := frag))
          else (Message(frag), ws1.(frag := []))
  }

  /** The first message in a list of frames, given what is already assembled, and the frames after it. */
  function FirstMessage(frames: seq<Frame>, assembled: bytes): Option<(bytes, seq<Frame>)> {
    if frames == [] then None
    else
      var f := frames[0];
      if !IsData(f.opcode) then FirstMessage(frames[1..], assembled)
      else if f.fin then Some((assembled + f.data, frames[1..]))
      else FirstMessage(frames[1..], assembled + f.data)
  }

  /** Section 5.4 of RFC 6455: the messages a list of frames carries, control frames skipped. */
  function Messages(frames: seq<Frame>): seq<bytes>
    decreases |frames|
  {
    match FirstMessage(frames, [])
    case None => []
    case Some((message, rest)) =>
      FirstMessageShrinks(frames, []);
      [message] + Messages(rest)
  }

  lemma {:induction false} FirstMessageShrinks(frames: seq<Frame>, assembled: bytes)
    ensures var r := FirstMessage(frames, assembled);
      r.Some? ==> |r.value.1| < |frames| && frames[|frames| - |r.value.1|..] == r.value.1
    decreases |frames|
  {
    if frames != [] {
      var f := frames[0];
      if !IsData(f.opcode) {
        FirstMessageShrinks(frames[1..], assembled);
      } else if !f.fin {
        FirstMessageShrinks(frames[1..], assembled + f.data);
      }
    }
  }

  function Wire(frames: seq<Frame>): bytes
    requires forall f <- frames :: ValidFrame(f)
  {
    if frames == [] then [] else Encode(frames[0]) + Wire(frames[1..])
  }

  /** Frames within the limit, none of them a close. */
  predicate Deliverable(frames: seq<Frame>) {
    forall f <- frames :: ValidFrame(f) && |f.data| <= MAX_MESSAGE_LEN && f.opcode != OP_CLOSE
  }

  /** The first frame on the wire is read first. */
  lemma WireHead(frames: seq<Frame>, rest: bytes)
    requires Deliverable(frames) && frames != []
    ensures
      var s := Wire(frames) + rest;
      var f := frames[0];
      && Deliverable(frames[1..])
      && ReadFrame(s).Read? && s[ReadFrame(s).size..] == Wire(frames[1..]) + rest
      && ReadFrame(s).fin == f.fin && ReadFrame(s).opcode == f.opcode && ReadFrame(s).payload == f.data
  {
    hide ReadFrame, Encode, ValidFrame;
    var f, tail := frames[0], frames[1..];
    assert f in frames && forall g <- tail :: g in frames;
    var more := Wire(tail) + rest;
    assert Wire(frames) + rest == Encode(f) + more;
    ReadInvertsEncode(f, more);
    assert (Encode(f) + more)[|Encode(f)|..] == more;
  }

  /** One call returns the first message, however it is cut and whatever control frames come between. */
  lemma {:induction false} RecvFirst(frames: seq<Frame>, ws: Socket, rest: bytes)
    requires Deliverable(frames) && !ws.closed && ws.input == Wire(frames) + rest
    requires FirstMessage(frames, ws.frag).Some?
    requires |FirstMessage(frames, ws.frag).value.0| <= MAX_MESSAGE_LEN
    ensures
      var (message, others) := FirstMessage(frames, ws.frag).value;
      var (r, ws') := Recv(ws);
      && Deliverable(others)
      && r == Message(message) && ws'.input == Wire(others) + rest && ws'.frag == [] && !ws'.closed
    decreases |frames|
  {
    hide ReadFrame, Encode, ValidFrame, Deliverable, Wire;
    WireHead(frames, rest);
    OnlyValid(frames);
    var f, tail := frames[0], frames[1..];
    var ws1 := ws.(input := Wire(tail) + rest);
    if f.opcode == OP_PING {
      RecvFirst(tail, ws1.(written := ws.written + [Control(OP_PONG, f.data)]), rest);
    } else if !IsData(f.opcode) {
      RecvFirst(tail, ws1, rest);
    } else if f.fin {
      assert [] + f.data == f.data;
    } else {
      FirstMessageGrows(tail, ws.frag + f.data);
      RecvFirst(tail, ws1.(frag := ws.frag + f.data), rest);
    }
  }

  /** The answers to the pings among some frames. */
  function Pongs(frames: seq<Frame>): seq<Control> {
    if frames == [] then []
    else (if frames[0].opcode == OP_PING then [Control(OP_PONG, frames[0].data)] else []) + Pongs(frames[1..])
  }

  /** On the way to a message every ping is answered with its own payload, in order, and nothing else is written. */
  lemma {:induction false} RecvAnswersPings(frames: seq<Frame>, ws: Socket, rest: bytes)
    requires Deliverable(frames) && !ws.closed && ws.input == Wire(frames) + rest
    requires FirstMessage(frames, ws.frag).Some?
    requires |FirstMessage(frames, ws.frag).value.0| <= MAX_MESSAGE_LEN
    ensures
      var others := FirstMessage(frames, ws.frag).value.1;
      && |others| <= |frames|
      && Recv(ws).1.written == ws.written + Pongs(frames[..|frames| - |others|])
    decreases |frames|
  {
    hide ReadFrame, Encode, ValidFrame, Deliverable, Wire;
    WireHead(frames, rest);
    OnlyValid(frames);
    FirstMessageShrinks(frames, ws.frag);
    var f, tail := frames[0], frames[1..];
    var read := |frames| - |FirstMessage(frames, ws.frag).value.1|;
    assert frames[..read][0] == f && frames[..read][1..] == tail[..read - 1];
    var ws1 := ws.(input := Wire(tail) + rest);
    if f.opcode == OP_PING {
      var pong := Control(OP_PONG, f.data);
      RecvAnswersPings(tail, ws1.(written := ws.written + [pong]), rest);
      assert ws.written + [pong] + Pongs(tail[..read - 1]) == ws.written + ([pong] + Pongs(tail[..read - 1]));
    } else if !IsData(f.opcode) {
      RecvAnswersPings(tail, ws1, rest);
    } else if !f.fin {
      FirstMessageGrows(tail, ws.frag + f.data);
      RecvAnswersPings(tail, ws1.(frag := ws.frag + f.data), rest);
    }
  }

  /** A close frame ends the stream: it is echoed with its status code alone, and no later call reads anything. */
  lemma CloseIsEchoed(ws: Socket, f: Frame, rest: bytes)
    requires !ws.closed && ValidFrame(f) && f.opcode == OP_CLOSE && |f.data| <= MAX_MESSAGE_LEN
    requires ws.input == Encode(f) + rest
    ensures
      var (r, ws') := Recv(ws);
      && r == NoMessage && ws'.closed && ws'.written == ws.written + [Control(OP_CLOSE, Prefix(f.data, 2))]
      && Recv(ws') == (NoMessage, ws')
  {
    ReadInvertsEncode(f, rest);
    hide ReadFrame, Encode;
  }

  lemma OnlyValid(frames: seq<Frame>)
    requires Deliverable(frames) && frames != []
    ensures frames[0].opcode != OP_CLOSE
    ensures (forall f <- frames :: ValidFrame(f)) && forall f <- frames[1..] :: ValidFrame(f)
  {}

  lemma {:induction false} FirstMessageGrows(frames: seq<Frame>, assembled: bytes)
    ensures var r := FirstMessage(frames, assembled); r.Some? ==> |r.value.0| >= |assembled|
    decreases |frames|
  {
    if frames != [] {
      var f := frames[0];
      if !IsData(f.opcode) {
        FirstMessageGrows(frames[1..], assembled);
      } else if !f.fin {
        FirstMessageGrows(frames[1..], assembled + f.data);
      }
    }
  }

  /** Bytes behind which nothing is read: a close frame, a frame cut off or too large, or nothing at all. */
  predicate Stops(rest: bytes) {
    !ReadFrame(rest).Read? || ReadFrame(rest).opcode == OP_CLOSE
  }

  /** What a call returns that gets that far. */
  function EndOf(rest: bytes): (r: Received)
    ensures !r.Message?
  {
    match ReadFrame(rest)
    case Incomplete => Broken
    case TooLarge => Oversize
    case Read(_, _, _, _) => NoMessage
  }

  /** A message that is not one single frame passes the limit before it ends. */
  predicate TooLong(frames: seq<Frame>, assembled: bytes)
    decreases |frames|
  {
    if frames == [] then false
    else
      var f := frames[0];
      if !IsData(f.opcode) then TooLong(frames[1..], assembled)
      else if f.fin && assembled == [] then false
      else
        var longer := assembled + f.data;
        |longer| > MAX_MESSAGE_LEN || (!f.fin && TooLong(frames[1..], longer))
  }

  /**
    With no whole message left before the end of the stream, whether Telegram closes it or breaks it off, none is
    returned: the call fails on a message already too long, or else ends as the rest says.
  */
  lemma {:induction false} RecvEnds(frames: seq<Frame>, ws: Socket, rest: bytes)
    requires Deliverable(frames) && !ws.closed && ws.input == Wire(frames) + rest && Stops(rest)
    requires FirstMessage(frames, ws.frag).None?
    ensures Recv(ws).0 == if TooLong(frames, ws.frag) then Overflow else EndOf(rest)
    decreases |frames|
  {
    hide ReadFrame, Encode, ValidFrame, Deliverable, Wire;
    if frames == [] {
      EmptyWire();
      assert ws.input == rest;
    } else {
      OnlyValid(frames);
      WireHead(frames, rest);
      var f, tail := frames[0], frames[1..];
      var ws1 := ws.(input := Wire(tail) + rest);
      if f.opcode == OP_PING {
        RecvEnds(tail, ws1.(written := ws.written + [Control(OP_PONG, f.data)]), rest);
      } else if !IsData(f.opcode) {
        RecvEnds(tail, ws1, rest);
      } else if |ws.frag + f.data| <= MAX_MESSAGE_LEN {
        RecvEnds(tail, ws1.(frag := ws.frag + f.data), rest);
      }
    }
  }

  lemma EmptyWire()
    ensures Wire([]) == []
  {}

  /** The results of `n` calls in a row. */
  function RecvMany(ws: Socket, n: nat): seq<Received>
    decreases n
  {
    if n == 0 then []
    else
      var (r, ws') := Recv(ws);
      [r] + RecvMany(ws', n - 1)
  }

  function AsReceived(messages: seq<bytes>): seq<Received> {
    if messages == [] then [] else [Message(messages[0])] + AsReceived(messages[1..])
  }

  /** Repeated receiving returns exactly the messages the frames carry, in order. */
  lemma {:induction false} RecvReturnsAllMessages(frames: seq<Frame>, ws: Socket, rest: bytes)
    requires Deliverable(frames) && !ws.closed && ws.frag == [] && ws.input == Wire(frames) + rest
    requires forall m <- Messages(frames) :: |m| <= MAX_MESSAGE_LEN
    ensures RecvMany(ws, |Messages(frames)|) == AsReceived(Messages(frames))
    decreases |frames|
  {
    hide Recv, Deliverable, Wire, FirstMessage, Messages;
    MessagesStep(frames);
    if FirstMessage(frames, []).Some? {
      var (message, others) := FirstMessage(frames, []).value;
      assert Messages(frames)[0] == message && Messages(frames)[1..] == Messages(others);
      RecvFirst(frames, ws, rest);
      RecvReturnsAllMessages(others, Recv(ws).1, rest);
    }
  }

  lemma MessagesStep(frames: seq<Frame>)
    ensures
      match FirstMessage(frames, [])
      case None => Messages(frames) == []
      case Some((message, rest)) => Messages(frames) == [message] + Messages(rest) && |rest| < |frames|
  {
    FirstMessageShrinks(frames, []);
  }

  /** A message cut into fragments: a text or binary frame and its continuations, the last one final. */
  function Fragmented(parts: seq<bytes>, opcode: byte, mask: Option<bytes>): seq<Frame> {
    if parts == [] then []
    else [Frame(|parts| == 1, opcode, parts[0], mask)] + Fragmented(parts[1..], OP_CONT, mask)
  }

  lemma {:induction false} FragmentsReassemble(parts: seq<bytes>, opcode: byte, mask: Option<bytes>,
                                               assembled: bytes, rest: seq<Frame>)
    requires parts != [] && opcode <= 2
    ensures FirstMessage(Fragmented(parts, opcode, mask) + rest, assembled) == Some((assembled + Join(parts), rest))
    decreases |parts|
  {
    var frames := Fragmented(parts, opcode, mask);
    assert (frames + rest)[0] == frames[0];
    assert (frames + rest)[1..] == Fragmented(parts[1..], OP_CONT, mask) + rest;
    if |parts| == 1 {
      assert parts[1..] == [] && Fragmented([], OP_CONT, mask) + rest == rest;
      assert parts == [parts[0]];
      JoinOne(parts[0]);
    } else {
      FragmentsReassemble(parts[1..], OP_CONT, mask, assembled + parts[0], rest);
      assert assembled + parts[0] + Join(parts[1..]) == assembled + (parts[0] + Join(parts[1..]));
    }
  }

  /** A caller that stops at the error never holds more than twice the limit. */
  lemma {:induction false} KeptFragmentsAreBounded(ws: Socket)
    requires |ws.frag| <= MAX_MESSAGE_LEN
    ensures |Recv(ws).1.frag| > MAX_MESSAGE_LEN <==> Recv(ws).0 == Overflow
    ensures |Recv(ws).1.frag| <= 2 * MAX_MESSAGE_LEN
    ensures Recv(ws).0.Message? ==> Recv(ws).1.frag == [] && |Recv(ws).0.data| <= MAX_MESSAGE_LEN
    decreases |ws.input|
  {
    if !ws.closed && ReadFrame(ws.input).Read? {
      var Read(fin, opcode, payload, size) := ReadFrame(ws.input);
      var ws1 := ws.(input := ws.input[size..]);
      PayloadBounded(ws.input);
      hide ReadFrame;
      if opcode == OP_PING {
        KeptFragmentsAreBounded(ws1.(written := ws.written + [Control(OP_PONG, payload)]));
      } else if opcode != OP_CLOSE && !IsData(opcode) {
        KeptFragmentsAreBounded(ws1);
      } else if IsData(opcode) && !fin && |ws.frag + payload| <= MAX_MESSAGE_LEN {
        KeptFragmentsAreBounded(ws1.(frag := ws.frag + payload));
      }
    }
  }

  /** What is kept between calls exceeds the limit exactly when the frames sent make a message that passes it. */
  lemma {:induction false} KeptOnlyTooLong(frames: seq<Frame>, ws: Socket, rest: bytes)
    requires Deliverable(frames) && !ws.closed && ws.input == Wire(frames) + rest && Stops(rest)
    requires |ws.frag| <= MAX_MESSAGE_LEN
    ensures |Recv(ws).1.frag| > MAX_MESSAGE_LEN <==> TooLong(frames, ws.frag)
    ensures Recv(ws).0 == Overflow <==> TooLong(frames, ws.frag)
    decreases |frames|
  {
    hide ReadFrame, Encode, ValidFrame, Deliverable, Wire;
    if frames == [] {
      EmptyWire();
      assert ws.input == rest;
    } else {
      OnlyValid(frames);
      WireHead(frames, rest);
      var f, tail := frames[0], frames[1..];
      var ws1 := ws.(input := Wire(tail) + rest);
      if f.opcode == OP_PING {
        KeptOnlyTooLong(tail, ws1.(written := ws.written + [Control(OP_PONG, f.data)]), rest);
      } else if !IsData(f.opcode) {
        KeptOnlyTooLong(tail, ws1, rest);
      } else if !f.fin && |ws.frag + f.data| <= MAX_MESSAGE_LEN {
        KeptOnlyTooLong(tail, ws1.(frag := ws.frag + f.data), rest);
      }
    }
  }

  /** A fragment is kept, or refused with what came before it. */
  lemma RecvFragment(ws: Socket, f: Frame, rest: bytes)
    requires !ws.closed && ValidFrame(f) && IsData(f.opcode) && !f.fin && |f.data| <= MAX_MESSAGE_LEN
    requires ws.input == Encode(f) + rest
    ensures
      var ws' := ws.(input := rest, frag := ws.frag + f.data);
      Recv(ws) == if |ws'.frag| > MAX_MESSAGE_LEN then (Overflow, ws') else Recv(ws')
  {
    ReadInvertsEncode(f, rest);
    hide ReadFrame, Encode, ValidFrame;
    assert ws.input[|Encode(f)|..] == rest;
  }

  /** Two fragments one byte longer than the limit together are such a message. */
  lemma OverflowKeepsFragments(key: bytes)
    requires |key| == 4
    ensures
      var long := Frame(false, OP_BINARY, seq(MAX_MESSAGE_LEN, _ => 0), Some(key));
      var more := Frame(false, OP_CONT, [0], Some(key));
      var (r, ws) := Recv(Socket(Encode(long) + Encode(more), [], false, []));
      r == Overflow && |ws.frag| == MAX_MESSAGE_LEN + 1
  {
    hide Recv, Encode;
    var long := Frame(false, OP_BINARY, seq(MAX_MESSAGE_LEN, _ => 0), Some(key));
    var more := Frame(false, OP_CONT, [0], Some(key));
    var ws := Socket(Encode(long) + Encode(more), [], false, []);
    RecvFragment(ws, long, Encode(more));
    assert ws.frag + long.data == long.data;
    assert Encode(more) + [] == Encode(more);
    RecvFragment(ws.(input := Encode(more), frag := long.data), more, []);
  }

  lemma PayloadBounded(s: bytes)
    ensures ReadFrame(s).Read? ==> |ReadFrame(s).payload| <= MAX_MESSAGE_LEN
  {}

  // ----- The socket object

  class RawWebSocket {
    var input: bytes
    var frag: bytes
    var closed: bool
    var written: seq<Control>

    function Model(): Socket
      reads this
    {
      Socket(input, frag, closed, written)
    }

    constructor (input: bytes)
      ensures Model() == Socket(input, [], false, [])
    {
      this.input, frag, closed, written := input, [], false, [];
    }

    method Receive() returns (r: Received)
      modifies this
      ensures (r, Model()) == Recv(old(Model()))
    {
      while !closed
        invariant Recv(Model()) == Recv(old(Model()))
        decreases |input|
      {
        var frame := ReadFrame(input);
        if frame.Incomplete? { return Broken; }
        if frame.TooLarge? { return Oversize; }
        var payload := frame.payload;
        input := input[frame.size..];
        if frame.opcode == OP_CLOSE {
          closed := true;
          written := written + [Control(OP_CLOSE, Prefix(payload, 2))];
          return NoMessage;
        } else if frame.opcode == OP_PING {
          written := written + [Control(OP_PONG, payload)];
        } else if frame.opcode == OP_PONG {
        } else if IsData(frame.opcode) {
          if frame.fin && frag == [] { return Message(payload); }
          frag := frag + payload;
          if |frag| > MAX_MESSAGE_LEN { return Overflow; }
          if frame.fin {
            r := Message(frag);
            frag := [];
            return;
          }
        }
      }
      return NoMessage;
    }
  }
}
