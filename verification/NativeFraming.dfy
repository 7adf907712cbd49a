/** Reading native packets and writing native replies (`_read_packet`, `_encode_reply` in proxy/cf_h2.py). */
module NativeFraming {
  import opened Prelude
  import opened Bytes
  import opened MsgSplitter
  import Channel = CfH2Channel

  const MAX_PLAIN_PADDING := 256

  /** `size` is how much of the stream the packet took. */
  datatype Outcome = Incomplete | Invalid | Packet(body: bytes, quick: bool, size: nat)

  datatype Header = NoHeader | Header(quick: bool, length: nat, size: nat)

  function ReadHeader(s: bytes, t: Transport): (r: Header)
    ensures r.Header? ==> r.size <= |s|
  {
    if t.Abridged? then
      if |s| < 1 then NoHeader
      else
        var quick, words := s[0] >= 0x80, (s[0] as int) % 0x80;
        if words != 0x7F then Header(quick, words * 4, 1)
        else if |s| < 4 then NoHeader
        else Header(quick, Le3(s[1..4]) * 4, 4)
    else if |s| < 4 then NoHeader
    else
      var value := Le4(s[..4]);
      Header(value >= 0x8000_0000, value % 0x8000_0000, 4)
  }

  function MaxLength(t: Transport): nat {
    Channel.MAX_PACKET + if t.Padded? then MAX_PLAIN_PADDING else 0
  }

  /** The length of the packet inside a padded frame; None when its padding cannot be right. */
  function PacketLength(frame: bytes): Option<nat>
    requires |frame| >= 24
  {
    var plaintext := frame[..8] == Channel.ZERO_KEY;
    var length := if plaintext then 20 + Le4(frame[16..20]) else 24 + (|frame| - 24) / 16 * 16;
    var limit := if plaintext then MAX_PLAIN_PADDING else 15;
    if 24 <= length <= |frame| && |frame| - length <= limit then Some(length) else None
  }

  /** The body inside a frame of acceptable length; None when it is refused. */
  function Unwrap(frame: bytes, t: Transport): Option<bytes>
    requires |frame| >= 24
  {
    var length := if t.Padded? then PacketLength(frame) else Some(|frame|);
    if length.None? then None
    else
      var body := frame[..length.value];
      if |body| % 4 != 0 || |body| > Channel.MAX_PACKET then None else Some(body)
  }

  function ReadPacket(s: bytes, t: Transport): Outcome {
    match ReadHeader(s, t)
    case NoHeader => Incomplete
    case Header(quick, length, header) =>
      if !(24 <= length <= MaxLength(t)) then Invalid
      else if |s| < header + length then Incomplete
      else
        match Unwrap(s[header..header + length], t)
        case None => Invalid
        case Some(body) => Packet(body, quick, header + length)
  }

  // ----- Writing

  /** Any frame a client or the proxy may write; `quick` asks for a quick acknowledgement. */
  function Frame(body: bytes, t: Transport, padding: bytes, quick: bool): bytes
    requires Encodable(body, t, padding)
  {
    if t.Abridged? then AbridgedHeader(|body| / 4, quick) + body
    else PutLe4(|body| + |padding| + if quick then 0x8000_0000 else 0) + body + padding
  }

  function AbridgedHeader(words: nat, quick: bool): bytes
    requires words < 0x100_0000
  {
    var flag := if quick then 0x80 else 0;
    if words < 0x7F then [words + flag] else [0x7F + flag] + PutLe3(words)
  }

  /** What the length fields can say. */
  predicate Encodable(body: bytes, t: Transport, padding: bytes) {
    if t.Abridged? then padding == [] && |body| % 4 == 0 && |body| / 4 < 0x100_0000
    else |body| + |padding| < 0x8000_0000 && (t.Padded? || padding == [])
  }

  /** `_encode_reply`; the padding is the random tail it draws, at most three bytes. */
  function EncodeReply(body: bytes, t: Transport, padding: bytes): Option<bytes>
    requires |padding| < 4 && (t.Padded? || padding == [])
  {
    if body == [] || |body| % 4 != 0 || |body| > Channel.MAX_PACKET then None
    else Some(Frame(body, t, padding, false))
  }

  /**
    What a reply looks like on the wire: a count of words in one byte, or in three behind 0x7F, or a count of bytes in
    four, the lowest byte first; then the body, and the padding that is counted with it. Other bodies are refused.
  */
  lemma ReplyLayout(body: bytes, t: Transport, padding: bytes)
    requires |padding| < 4 && (t.Padded? || padding == [])
    ensures
      match EncodeReply(body, t, padding)
      case None => body == [] || |body| % 4 != 0 || |body| > 4 * 1024 * 1024
      case Some(s) =>
        && 0 < |body| <= 4 * 1024 * 1024 && |body| % 4 == 0
        && var start := if t.Abridged? && |body| < 4 * 127 then 1 else 4;
           && |s| == start + |body| + |padding| && s[start..] == body + padding
           && (if !t.Abridged? then LittleEndian(s[..4]) == |body| + |padding|
               else if start == 1 then 4 * (s[0] as int) == |body|
               else s[0] == 127 && 4 * LittleEndian(s[1..4]) == |body|)
  {
    if EncodeReply(body, t, padding).Some? {
      var s := EncodeReply(body, t, padding).value;
      if !t.Abridged? {
        assert s[..4] == PutLe4(|body| + |padding|);
        LittleEndianIs(s[..4]);
      } else if |body| >= 4 * 127 {
        assert s[1..4] == PutLe3(|body| / 4);
        LittleEndianIs(s[1..4]);
      }
    }
  }

  // ----- Round trip

  /** Bodies the reader accepts, with the padding it can tell from the body. */
  predicate Native(body: bytes, t: Transport, padding: bytes) {
    && 24 <= |body| <= Channel.MAX_PACKET && |body| % 4 == 0
    && (t.Padded? ==>
          if body[..8] == Channel.ZERO_KEY then |body| == 20 + Le4(body[16..20]) && |padding| <= MAX_PLAIN_PADDING
          else (|body| - 24) % 16 == 0 && |padding| <= 15)
  }

  lemma AbridgedHeaderRead(words: nat, quick: bool, rest: bytes)
    requires words < 0x100_0000
    ensures ReadHeader(AbridgedHeader(words, quick) + rest, Abridged)
              == Header(quick, words * 4, |AbridgedHeader(words, quick)|)
  {
    var s := AbridgedHeader(words, quick) + rest;
    if words >= 0x7F {
      assert s[1..4] == PutLe3(words);
    }
  }

  lemma FrameHeader(body: bytes, t: Transport, padding: bytes, quick: bool, rest: bytes)
    requires Encodable(body, t, padding)
    ensures
      var f := Frame(body, t, padding, quick);
      var h := ReadHeader(f + rest, t);
      && h.Header? && h.quick == quick && h.length == |body| + |padding|
      && h.size + h.length == |f| && (f + rest)[h.size..|f|] == body + padding
  {
    var f := Frame(body, t, padding, quick);
    assert body + [] == body;
    if t.Abridged? {
      hide ReadHeader, AbridgedHeader;
      AbridgedHeaderRead(|body| / 4, quick, body + rest);
      assert f + rest == AbridgedHeader(|body| / 4, quick) + (body + rest);
    } else {
      assert (f + rest)[..4] == PutLe4(|body| + |padding| + if quick then 0x8000_0000 else 0);
      assert (f + rest)[4..|f|] == body + padding;
    }
  }

  lemma PaddedLength(body: bytes, padding: bytes)
    requires |body| + |padding| >= 24
    ensures PacketLength(body + padding) == Some(|body|) <==>
            (24 <= |body| && if body[..8] == Channel.ZERO_KEY
                             then |body| == 20 + Le4(body[16..20]) && |padding| <= MAX_PLAIN_PADDING
                             else (|body| - 24) % 16 == 0 && |padding| <= 15)
  {
    var frame := body + padding;
    if 24 <= |body| {
      assert frame[..8] == body[..8] && frame[16..20] == body[16..20];
    }
  }

  lemma UnwrapInverts(body: bytes, t: Transport, padding: bytes)
    requires |body| + |padding| >= 24 && (t.Padded? || padding == [])
    ensures |body| + |padding| <= MaxLength(t) && Unwrap(body + padding, t) == Some(body) <==> Native(body, t, padding)
  {
    var frame := body + padding;
    assert frame[..|body|] == body;
    if t.Padded? {
      hide PacketLength;
      PaddedLength(body, padding);
    } else {
      assert frame == body;
    }
  }

  /** A frame is read back as the body it was written for exactly when the body is a native packet. */
  lemma ReadInvertsFrame(body: bytes, t: Transport, padding: bytes, quick: bool, rest: bytes)
    requires Encodable(body, t, padding) && !t.Unknown?
    ensures ReadPacket(Frame(body, t, padding, quick) + rest, t)
              == Packet(body, quick, |Frame(body, t, padding, quick)|)
            <==> Native(body, t, padding)
  {
    FrameHeader(body, t, padding, quick, rest);
    if |body| + |padding| >= 24 {
      UnwrapInverts(body, t, padding);
    }
    hide ReadHeader, Frame, Unwrap;
  }

  /** The longest packet with its padding. */
  function LongestPacket(t: Transport): nat {
    if t.Padded? then 4 * 1024 * 1024 + 256 else 4 * 1024 * 1024
  }

  lemma HeaderIsRead(s: bytes, t: Transport)
    requires !t.Unknown?
    ensures
      match HeaderSays(t, s)
      case None => ReadHeader(s, t) == NoHeader
      case Some((header, length)) =>
        && header <= |s| && header >= 1
        && ReadHeader(s, t) == Header(if t.Abridged? then s[0] >= 0x80 else s[3] >= 0x80, length, header)
  {
    if |s| >= 4 {
      LittleEndianIs(s[..4]);
      LittleEndianIs(s[1..4]);
    }
    TopBit();
    hide Pow2, LittleEndian;
  }

  /**
    What is read of arbitrary bytes: they are incomplete while the header is, or while an acceptable packet is, and
    invalid if the length is out of range; a whole frame is read as its body exactly if that is native with tellable
    padding, and is invalid if it has no such body.
  */
  lemma ReadPacketIsExact(s: bytes, t: Transport)
    requires !t.Unknown?
    ensures
      match HeaderSays(t, s)
      case None => ReadPacket(s, t) == Incomplete
      case Some((header, length)) =>
        if !(24 <= length <= LongestPacket(t)) then ReadPacket(s, t) == Invalid
        else if |s| < header + length then ReadPacket(s, t) == Incomplete
        else
          var frame, quick := s[header..header + length], if t.Abridged? then s[0] >= 0x80 else s[3] >= 0x80;
          && !ReadPacket(s, t).Incomplete?
          && (forall body: bytes, padding: bytes :: body + padding == frame && (t.Padded? || padding == []) ==>
                (ReadPacket(s, t) == Packet(body, quick, header + length) <==> Native(body, t, padding)))
          && (ReadPacket(s, t).Packet? ==> ReadPacket(s, t).body <= frame)
  {
    HeaderIsRead(s, t);
    if HeaderSays(t, s).Some? {
      var (header, length) := HeaderSays(t, s).value;
      if 24 <= length <= LongestPacket(t) && |s| >= header + length {
        var frame := s[header..header + length];
        forall body: bytes, padding: bytes | body + padding == frame && (t.Padded? || padding == [])
          ensures Unwrap(frame, t) == Some(body) <==> Native(body, t, padding)
        {
          UnwrapInverts(body, t, padding);
        }
        UnwrapShortens(frame, t);
      }
    }
    hide ReadHeader, HeaderSays, Native, Unwrap;
  }

  lemma UnwrapShortens(frame: bytes, t: Transport)
    requires |frame| >= 24
    ensures Unwrap(frame, t).Some? ==> Unwrap(frame, t).value <= frame
  {}

  /** What the proxy writes to a client, the same reader would read, for exactly the native bodies. */
  lemma ReplyIsReadBack(body: bytes, t: Transport, padding: bytes, rest: bytes)
    requires |padding| < 4 && (t.Padded? || padding == []) && !t.Unknown?
    ensures
      (match EncodeReply(body, t, padding)
       case None => false
       case Some(f) => ReadPacket(f + rest, t) == Packet(body, false, |f|))
      <==> Native(body, t, padding)
  {
    if EncodeReply(body, t, padding).Some? {
      ReadInvertsFrame(body, t, padding, false, rest);
    }
  }

  // ----- The two framers agree

  lemma SamePacketBoundary(s: bytes, t: Transport)
    requires !t.Unknown? && ReadPacket(s, t).Packet?
    ensures NextLen(t, s) == Some(ReadPacket(s, t).size)
  {}

  /** The sizes of the packets read one after the other, as long as they are accepted. */
  function ReadSizes(s: bytes, t: Transport): (r: seq<nat>)
    requires !t.Unknown?
    ensures Total(r) <= |s|
  {
    match ReadPacket(s, t)
    case Packet(_, _, size) =>
      var rest := ReadSizes(s[size..], t);
      assert ([size] + rest)[1..] == rest;
      [size] + rest
    case _ => []
  }

  /** Wherever the packet reader accepts the stream, the splitter cuts it at the same places. */
  lemma {:induction false} FramersAgree(s: bytes, t: Transport)
    requires !t.Unknown?
    ensures ReadSizes(s, t) <= Cut(t, s).lens
    decreases |s|
  {
    if ReadPacket(s, t).Packet? {
      SamePacketBoundary(s, t);
      FramersAgree(s[ReadPacket(s, t).size..], t);
    }
  }
}
