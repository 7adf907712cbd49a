/** The fake-TLS record stream (proxy/fake_tls.py; section 5.1 of RFC 8446). */
module FakeTls {
  import opened Prelude
  import opened Bytes
  import opened Streams

  const RECORD_HANDSHAKE := 0x16
  const RECORD_CCS := 0x14
  const RECORD_APPDATA := 0x17
  const APPDATA_MAX := 16384

  // ----- Writing

  function Record(kind: byte, body: bytes): bytes
    requires |body| < 0x1_0000
  {
    [kind, 3, 3] + PutBe2(|body|) + body
  }

  /** The layout of section 5.1 of RFC 8446: the type, version 3.3, the length in two bytes, the body. */
  lemma RecordLayout(kind: byte, body: bytes)
    requires |body| < 0x1_0000
    ensures
      var s := Record(kind, body);
      && |s| == 5 + |body| && s[0] == kind && s[1] == 3 && s[2] == 3
      && BigEndian(s[3..5]) == |body| && s[5..] == body
  {
    assert Record(kind, body)[3..5] == PutBe2(|body|);
    TwoBytes(PutBe2(|body|));
  }

  /** The bodies of the records that carry `data`. */
  function Chunks(data: bytes): seq<bytes> {
    if data == [] then []
    else if |data| <= APPDATA_MAX then [data]
    else [data[..APPDATA_MAX]] + Chunks(data[APPDATA_MAX..])
  }

  function Records(chunks: seq<bytes>): bytes
    requires forall c <- chunks :: |c| < 0x1_0000
  {
    if chunks == [] then [] else Record(RECORD_APPDATA, chunks[0]) + Records(chunks[1..])
  }

  /** Records hold 1 to 16384 bytes each, only the last one fewer than the maximum, and together all of the data. */
  lemma {:induction false} ChunksFit(data: bytes)
    ensures Join(Chunks(data)) == data
    ensures forall c <- Chunks(data) :: 1 <= |c| <= APPDATA_MAX
    ensures forall i :: 0 <= i < |Chunks(data)| - 1 ==> |Chunks(data)[i]| == APPDATA_MAX
  {
    if |data| > APPDATA_MAX {
      ChunksFit(data[APPDATA_MAX..]);
      assert Chunks(data)[1..] == Chunks(data[APPDATA_MAX..]);
    } else if data != [] {
      JoinOne(data);
    }
  }

  function Wrap(data: bytes): bytes {
    ChunksFit(data);
    Records(Chunks(data))
  }

  lemma WrapStep(data: bytes)
    requires data != []
    ensures Wrap(data) == Record(RECORD_APPDATA, Prefix(data, APPDATA_MAX)) + Wrap(data[|Prefix(data, APPDATA_MAX)|..])
  {
    ChunksFit(data);
    assert Chunks(data)[0] == Prefix(data, APPDATA_MAX);
    assert Chunks(data)[1..] == Chunks(data[|Prefix(data, APPDATA_MAX)|..]);
  }

  lemma NothingWrapped()
    ensures Wrap([]) == [] && Join([]) == []
  {}

  /** `wrap_tls_record`. */
  method WrapTlsRecord(data: bytes) returns (r: bytes)
    ensures r == Wrap(data)
  {
    hide Wrap, Join;
    var parts: seq<bytes> := [];
    var offset := 0;
    NothingWrapped();
    assert data[0..] == data && [] + Wrap(data) == Wrap(data);
    while offset < |data|
      invariant 0 <= offset <= |data|
      invariant Join(parts) + Wrap(data[offset..]) == Wrap(data)
    {
      var chunk := Prefix(data[offset..], APPDATA_MAX);
      var record := Record(RECORD_APPDATA, chunk);
      WrapStep(data[offset..]);
      JoinLast(parts, record);
      assert data[offset..][|chunk|..] == data[offset + |chunk|..];
      Associates(Join(parts), record, Wrap(data[offset + |chunk|..]));
      parts := parts + [record];
      offset := offset + |chunk|;
    }
    r := Join(parts);
    assert data[offset..] == [] && r + [] == r;
  }

  // ----- What a reader is still to deliver

  /** The payload left in the transport bytes `s` when `left` bytes of the current record are outstanding. */
  function Plain(left: nat, s: bytes): bytes
    decreases |s|, left
  {
    if left > 0 then
      if |s| <= left then s else s[..left] + Plain(0, s[left..])
    else if |s| < 5 then []
    else
      var size := Be2(s[3..5]);
      if s[0] == RECORD_CCS then (if |s| < 5 + size then [] else Plain(0, s[5 + size..]))
      else if s[0] != RECORD_APPDATA || size == 0 then []
      else Plain(size, s[5..])
  }

  /** Taking part of the current record. */
  lemma PlainSplit(left: nat, s: bytes, k: nat)
    requires 1 <= k <= left && k <= |s|
    ensures Plain(left, s) == s[..k] + Plain(left - k, s[k..])
  {}

  /**
    How the stream ends once all of that is delivered: reading on raises an error when the transport ends where a
    record header, or the body of a change-cipher-spec record, is due; it returns nothing when the transport ends
    where payload is due, or when a record of another kind, or an empty one, comes up.
  */
  predicate EndRaises(left: nat, s: bytes)
    decreases |s|, left
  {
    if left > 0 then
      if |s| <= left then |s| == left else EndRaises(0, s[left..])
    else if |s| < 5 then true
    else
      var size := Be2(s[3..5]);
      if s[0] == RECORD_CCS then |s| < 5 + size || EndRaises(0, s[5 + size..])
      else s[0] == RECORD_APPDATA && size > 0 && EndRaises(size, s[5..])
  }

  lemma EndSplit(left: nat, s: bytes, k: nat)
    requires k <= left && k <= |s|
    ensures EndRaises(left, s) == EndRaises(left - k, s[k..])
  {
    if k < left < |s| {
      assert s[k..][left - k..] == s[left..];
    }
  }

  lemma PlainEmpty(left: nat)
    ensures Plain(left, []) == [] && (EndRaises(left, []) <==> left == 0)
  {}

  /** What the next record header decides. */
  lemma AtHeader(s: bytes)
    ensures
      if |s| < 5 then Plain(0, s) == [] && EndRaises(0, s)
      else
        var size := Be2(s[3..5]);
        if s[0] == RECORD_CCS then
          if |s| < 5 + size then Plain(0, s) == [] && EndRaises(0, s)
          else Plain(0, s) == Plain(0, s[5 + size..]) && EndRaises(0, s) == EndRaises(0, s[5 + size..])
        else if s[0] != RECORD_APPDATA || size == 0 then Plain(0, s) == [] && !EndRaises(0, s)
        else Plain(0, s) == Plain(size, s[5..]) && EndRaises(0, s) == EndRaises(size, s[5..])
  {}

  /** Part of the current record is taken. */
  lemma TakePiece(left: nat, s: bytes, data: bytes, rest: bytes)
    requires s == data + rest && data != [] && |data| <= left
    ensures Plain(left, s) == data + Plain(left - |data|, rest) && EndRaises(left, s) == EndRaises(left - |data|, rest)
  {
    PlainSplit(left, s, |data|);
    EndSplit(left, s, |data|);
    assert s[..|data|] == data && s[|data|..] == rest;
  }

  /** What is written: payloads, with change-cipher-spec records between them. */
  datatype Item = Write(data: bytes) | ChangeCipherSpec(body: bytes)

  predicate Sendable(items: seq<Item>) {
    forall i <- items :: i.ChangeCipherSpec? ==> |i.body| < 0x1_0000
  }

  function Wire(items: seq<Item>): bytes
    requires Sendable(items)
  {
    if items == [] then []
    else
      match items[0]
      case Write(data) => Wrap(data) + Wire(items[1..])
      case ChangeCipherSpec(body) => Record(RECORD_CCS, body) + Wire(items[1..])
  }

  function Payload(items: seq<Item>): bytes {
    if items == [] then []
    else if items[0].Write? then items[0].data + Payload(items[1..])
    else Payload(items[1..])
  }

  lemma PlainOfRecord(body: bytes, rest: bytes)
    requires 1 <= |body| < 0x1_0000
    ensures Plain(0, Record(RECORD_APPDATA, body) + rest) == body + Plain(0, rest)
  {}

  lemma PlainOfCcs(body: bytes, rest: bytes)
    requires |body| < 0x1_0000
    ensures Plain(0, Record(RECORD_CCS, body) + rest) == Plain(0, rest)
  {}

  lemma {:induction false} PlainOfWrap(data: bytes, rest: bytes)
    ensures Plain(0, Wrap(data) + rest) == data + Plain(0, rest)
    decreases |data|
  {
    hide Plain, Wrap, Record;
    if data == [] {
      NothingWrapped();
      assert [] + rest == rest && [] + Plain(0, rest) == Plain(0, rest);
    } else {
      var chunk := Prefix(data, APPDATA_MAX);
      var tail := data[|chunk|..];
      var record := Record(RECORD_APPDATA, chunk);
      WrapStep(data);
      calc {
        Plain(0, Wrap(data) + rest);
        { Associates(record, Wrap(tail), rest); }
        Plain(0, record + (Wrap(tail) + rest));
        { PlainOfRecord(chunk, Wrap(tail) + rest); }
        chunk + Plain(0, Wrap(tail) + rest);
        { PlainOfWrap(tail, rest); }
        chunk + (tail + Plain(0, rest));
        { Associates(chunk, tail, Plain(0, rest)); }
        (chunk + tail) + Plain(0, rest);
        { assert data == chunk + tail; }
        data + Plain(0, rest);
      }
    }
  }

  /** The reader's view of a stream of writes is exactly the bytes written. */
  lemma {:induction false} PlainOfWire(items: seq<Item>, rest: bytes)
    requires Sendable(items)
    ensures Plain(0, Wire(items) + rest) == Payload(items) + Plain(0, rest)
    decreases |items|
  {
    hide Plain, Wrap, Record;
    if items == [] {
      assert Wire(items) + rest == rest;
    } else {
      var more := Wire(items[1..]) + rest;
      PlainOfWire(items[1..], rest);
      match items[0]
      case Write(data) =>
        assert Wire(items) + rest == Wrap(data) + more;
        PlainOfWrap(data, more);
        assert data + (Payload(items[1..]) + Plain(0, rest)) == Payload(items) + Plain(0, rest);
      case ChangeCipherSpec(body) =>
        assert items[0] in items;
        assert Wire(items) + rest == Record(RECORD_CCS, body) + more;
        PlainOfCcs(body, more);
    }
  }

  lemma EndOfRecord(kind: byte, body: bytes, rest: bytes)
    requires |body| < 0x1_0000
    requires kind == RECORD_CCS || (kind == RECORD_APPDATA && body != [])
    ensures EndRaises(0, Record(kind, body) + rest) == EndRaises(0, rest)
  {
    var s := Record(kind, body) + rest;
    assert s[3..5] == PutBe2(|body|) && s[5 + |body|..] == rest && s[5..] == body + rest;
    if kind == RECORD_APPDATA {
      EndSplit(|body|, body + rest, |body|);
      assert (body + rest)[|body|..] == rest;
    }
  }

  lemma {:induction false} EndOfWrap(data: bytes, rest: bytes)
    ensures EndRaises(0, Wrap(data) + rest) == EndRaises(0, rest)
    decreases |data|
  {
    hide EndRaises, Wrap, Record;
    if data == [] {
      NothingWrapped();
      assert [] + rest == rest;
    } else {
      var chunk := Prefix(data, APPDATA_MAX);
      var tail := data[|chunk|..];
      WrapStep(data);
      Associates(Record(RECORD_APPDATA, chunk), Wrap(tail), rest);
      EndOfRecord(RECORD_APPDATA, chunk, Wrap(tail) + rest);
      EndOfWrap(tail, rest);
    }
  }

  /** Whoever writes whole records and then closes the connection ends the stream in the error. */
  lemma {:induction false} WholeRecordsEndRaising(items: seq<Item>)
    requires Sendable(items)
    ensures EndRaises(0, Wire(items))
    decreases |items|
  {
    hide Wrap, Record;
    if items != [] {
      WholeRecordsEndRaising(items[1..]);
      match items[0]
      case Write(data) => EndOfWrap(data, Wire(items[1..]));
      case ChangeCipherSpec(body) =>
        assert items[0] in items;
        EndOfRecord(RECORD_CCS, body, Wire(items[1..]));
    }
  }

  // ----- The reading side

  /** Bytes, none of them meaning the end of the stream, or an IncompleteReadError. */
  datatype Outcome = Data(data: bytes) | Incomplete

  datatype Call = ReadCall(n: nat) | ReadExactlyCall(n: nat)

  /** `readexactly` returns as many bytes as asked for, `read` at least one and no more than that. */
  predicate Answers(call: Call, data: bytes) {
    if call.ReadCall? then 1 <= |data| <= call.n else |data| == call.n
  }

  /** When a call may fail, or return the empty read that means the end of the stream. */
  predicate MayEnd(call: Call, left: nat) {
    if call.ReadCall? then call.n == 0 || left == 0 else left < call.n
  }

  class FakeTlsStream {
    const reader: StreamReader
    var readBuf: bytes
    var readLeft: nat

    /** Everything the stream is still to deliver, whatever the sizes in which the transport hands it over. */
    function Remaining(): bytes
      reads this, reader
    {
      readBuf + Plain(readLeft, reader.input)
    }

    /** Whether reading past all of that will raise an error. */
    predicate RaisesAtEnd()
      reads this, reader
    {
      EndRaises(readLeft, reader.input)
    }

    constructor (reader: StreamReader)
      ensures this.reader == reader && Remaining() == Plain(0, reader.input)
      ensures RaisesAtEnd() == EndRaises(0, reader.input)
    {
      this.reader, readBuf, readLeft := reader, [], 0;
    }

    method ReadTlsPayload() returns (r: Outcome)
      modifies this`readLeft, reader
      ensures
        var left := old(Plain(readLeft, reader.input));
        if left == [] then r == if old(RaisesAtEnd()) then Incomplete else Data([])
        else
          && r.Data? && r.data != [] && r.data + Plain(readLeft, reader.input) == left
          && RaisesAtEnd() == old(RaisesAtEnd())
    {
      hide Plain, EndRaises;
      ghost var s := reader.input;
      if readLeft > 0 {
        var data := reader.Read(readLeft);
        PlainEmpty(readLeft);
        if data == [] { return Data([]); }
        TakePiece(readLeft, s, data, reader.input);
        readLeft := readLeft - |data|;
        return Data(data);
      }
      while true
        invariant readLeft == 0 && s == reader.input
        invariant Plain(0, s) == old(Plain(readLeft, reader.input))
        invariant EndRaises(0, s) == old(RaisesAtEnd())
        decreases |reader.input|
      {
        AtHeader(s);
        var hdr := reader.ReadExactly(5);
        if hdr.None? { return Incomplete; }
        var kind, size := hdr.value[0], Be2(hdr.value[3..5]);
        assert hdr.value[3..5] == s[3..5];
        if kind == RECORD_CCS {
          if size > 0 {
            var body := reader.ReadExactly(size);
            if body.None? { return Incomplete; }
          }
          assert reader.input == s[5 + size..];
          s := reader.input;
          continue;
        }
        if kind != RECORD_APPDATA { return Data([]); }
        var data := reader.Read(Min(size, 65536));
        PlainEmpty(size);
        if data == [] { return Data([]); }
        TakePiece(size, s[5..], data, reader.input);
        readLeft := size - |data|;
        return Data(data);
      }
    }

    /** Exactly the next `n` bytes whenever that many are left. */
    method ReadExactly(n: nat) returns (r: Outcome)
      modifies this, reader
      ensures r.Data? <==> |old(Remaining())| >= n
      ensures r.Data? ==> r.data == old(Remaining())[..n] && Remaining() == old(Remaining())[n..]
      ensures r.Data? ==> RaisesAtEnd() == old(RaisesAtEnd())
      ensures r.Incomplete? ==> readBuf == old(Remaining())
    {
      while |readBuf| < n
        invariant Remaining() == old(Remaining()) && RaisesAtEnd() == old(RaisesAtEnd())
        decreases n - |readBuf|
      {
        var payload := ReadTlsPayload();
        if payload.Incomplete? || payload.data == [] { return Incomplete; }
        readBuf := readBuf + payload.data;
      }
      r := Data(readBuf[..n]);
      readBuf := readBuf[n..];
    }

    /** The next bytes, at least one and at most `n`, as long as any are left; then an error or nothing. */
    method Read(n: nat) returns (r: Outcome)
      modifies this, reader
      ensures
        if old(Remaining()) == [] then r == if old(RaisesAtEnd()) then Incomplete else Data([])
        else
          && r.Data? && |r.data| <= n && (n > 0 ==> r.data != [])
          && r.data + Remaining() == old(Remaining()) && RaisesAtEnd() == old(RaisesAtEnd())
    {
      if readBuf != [] {
        r := Data(Prefix(readBuf, n));
        readBuf := readBuf[|r.data|..];
        return;
      }
      var payload := ReadTlsPayload();
      if payload.Incomplete? || payload.data == [] { return payload; }
      if |payload.data| > n {
        readBuf := readBuf + payload.data[n..];
        return Data(payload.data[..n]);
      }
      return payload;
    }

    method Perform(call: Call) returns (r: Option<bytes>)
      modifies this, reader
      ensures r.Some? ==> Answers(call, r.value) && r.value + Remaining() == old(Remaining())
      ensures r.None? ==> MayEnd(call, |old(Remaining())|)
    {
      var outcome: Outcome;
      match call {
        case ReadCall(n) => outcome := Read(n);
        case ReadExactlyCall(n) => outcome := ReadExactly(n);
      }
      r := if outcome.Incomplete? || (call.ReadCall? && outcome.data == []) then None else Some(outcome.data);
    }
  }

  /**
    Any mix of calls on any stream of writes, in whatever pieces the transport delivers it: the results are
    consecutive pieces of the bytes written, and the stream ends early only for a call that asks for more than is left.
  */
  method ReadBack(items: seq<Item>, calls: seq<Call>) returns (results: seq<bytes>)
    requires Sendable(items)
    ensures |results| <= |calls| && Join(results) <= Payload(items)
    ensures forall i :: 0 <= i < |results| ==> Answers(calls[i], results[i])
    ensures |results| < |calls| ==> MayEnd(calls[|results|], |Payload(items)| - |Join(results)|)
  {
    hide Plain, EndRaises, Wire, Payload, Answers, MayEnd, Join;
    var reader := new StreamReader(Wire(items));
    var stream := new FakeTlsStream(reader);
    PlainOfWire(items, []);
    PlainEmpty(0);
    assert Wire(items) + [] == Wire(items);
    NothingWrapped();
    results := [];
    while |results| < |calls|
      invariant |results| <= |calls| && fresh(stream) && fresh(stream.reader)
      invariant Join(results) + stream.Remaining() == Payload(items)
      invariant forall i :: 0 <= i < |results| ==> Answers(calls[i], results[i])
    {
      var r := stream.Perform(calls[|results|]);
      if r.None? { return; }
      JoinLast(results, r.value);
      Associates(Join(results), r.value, stream.Remaining());
      results := results + [r.value];
    }
  }
}
