/** `MsgSplitter` (proxy/bridge.py): one MTProto transport packet per WebSocket frame. */
module MsgSplitter {
  import opened Prelude
  import opened Bytes

  /** The transports of the obfuscated handshake; any other protocol number is not split at all. */
  datatype Transport = Abridged | Intermediate | Padded | Unknown

  /**
    `_next_packet_len` of the plaintext from the current offset on: None while the packet is incomplete, zero
    when the header cannot start a packet.
  */
  function NextLen(t: Transport, plain: bytes): (r: Option<nat>)
    ensures r.Some? ==> r.value <= |plain|
  {
    if plain == [] then None
    else
      match t
      case Abridged => NextAbridgedLen(plain)
      case Intermediate => NextIntermediateLen(plain)
      case Padded => NextIntermediateLen(plain)
      case Unknown => Some(0)
  }

  function NextAbridgedLen(plain: bytes): (r: Option<nat>)
    requires plain != []
    ensures r.Some? ==> r.value <= |plain|
  {
    var first := plain[0];
    if first == 0x7F || first == 0xFF then
      if |plain| < 4 then None else Complete(4, Le3(plain[1..4]) * 4, |plain|)
    else Complete(1, (first as int) % 0x80 * 4, |plain|)
  }

  function NextIntermediateLen(plain: bytes): (r: Option<nat>)
    ensures r.Some? ==> r.value <= |plain|
  {
    if |plain| < 4 then None else Complete(4, Le4(plain[..4]) % 0x8000_0000, |plain|)
  }

  function Complete(header: nat, payload: nat, available: nat): (r: Option<nat>)
    ensures r.Some? ==> r.value <= available
  {
    if payload == 0 then Some(0)
    else if available < header + payload then None
    else Some(header + payload)
  }

  /**
    What a header says: whether it is complete, how long it is, and how much follows it. The top bit, which asks for a
    quick acknowledgement, does not count.
  */
  function HeaderSays(t: Transport, plain: bytes): Option<(nat, nat)>
    requires !t.Unknown?
  {
    if !t.Abridged? then
      if |plain| < 4 then None else Some((4, LittleEndian(plain[..4]) % Pow2(31)))
    else if plain == [] then None
    else if plain[0] != 127 && plain[0] != 255 then
      Some((1, 4 * if plain[0] > 127 then plain[0] - 128 else plain[0] as int))
    else if |plain| < 4 then None
    else Some((4, 4 * LittleEndian(plain[1..4])))
  }

  /** The next packet ends where its header says, once all of it is there; a header of nothing starts no packet. */
  lemma NextLenMeans(t: Transport, plain: bytes)
    ensures NextLen(t, plain) ==
      if plain == [] then None
      else if t.Unknown? then Some(0)
      else
        match HeaderSays(t, plain)
        case None => None
        case Some((header, payload)) =>
          if payload == 0 then Some(0) else if |plain| < header + payload then None else Some(header + payload)
  {
    if |plain| >= 4 {
      LittleEndianIs(plain[..4]);
      LittleEndianIs(plain[1..4]);
    }
    TopBit();
    hide Pow2, LittleEndian, Le3, Le4;
  }

  lemma TopBit()
    ensures Pow2(31) == 0x8000_0000
  {
    assert Pow2(8) == 256 && Pow2(16) == 0x1_0000 && Pow2(24) == 0x100_0000;
  }

  // ----- What a stream is cut into

  /** Lengths of the complete packets at the front, and whether an impossible header follows them. */
  datatype Cuts = Cuts(lens: seq<nat>, bad: bool)

  function Cut(t: Transport, plain: bytes): (r: Cuts)
    ensures Total(r.lens) <= |plain|
    ensures r.bad ==> Total(r.lens) < |plain|
  {
    match NextLen(t, plain)
    case None => Cuts([], false)
    case Some(n) =>
      if n == 0 then Cuts([], true)
      else
        var rest := Cut(t, plain[n..]);
        assert ([n] + rest.lens)[1..] == rest.lens;
        rest.(lens := [n] + rest.lens)
  }

  function Total(lens: seq<nat>): nat {
    if lens == [] then 0 else lens[0] + Total(lens[1..])
  }

  function Pieces(s: bytes, lens: seq<nat>): seq<bytes>
    requires Total(lens) <= |s|
  {
    if lens == [] then [] else [s[..lens[0]]] + Pieces(s[lens[0]..], lens[1..])
  }

  // ----- The splitter on values

  datatype State = State(cipher: bytes, plain: bytes, disabled: bool)

  const START := State([], [], false)

  function Split(t: Transport, s: State, chunk: bytes, plain: bytes): (seq<bytes>, State)
    requires |s.cipher| == |s.plain| && |chunk| == |plain|
  {
    if chunk == [] then ([], s)
    else if s.disabled then ([chunk], s)
    else
      var cipher, buffered := s.cipher + chunk, s.plain + plain;
      var cuts := Cut(t, buffered);
      var n := Total(cuts.lens);
      if cuts.bad then (Pieces(cipher, cuts.lens) + [cipher[n..]], State([], [], true))
      else (Pieces(cipher, cuts.lens), State(cipher[n..], buffered[n..], false))
  }

  datatype Chunk = Chunk(cipher: bytes, plain: bytes)

  predicate Paired(chunks: seq<Chunk>) {
    forall c <- chunks :: |c.cipher| == |c.plain|
  }

  function Cipher(chunks: seq<Chunk>): bytes {
    if chunks == [] then [] else Cipher(chunks[..|chunks| - 1]) + chunks[|chunks| - 1].cipher
  }

  function Plain(chunks: seq<Chunk>): bytes {
    if chunks == [] then [] else Plain(chunks[..|chunks| - 1]) + chunks[|chunks| - 1].plain
  }

  /** Everything emitted over a whole stream of chunks, and the state left behind. */
  function SplitAll(t: Transport, chunks: seq<Chunk>): (r: (seq<bytes>, State))
    requires Paired(chunks)
    ensures |r.1.cipher| == |r.1.plain|
  {
    if chunks == [] then ([], START)
    else
      var last := chunks[|chunks| - 1];
      var (parts, s) := SplitAll(t, chunks[..|chunks| - 1]);
      var (more, s') := Split(t, s, last.cipher, last.plain);
      (parts + more, s')
  }

  /** `flush`. */
  function Flush(s: State): seq<bytes> {
    if s.cipher == [] then [] else [s.cipher]
  }

  // ----- Facts about cutting

  lemma NextLenGrows(t: Transport, a: bytes, b: bytes)
    requires NextLen(t, a).Some?
    ensures NextLen(t, a + b) == NextLen(t, a)
  {
    if |a| >= 4 {
      assert (a + b)[..4] == a[..4] && (a + b)[1..4] == a[1..4];
    }
  }

  lemma CutStep(t: Transport, a: bytes)
    ensures
      match NextLen(t, a)
      case None => Cut(t, a) == Cuts([], false)
      case Some(n) =>
        if n == 0 then Cut(t, a) == Cuts([], true)
        else
          var rest := Cut(t, a[n..]);
          Cut(t, a) == Cuts([n] + rest.lens, rest.bad) && Total(Cut(t, a).lens) == n + Total(rest.lens)
  {}

  /** Later bytes never change a cut already made. */
  lemma CutGrows(t: Transport, a: bytes, b: bytes)
    ensures
      var first := Cut(t, a);
      first.bad ==> Cut(t, a + b) == first
    ensures
      var first := Cut(t, a);
      !first.bad ==>
        var rest := Cut(t, a[Total(first.lens)..] + b);
        Cut(t, a + b) == Cuts(first.lens + rest.lens, rest.bad)
  {
    CutGrowsBehind(t, a, b);
    hide NextLen;
  }

  /** What is left behind the packets of a cut. */
  function Behind(t: Transport, a: bytes): bytes {
    a[Total(Cut(t, a).lens)..]
  }

  lemma BehindStep(t: Transport, a: bytes)
    ensures
      match NextLen(t, a)
      case None => Behind(t, a) == a
      case Some(n) => n > 0 ==> Behind(t, a) == Behind(t, a[n..])
  {
    hide NextLen, Cut;
    CutStep(t, a);
    assert Total([]) == 0 && a[0..] == a;
  }

  lemma {:induction false} CutGrowsBehind(t: Transport, a: bytes, b: bytes)
    ensures
      var first, rest := Cut(t, a), Cut(t, Behind(t, a) + b);
      Cut(t, a + b) == if first.bad then first else Cuts(first.lens + rest.lens, rest.bad)
    decreases |a|
  {
    hide NextLen, Cut, Behind, Total;
    CutStep(t, a);
    BehindStep(t, a);
    if NextLen(t, a).None? {
      assert [] + Cut(t, a + b).lens == Cut(t, a + b).lens;
    } else {
      var n := NextLen(t, a).value;
      NextLenGrows(t, a, b);
      CutStep(t, a + b);
      if n > 0 {
        assert (a + b)[n..] == a[n..] + b;
        CutGrowsBehind(t, a[n..], b);
        var inner, rest := Cut(t, a[n..]), Cut(t, Behind(t, a) + b);
        assert [n] + (inner.lens + rest.lens) == [n] + inner.lens + rest.lens;
      }
    }
  }

  lemma {:induction false} TotalAppend(a: seq<nat>, b: seq<nat>)
    ensures Total(a + b) == Total(a) + Total(b)
  {
    if a == [] {
      assert a + b == b;
    } else {
      assert (a + b)[1..] == a[1..] + b;
      TotalAppend(a[1..], b);
    }
  }

  lemma {:induction false} PiecesAppend(s: bytes, a: seq<nat>, b: seq<nat>)
    requires Total(a) + Total(b) <= |s|
    ensures Total(a + b) == Total(a) + Total(b)
    ensures Pieces(s, a + b) == Pieces(s, a) + Pieces(s[Total(a)..], b)
  {
    TotalAppend(a, b);
    if a == [] {
      assert a + b == b && s[0..] == s;
    } else {
      assert (a + b)[1..] == a[1..] + b;
      assert s[a[0]..][Total(a[1..])..] == s[Total(a)..];
      PiecesAppend(s[a[0]..], a[1..], b);
    }
  }

  /** Pieces cut from the front do not depend on what comes later. */
  lemma {:induction false} PiecesPrefix(s: bytes, more: bytes, lens: seq<nat>)
    requires Total(lens) <= |s|
    ensures Pieces(s + more, lens) == Pieces(s, lens)
  {
    if lens != [] {
      assert (s + more)[..lens[0]] == s[..lens[0]];
      assert (s + more)[lens[0]..] == s[lens[0]..] + more;
      PiecesPrefix(s[lens[0]..], more, lens[1..]);
    }
  }

  lemma {:induction false} PiecesJoin(s: bytes, lens: seq<nat>)
    requires Total(lens) <= |s|
    ensures Join(Pieces(s, lens)) + s[Total(lens)..] == s
    ensures |Pieces(s, lens)| == |lens|
  {
    hide Join, Pieces, Total;
    PiecesStep(s, lens);
    if lens == [] {
      assert [] + s == s;
    } else {
      var rest := s[lens[0]..];
      var pieces := Pieces(rest, lens[1..]);
      PiecesJoin(rest, lens[1..]);
      assert rest[Total(lens[1..])..] == s[Total(lens)..];
      JoinHead(s[..lens[0]], pieces);
      assert s == s[..lens[0]] + rest;
      assert s[..lens[0]] + (Join(pieces) + s[Total(lens)..]) == s[..lens[0]] + Join(pieces) + s[Total(lens)..];
    }
  }

  lemma PiecesStep(s: bytes, lens: seq<nat>)
    requires Total(lens) <= |s|
    ensures if lens == [] then Pieces(s, lens) == [] && Join(Pieces(s, lens)) == [] && Total(lens) == 0
            else
              && Total(lens) == lens[0] + Total(lens[1..])
              && Pieces(s, lens) == [s[..lens[0]]] + Pieces(s[lens[0]..], lens[1..])
  {}

  lemma JoinHead(a: bytes, pieces: seq<bytes>)
    ensures Join([a] + pieces) == a + Join(pieces)
  {}

  /** Nothing complete is left after the cuts. */
  lemma {:induction false} CutIsExhaustive(t: Transport, plain: bytes)
    ensures var cuts := Cut(t, plain); NextLen(t, plain[Total(cuts.lens)..]) == if cuts.bad then Some(0) else None
    decreases |plain|
  {
    hide NextLen;
    match NextLen(t, plain)
    case None => assert plain[0..] == plain;
    case Some(n) =>
      if n == 0 {
        assert plain[0..] == plain;
      } else {
        var inner := Cut(t, plain[n..]);
        CutIsExhaustive(t, plain[n..]);
        assert ([n] + inner.lens)[1..] == inner.lens;
        assert plain[n..][Total(inner.lens)..] == plain[n + Total(inner.lens)..];
      }
  }

  lemma {:induction false} SameLength(chunks: seq<Chunk>)
    requires Paired(chunks)
    ensures |Cipher(chunks)| == |Plain(chunks)|
  {
    if chunks != [] {
      assert chunks[|chunks| - 1] in chunks;
      SameLength(chunks[..|chunks| - 1]);
    }
  }

  // ----- The theorem

  /**
    However a stream is divided into chunks, the parts are the complete packets of the whole stream, and the
    rest stays buffered; once an impossible header comes up, everything from it on is passed through.
  */
  ghost predicate Follows(t: Transport, cipher: bytes, plain: bytes, parts: seq<bytes>, s: State)
    requires |cipher| == |plain|
  {
    var cuts := Cut(t, plain);
    var n := Total(cuts.lens);
    if cuts.bad then
      && s == State([], [], true)
      && |cuts.lens| < |parts|
      && parts[..|cuts.lens|] == Pieces(cipher, cuts.lens)
      && Join(parts) == cipher
    else
      && s == State(cipher[n..], plain[n..], false)
      && parts == Pieces(cipher, cuts.lens)
  }

  lemma SplitFollows(t: Transport, cipher: bytes, plain: bytes, parts: seq<bytes>, s: State, c: Chunk)
    requires |cipher| == |plain| && |c.cipher| == |c.plain| && |s.cipher| == |s.plain|
    requires Follows(t, cipher, plain, parts, s)
    ensures
      var (more, s') := Split(t, s, c.cipher, c.plain);
      Follows(t, cipher + c.cipher, plain + c.plain, parts + more, s')
  {
    var cuts := Cut(t, plain);
    if c.cipher == [] {
      assert cipher + c.cipher == cipher && plain + c.plain == plain && parts + [] == parts;
    } else if cuts.bad {
      hide Pieces;
      CutGrows(t, plain, c.plain);
      PiecesPrefix(cipher, c.cipher, cuts.lens);
      JoinAppend(parts, [c.cipher]);
      JoinOne(c.cipher);
      assert (parts + [c.cipher])[..|cuts.lens|] == parts[..|cuts.lens|];
    } else {
      SplitsOn(t, cipher, plain, parts, s, c);
    }
  }

  /** The same while splitting goes on. */
  lemma SplitsOn(t: Transport, cipher: bytes, plain: bytes, parts: seq<bytes>, s: State, c: Chunk)
    requires |cipher| == |plain| && |c.cipher| == |c.plain| && |s.cipher| == |s.plain| && c.cipher != []
    requires Follows(t, cipher, plain, parts, s) && !Cut(t, plain).bad
    ensures
      var (more, s') := Split(t, s, c.cipher, c.plain);
      Follows(t, cipher + c.cipher, plain + c.plain, parts + more, s')
  {
    hide Cut, Pieces, Total, Join;
    var cuts := Cut(t, plain);
    var n := Total(cuts.lens);
    var whole, buffer := cipher + c.cipher, s.plain + c.plain;
    var rest := Cut(t, buffer);
    var m := Total(rest.lens);
    CutGrows(t, plain, c.plain);
    PiecesPrefix(cipher, c.cipher, cuts.lens);
    assert whole[n..] == s.cipher + c.cipher;
    assert (plain + c.plain)[n..] == buffer;
    PiecesAppend(whole, cuts.lens, rest.lens);
    assert whole[n..][m..] == whole[n + m..];
    assert (plain + c.plain)[n..][m..] == (plain + c.plain)[n + m..];
    var more := Split(t, s, c.cipher, c.plain).0;
    if rest.bad {
      assert more == Pieces(whole[n..], rest.lens) + [whole[n + m..]];
      assert parts + (Pieces(whole[n..], rest.lens) + [whole[n + m..]])
             == Pieces(whole, cuts.lens + rest.lens) + [whole[n + m..]];
      BadTail(whole, cuts.lens + rest.lens, parts + more);
    }
  }

  lemma BadTail(whole: bytes, lens: seq<nat>, parts: seq<bytes>)
    requires Total(lens) <= |whole|
    requires parts == Pieces(whole, lens) + [whole[Total(lens)..]]
    ensures |lens| < |parts| && parts[..|lens|] == Pieces(whole, lens) && Join(parts) == whole
  {
    PiecesJoin(whole, lens);
    JoinAppend(Pieces(whole, lens), [whole[Total(lens)..]]);
    JoinOne(whole[Total(lens)..]);
  }

  lemma {:induction false} ChunkingDoesNotMatter(t: Transport, chunks: seq<Chunk>)
    requires Paired(chunks)
    ensures |Cipher(chunks)| == |Plain(chunks)|
    ensures var (parts, s) := SplitAll(t, chunks); Follows(t, Cipher(chunks), Plain(chunks), parts, s)
  {
    SameLength(chunks);
    if chunks != [] {
      var front, last := chunks[..|chunks| - 1], chunks[|chunks| - 1];
      assert last in chunks;
      ChunkingDoesNotMatter(t, front);
      var (parts, s) := SplitAll(t, front);
      SplitFollows(t, Cipher(front), Plain(front), parts, s, last);
    }
  }

  /** Nothing is lost, the two buffers stay aligned, and no complete packet waits. */
  lemma NothingIsLost(t: Transport, chunks: seq<Chunk>)
    requires Paired(chunks)
    ensures
      var (parts, s) := SplitAll(t, chunks);
      && Join(parts + Flush(s)) == Cipher(chunks)
      && |s.cipher| == |s.plain|
      && (!s.disabled ==> NextLen(t, s.plain).None?)
  {
    ChunkingDoesNotMatter(t, chunks);
    var (parts, s) := SplitAll(t, chunks);
    var cuts := Cut(t, Plain(chunks));
    CutIsExhaustive(t, Plain(chunks));
    JoinAppend(parts, Flush(s));
    if s.cipher != [] { JoinOne(s.cipher); }
    if !cuts.bad { PiecesJoin(Cipher(chunks), cuts.lens); }
  }

  // ----- The splitter object

  class Splitter {
    const transport: Transport
    var cipherBuf: bytes
    var plainBuf: bytes
    var disabled: bool

    function Model(): State
      reads this
    {
      State(cipherBuf, plainBuf, disabled)
    }

    constructor (transport: Transport)
      ensures this.transport == transport && Model() == START
    {
      this.transport := transport;
      cipherBuf, plainBuf, disabled := [], [], false;
    }

    method SplitChunk(chunk: bytes, plain: bytes) returns (parts: seq<bytes>)
      requires |cipherBuf| == |plainBuf| && |chunk| == |plain|
      modifies this
      ensures (parts, Model()) == Split(transport, old(Model()), chunk, plain)
      ensures |cipherBuf| == |plainBuf|
    {
      hide NextLen, Cut, Pieces, Total;
      parts := [];
      if chunk == [] { return; }
      if disabled { return [chunk]; }
      cipherBuf := cipherBuf + chunk;
      plainBuf := plainBuf + plain;
      ghost var lens: seq<nat> := [];
      ghost var cuts := Cut(transport, plainBuf);
      var offset := 0;
      NothingCut(transport, cipherBuf, plainBuf);
      while offset < |cipherBuf|
        invariant |cipherBuf| == |plainBuf| && cipherBuf == old(cipherBuf) + chunk && plainBuf == old(plainBuf) + plain
        invariant offset == Total(lens) <= |cipherBuf| && !disabled
        invariant parts == Pieces(cipherBuf, lens)
        invariant CutSoFar(transport, plainBuf, lens, cuts)
        decreases |cipherBuf| - offset
      {
        var packetLen := NextLen(transport, plainBuf[offset..]);
        CutStep(transport, plainBuf[offset..]);
        if packetLen.None? { break; }
        if packetLen.value <= 0 {
          assert lens + [] == lens;
          parts := parts + [cipherBuf[offset..]];
          cipherBuf, plainBuf, disabled := [], [], true;
          return;
        }
        CutOneMore(transport, cipherBuf, plainBuf, lens, packetLen.value, cuts);
        parts := parts + [cipherBuf[offset..offset + packetLen.value]];
        lens := lens + [packetLen.value];
        offset := offset + packetLen.value;
      }
      CutStep(transport, plainBuf[offset..]);
      EmptyCut(transport, plainBuf[offset..]);
      assert lens + [] == lens;
      if offset != 0 {
        cipherBuf := cipherBuf[offset..];
        plainBuf := plainBuf[offset..];
      } else {
        assert cipherBuf[0..] == cipherBuf && plainBuf[0..] == plainBuf;
      }
    }

    method TakeTail() returns (tail: seq<bytes>)
      modifies this
      ensures tail == Flush(old(Model()))
      ensures |old(plainBuf)| == |old(cipherBuf)| ==> Model() == old(Model()).(cipher := [], plain := [])
    {
      if cipherBuf == [] {
        tail := [];
      } else {
        tail := [cipherBuf];
        cipherBuf := [];
        plainBuf := [];
      }
    }
  }

  lemma OnePiece(s: bytes, n: nat)
    requires n <= |s|
    ensures Total([n]) == n && Pieces(s, [n]) == [s[..n]]
  {}

  /** The loop's progress: `lens` are the first of the cuts, the others are those of what is left. */
  ghost predicate CutSoFar(t: Transport, plain: bytes, lens: seq<nat>, cuts: Cuts) {
    && Total(lens) <= |plain|
    && cuts == Cuts(lens + Cut(t, plain[Total(lens)..]).lens, Cut(t, plain[Total(lens)..]).bad)
  }

  lemma NothingCut(t: Transport, cipher: bytes, plain: bytes)
    ensures Total([]) == 0 && Pieces(cipher, []) == []
    ensures CutSoFar(t, plain, [], Cut(t, plain))
  {}

  lemma EmptyCut(t: Transport, plain: bytes)
    ensures plain == [] ==> NextLen(t, plain).None?
  {}

  lemma CutOneMore(t: Transport, cipher: bytes, plain: bytes, lens: seq<nat>, n: nat, cuts: Cuts)
    requires |cipher| == |plain| && CutSoFar(t, plain, lens, cuts)
    requires NextLen(t, plain[Total(lens)..]) == Some(n) && n > 0
    ensures Total(lens + [n]) == Total(lens) + n <= |cipher|
    ensures Pieces(cipher, lens + [n]) == Pieces(cipher, lens) + [cipher[Total(lens)..Total(lens) + n]]
    ensures CutSoFar(t, plain, lens + [n], cuts)
  {
    hide Cut, Pieces, NextLen, Total;
    var offset := Total(lens);
    NextLenFits(t, plain[offset..]);
    CutStep(t, plain[offset..]);
    OnePiece(cipher[offset..], n);
    PiecesAppend(cipher, lens, [n]);
    assert cipher[offset..][..n] == cipher[offset..offset + n];
    assert plain[offset..][n..] == plain[offset + n..];
    var rest := Cut(t, plain[offset + n..]).lens;
    assert lens + ([n] + rest) == lens + [n] + rest;
  }

  lemma NextLenFits(t: Transport, plain: bytes)
    ensures NextLen(t, plain).Some? ==> NextLen(t, plain).value <= |plain|
  {}
}
