/** What a client reads in the answer to its ClientHello (sections 4.1.3 and 5.1 of RFC 8446). */
module ServerHello {
  import opened Prelude
  import opened Bytes
  import opened TlsHandshake
  import ClientHello
  import FakeTls

  datatype Extension = Extension(kind: nat, body: bytes)

  datatype Answer = Answer(
    version: nat,
    random: bytes,
    session: bytes,
    suite: nat,
    compression: nat,
    extensions: seq<Extension>)

  /** An opaque vector with its length in two bytes, and what follows it. */
  function ReadVec2(data: bytes): (r: Option<(bytes, bytes)>)
    ensures r.Some? ==> |r.value.0| + |r.value.1| + 2 == |data|
  {
    if |data| < 2 || |data| < 2 + Be2(data[..2]) then None
    else
      var end := 2 + Be2(data[..2]);
      Some((data[2..end], data[end..]))
  }

  function ReadExtensions(data: bytes): Option<seq<Extension>>
    decreases |data|
  {
    if data == [] then Some([])
    else if |data| < 2 then None
    else
      match ReadVec2(data[2..])
      case None => None
      case Some((body, rest)) =>
        match ReadExtensions(rest)
        case None => None
        case Some(more) => Some([Extension(Be2(data[..2]), body)] + more)
  }

  /** The ServerHello message behind its handshake header. */
  function ReadBody(data: bytes): Option<Answer> {
    if |data| < 35 || |data| < 38 + (data[34] as int) then None
    else
      var p := 35 + (data[34] as int);
      match ReadVec2(data[p + 3..])
      case None => None
      case Some((list, rest)) =>
        match ReadExtensions(list)
        case None => None
        case Some(extensions) =>
          if rest != [] then None
          else Some(Answer(Be2(data[..2]), data[2..34], data[35..p], Be2(data[p..p + 2]), data[p + 2], extensions))
  }

  /** A handshake record of version 3.3 that holds one ServerHello and nothing else, at the head of the stream. */
  function Read(data: bytes): Option<Answer> {
    if |data| < 5 || data[0] != 22 || data[1] != 3 || data[2] != 3 then None
    else
      match ReadVec2(data[3..])
      case None => None
      case Some((message, _)) =>
        if |message| < 4 || message[0] != 2 || 0x1_0000 * message[1] + Be2(message[2..4]) != |message| - 4 then None
        else ReadBody(message[4..])
  }

  /** The supported_versions and key_share extensions of section 4.2.1 and 4.2.8. */
  function Version13(): Extension {
    Extension(43, [3, 4])
  }

  function ShareOf(group: nat, key: bytes): Extension
    requires group < 0x1_0000 && |key| < 0x1_0000
  {
    Extension(51, PutBe2(group) + (PutBe2(|key|) + key))
  }

  // ----- Reading the pieces

  lemma Vec2Read(body: bytes, rest: bytes)
    requires |body| < 0x1_0000
    ensures ReadVec2(PutBe2(|body|) + body + rest) == Some((body, rest))
  {
    var data := PutBe2(|body|) + body + rest;
    assert data[..2] == PutBe2(|body|) && data[2..2 + |body|] == body && data[2 + |body|..] == rest;
  }

  lemma ExtensionRead(kind: nat, body: bytes, rest: bytes)
    requires kind < 0x1_0000 && |body| < 0x1_0000
    ensures
      ReadExtensions(PutBe2(kind) + (PutBe2(|body|) + body + rest)) ==
        if ReadExtensions(rest).None? then None else Some([Extension(kind, body)] + ReadExtensions(rest).value)
  {
    hide ReadVec2;
    var data := PutBe2(kind) + (PutBe2(|body|) + body + rest);
    Vec2Read(body, rest);
    assert data[..2] == PutBe2(kind) && data[2..] == PutBe2(|body|) + body + rest;
  }

  lemma ServerExtensionsRead(info: ClientHello.Info, draw: Draw)
    requires ValidDraw(draw)
    ensures
      var (group, key) := ServerShare(info, draw);
      group < 0x1_0000 && |key| < 0x1_0000
      && ReadExtensions(ServerExtensions(info, draw)) == Some([Version13(), ShareOf(group, key)])
  {
    hide ReadExtensions, ServerShare;
    ServerShareFits(info, draw);
    var (group, key) := ServerShare(info, draw);
    var share := ShareOf(group, key).body;
    var second := PutBe2(51) + (PutBe2(|share|) + share + []);
    assert ServerExtensions(info, draw) == PutBe2(43) + (PutBe2(2) + [3, 4] + second);
    ExtensionRead(51, share, []);
    ExtensionRead(43, [3, 4], second);
    assert ReadExtensions([]) == Some([]) by { NoExtensions(); }
    assert [Version13()] + ([ShareOf(group, key)] + []) == [Version13(), ShareOf(group, key)];
  }

  lemma NoExtensions()
    ensures ReadExtensions([]) == Some([])
  {}

  lemma ServerShareFits(info: ClientHello.Info, draw: Draw)
    requires ValidDraw(draw)
    ensures ServerShare(info, draw).0 < 0x1_0000 && |ServerShare(info, draw).1| <= 1120
  {}

  lemma BodyRead(random: bytes, session: bytes, suite: nat, extensions: bytes)
    requires |random| == 32 && |session| < 0x100 && suite < 0x1_0000 && |extensions| < 0x1_0000
    ensures
      ReadBody([3, 3] + random + [|session|] + session + PutBe2(suite) + [0] + PutBe2(|extensions|) + extensions) ==
        match ReadExtensions(extensions)
        case None => None
        case Some(e) => Some(Answer(0x0303, random, session, suite, 0, e))
  {
    hide ReadVec2, ReadExtensions, ReadBody;
    var head, fixed := [3, 3] + random + [|session|] + session, PutBe2(suite) + [0];
    var list := PutBe2(|extensions|) + extensions;
    assert [3, 3] + random + [|session|] + session + PutBe2(suite) + [0] + PutBe2(|extensions|) + extensions
           == head + (fixed + list);
    HeadRead(random, session);
    assert list + [] == list;
    Vec2Read(extensions, []);
    BodyParts(head, fixed, list);
    assert fixed[..2] == PutBe2(suite);
  }

  lemma BodyParts(head: bytes, fixed: bytes, list: bytes)
    requires |head| >= 35 && |head| == 35 + head[34] as int && |fixed| == 3
    requires ReadVec2(list).Some? && ReadVec2(list).value.1 == []
    ensures
      ReadBody(head + (fixed + list)) ==
        match ReadExtensions(ReadVec2(list).value.0)
        case None => None
        case Some(e) => Some(Answer(Be2(head[..2]), head[2..34], head[35..], Be2(fixed[..2]), fixed[2], e))
  {
    hide ReadVec2, ReadExtensions;
    Cut(head, fixed, list);
    var data := head + (fixed + list);
    var p := |head|;
    assert data[p..p + 2] == fixed[..2] && data[p + 2] == fixed[2];
  }

  lemma HeadRead(random: bytes, session: bytes)
    requires |random| == 32 && |session| < 0x100
    ensures
      var head := [3, 3] + random + [|session|] + session;
      && |head| == 35 + |session| && Be2(head[..2]) == 0x0303
      && head[2..34] == random && head[34] == |session| && head[35..] == session
  {}

  lemma Cut(a: bytes, b: bytes, c: bytes)
    ensures
      var data := a + (b + c);
      && (forall i, j :: 0 <= i <= j <= |a| ==> data[i..j] == a[i..j]) && (forall i :: 0 <= i < |a| ==> data[i] == a[i])
      && data[|a|..|a| + |b|] == b && data[|a| + |b|..] == c
  {}

  lemma RecordRead(body: bytes, rest: bytes)
    requires |body| + 4 < 0x1_0000
    ensures Read(FakeTls.Record(FakeTls.RECORD_HANDSHAKE, [2, 0] + PutBe2(|body|) + body) + rest) == ReadBody(body)
  {
    hide ReadBody, ReadVec2;
    var message := [2, 0] + PutBe2(|body|) + body;
    var data := FakeTls.Record(FakeTls.RECORD_HANDSHAKE, message) + rest;
    Vec2Read(message, rest);
    assert data[3..] == PutBe2(|message|) + message + rest;
    assert message[2..4] == PutBe2(|body|) && message[4..] == body;
  }

  // ----- The whole answer

  /** The client is answered with the first suite of the preferred three that it offers, or with the first. */
  predicate Chosen(offered: set<nat>, suite: nat) {
    || (suite == 0x1301 && (0x1301 in offered || (0x1303 !in offered && 0x1302 !in offered)))
    || (suite == 0x1303 && suite in offered && 0x1301 !in offered)
    || (suite == 0x1302 && suite in offered && 0x1301 !in offered && 0x1303 !in offered)
  }

  /**
    Whatever a client reads in the answer: its own session id, the suite it offered, TLS 1.3, and one key share, of
    the hybrid group exactly if it offered that group with a key of the right size.
  */
  lemma AnswerIsRead(hmac: Hmac, secret: bytes, clientRandom: bytes, session: bytes, info: ClientHello.Info,
                     draw: Draw)
    requires |session| < 0x100 && ValidDraw(draw)
    ensures
      var data := BuildServerHello(hmac, secret, clientRandom, session, info, draw);
      && Read(data).Some?
      && var answer := Read(data).value;
         && answer.version == 0x0303 && answer.compression == 0
         && answer.random == hmac(secret, clientRandom + WithRandom(data, Zeros(RANDOM_LEN)))
         && answer.session == session
         && Chosen(info.suites, answer.suite)
         && answer.extensions ==
              if 0x11ec in info.shares && info.shares[0x11ec] == 1216
              then [Version13(), ShareOf(0x11ec, draw.ciphertext + draw.publicKey)]
              else [Version13(), ShareOf(0x001d, draw.publicKey)]
  {
    hide WithRandom, FakeTls.Record, Read, ReadBody, ReadExtensions, ServerExtensions, Chosen, SelectedSuite, Response;
    ClientAccepts(hmac, secret, clientRandom, session, info, draw);
    SuiteIsChosen(info);
    var random := hmac(secret, clientRandom + Response(session, info, draw));
    var body, rest := FilledIn(session, info, draw, random);
    RecordRead(body, rest);
    BodyRead(random, session, SelectedSuite(info), ServerExtensions(info, draw));
    ServerExtensionsRead(info, draw);
    RandomIs(Response(session, info, draw), random);
  }

  lemma SuiteIsChosen(info: ClientHello.Info)
    ensures Chosen(info.suites, SelectedSuite(info))
  {}

  lemma RandomIs(response: bytes, random: bytes)
    requires |response| >= RANDOM_OFFSET + RANDOM_LEN && |random| == RANDOM_LEN
    ensures RandomOf(WithRandom(response, random)) == random
  {
    RandomReplaced(response, random, random);
  }

  /** The answer once its random is filled in: one handshake record and the two behind it. */
  lemma FilledIn(session: bytes, info: ClientHello.Info, draw: Draw, random: bytes) returns (body: bytes, rest: bytes)
    requires |session| < 0x100 && ValidDraw(draw) && |random| == RANDOM_LEN
    ensures |body| < 3000
    ensures
      var extensions := ServerExtensions(info, draw);
      body == [3, 3] + random + [|session|] + session + PutBe2(SelectedSuite(info)) + [0]
              + PutBe2(|extensions|) + extensions
    ensures WithRandom(Response(session, info, draw), random) ==
            FakeTls.Record(FakeTls.RECORD_HANDSHAKE, [2, 0] + PutBe2(|body|) + body) + rest
  {
    hide FakeTls.Record, ServerExtensions, SelectedSuite;
    var message := ServerHelloMessage(session, info, draw);
    var extensions := ServerExtensions(info, draw);
    body := [3, 3] + random + [|session|] + session + PutBe2(SelectedSuite(info)) + [0]
            + PutBe2(|extensions|) + extensions;
    var first := FakeTls.Record(FakeTls.RECORD_HANDSHAKE, message);
    rest := FakeTls.Record(FakeTls.RECORD_CCS, [1]) + FakeTls.Record(FakeTls.RECORD_APPDATA, draw.appData);
    assert Response(session, info, draw) == first + rest;
    FilledRecord(message, random);
    assert message[..6] + random + message[38..] == [2, 0] + PutBe2(|body|) + body;
    assert WithRandom(first + rest, random) == WithRandom(first, random) + rest;
  }

  // ----- From the client's own message

  lemma SessionIsEchoed(hmac: Hmac, secret: bytes, now: int, hello: ClientHello.Hello)
    requires ClientHello.ValidHello(hello) && Verify(hmac, secret, now, ClientHello.Encode(hello)).Some?
    ensures Verify(hmac, secret, now, ClientHello.Encode(hello)).value.session ==
            if |hello.session| == SESSION_ID_LEN then hello.session else Zeros(SESSION_ID_LEN)
  {
    hide RandomOf, WithRandom, Le4, ClientHello.SuiteBytes, ClientHello.ExtensionBytes, ClientHello.Vec2;
    var data := ClientHello.Encode(hello);
    assert data[43] == |hello.session|;
    assert |data| >= 44 + |hello.session| && data[44..44 + |hello.session|] == hello.session;
  }

  function SuitesOf(hello: ClientHello.Hello): set<nat> {
    set suite | suite in hello.suites
  }

  predicate Offers(hello: ClientHello.Hello, group: nat, length: nat) {
    exists share <- ClientHello.Offered(hello.extensions) :: share.group == group && |share.key| == length
  }

  /** A whole handshake: what a client that offers each group once reads in the answer, from what it sent. */
  lemma HandshakeIsAnswered(hmac: Hmac, secret: bytes, now: int, hello: ClientHello.Hello, draw: Draw)
    requires ClientHello.ValidHello(hello) && ClientHello.DistinctGroups(ClientHello.Offered(hello.extensions))
    requires Verify(hmac, secret, now, ClientHello.Encode(hello)).Some? && ValidDraw(draw)
    ensures
      var sent := ClientHello.Encode(hello);
      var client := Verify(hmac, secret, now, sent).value;
      |client.session| < 0x100
      && var info := ClientHello.Parse(sent);
         var answer := Read(BuildServerHello(hmac, secret, client.random, client.session, info, draw));
         && answer.Some?
         && (|hello.session| == SESSION_ID_LEN ==> answer.value.session == hello.session)
         && Chosen(SuitesOf(hello), answer.value.suite)
         && answer.value.extensions ==
              [Version13(), if Offers(hello, 0x11ec, 1216) then ShareOf(0x11ec, draw.ciphertext + draw.publicKey)
                            else ShareOf(0x001d, draw.publicKey)]
  {
    hide BuildServerHello, Read, Verify, ClientHello.Encode, ClientHello.Parse, ClientHello.Offered, Chosen;
    SessionIsEchoed(hmac, secret, now, hello);
    ClientHello.ParseIsExact(hello);
    var sent := ClientHello.Encode(hello);
    var client, info := Verify(hmac, secret, now, sent).value, ClientHello.Parse(sent);
    AnswerIsRead(hmac, secret, client.random, client.session, info, draw);
    assert info.suites == SuitesOf(hello);
    GroupOffered(hello, info, 0x11ec, 1216);
  }

  lemma GroupOffered(hello: ClientHello.Hello, info: ClientHello.Info, group: nat, length: nat)
    requires
      var offered := ClientHello.Offered(hello.extensions);
      && (group in info.shares ==> exists i :: 0 <= i < |offered| && offered[i].group == group)
      && forall share <- offered :: share.group in info.shares && info.shares[share.group] == |share.key|
    ensures Offers(hello, group, length) <==> group in info.shares && info.shares[group] == length
  {
    hide ClientHello.Offered;
    var offered := ClientHello.Offered(hello.extensions);
    if group in info.shares && info.shares[group] == length {
      var i :| 0 <= i < |offered| && offered[i].group == group;
      assert offered[i] in offered;
    }
  }
}
