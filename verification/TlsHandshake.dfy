/** The fake-TLS handshake: checking a ClientHello and answering it (proxy/fake_tls.py; section 4.1 of RFC 8446). */
module TlsHandshake {
  import opened Prelude
  import opened Bytes
  import opened ExclusiveOr
  import ClientHello
  import FakeTls

  const RANDOM_OFFSET := 11
  const RANDOM_LEN := 32
  const SESSION_ID_OFFSET := 44
  const SESSION_ID_LEN := 32
  const TIMESTAMP_TOLERANCE := 120

  const GROUP_X25519 := 0x001d
  const GROUP_X25519MLKEM768 := 0x11ec
  const X25519MLKEM768_CLIENT_SHARE_LEN := 1216
  const MLKEM768_CIPHERTEXT_LEN := 1088
  const CIPHER_PREFERENCE: seq<nat> := [0x1301, 0x1303, 0x1302]

  function Zeros(n: nat): (z: bytes)
    ensures |z| == n
  {
    seq(n, _ => 0)
  }

  type Digest = d: bytes | |d| == 32 witness Zeros(32)

  /** HMAC-SHA-256 of a key and a message; nothing is assumed of it but the length of its result. */
  type Hmac = (bytes, bytes) -> Digest

  /** A message with its random field replaced. */
  function WithRandom(data: bytes, random: bytes): (r: bytes)
    requires |data| >= RANDOM_OFFSET + RANDOM_LEN && |random| == RANDOM_LEN
    ensures |r| == |data|
  {
    data[..RANDOM_OFFSET] + random + data[RANDOM_OFFSET + RANDOM_LEN..]
  }

  function RandomOf(data: bytes): bytes
    requires |data| >= RANDOM_OFFSET + RANDOM_LEN
  {
    data[RANDOM_OFFSET..RANDOM_OFFSET + RANDOM_LEN]
  }

  lemma RandomReplaced(data: bytes, random: bytes, other: bytes)
    requires |data| >= RANDOM_OFFSET + RANDOM_LEN && |random| == |other| == RANDOM_LEN
    ensures RandomOf(WithRandom(data, random)) == random
    ensures WithRandom(WithRandom(data, random), other) == WithRandom(data, other)
    ensures WithRandom(data, RandomOf(data)) == data
    ensures forall i :: 0 <= i < |data| && !(RANDOM_OFFSET <= i < RANDOM_OFFSET + RANDOM_LEN) ==>
              WithRandom(data, random)[i] == data[i]
  {}

  // ----- Checking the client

  datatype Verified = Verified(random: bytes, session: bytes, timestamp: nat)

  /** `verify_client_hello`. */
  function Verify(hmac: Hmac, secret: bytes, now: int, data: bytes): Option<Verified> {
    if |data| < RANDOM_OFFSET + RANDOM_LEN || data[0] != FakeTls.RECORD_HANDSHAKE || data[5] != 0x01 then None
    else
      var random := RandomOf(data);
      var expected := hmac(secret, WithRandom(data, Zeros(RANDOM_LEN)));
      if expected[..28] != random[..28] then None
      else
        var timestamp := Le4(XorSeq(random[28..], expected[28..]));
        if now - timestamp > TIMESTAMP_TOLERANCE || timestamp - now > TIMESTAMP_TOLERANCE then None
        else
          var session :=
            if |data| >= SESSION_ID_OFFSET + SESSION_ID_LEN && data[43] == 0x20
            then data[SESSION_ID_OFFSET..SESSION_ID_OFFSET + SESSION_ID_LEN]
            else Zeros(SESSION_ID_LEN);
          Some(Verified(random, session, timestamp))
  }

  /** What a client that knows the secret sends: the digest as the random, the time mixed into its last four bytes. */
  function Sign(hmac: Hmac, secret: bytes, timestamp: nat, data: bytes): bytes
    requires |data| >= RANDOM_OFFSET + RANDOM_LEN && timestamp < 0x1_0000_0000
  {
    var digest := hmac(secret, WithRandom(data, Zeros(RANDOM_LEN)));
    WithRandom(data, digest[..28] + XorSeq(digest[28..], PutLe4(timestamp)))
  }

  lemma XorSeqCancels(a: bytes, b: bytes)
    requires |a| == |b|
    ensures XorSeq(XorSeq(a, b), a) == b
  {
    forall i | 0 <= i < |a|
      ensures XorSeq(XorSeq(a, b), a)[i] == b[i]
    {
      XorCommutes(a[i], b[i]);
      XorTwice(b[i], a[i]);
    }
  }

  /** A ClientHello signed with the secret is accepted exactly while its time is within the tolerance. */
  lemma SignedIsVerified(hmac: Hmac, secret: bytes, timestamp: nat, now: int, data: bytes)
    requires |data| >= RANDOM_OFFSET + RANDOM_LEN && timestamp < 0x1_0000_0000
    requires data[0] == FakeTls.RECORD_HANDSHAKE && data[5] == 0x01
    ensures
      var r := Verify(hmac, secret, now, Sign(hmac, secret, timestamp, data));
      && (r.Some? <==> -TIMESTAMP_TOLERANCE <= now - timestamp <= TIMESTAMP_TOLERANCE)
      && (r.Some? ==> r.value.timestamp == timestamp && r.value.random == RandomOf(Sign(hmac, secret, timestamp, data)))
  {
    hide WithRandom, RandomOf, XorSeq, Le4, PutLe4;
    var digest := hmac(secret, WithRandom(data, Zeros(RANDOM_LEN)));
    var mixed := XorSeq(digest[28..], PutLe4(timestamp));
    var random := digest[..28] + mixed;
    RandomReplaced(data, random, Zeros(RANDOM_LEN));
    assert random[28..] == mixed && random[..28] == digest[..28];
    XorSeqCancels(digest[28..], PutLe4(timestamp));
  }

  /** Only ClientHellos whose random was made from the secret are accepted: each one is the signing of itself. */
  lemma VerifiedIsSigned(hmac: Hmac, secret: bytes, now: int, data: bytes)
    requires Verify(hmac, secret, now, data).Some?
    ensures Verify(hmac, secret, now, data).value.timestamp < 0x1_0000_0000
    ensures data == Sign(hmac, secret, Verify(hmac, secret, now, data).value.timestamp, data)
  {
    var random := RandomOf(data);
    var digest := hmac(secret, WithRandom(data, Zeros(RANDOM_LEN)));
    var mixed := XorSeq(random[28..], digest[28..]);
    Le4Put(mixed);
    XorSeqSwap(random[28..], digest[28..]);
    assert random == digest[..28] + random[28..];
    RandomReplaced(data, random, random);
  }

  lemma XorSeqSwap(a: bytes, b: bytes)
    requires |a| == |b|
    ensures XorSeq(b, XorSeq(a, b)) == a
  {
    forall i | 0 <= i < |a|
      ensures XorSeq(b, XorSeq(a, b))[i] == a[i]
    {
      XorCommutes(b[i], XorNat(a[i], b[i]));
      XorTwice(a[i], b[i]);
    }
  }

  // ----- The answer

  /** `_select_cipher_suite`. */
  method SelectCipherSuite(info: ClientHello.Info) returns (suite: nat)
    ensures suite == SelectedSuite(info)
  {
    assert CIPHER_PREFERENCE[0] == 0x1301 && CIPHER_PREFERENCE[1] == 0x1303 && CIPHER_PREFERENCE[2] == 0x1302;
    for i := 0 to |CIPHER_PREFERENCE|
      invariant forall j :: 0 <= j < i ==> CIPHER_PREFERENCE[j] !in info.suites
    {
      if CIPHER_PREFERENCE[i] in info.suites { return CIPHER_PREFERENCE[i]; }
    }
    return CIPHER_PREFERENCE[0];
  }

  function SelectedSuite(info: ClientHello.Info): (suite: nat)
    ensures suite < 0x1_0000
  {
    if 0x1301 in info.suites then 0x1301
    else if 0x1303 in info.suites then 0x1303
    else if 0x1302 in info.suites then 0x1302
    else 0x1301
  }

  /** The first suite in order of preference that the client offers, or the first of all if it offers none. */
  lemma SuiteIsPreferred(info: ClientHello.Info)
    ensures (forall i :: 0 <= i < |CIPHER_PREFERENCE| ==> CIPHER_PREFERENCE[i] !in info.suites) ==>
              SelectedSuite(info) == CIPHER_PREFERENCE[0]
    ensures forall i :: 0 <= i < |CIPHER_PREFERENCE| && CIPHER_PREFERENCE[i] in info.suites ==>
              SelectedSuite(info) in info.suites && SelectedSuite(info) in CIPHER_PREFERENCE[..i + 1]
  {
    var p := CIPHER_PREFERENCE;
    assert p[..1] == [p[0]] && p[..2] == [p[0], p[1]] && p[..3] == [p[0], p[1], p[2]];
  }

  /** What is drawn at random for one answer. */
  datatype Draw = Draw(ciphertext: bytes, publicKey: bytes, appData: bytes)

  predicate ValidDraw(d: Draw) {
    |d.ciphertext| == MLKEM768_CIPHERTEXT_LEN && |d.publicKey| == 32 && |d.appData| <= FakeTls.APPDATA_MAX
  }

  /** `_server_key_share`: the hybrid group only for a client that offered it with a key of the right size. */
  function ServerShare(info: ClientHello.Info, draw: Draw): (nat, bytes) {
    if GROUP_X25519MLKEM768 in info.shares && info.shares[GROUP_X25519MLKEM768] == X25519MLKEM768_CLIENT_SHARE_LEN
    then (GROUP_X25519MLKEM768, draw.ciphertext + draw.publicKey)
    else (GROUP_X25519, draw.publicKey)
  }

  function ServerExtensions(info: ClientHello.Info, draw: Draw): (e: bytes)
    requires ValidDraw(draw)
    ensures |e| < 2000
  {
    var (group, key) := ServerShare(info, draw);
    PutBe2(0x002b) + PutBe2(2) + PutBe2(0x0304)
    + PutBe2(ClientHello.EXT_KEY_SHARE) + PutBe2(4 + |key|) + PutBe2(group) + PutBe2(|key|) + key
  }

  function ServerHelloBody(session: bytes, info: ClientHello.Info, draw: Draw): (b: bytes)
    requires |session| < 0x100 && ValidDraw(draw)
    ensures 34 <= |b| < 3000
  {
    var extensions := ServerExtensions(info, draw);
    [3, 3] + Zeros(RANDOM_LEN) + [|session|] + session + PutBe2(SelectedSuite(info)) + [0]
    + PutBe2(|extensions|) + extensions
  }

  function ServerHelloMessage(session: bytes, info: ClientHello.Info, draw: Draw): (m: bytes)
    requires |session| < 0x100 && ValidDraw(draw)
    ensures 38 <= |m| < 0x1_0000
  {
    var body := ServerHelloBody(session, info, draw);
    [2, 0] + PutBe2(|body|) + body
  }

  /** The three records, the server random still zero. */
  function Response(session: bytes, info: ClientHello.Info, draw: Draw): (r: bytes)
    requires |session| < 0x100 && ValidDraw(draw)
    ensures |r| >= RANDOM_OFFSET + RANDOM_LEN
  {
    FakeTls.Record(FakeTls.RECORD_HANDSHAKE, ServerHelloMessage(session, info, draw))
    + FakeTls.Record(FakeTls.RECORD_CCS, [1]) + FakeTls.Record(FakeTls.RECORD_APPDATA, draw.appData)
  }

  /** `build_server_hello`. */
  function BuildServerHello(hmac: Hmac, secret: bytes, clientRandom: bytes, session: bytes,
                            info: ClientHello.Info, draw: Draw): bytes
    requires |session| < 0x100 && ValidDraw(draw)
  {
    var response := Response(session, info, draw);
    WithRandom(response, hmac(secret, clientRandom + response))
  }

  /** The client's check: the random of the answer is the digest of the whole answer with that field zeroed. */
  lemma ClientAccepts(hmac: Hmac, secret: bytes, clientRandom: bytes, session: bytes, info: ClientHello.Info,
                      draw: Draw)
    requires |session| < 0x100 && ValidDraw(draw)
    ensures
      var answer := BuildServerHello(hmac, secret, clientRandom, session, info, draw);
      && |answer| >= RANDOM_OFFSET + RANDOM_LEN
      && RandomOf(answer) == hmac(secret, clientRandom + WithRandom(answer, Zeros(RANDOM_LEN)))
  {
    var response := Response(session, info, draw);
    var random := hmac(secret, clientRandom + response);
    RandomReplaced(response, random, Zeros(RANDOM_LEN));
    ResponseRandomIsZero(session, info, draw);
    RandomReplaced(response, RandomOf(response), random);
  }

  lemma ResponseRandomIsZero(session: bytes, info: ClientHello.Info, draw: Draw)
    requires |session| < 0x100 && ValidDraw(draw)
    ensures RandomOf(Response(session, info, draw)) == Zeros(RANDOM_LEN)
  {}

  // ----- Measuring a first flight

  /** `first_appdata_record_len`: None while more is needed, zero when no such record can follow. */
  function FirstAppDataLen(data: bytes): Option<nat> {
    if |data| < 5 then None
    else
      var size := Be2(data[3..5]);
      if data[0] == FakeTls.RECORD_APPDATA then Some(size)
      else if data[0] != FakeTls.RECORD_HANDSHAKE && data[0] != FakeTls.RECORD_CCS then Some(0)
      else if |data| < 5 + size then None
      else FirstAppDataLen(data[5 + size..])
  }

  method MeasureFirstAppData(data: bytes) returns (r: Option<nat>)
    ensures r == FirstAppDataLen(data)
  {
    var pos := 0;
    while pos + 5 <= |data|
      invariant FirstAppDataLen(data) == if pos <= |data| then FirstAppDataLen(data[pos..]) else None
    {
      var kind, size := data[pos], Be2(data[pos + 3..pos + 5]);
      assert data[pos..][3..5] == data[pos + 3..pos + 5];
      if kind == FakeTls.RECORD_APPDATA { return Some(size); }
      if kind != FakeTls.RECORD_HANDSHAKE && kind != FakeTls.RECORD_CCS { return Some(0); }
      if pos + 5 + size <= |data| { assert data[pos..][5 + size..] == data[pos + 5 + size..]; }
      pos := pos + 5 + size;
    }
    return None;
  }

  /** Bytes that arrive later never change a length once known, so probing may ask after every chunk. */
  lemma {:induction false} MeasureIsStable(data: bytes, more: bytes)
    requires FirstAppDataLen(data).Some?
    ensures FirstAppDataLen(data + more) == FirstAppDataLen(data)
    decreases |data|
  {
    assert (data + more)[3..5] == data[3..5];
    var size := Be2(data[3..5]);
    if data[0] == FakeTls.RECORD_HANDSHAKE || data[0] == FakeTls.RECORD_CCS {
      assert (data + more)[5 + size..] == data[5 + size..] + more;
      MeasureIsStable(data[5 + size..], more);
    }
  }

  lemma SkipRecord(kind: byte, body: bytes, rest: bytes)
    requires |body| < 0x1_0000 && (kind == FakeTls.RECORD_HANDSHAKE || kind == FakeTls.RECORD_CCS)
    ensures FirstAppDataLen(FakeTls.Record(kind, body) + rest) == FirstAppDataLen(rest)
  {}

  /** The answer has the shape clients expect: handshake, change of cipher, one application record as long as drawn. */
  lemma AnswerHasThreeRecords(hmac: Hmac, secret: bytes, clientRandom: bytes, session: bytes,
                              info: ClientHello.Info, draw: Draw)
    requires |session| < 0x100 && ValidDraw(draw)
    ensures
      var answer := BuildServerHello(hmac, secret, clientRandom, session, info, draw);
      && FirstAppDataLen(answer) == Some(|draw.appData|)
      && exists message: bytes :: |message| < 0x1_0000 && answer ==
           FakeTls.Record(FakeTls.RECORD_HANDSHAKE, message) + FakeTls.Record(FakeTls.RECORD_CCS, [1])
           + FakeTls.Record(FakeTls.RECORD_APPDATA, draw.appData)
  {
    hide Response, WithRandom, FakeTls.Record, FirstAppDataLen;
    var response := Response(session, info, draw);
    var random := hmac(secret, clientRandom + response);
    var ccs, app := FakeTls.Record(FakeTls.RECORD_CCS, [1]), FakeTls.Record(FakeTls.RECORD_APPDATA, draw.appData);
    var message := AnswerShape(session, info, draw, random);
    var first := FakeTls.Record(FakeTls.RECORD_HANDSHAKE, message);
    assert first + ccs + app == first + (ccs + app);
    SkipRecord(FakeTls.RECORD_HANDSHAKE, message, ccs + app);
    SkipRecord(FakeTls.RECORD_CCS, [1], app);
    AppRecordFound(draw.appData);
  }

  lemma AppRecordFound(body: bytes)
    requires |body| < 0x1_0000
    ensures FirstAppDataLen(FakeTls.Record(FakeTls.RECORD_APPDATA, body)) == Some(|body|)
  {}

  /** Filling in the random changes the body of the first record and nothing else. */
  lemma AnswerShape(session: bytes, info: ClientHello.Info, draw: Draw, random: bytes) returns (filled: bytes)
    requires |session| < 0x100 && ValidDraw(draw) && |random| == RANDOM_LEN
    ensures |filled| < 0x1_0000
    ensures WithRandom(Response(session, info, draw), random) ==
            FakeTls.Record(FakeTls.RECORD_HANDSHAKE, filled) + FakeTls.Record(FakeTls.RECORD_CCS, [1])
            + FakeTls.Record(FakeTls.RECORD_APPDATA, draw.appData)
  {
    hide ServerHelloMessage;
    var message := ServerHelloMessage(session, info, draw);
    filled := message[..6] + random + message[38..];
    var first := FakeTls.Record(FakeTls.RECORD_HANDSHAKE, message);
    var rest := FakeTls.Record(FakeTls.RECORD_CCS, [1]) + FakeTls.Record(FakeTls.RECORD_APPDATA, draw.appData);
    hide FakeTls.Record;
    assert Response(session, info, draw) == first + rest;
    FilledRecord(message, random);
    assert WithRandom(first + rest, random) == WithRandom(first, random) + rest;
  }

  lemma FilledRecord(message: bytes, random: bytes)
    requires 38 <= |message| < 0x1_0000 && |random| == RANDOM_LEN
    ensures
      var first := FakeTls.Record(FakeTls.RECORD_HANDSHAKE, message);
      && |first| >= RANDOM_OFFSET + RANDOM_LEN
      && WithRandom(first, random) == FakeTls.Record(FakeTls.RECORD_HANDSHAKE, message[..6] + random + message[38..])
  {}
}
