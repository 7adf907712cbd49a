/** The obfuscated handshake and its ciphers (proxy/tg_ws_proxy.py), over an abstract counter-mode keystream. */
module Obfuscation {
  import opened Prelude
  import opened Bytes
  import opened ExclusiveOr

  const HANDSHAKE_LEN := 64
  const SKIP_LEN := 8
  const PREKEY_LEN := 32
  const KEY_LEN := 32
  const IV_LEN := 16
  const PROTO_TAG_POS := 56
  const DC_IDX_POS := 60

  const TAG_ABRIDGED: bytes := [0xEF, 0xEF, 0xEF, 0xEF]
  const TAG_INTERMEDIATE: bytes := [0xEE, 0xEE, 0xEE, 0xEE]
  const TAG_SECURE: bytes := [0xDD, 0xDD, 0xDD, 0xDD]

  predicate KnownTag(tag: bytes) {
    tag == TAG_ABRIDGED || tag == TAG_INTERMEDIATE || tag == TAG_SECURE
  }

  // ----- Keystreams

  /** The byte of a keystream at a position, and the keystream of a key and an initial counter. */
  type Keystream = nat -> byte

  type Ctr = (bytes, bytes) -> Keystream

  type Hash = bytes -> bytes

  function Apply(ks: Keystream, pos: nat, data: bytes): (r: bytes)
    ensures |r| == |data| && forall i :: 0 <= i < |data| ==> r[i] == Xor(data[i], ks(pos + i))
  {
    seq(|data|, i requires 0 <= i < |data| => Xor(data[i], ks(pos + i)))
  }

  lemma ApplyTwice(ks: Keystream, pos: nat, data: bytes)
    ensures Apply(ks, pos, Apply(ks, pos, data)) == data
  {
    forall i | 0 <= i < |data|
      ensures Apply(ks, pos, Apply(ks, pos, data))[i] == data[i]
    {
      XorTwice(data[i], ks(pos + i));
    }
  }

  lemma ApplyAppend(ks: Keystream, pos: nat, a: bytes, b: bytes)
    ensures Apply(ks, pos, a + b) == Apply(ks, pos, a) + Apply(ks, pos + |a|, b)
  {}

  /** A cipher in counter mode: each update goes on where the last one ended. */
  class Cipher {
    const ks: Keystream
    var pos: nat

    constructor (ks: Keystream)
      ensures this.ks == ks && pos == 0
    {
      this.ks, pos := ks, 0;
    }

    method Update(data: bytes) returns (r: bytes)
      modifies this
      ensures r == Apply(ks, old(pos), data) && pos == old(pos) + |data|
    {
      r := Apply(ks, pos, data);
      pos := pos + |data|;
    }
  }

  // ----- Signed 16-bit numbers

  predicate FitsInt16(n: int) {
    -0x8000 <= n < 0x8000
  }

  function PutInt16(n: int): (s: bytes)
    requires FitsInt16(n)
    ensures |s| == 2 && GetInt16(s) == n
  {
    PutLe2(if n < 0 then n + 0x1_0000 else n)
  }

  function GetInt16(s: bytes): (n: int)
    requires |s| == 2
    ensures FitsInt16(n)
  {
    if Le2(s) < 0x8000 then Le2(s) else Le2(s) - 0x1_0000
  }

  // ----- The client's handshake

  datatype Accepted = Accepted(dc: nat, isMedia: bool, tag: bytes, prekeyIv: bytes)

  /** `_try_handshake`. */
  function TryHandshake(ctr: Ctr, sha: Hash, handshake: bytes, secret: bytes): (r: Option<Accepted>)
    requires |handshake| == HANDSHAKE_LEN
  {
    var prekeyIv := handshake[SKIP_LEN..SKIP_LEN + PREKEY_LEN + IV_LEN];
    var key := sha(prekeyIv[..PREKEY_LEN] + secret);
    var decrypted := Apply(ctr(key, prekeyIv[PREKEY_LEN..]), 0, handshake);
    var tag := decrypted[PROTO_TAG_POS..PROTO_TAG_POS + 4];
    if !KnownTag(tag) then None
    else
      var index := GetInt16(decrypted[DC_IDX_POS..DC_IDX_POS + 2]);
      Some(Accepted(if index < 0 then -index else index, index < 0, tag, prekeyIv))
  }

  /** An initial packet: random bytes whose last eight hide a tag, a DC index and two more random bytes. */
  function Init(ks: Keystream, random: bytes, tag: bytes, index: int, noise: bytes): (r: bytes)
    requires |random| == HANDSHAKE_LEN && |tag| == 4 && |noise| == 2 && FitsInt16(index)
    ensures |r| == HANDSHAKE_LEN && r[..PROTO_TAG_POS] == random[..PROTO_TAG_POS]
  {
    random[..PROTO_TAG_POS] + Apply(ks, PROTO_TAG_POS, tag + PutInt16(index) + noise)
  }

  /** Decrypting an initial packet from the start of its keystream shows the tag and the index. */
  lemma InitDecrypts(ks: Keystream, random: bytes, tag: bytes, index: int, noise: bytes)
    requires |random| == HANDSHAKE_LEN && |tag| == 4 && |noise| == 2 && FitsInt16(index)
    ensures
      var d := Apply(ks, 0, Init(ks, random, tag, index, noise));
      d[PROTO_TAG_POS..PROTO_TAG_POS + 4] == tag && GetInt16(d[DC_IDX_POS..DC_IDX_POS + 2]) == index
  {
    var tail := tag + PutInt16(index) + noise;
    var d := Apply(ks, 0, Init(ks, random, tag, index, noise));
    ApplyAppend(ks, 0, random[..PROTO_TAG_POS], Apply(ks, PROTO_TAG_POS, tail));
    ApplyTwice(ks, PROTO_TAG_POS, tail);
    assert d[PROTO_TAG_POS..] == tail;
    assert d[PROTO_TAG_POS..PROTO_TAG_POS + 4] == tail[..4] && d[DC_IDX_POS..DC_IDX_POS + 2] == tail[4..6];
  }

  /** The keystream of a client that knows the secret. */
  function ClientKeystream(ctr: Ctr, sha: Hash, handshake: bytes, secret: bytes): Keystream
    requires |handshake| == HANDSHAKE_LEN
  {
    ctr(sha(handshake[SKIP_LEN..SKIP_LEN + PREKEY_LEN] + secret), handshake[SKIP_LEN + PREKEY_LEN..PROTO_TAG_POS])
  }

  /** Such a client is recognised by each of the three tags and no other, with the DC and the tag it asked for. */
  lemma ClientIsRecognised(ctr: Ctr, sha: Hash, secret: bytes, random: bytes, tag: bytes, index: int, noise: bytes)
    requires |random| == HANDSHAKE_LEN && |tag| == 4 && |noise| == 2 && FitsInt16(index)
    ensures
      var handshake := Init(ClientKeystream(ctr, sha, random, secret), random, tag, index, noise);
      var r := TryHandshake(ctr, sha, handshake, secret);
      && (r.Some? <==> tag in [[0xEF, 0xEF, 0xEF, 0xEF], [0xEE, 0xEE, 0xEE, 0xEE], [0xDD, 0xDD, 0xDD, 0xDD]])
      && (r.Some? ==> && r.value.tag == tag && r.value.isMedia == (index < 0)
                      && r.value.dc == (if index < 0 then -index else index))
  {
    var ks := ClientKeystream(ctr, sha, random, secret);
    var handshake := Init(ks, random, tag, index, noise);
    var prekeyIv := handshake[SKIP_LEN..SKIP_LEN + PREKEY_LEN + IV_LEN];
    assert prekeyIv == handshake[..PROTO_TAG_POS][SKIP_LEN..];
    assert prekeyIv[..PREKEY_LEN] == random[SKIP_LEN..SKIP_LEN + PREKEY_LEN];
    assert prekeyIv[PREKEY_LEN..] == random[SKIP_LEN + PREKEY_LEN..PROTO_TAG_POS];
    InitDecrypts(ks, random, tag, index, noise);
  }

  // ----- The relay's handshake

  /** The index sent on: test DCs are numbered from 10000, media DCs are negative (`_handle_client`). */
  function RelayIndex(dc: nat, isMedia: bool): int {
    var dc := if dc >= 10000 then dc - 10000 else dc;
    if isMedia then -dc else dc
  }

  lemma RelayIndexFits(ctr: Ctr, sha: Hash, handshake: bytes, secret: bytes)
    requires |handshake| == HANDSHAKE_LEN && TryHandshake(ctr, sha, handshake, secret).Some?
    ensures
      var a := TryHandshake(ctr, sha, handshake, secret).value;
      && FitsInt16(RelayIndex(a.dc, a.isMedia)) && KnownTag(a.tag) && |a.prekeyIv| == PREKEY_LEN + IV_LEN
      && (a.isMedia ==> RelayIndex(a.dc, a.isMedia) <= 0) && (!a.isMedia ==> RelayIndex(a.dc, a.isMedia) >= 0)
  {}

  /** The index a client asks for is the one sent on; those of test DCs, from 10000 on either way, lose that offset. */
  lemma IndexPassesOn(ctr: Ctr, sha: Hash, secret: bytes, random: bytes, tag: bytes, index: int, noise: bytes)
    requires |random| == HANDSHAKE_LEN && KnownTag(tag) && |noise| == 2 && FitsInt16(index)
    ensures
      var handshake := Init(ClientKeystream(ctr, sha, random, secret), random, tag, index, noise);
      var r := TryHandshake(ctr, sha, handshake, secret);
      && r.Some?
      && RelayIndex(r.value.dc, r.value.isMedia) ==
           if index >= 10000 then index - 10000 else if index <= -10000 then index + 10000 else index
  {
    ClientIsRecognised(ctr, sha, secret, random, tag, index, noise);
    hide Init, TryHandshake;
  }

  const RESERVED_STARTS: set<bytes> := {
    [0x48, 0x45, 0x41, 0x44], [0x50, 0x4F, 0x53, 0x54], [0x47, 0x45, 0x54, 0x20], [0xEE, 0xEE, 0xEE, 0xEE],
    [0xDD, 0xDD, 0xDD, 0xDD], [0x16, 0x03, 0x01, 0x02], [0x4F, 0x50, 0x54, 0x49]
  }

  /** Not to be taken for another protocol. */
  predicate Inconspicuous(init: bytes)
    requires |init| >= SKIP_LEN
  {
    init[0] != 0xEF && init[..4] !in RESERVED_STARTS && init[4..8] != [0, 0, 0, 0]
  }

  /** The keystream of a relay handshake: the raw key, no secret. */
  function RelayKeystream(ctr: Ctr, init: bytes): Keystream
    requires |init| == HANDSHAKE_LEN
  {
    ctr(init[SKIP_LEN..SKIP_LEN + PREKEY_LEN], init[SKIP_LEN + PREKEY_LEN..SKIP_LEN + PREKEY_LEN + IV_LEN])
  }

  /**
    `_generate_relay_init` once acceptable random bytes are drawn: the keystream of the last eight bytes is
    recovered from an encryption of the whole packet.
  */
  method GenerateRelayInit(ctr: Ctr, random: bytes, tag: bytes, index: int, noise: bytes) returns (init: bytes)
    requires |random| == HANDSHAKE_LEN && Inconspicuous(random) && |tag| == 4 && |noise| == 2 && FitsInt16(index)
    ensures init == Init(RelayKeystream(ctr, random), random, tag, index, noise)
    ensures Inconspicuous(init)
  {
    var encryptor := new Cipher(RelayKeystream(ctr, random));
    var tailPlain := tag + PutInt16(index) + noise;
    var encryptedFull := encryptor.Update(random);
    var tail: bytes := [];
    for i := 0 to 8
      invariant |tail| == i
      invariant forall j :: 0 <= j < i ==> tail[j] == Xor(tailPlain[j], encryptor.ks(PROTO_TAG_POS + j))
    {
      var keystreamByte := Xor(encryptedFull[PROTO_TAG_POS + i], random[PROTO_TAG_POS + i]);
      XorCommutes(random[PROTO_TAG_POS + i], encryptor.ks(PROTO_TAG_POS + i));
      XorTwice(encryptor.ks(PROTO_TAG_POS + i), random[PROTO_TAG_POS + i]);
      tail := tail + [Xor(tailPlain[i], keystreamByte)];
    }
    init := random[..PROTO_TAG_POS] + tail;
    assert tail == Apply(encryptor.ks, PROTO_TAG_POS, tailPlain);
    assert init[..4] == random[..4] && init[4..8] == random[4..8];
  }

  /** Telegram, which knows only the packet, reads off the tag and the index. */
  lemma RelayInitDecrypts(ctr: Ctr, random: bytes, tag: bytes, index: int, noise: bytes)
    requires |random| == HANDSHAKE_LEN && |tag| == 4 && |noise| == 2 && FitsInt16(index)
    ensures
      var init := Init(RelayKeystream(ctr, random), random, tag, index, noise);
      var d := Apply(RelayKeystream(ctr, init), 0, init);
      && RelayKeystream(ctr, init) == RelayKeystream(ctr, random)
      && d[PROTO_TAG_POS..PROTO_TAG_POS + 4] == tag && GetInt16(d[DC_IDX_POS..DC_IDX_POS + 2]) == index
  {
    var init := Init(RelayKeystream(ctr, random), random, tag, index, noise);
    assert init[SKIP_LEN..SKIP_LEN + PREKEY_LEN] == init[..PROTO_TAG_POS][SKIP_LEN..SKIP_LEN + PREKEY_LEN]
        == random[SKIP_LEN..SKIP_LEN + PREKEY_LEN];
    assert init[SKIP_LEN + PREKEY_LEN..PROTO_TAG_POS] == init[..PROTO_TAG_POS][SKIP_LEN + PREKEY_LEN..]
        == random[SKIP_LEN + PREKEY_LEN..PROTO_TAG_POS];
    InitDecrypts(RelayKeystream(ctr, random), random, tag, index, noise);
  }

  // ----- The four ciphers

  function Reversed(s: bytes): (r: bytes)
    ensures |r| == |s| && forall i :: 0 <= i < |s| ==> r[i] == s[|s| - 1 - i]
  {
    seq(|s|, i requires 0 <= i < |s| => s[|s| - 1 - i])
  }

  /** The other direction of a handshake: its key and counter bytes read backwards. */
  function Backwards(handshake: bytes): (r: bytes)
    requires |handshake| == HANDSHAKE_LEN
    ensures |r| == HANDSHAKE_LEN
  {
    var middle := handshake[SKIP_LEN..PROTO_TAG_POS];
    handshake[..SKIP_LEN] + Reversed(middle) + handshake[PROTO_TAG_POS..]
  }

  /**
    `_build_crypto_ctx`: the four ciphers are those the two peers derive from the handshakes they sent or got;
    both streams towards Telegram start behind the handshake, both streams back start at zero.
  */
  method BuildCryptoCtx(ctr: Ctr, sha: Hash, handshake: bytes, secret: bytes, relayInit: bytes)
    returns (cltDec: Cipher, cltEnc: Cipher, tgEnc: Cipher, tgDec: Cipher)
    requires |handshake| == |relayInit| == HANDSHAKE_LEN
    ensures fresh({cltDec, cltEnc, tgEnc, tgDec}) && |{cltDec, cltEnc, tgEnc, tgDec}| == 4
    ensures cltDec.ks == ClientKeystream(ctr, sha, handshake, secret) && cltDec.pos == HANDSHAKE_LEN
    ensures cltEnc.ks == ClientKeystream(ctr, sha, Backwards(handshake), secret) && cltEnc.pos == 0
    ensures tgEnc.ks == RelayKeystream(ctr, relayInit) && tgEnc.pos == HANDSHAKE_LEN
    ensures tgDec.ks == RelayKeystream(ctr, Backwards(relayInit)) && tgDec.pos == 0
  {
    var prekeyIv := handshake[SKIP_LEN..SKIP_LEN + PREKEY_LEN + IV_LEN];
    var encPrekeyIv := Reversed(prekeyIv);
    cltDec := new Cipher(ctr(sha(prekeyIv[..PREKEY_LEN] + secret), prekeyIv[PREKEY_LEN..]));
    cltEnc := new Cipher(ctr(sha(encPrekeyIv[..PREKEY_LEN] + secret), encPrekeyIv[PREKEY_LEN..]));
    assert prekeyIv[..PREKEY_LEN] == handshake[SKIP_LEN..SKIP_LEN + PREKEY_LEN];
    assert prekeyIv[PREKEY_LEN..] == handshake[SKIP_LEN + PREKEY_LEN..PROTO_TAG_POS];
    MiddleBackwards(handshake);
    var zeros: bytes := seq(HANDSHAKE_LEN, _ => 0);
    var skipped := cltDec.Update(zeros);
    var relayDecPrekeyIv := Reversed(relayInit[SKIP_LEN..SKIP_LEN + PREKEY_LEN + IV_LEN]);
    tgEnc := new Cipher(ctr(relayInit[SKIP_LEN..SKIP_LEN + PREKEY_LEN],
                            relayInit[SKIP_LEN + PREKEY_LEN..SKIP_LEN + PREKEY_LEN + IV_LEN]));
    tgDec := new Cipher(ctr(relayDecPrekeyIv[..KEY_LEN], relayDecPrekeyIv[KEY_LEN..]));
    MiddleBackwards(relayInit);
    skipped := tgEnc.Update(zeros);
  }

  lemma MiddleBackwards(handshake: bytes)
    requires |handshake| == HANDSHAKE_LEN
    ensures
      var r := Reversed(handshake[SKIP_LEN..PROTO_TAG_POS]);
      && Backwards(handshake)[SKIP_LEN..SKIP_LEN + PREKEY_LEN] == r[..PREKEY_LEN]
      && Backwards(handshake)[SKIP_LEN + PREKEY_LEN..PROTO_TAG_POS] == r[PREKEY_LEN..]
  {}
}
