/** Reading cipher suites and key shares out of a ClientHello (proxy/fake_tls.py; section 4.2.8 of RFC 8446). */
module ClientHello {
  import opened Prelude
  import opened Bytes

  const EXT_KEY_SHARE := 0x0033
  const CLIENT_RANDOM_LEN := 32

  /** Offered cipher suites, and the key length of each offered group. */
  datatype Info = Info(suites: set<nat>, shares: map<nat, nat>)

  const EMPTY_INFO := Info({}, map[])

  // ----- The parser on values; None stands for the IndexError or struct.error of a read past the end

  function U8(data: bytes, pos: nat): Option<nat> {
    if pos < |data| then Some(data[pos]) else None
  }

  function U16(data: bytes, pos: nat): (r: Option<nat>)
    ensures r.Some? <==> pos + 2 <= |data|
  {
    if pos + 2 <= |data| then Some(Be2(data[pos..pos + 2])) else None
  }

  function Suites(data: bytes, pos: nat, end: nat): set<nat>
    requires end <= |data|
    decreases end - pos
  {
    if pos + 1 >= end then {} else {U16(data, pos).value} + Suites(data, pos + 2, end)
  }

  function Shares(data: bytes, off: nat, end: nat, shares: map<nat, nat>): map<nat, nat>
    requires end <= |data|
    decreases end - off
  {
    if off + 4 > end then shares
    else
      var next := off + 4 + U16(data, off + 2).value;
      Shares(data, next, end,
             if next <= end then SetDefault(shares, U16(data, off).value, U16(data, off + 2).value) else shares)
  }

  function SetDefault(m: map<nat, nat>, key: nat, value: nat): map<nat, nat> {
    if key in m then m else m[key := value]
  }

  function Extensions(data: bytes, pos: nat, end: nat, shares: map<nat, nat>): map<nat, nat>
    requires end <= |data|
    decreases end - pos
  {
    if pos + 4 > end then shares
    else
      var body := pos + 4;
      var shares' :=
        if U16(data, pos).value == EXT_KEY_SHARE && body + 2 <= end then
          Shares(data, body + 2, Min(body + 2 + U16(data, body).value, end), shares)
        else shares;
      Extensions(data, body + U16(data, pos + 2).value, end, shares')
  }

  /** `parse_client_hello`. */
  function Parse(data: bytes): Info {
    var pos := 5 + 4 + 2 + CLIENT_RANDOM_LEN;
    match U8(data, pos)
    case None => EMPTY_INFO
    case Some(sessionLen) =>
      var pos := pos + 1 + sessionLen;
      match U16(data, pos)
      case None => EMPTY_INFO
      case Some(suitesLen) =>
        var end := pos + 2 + suitesLen;
        if end > |data| then EMPTY_INFO
        else
          var suites := Suites(data, pos + 2, end);
          match U8(data, end)
          case None => EMPTY_INFO
          case Some(compressionLen) =>
            var pos := end + 1 + compressionLen;
            match U16(data, pos)
            case None => EMPTY_INFO
            case Some(total) => Info(suites, Extensions(data, pos + 2, Min(pos + 2 + total, |data|), map[]))
  }

  // ----- The parser as the source runs it; its nested loops end on arbitrary bytes

  method ReadSuites(data: bytes, pos: nat, end: nat) returns (suites: set<nat>)
    requires end <= |data|
    ensures suites == Suites(data, pos, end)
  {
    suites := {};
    var off := pos;
    while off + 1 < end
      invariant suites + Suites(data, off, end) == Suites(data, pos, end)
      decreases end - off
    {
      suites := suites + {U16(data, off).value};
      off := off + 2;
    }
  }

  method ReadExtensions(data: bytes, start: nat, end: nat) returns (shares: map<nat, nat>)
    requires end <= |data|
    ensures shares == Extensions(data, start, end, map[])
  {
    var pos := start;
    shares := map[];
    while pos + 4 <= end
      invariant Extensions(data, pos, end, shares) == Extensions(data, start, end, map[])
      decreases end - pos
    {
      var kind, length := U16(data, pos).value, U16(data, pos + 2).value;
      ghost var before := shares;
      pos := pos + 4;
      if kind == EXT_KEY_SHARE && pos + 2 <= end {
        var sharesEnd := Min(pos + 2 + U16(data, pos).value, end);
        var off := pos + 2;
        while off + 4 <= sharesEnd
          invariant Shares(data, off, sharesEnd, shares) == Shares(data, pos + 2, sharesEnd, before)
          decreases sharesEnd - off
        {
          var group, keyLen := U16(data, off).value, U16(data, off + 2).value;
          off := off + 4 + keyLen;
          if off <= sharesEnd { shares := SetDefault(shares, group, keyLen); }
        }
      }
      pos := pos + length;
    }
  }

  method ParseClientHello(data: bytes) returns (info: Info)
    ensures info == Parse(data)
  {
    hide Suites, Extensions;
    var pos := 5 + 4 + 2 + CLIENT_RANDOM_LEN;
    if pos >= |data| { return EMPTY_INFO; }
    pos := pos + 1 + data[pos];
    if pos + 2 > |data| { return EMPTY_INFO; }
    var suitesLen := U16(data, pos).value;
    pos := pos + 2;
    var suitesEnd := pos + suitesLen;
    if suitesEnd > |data| { return EMPTY_INFO; }
    var suites := ReadSuites(data, pos, suitesEnd);
    pos := suitesEnd;
    if pos >= |data| { return EMPTY_INFO; }
    pos := pos + 1 + data[pos];
    if pos + 2 > |data| { return EMPTY_INFO; }
    var total := U16(data, pos).value;
    pos := pos + 2;
    var shares := ReadExtensions(data, pos, Min(pos + total, |data|));
    info := Info(suites, shares);
  }

  // ----- Well-formed messages

  type u16 = x: nat | x < 0x1_0000

  type short = b: bytes | |b| < 0x1_0000

  datatype Share = Share(group: u16, key: short)

  datatype Extension = Other(kind: u16, body: short) | KeyShare(shares: seq<Share>)

  /** A ClientHello with the fields the parser passes over left free. */
  datatype Hello =
    Hello(opening: bytes, session: bytes, suites: seq<u16>, compression: bytes, extensions: seq<Extension>)

  /** A vector with its length in one byte, or in two. */
  function Vec1(body: bytes): bytes
    requires |body| < 0x100
  {
    [|body|] + body
  }

  function Vec2(body: bytes): bytes
    requires |body| < 0x1_0000
  {
    PutBe2(|body|) + body
  }

  function ShareBytes(shares: seq<Share>): bytes
  {
    if shares == [] then [] else PutBe2(shares[0].group) + Vec2(shares[0].key) + ShareBytes(shares[1..])
  }

  predicate ValidExtension(e: Extension) {
    match e
    case Other(kind, body) => kind != EXT_KEY_SHARE
    case KeyShare(shares) => |ShareBytes(shares)| < 0xFFFE
  }

  function ExtensionKind(e: Extension): u16 {
    if e.Other? then e.kind else EXT_KEY_SHARE
  }

  function ExtensionBody(e: Extension): short
    requires ValidExtension(e)
  {
    if e.Other? then e.body else Vec2(ShareBytes(e.shares))
  }

  function ExtensionBytes(extensions: seq<Extension>): bytes
    requires forall i :: 0 <= i < |extensions| ==> ValidExtension(extensions[i])
  {
    if extensions == [] then []
    else
      assert ValidExtension(extensions[0]);
      PutBe2(ExtensionKind(extensions[0])) + Vec2(ExtensionBody(extensions[0])) + ExtensionBytes(extensions[1..])
  }

  function SuiteBytes(suites: seq<u16>): (b: bytes)
    ensures |b| == 2 * |suites|
  {
    if suites == [] then [] else PutBe2(suites[0]) + SuiteBytes(suites[1..])
  }

  /** `opening` is the record header, the handshake header, the legacy version and the random. */
  ghost predicate ValidHello(h: Hello) {
    && |h.opening| == 5 + 4 + 2 + CLIENT_RANDOM_LEN
    && |h.session| < 0x100 && |h.compression| < 0x100
    && |h.suites| < 0x8000
    && (forall i :: 0 <= i < |h.extensions| ==> ValidExtension(h.extensions[i]))
    && |ExtensionBytes(h.extensions)| < 0x1_0000
  }

  function Encode(h: Hello): bytes
    requires ValidHello(h)
  {
    h.opening
    + (Vec1(h.session) + (Vec2(SuiteBytes(h.suites)) + (Vec1(h.compression) + Vec2(ExtensionBytes(h.extensions)))))
  }

  /** The shares of all key_share extensions; section 4.2 of RFC 8446 allows one such extension. */
  function Offered(extensions: seq<Extension>): seq<Share> {
    if extensions == [] then []
    else if extensions[0].KeyShare? then extensions[0].shares + Offered(extensions[1..])
    else Offered(extensions[1..])
  }

  predicate DistinctGroups(shares: seq<Share>) {
    forall i, j :: 0 <= i < j < |shares| ==> shares[i].group != shares[j].group
  }

  /** The first length offered for each group. */
  function Collect(shares: seq<Share>, acc: map<nat, nat>): map<nat, nat> {
    if shares == [] then acc else Collect(shares[1..], SetDefault(acc, shares[0].group, |shares[0].key|))
  }

  // ----- The parser reads back what was encoded

  lemma Apart(data: bytes, from: nat, to: nat, a: bytes, b: bytes)
    requires from <= to <= |data| && data[from..to] == a + b
    ensures from + |a| <= to && data[from..from + |a|] == a && data[from + |a|..to] == b
  {
    assert data[from..from + |a|] == data[from..to][..|a|];
    assert data[from + |a|..to] == data[from..to][|a|..];
  }

  lemma {:induction false} SuitesRead(data: bytes, pos: nat, end: nat, suites: seq<u16>)
    requires pos <= end <= |data| && data[pos..end] == SuiteBytes(suites)
    ensures Suites(data, pos, end) == set s | s in suites
    decreases |suites|
  {
    if suites != [] {
      Apart(data, pos, end, PutBe2(suites[0]), SuiteBytes(suites[1..]));
      SuitesRead(data, pos + 2, end, suites[1..]);
      assert forall s :: s in suites <==> s == suites[0] || s in suites[1..];
    }
  }

  lemma {:induction false} SharesRead(data: bytes, off: nat, end: nat, shares: seq<Share>, acc: map<nat, nat>)
    requires off <= end <= |data| && data[off..end] == ShareBytes(shares)
    ensures Shares(data, off, end, acc) == Collect(shares, acc)
    decreases |shares|
  {
    if shares != [] {
      var s, tail := shares[0], shares[1..];
      assert ShareBytes(shares) == PutBe2(s.group) + (PutBe2(|s.key|) + (s.key + ShareBytes(tail)));
      Apart(data, off, end, PutBe2(s.group), PutBe2(|s.key|) + (s.key + ShareBytes(tail)));
      Apart(data, off + 2, end, PutBe2(|s.key|), s.key + ShareBytes(tail));
      Apart(data, off + 4, end, s.key, ShareBytes(tail));
      SharesRead(data, off + 4 + |s.key|, end, tail, SetDefault(acc, s.group, |s.key|));
    }
  }

  lemma Vec1Read(data: bytes, from: nat, to: nat, body: bytes, rest: bytes)
    requires |body| < 0x100
    requires from <= to <= |data| && data[from..to] == Vec1(body) + rest
    ensures from + 1 + |body| <= to && U8(data, from) == Some(|body|) && data[from + 1 + |body|..to] == rest
  {}

  lemma Vec2Read(data: bytes, from: nat, to: nat, body: bytes, rest: bytes)
    requires |body| < 0x1_0000
    requires from <= to <= |data| && data[from..to] == Vec2(body) + rest
    ensures from + 2 + |body| <= to && U16(data, from) == Some(|body|)
    ensures data[from + 2..from + 2 + |body|] == body && data[from + 2 + |body|..to] == rest
  {
    Apart(data, from, to, Vec2(body), rest);
    Apart(data, from, from + 2 + |body|, PutBe2(|body|), body);
  }

  lemma ExtensionRead(data: bytes, pos: nat, end: nat, e: Extension, rest: bytes, acc: map<nat, nat>)
    requires ValidExtension(e)
    requires pos <= end <= |data| && data[pos..end] == PutBe2(ExtensionKind(e)) + Vec2(ExtensionBody(e)) + rest
    ensures
      var after := pos + 4 + |ExtensionBody(e)|;
      && after <= end && data[after..end] == rest
      && Extensions(data, pos, end, acc) ==
         Extensions(data, after, end, if e.KeyShare? then Collect(e.shares, acc) else acc)
  {
    var body := ExtensionBody(e);
    assert data[pos..end] == PutBe2(ExtensionKind(e)) + (Vec2(body) + rest);
    Apart(data, pos, end, PutBe2(ExtensionKind(e)), Vec2(body) + rest);
    Vec2Read(data, pos + 2, end, body, rest);
    if e.KeyShare? {
      var raw := ShareBytes(e.shares);
      assert body + [] == body;
      Vec2Read(data, pos + 4, pos + 4 + |body|, raw, []);
      SharesRead(data, pos + 6, pos + 4 + |body|, e.shares, acc);
    }
  }

  lemma NothingRead(data: bytes, pos: nat, acc: map<nat, nat>)
    requires pos <= |data|
    ensures Extensions(data, pos, pos, acc) == Collect([], acc)
  {}

  lemma {:induction false} ExtensionsRead(data: bytes, pos: nat, end: nat, extensions: seq<Extension>,
                                          acc: map<nat, nat>)
    requires forall i :: 0 <= i < |extensions| ==> ValidExtension(extensions[i])
    requires pos <= end <= |data| && data[pos..end] == ExtensionBytes(extensions)
    ensures Extensions(data, pos, end, acc) == Collect(Offered(extensions), acc)
    decreases |extensions|
  {
    hide Extensions, ExtensionBody, Vec2, Collect, ValidExtension;
    if extensions == [] {
      assert |data[pos..end]| == 0;
      NothingRead(data, pos, acc);
    } else {
      var e, tail := extensions[0], extensions[1..];
      assert ValidExtension(e);
      ExtensionRead(data, pos, end, e, ExtensionBytes(tail), acc);
      var after := pos + 4 + |ExtensionBody(e)|;
      if e.KeyShare? {
        ExtensionsRead(data, after, end, tail, Collect(e.shares, acc));
        CollectAppend(e.shares, Offered(tail), acc);
      } else {
        ExtensionsRead(data, after, end, tail, acc);
      }
    }
  }

  lemma {:induction false} CollectAppend(a: seq<Share>, b: seq<Share>, acc: map<nat, nat>)
    ensures Collect(a + b, acc) == Collect(b, Collect(a, acc))
    decreases |a|
  {
    if a == [] {
      assert a + b == b;
    } else {
      assert (a + b)[1..] == a[1..] + b;
      CollectAppend(a[1..], b, SetDefault(acc, a[0].group, |a[0].key|));
    }
  }

  /** Groups already known keep their length, and every group gets one. */
  lemma {:induction false} CollectKeeps(shares: seq<Share>, acc: map<nat, nat>, g: nat)
    ensures g in Collect(shares, acc) <==> g in acc || exists i :: 0 <= i < |shares| && shares[i].group == g
    ensures g in acc ==> Collect(shares, acc)[g] == acc[g]
    decreases |shares|
  {
    if shares != [] {
      CollectKeeps(shares[1..], SetDefault(acc, shares[0].group, |shares[0].key|), g);
      if g == shares[0].group { assert shares[0].group == g; }
    }
  }

  lemma {:induction false} CollectFinds(shares: seq<Share>, acc: map<nat, nat>, i: nat)
    requires i < |shares| && shares[i].group !in acc
    requires forall j :: 0 <= j < i ==> shares[j].group != shares[i].group
    ensures shares[i].group in Collect(shares, acc) && Collect(shares, acc)[shares[i].group] == |shares[i].key|
    decreases |shares|
  {
    var acc' := SetDefault(acc, shares[0].group, |shares[0].key|);
    if i == 0 {
      CollectKeeps(shares[1..], acc', shares[0].group);
    } else {
      assert shares[0].group != shares[i].group;
      CollectFinds(shares[1..], acc', i - 1);
    }
  }

  lemma ParseReads(h: Hello)
    requires ValidHello(h)
    ensures Parse(Encode(h)) == Info((set s | s in h.suites), Collect(Offered(h.extensions), map[]))
  {
    hide Suites, Extensions, Vec1, Vec2, U8, U16, ExtensionBytes, SuiteBytes;
    var data := Encode(h);
    var suites, extensions := SuiteBytes(h.suites), ExtensionBytes(h.extensions);
    var end := |data|;
    assert data[0..end] == data;
    Apart(data, 0, end, h.opening, Vec1(h.session) + (Vec2(suites) + (Vec1(h.compression) + Vec2(extensions))));
    Vec1Read(data, 43, end, h.session, Vec2(suites) + (Vec1(h.compression) + Vec2(extensions)));
    var p := 44 + |h.session|;
    Vec2Read(data, p, end, suites, Vec1(h.compression) + Vec2(extensions));
    SuitesRead(data, p + 2, p + 2 + |suites|, h.suites);
    var q := p + 2 + |suites|;
    Vec1Read(data, q, end, h.compression, Vec2(extensions));
    var r := q + 1 + |h.compression|;
    assert Vec2(extensions) + [] == Vec2(extensions);
    Vec2Read(data, r, end, extensions, []);
    ExtensionsRead(data, r + 2, end, h.extensions, map[]);
  }

  /** Exactly the suites and the key shares that were sent, among any other extensions. */
  lemma ParseIsExact(h: Hello)
    requires ValidHello(h) && DistinctGroups(Offered(h.extensions))
    ensures
      var info := Parse(Encode(h));
      && (forall s :: s in info.suites <==> s in h.suites)
      && (forall g: nat :: g in info.shares ==>
            exists i :: 0 <= i < |Offered(h.extensions)| && Offered(h.extensions)[i].group == g)
      && forall s <- Offered(h.extensions) :: s.group in info.shares && info.shares[s.group] == |s.key|
  {
    ParseReads(h);
    var offered := Offered(h.extensions);
    forall g: nat | g in Collect(offered, map[])
      ensures exists i :: 0 <= i < |offered| && offered[i].group == g
    {
      CollectKeeps(offered, map[], g);
    }
    forall i | 0 <= i < |offered|
      ensures offered[i].group in Collect(offered, map[])
              && Collect(offered, map[])[offered[i].group] == |offered[i].key|
    {
      CollectFinds(offered, map[], i);
    }
  }

  /** A message cut off before the length of its extensions tells nothing. */
  lemma CutOffTellsNothing(h: Hello, k: nat)
    requires ValidHello(h)
    requires k < 44 + |h.session| + 2 + 2 * |h.suites| + 1 + |h.compression| + 2
    ensures Parse(Encode(h)[..Min(k, |Encode(h)|)]) == EMPTY_INFO
  {
    hide Suites, Extensions, ExtensionBytes, SuiteBytes;
    var data := Encode(h);
    var suites, extensions := SuiteBytes(h.suites), ExtensionBytes(h.extensions);
    var behind := Vec2(suites) + (Vec1(h.compression) + Vec2(extensions));
    assert data == h.opening + (Vec1(h.session) + behind);
    var cut, p := data[..k], 44 + |h.session|;
    var q := p + 2 + |suites|;
    assert data[43] == |h.session|;
    assert data[p..] == behind;
    assert behind[..2] == PutBe2(|suites|) && behind[2 + |suites|] == |h.compression|;
    assert data[p..p + 2] == behind[..2] && data[q] == behind[2 + |suites|];
    if k >= p + 2 { assert cut[p..p + 2] == data[p..p + 2]; }
    if k > q { assert cut[q] == data[q]; }
  }
}
