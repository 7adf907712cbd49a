/** Byte strings. */
module Bytes {

  type byte = x: int | 0 <= x < 256

  type bytes = seq<byte>

  /** A Python slice `s[:n]`: shorter strings are returned whole. */
  function Prefix(s: bytes, n: nat): bytes {
    if n <= |s| then s[..n] else s
  }

  function Length(s: bytes): nat {
    |s|
  }

  lemma Associates(a: bytes, b: bytes, c: bytes)
    ensures (a + b) + c == a + (b + c)
  {}

  /** Little-endian numbers of two, three and four bytes. */
  function Le2(s: bytes): nat
    requires |s| == 2
  {
    (s[0] as int) + 0x100 * (s[1] as int)
  }

  function Le3(s: bytes): nat
    requires |s| == 3
  {
    (s[0] as int) + 0x100 * Le2(s[1..])
  }

  function Le4(s: bytes): nat
    requires |s| == 4
  {
    (s[0] as int) + 0x100 * Le3(s[1..])
  }

  function PutLe2(n: nat): (s: bytes)
    requires n < 0x1_0000
    ensures |s| == 2 && Le2(s) == n
  {
    [n % 0x100, n / 0x100]
  }

  function PutLe3(n: nat): (s: bytes)
    requires n < 0x100_0000
    ensures |s| == 3 && Le3(s) == n
  {
    var s := [n % 0x100] + PutLe2(n / 0x100);
    assert s[1..] == PutLe2(n / 0x100);
    s
  }

  function PutLe4(n: nat): (s: bytes)
    requires n < 0x1_0000_0000
    ensures |s| == 4 && Le4(s) == n
  {
    var s := [n % 0x100] + PutLe3(n / 0x100);
    assert s[1..] == PutLe3(n / 0x100);
    s
  }

  lemma Le2Put(s: bytes)
    requires |s| == 2
    ensures Le2(s) < 0x1_0000 && PutLe2(Le2(s)) == s
  {}

  lemma Le4Put(s: bytes)
    requires |s| == 4
    ensures Le4(s) < 0x1_0000_0000 && PutLe4(Le4(s)) == s
  {
    hide Le2, PutLe2;
    Le2Put(s[1..][1..]);
    assert s[1..] == [s[1]] + s[1..][1..] && PutLe3(Le3(s[1..])) == s[1..];
    assert s == [s[0]] + s[1..];
  }

  /** Every byte with its weight, the first the lightest. */
  function LittleEndian(s: bytes): nat {
    if s == [] then 0 else (s[0] as int) + 256 * LittleEndian(s[1..])
  }

  lemma LittleEndianIs(s: bytes)
    ensures |s| == 2 ==> LittleEndian(s) == Le2(s)
    ensures |s| == 3 ==> LittleEndian(s) == Le3(s)
    ensures |s| == 4 ==> LittleEndian(s) == Le4(s)
  {
    if |s| > 2 {
      LittleEndianIs(s[1..]);
    } else if |s| == 2 {
      assert LittleEndian(s[1..][1..]) == 0 && LittleEndian(s[1..]) == s[1];
    }
  }

  // ----- Big-endian numbers: two bytes, or any length

  function Be2(s: bytes): nat
    requires |s| == 2
  {
    0x100 * (s[0] as int) + (s[1] as int)
  }

  function PutBe2(n: nat): (s: bytes)
    requires n < 0x1_0000
    ensures |s| == 2 && Be2(s) == n
  {
    [n / 0x100, n % 0x100]
  }

  function FromBytes(s: bytes): nat {
    if s == [] then 0 else FromBytes(s[..|s| - 1]) * 256 + s[|s| - 1]
  }

  function ToBytes(v: nat, n: nat): (s: bytes)
    ensures |s| == n
  {
    if n == 0 then [] else ToBytes(v / 256, n - 1) + [v % 256]
  }

  lemma {:induction false} ToInvertsFrom(s: bytes)
    ensures ToBytes(FromBytes(s), |s|) == s
  {
    if s != [] {
      ToInvertsFrom(s[..|s| - 1]);
      assert s == s[..|s| - 1] + [s[|s| - 1]];
    }
  }

  function Pow256(n: nat): nat {
    if n == 0 then 1 else 256 * Pow256(n - 1)
  }

  lemma {:induction false} FromInvertsTo(v: nat, n: nat)
    requires v < Pow256(n)
    ensures FromBytes(ToBytes(v, n)) == v
  {
    if n > 0 {
      FromInvertsTo(v / 256, n - 1);
      assert ToBytes(v, n)[..n - 1] == ToBytes(v / 256, n - 1);
    }
  }

  /** Every byte with its weight, the first the heaviest. */
  function BigEndian(s: bytes): nat {
    if s == [] then 0 else (s[0] as int) * Pow256(|s| - 1) + BigEndian(s[1..])
  }

  lemma {:induction false} BigEndianAppend(s: bytes, b: byte)
    ensures BigEndian(s + [b]) == BigEndian(s) * 256 + b
  {
    if s == [] {
      assert s + [b] == [b] && Pow256(0) == 1 && BigEndian([b][1..]) == 0;
    } else {
      assert (s + [b])[1..] == s[1..] + [b] && Pow256(|s|) == 256 * Pow256(|s| - 1);
      BigEndianAppend(s[1..], b);
      assert (s[0] as int) * Pow256(|s|) == (s[0] as int) * Pow256(|s| - 1) * 256;
    }
  }

  lemma {:induction false} FromBytesIs(s: bytes)
    ensures FromBytes(s) == BigEndian(s)
  {
    if s != [] {
      FromBytesIs(s[..|s| - 1]);
      BigEndianAppend(s[..|s| - 1], s[|s| - 1]);
      assert s[..|s| - 1] + [s[|s| - 1]] == s;
    }
  }

  lemma TwoBytes(s: bytes)
    requires |s| == 2
    ensures BigEndian(s) == Be2(s)
  {
    assert Pow256(1) == 256 && Pow256(0) == 1;
    assert BigEndian(s[1..]) == (s[1] as int) * Pow256(0) + BigEndian(s[1..][1..]);
  }

  /** Concatenation of a list of pieces. */
  function Join(pieces: seq<bytes>): bytes {
    if pieces == [] then [] else pieces[0] + Join(pieces[1..])
  }

  lemma {:induction false} JoinAppend(a: seq<bytes>, b: seq<bytes>)
    ensures Join(a + b) == Join(a) + Join(b)
  {
    if a == [] {
      assert a + b == b;
    } else {
      assert (a + b)[1..] == a[1..] + b;
      JoinAppend(a[1..], b);
    }
  }

  lemma JoinOne(a: bytes)
    ensures Join([a]) == a
  {}

  lemma JoinLast(a: seq<bytes>, b: bytes)
    ensures Join(a + [b]) == Join(a) + b
  {
    JoinAppend(a, [b]);
    JoinOne(b);
  }
}
