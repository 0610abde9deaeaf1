/** Bytes, big-endian 32-bit numbers, and white space in UTF-8 text. */
module Bytes {

  type Byte = b: nat | b < 256

  const TWO_32 := 0x1_0000_0000

  /** The low 32 bits of a number, most significant byte first. */
  function PutU32(n: nat): (bs: seq<Byte>)
    ensures |bs| == 4
  {
    [n / 0x100_0000 % 256, n / 0x1_0000 % 256, n / 256 % 256, n % 256]
  }

  function U32(bs: seq<Byte>): (n: nat)
    requires |bs| == 4
    ensures n < TWO_32
  {
    bs[0] as int * 0x100_0000 + bs[1] as int * 0x1_0000 + bs[2] as int * 256 + bs[3] as int
  }

  /** Reading back what was put gives the number modulo 2^32. */
  lemma PutThenRead(n: nat)
    ensures U32(PutU32(n)) == n % TWO_32
  {
    var q1 := n / 256;
    var q2 := n / 0x1_0000;
    var q3 := n / 0x100_0000;
    assert q2 == q1 / 256 && q3 == q2 / 256;
    assert n == q1 * 256 + n % 256 && q1 == q2 * 256 + q1 % 256 && q2 == q3 * 256 + q2 % 256;
    assert n == (q3 / 256) * TWO_32 + (q3 % 256) * 0x100_0000 + (q2 % 256) * 0x1_0000 + (q1 % 256) * 256 + n % 256;
  }

  lemma PutFits(n: nat)
    requires n < TWO_32
    ensures U32(PutU32(n)) == n
  {
    PutThenRead(n);
  }

  lemma ReadThenPut(bs: seq<Byte>)
    requires |bs| == 4
    ensures PutU32(U32(bs)) == bs
  {
    var n := U32(bs);
    assert n / 256 == bs[0] as int * 0x1_0000 + bs[1] as int * 256 + bs[2] as int;
    assert n / 0x1_0000 == bs[0] as int * 256 + bs[1] as int;
    assert n / 0x100_0000 == bs[0] as int;
  }

  predicate IsAsciiSpace(b: Byte) {
    9 <= b <= 13 || b == 32
  }

  predicate IsWideSpace(b: Byte, c: Byte, d: Byte) {
    || (b == 0xE1 && c == 0x9A && d == 0x80)
    || (b == 0xE2 && c == 0x80 && (0x80 <= d <= 0x8A || d == 0xA8 || d == 0xA9 || d == 0xAF))
    || (b == 0xE2 && c == 0x81 && d == 0x9F)
    || (b == 0xE3 && c == 0x80 && d == 0x80)
  }

  /** How many bytes of white space a text starts with, counting one character. */
  function SpaceAtStart(s: seq<Byte>): (n: nat)
    ensures n <= |s|
  {
    if |s| >= 1 && IsAsciiSpace(s[0]) then 1
    else if |s| >= 2 && s[0] == 0xC2 && s[1] in {0x85, 0xA0} then 2
    else if |s| >= 3 && IsWideSpace(s[0], s[1], s[2]) then 3
    else 0
  }

  function SpaceAtEnd(s: seq<Byte>): (n: nat)
    ensures n <= |s|
  {
    var n := |s|;
    if n >= 1 && IsAsciiSpace(s[n - 1]) then 1
    else if n >= 2 && s[n - 2] == 0xC2 && s[n - 1] in {0x85, 0xA0} then 2
    else if n >= 3 && IsWideSpace(s[n - 3], s[n - 2], s[n - 1]) then 3
    else 0
  }

  function TrimStart(s: seq<Byte>): (t: seq<Byte>)
    ensures SpaceAtStart(t) == 0
    ensures forall b :: b in t ==> b in s
    decreases |s|
  {
    if SpaceAtStart(s) > 0 then TrimStart(s[SpaceAtStart(s)..]) else s
  }

  function TrimEnd(s: seq<Byte>): (t: seq<Byte>)
    ensures SpaceAtEnd(t) == 0 && t <= s
    decreases |s|
  {
    if SpaceAtEnd(s) > 0 then TrimEnd(s[..|s| - SpaceAtEnd(s)]) else s
  }

  function Trim(s: seq<Byte>): (t: seq<Byte>)
    ensures forall b :: b in t ==> b in s
  {
    TrimEnd(TrimStart(s))
  }

  /** Trimming twice trims no more. */
  lemma TrimTwice(s: seq<Byte>)
    ensures Trim(Trim(s)) == Trim(s)
  {
  }

  /** The bytes are white space characters one after the other. */
  predicate AllSpace(s: seq<Byte>)
    decreases |s|
  {
    s == [] || (SpaceAtStart(s) > 0 && AllSpace(s[SpaceAtStart(s)..]))
  }

  predicate AllSpaceFromEnd(s: seq<Byte>)
    decreases |s|
  {
    s == [] || (SpaceAtEnd(s) > 0 && AllSpaceFromEnd(s[..|s| - SpaceAtEnd(s)]))
  }

  lemma StartStays(s: seq<Byte>, k: nat)
    requires 0 < SpaceAtStart(s) <= k <= |s|
    ensures SpaceAtStart(s[..k]) == SpaceAtStart(s)
  {
  }

  lemma EndStays(s: seq<Byte>, j: nat)
    requires SpaceAtEnd(s) > 0 && j <= |s| - SpaceAtEnd(s)
    ensures SpaceAtEnd(s[j..]) == SpaceAtEnd(s)
  {
  }

  lemma {:induction false} StartIsCut(s: seq<Byte>) returns (i: nat)
    ensures i <= |s| && TrimStart(s) == s[i..] && AllSpace(s[..i])
    decreases |s|
  {
    i := 0;
    var n := SpaceAtStart(s);
    if n > 0 {
      var k := StartIsCut(s[n..]);
      i := n + k;
      StartStays(s, i);
      assert s[n..][k..] == s[i..] && s[..i][n..] == s[n..][..k];
    }
  }

  lemma {:induction false} EndIsCut(s: seq<Byte>) returns (j: nat)
    ensures j <= |s| && TrimEnd(s) == s[..j] && AllSpaceFromEnd(s[j..])
    decreases |s|
  {
    j := |s|;
    var n := SpaceAtEnd(s);
    if n > 0 {
      var m := |s| - n;
      j := EndIsCut(s[..m]);
      EndStays(s, j);
      assert s[..m][..j] == s[..j] && s[j..][..|s| - j - n] == s[..m][j..];
    }
  }

  /** Trimming removes white space at both ends, and all of it. */
  lemma TrimCutsTheEnds(s: seq<Byte>) returns (i: nat, j: nat)
    ensures i <= j <= |s| && Trim(s) == s[i..j]
    ensures AllSpace(s[..i]) && AllSpaceFromEnd(s[j..])
    ensures SpaceAtStart(Trim(s)) == 0 && SpaceAtEnd(Trim(s)) == 0
  {
    i := StartIsCut(s);
    var k := EndIsCut(s[i..]);
    j := i + k;
    assert s[i..][..k] == s[i..j] && s[i..][k..] == s[j..];
  }

  /** The most significant byte comes first. */
  lemma BigEndian(bs: seq<Byte>)
    requires |bs| == 4
    ensures U32(bs) == ((bs[0] as int * 256 + bs[1] as int) * 256 + bs[2] as int) * 256 + bs[3] as int
    ensures PutU32(0x01_02_03_04) == [1, 2, 3, 4]
  {
  }
}
