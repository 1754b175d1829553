/** Bytes and the fixed-width integer layouts used on the wire and in files. */
module Bytes {
  type byte = x: int | 0 <= x < 256
  type U32 = x: int | 0 <= x < 0x1_0000_0000

  function PutBe16(v: int): (s: seq<byte>)
    requires 0 <= v < 65536
    ensures |s| == 2
  {
    [v / 256, v % 256]
  }

  function GetBe16(s: seq<byte>): int
    requires |s| == 2
  {
    256 * (s[0] as int) + s[1]
  }

  function PutBe32(v: U32): (s: seq<byte>)
    ensures |s| == 4
  {
    var v1 := v / 256;
    var v2 := v1 / 256;
    [v2 / 256, v2 % 256, v1 % 256, v % 256]
  }

  function GetBe32(s: seq<byte>): (v: U32)
    requires |s| == 4
  {
    256 * (256 * (256 * (s[0] as int) + s[1]) + s[2]) + s[3]
  }

  /** Truncation to 32 bits. */
  function Wrap32(n: int): U32 {
    n % 0x1_0000_0000
  }

  lemma Wrap32Add(n: int, d: int)
    ensures Wrap32(Wrap32(n) + d) == Wrap32(n + d)
  {
  }

  lemma DivMod256(q: int, r: int)
    requires 0 <= r < 256
    ensures (256 * q + r) / 256 == q && (256 * q + r) % 256 == r
  {
  }

  lemma Be32RoundTrip(v: U32)
    ensures GetBe32(PutBe32(v)) == v
  {
    var v1 := v / 256;
    var v2 := v1 / 256;
    assert v == 256 * v1 + v % 256 && v1 == 256 * v2 + v1 % 256 && v2 == 256 * (v2 / 256) + v2 % 256;
  }

  /** Network order: the first byte is the most significant. */
  lemma BigEndian(s: seq<byte>, t: seq<byte>)
    requires |s| == 2 && |t| == 4
    ensures PutBe16(256 * (s[0] as int) + s[1]) == s && GetBe16(s) == 256 * (s[0] as int) + s[1]
    ensures GetBe32(t) == 0x100_0000 * (t[0] as int) + 0x1_0000 * (t[1] as int) + 0x100 * (t[2] as int) + t[3]
    ensures PutBe32(GetBe32(t)) == t
  {
    DivMod256(s[0], s[1]);
    Be32Injective(t);
  }

  lemma Be32Injective(s: seq<byte>)
    requires |s| == 4
    ensures PutBe32(GetBe32(s)) == s
  {
    var v2 := 256 * (s[0] as int) + s[1];
    var v1 := 256 * v2 + s[2];
    DivMod256(s[0], s[1]);
    DivMod256(v2, s[2]);
    DivMod256(v1, s[3]);
    assert GetBe32(s) == 256 * v1 + s[3];
  }
}
