/** Little-endian integers in byte sequences. */
module Bytes {
  import opened VgaRegs

  type Bytes = seq<bv8>

  lemma NextByte(b: bv8)
    requires b < 255
    ensures (b + 1) as int == b as int + 1
  {
  }

  function ByteOf(n: nat): (b: bv8)
    requires n < 256
    ensures b as int == n
  {
    if n == 0 then 0
    else
      NextByte(ByteOf(n - 1));
      ByteOf(n - 1) + 1
  }

  lemma ByteOfByte(b: bv8)
    ensures ByteOf(b as int) == b
  {
    SameByte(ByteOf(b as int), b);
  }

  lemma SameByte(a: bv8, b: bv8)
    requires a as int == b as int
    ensures a == b
  {
  }

  function Le16(n: u16): (s: Bytes)
    ensures |s| == 2 && FromLe16(s) == n
  {
    [ByteOf(n % 256), ByteOf(n / 256)]
  }

  function FromLe16(s: Bytes): u16
    requires |s| == 2
  {
    s[0] as int + 256 * (s[1] as int)
  }

  function Le32(n: u32): (s: Bytes)
    ensures |s| == 4 && FromLe32(s) == n
  {
    Le16(n % 0x10000) + Le16(n / 0x10000)
  }

  function FromLe32(s: Bytes): u32
    requires |s| == 4
  {
    FromLe16(s[..2]) + 0x10000 * FromLe16(s[2..])
  }

  /** Sixteen-bit words one after the other. */
  function Words(ws: seq<u16>): (s: Bytes)
    ensures |s| == 2 * |ws|
  {
    if ws == [] then [] else Le16(ws[0]) + Words(ws[1..])
  }

  function FromWords(s: Bytes): (ws: seq<u16>)
    requires |s| % 2 == 0
    ensures 2 * |ws| == |s|
  {
    if s == [] then [] else [FromLe16(s[..2])] + FromWords(s[2..])
  }

  lemma {:induction false} WordsRoundTrip(ws: seq<u16>)
    ensures FromWords(Words(ws)) == ws
  {
    if ws != [] {
      WordsRoundTrip(ws[1..]);
      assert Words(ws)[..2] == Le16(ws[0]) && Words(ws)[2..] == Words(ws[1..]);
    }
  }

  lemma Le16Inverse(s: Bytes)
    requires |s| == 2
    ensures Le16(FromLe16(s)) == s
  {
    var n := FromLe16(s);
    assert n % 256 == s[0] as int && n / 256 == s[1] as int;
    ByteOfByte(s[0]);
    ByteOfByte(s[1]);
  }

  lemma SplitWord(low: u16, high: u16)
    ensures (low + 0x10000 * high) % 0x10000 == low && (low + 0x10000 * high) / 0x10000 == high
  {
  }

  lemma JoinWords(low: u16, high: u16)
    ensures low + 0x10000 * high < 0x1_0000_0000 && Le32(low + 0x10000 * high) == Le16(low) + Le16(high)
  {
    SplitWord(low, high);
  }

  lemma Le32Inverse(s: Bytes)
    requires |s| == 4
    ensures Le32(FromLe32(s)) == s
  {
    JoinWords(FromLe16(s[..2]), FromLe16(s[2..]));
    Le16Inverse(s[..2]);
    Le16Inverse(s[2..]);
    assert s[..2] + s[2..] == s;
  }
}
