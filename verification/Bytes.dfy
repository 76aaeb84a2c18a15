/** Little-endian packing. */
module Bytes {
  import opened Words

  function Join(b0: int, b1: int, b2: int, b3: int): int {
    b0 + b1 * 256 + b2 * 65536 + b3 * 0x100_0000
  }
  function Word32(bs: seq<Byte>, at: nat): Word
    requires at + 4 <= |bs|
  {
    Join(bs[at], bs[at + 1], bs[at + 2], bs[at + 3])
  }
  function Le32(w: Word): (bs: seq<Byte>)
    ensures |bs| == 4
  {
    [w % 256, w / 256 % 256, w / 65536 % 256, w / 0x100_0000]
  }
  function Le64(v: Address): (bs: seq<Byte>)
    ensures |bs| == 8
  {
    Le32(v % W32) + Le32(v / W32)
  }
  function Word64(bs: seq<Byte>, at: nat): Address
    requires at + 8 <= |bs|
  {
    Word32(bs, at) + Word32(bs, at + 4) * W32
  }

  lemma Le32RoundTrip(w: Word)
    ensures Word32(Le32(w), 0) == w
  {
    var a := w / 256;
    assert a / 256 == w / 65536;
    assert a / 256 / 256 == w / 0x100_0000;
  }
  lemma Word32RoundTrip(b0: Byte, b1: Byte, b2: Byte, b3: Byte)
    ensures Le32(Join(b0, b1, b2, b3)) == [b0, b1, b2, b3]
  {
    var v := Join(b0, b1, b2, b3);
    Divides(v, 256, b1 as int + b2 as int * 256 + b3 as int * 65536, b0);
    Divides(b1 as int + b2 as int * 256 + b3 as int * 65536, 256, b2 as int + b3 as int * 256, b1);
    Divides(v, 65536, b2 as int + b3 as int * 256, b0 as int + b1 as int * 256);
    Divides(b2 as int + b3 as int * 256, 256, b3, b2);
    Divides(v, 0x100_0000, b3, b0 as int + b1 as int * 256 + b2 as int * 65536);
  }
  lemma Word32Slice(bs: seq<Byte>, at: nat, w: Word)
    requires at + 4 <= |bs| && bs[at..at + 4] == Le32(w)
    ensures Word32(bs, at) == w
  {
    hide Le32, Join;
    var cs := bs[at..at + 4];
    assert bs[at] == cs[0] && bs[at + 1] == cs[1] && bs[at + 2] == cs[2] && bs[at + 3] == cs[3];
    Le32RoundTrip(w);
  }
  lemma Word64Slice(bs: seq<Byte>, at: nat, v: Address)
    requires at + 8 <= |bs| && bs[at..at + 8] == Le64(v)
    ensures Word64(bs, at) == v
  {
    assert bs[at..at + 4] == bs[at..at + 8][..4] == Le32(v % W32);
    assert bs[at + 4..at + 8] == bs[at..at + 8][4..] == Le32(v / W32);
    Word32Slice(bs, at, v % W32);
    Word32Slice(bs, at + 4, v / W32);
  }
}
