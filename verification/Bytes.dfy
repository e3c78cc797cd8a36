/** Bytes in network order, and reading them off the front of a sequence. */
module Bytes {
  import opened Wrappers

  type Byte = b: int | 0 <= b < 256
  type Word = w: int | 0 <= w < 0x1_0000
  type Long = l: int | 0 <= l < 0x1_0000_0000

  function BigEndian16(w: Word): seq<Byte> {
    [w / 256, w % 256]
  }

  function BigEndian32(l: Long): seq<Byte> {
    BigEndian16(l / 0x1_0000) + BigEndian16(l % 0x1_0000)
  }

  function FromBigEndian16(bs: seq<Byte>): Word
    requires |bs| == 2
  {
    var high: int, low: int := bs[0], bs[1];
    high * 256 + low
  }

  function FromBigEndian32(bs: seq<Byte>): Long
    requires |bs| == 4
  {
    FromBigEndian16(bs[..2]) * 0x1_0000 + FromBigEndian16(bs[2..])
  }

  /** What was read, and the bytes behind it. */
  datatype Read<+T> = Read(value: T, rest: seq<Byte>)

  function Take(bs: seq<Byte>, n: nat): Result<Read<seq<Byte>>> {
    if n <= |bs| then Ok(Read(bs[..n], bs[n..])) else Thrown
  }

  /** What was read in front, and then what was read behind it. */
  function After<T>(front: seq<T>, behind: Result<Read<seq<T>>>): Result<Read<seq<T>>> {
    match behind
    case Thrown => Thrown
    case Ok(Read(values, rest)) => Ok(Read(front + values, rest))
  }

  predicate Bit(b: Byte, mask: nat)
    requires mask > 0
  {
    b / mask % 2 == 1
  }

  lemma BigEndian16Inverse(w: Word)
    ensures FromBigEndian16(BigEndian16(w)) == w
  {}

  lemma BigEndian32Inverse(l: Long)
    ensures |BigEndian32(l)| == 4 && FromBigEndian32(BigEndian32(l)) == l
  {
    assert BigEndian32(l)[..2] == BigEndian16(l / 0x1_0000) && BigEndian32(l)[2..] == BigEndian16(l % 0x1_0000);
    BigEndian16Inverse(l / 0x1_0000);
    BigEndian16Inverse(l % 0x1_0000);
  }

  lemma BigEndian16Again(bs: seq<Byte>)
    requires |bs| == 2
    ensures BigEndian16(FromBigEndian16(bs)) == bs
  {}

  lemma BigEndian32Again(bs: seq<Byte>)
    requires |bs| == 4
    ensures BigEndian32(FromBigEndian32(bs)) == bs
  {
    var high, low := FromBigEndian16(bs[..2]), FromBigEndian16(bs[2..]);
    assert FromBigEndian32(bs) / 0x1_0000 == high && FromBigEndian32(bs) % 0x1_0000 == low;
    assert bs == bs[..2] + bs[2..];
  }
}
