/** The byte stream that every part of a PEL is read from and written to. */
module PelStream {
  import opened Wrappers
  import opened Bytes

  /** data with bs put at an offset, longer if need be. */
  function Overwritten(data: seq<Byte>, offset: nat, bs: seq<Byte>): seq<Byte>
    requires offset <= |data|
  {
    data[..offset] + bs + (if offset + |bs| <= |data| then data[offset + |bs|..] else [])
  }

  lemma OverwrittenTwice(data: seq<Byte>, offset: nat, a: seq<Byte>, b: seq<Byte>)
    requires offset <= |data|
    ensures offset + |a| <= |Overwritten(data, offset, a)|
    ensures Overwritten(Overwritten(data, offset, a), offset + |a|, b) == Overwritten(data, offset, a + b)
  {
    var once := Overwritten(data, offset, a);
    assert once[..offset + |a|] == data[..offset] + a;
    assert Overwritten(once, offset + |a|, b)[..offset + |a| + |b|] == (data[..offset] + a) + b;
    var end := offset + |a| + |b|;
    if end <= |data| {
      assert once[end..] == data[end..];
    } else {
      assert end >= |once|;
    }
  }

  lemma OverwrittenNothing(data: seq<Byte>, offset: nat)
    requires offset <= |data|
    ensures Overwritten(data, offset, []) == data
  {}

  /** A read that gives value r and leaves the bytes remaining, as a parser says. */
  ghost predicate Matches<T>(parsed: Result<Read<T>>, r: Result<T>, remaining: seq<Byte>) {
    match parsed
    case Thrown => r.Thrown?
    case Ok(Read(value, rest)) => r == Ok(value) && remaining == rest
  }

  class Stream {
    var data: seq<Byte>
    var offset: nat

    ghost predicate Valid()
      reads this
    {
      offset <= |data|
    }

    function Remaining(): seq<Byte>
      requires Valid()
      reads this
    {
      data[offset..]
    }

    constructor (bytes: seq<Byte>)
      ensures Valid() && data == bytes && offset == 0
    {
      data := bytes;
      offset := 0;
    }

    /** rangeCheck, then the copy */
    method ReadBytes(size: nat) returns (r: Result<seq<Byte>>)
      requires Valid()
      modifies `offset
      ensures Valid() && Matches(Take(old(Remaining()), size), r, Remaining())
      ensures r.Thrown? ==> offset == old(offset)
    {
      if offset + size > |data| { return Thrown; }
      assert Remaining()[..size] == data[offset..offset + size] && Remaining()[size..] == data[offset + size..];
      r := Ok(data[offset..offset + size]);
      offset := offset + size;
    }

    method ReadByte() returns (r: Result<Byte>)
      requires Valid()
      modifies `offset
      ensures Valid()
      ensures var bs := old(Remaining());
        if |bs| < 1 then r.Thrown? else r == Ok(bs[0]) && Remaining() == bs[1..]
    {
      var bs := ReadBytes(1);
      if bs.Thrown? { return Thrown; }
      r := Ok(bs.value[0]);
    }

    method ReadWord() returns (r: Result<Word>)
      requires Valid()
      modifies `offset
      ensures Valid()
      ensures var bs := old(Remaining());
        if |bs| < 2 then r.Thrown? else r == Ok(FromBigEndian16(bs[..2])) && Remaining() == bs[2..]
    {
      var bs := ReadBytes(2);
      if bs.Thrown? { return Thrown; }
      r := Ok(FromBigEndian16(bs.value));
    }

    method ReadLong() returns (r: Result<Long>)
      requires Valid()
      modifies `offset
      ensures Valid()
      ensures var bs := old(Remaining());
        if |bs| < 4 then r.Thrown? else r == Ok(FromBigEndian32(bs[..4])) && Remaining() == bs[4..]
    {
      var bs := ReadBytes(4);
      if bs.Thrown? { return Thrown; }
      r := Ok(FromBigEndian32(bs.value));
    }

    /** offset(newOffset) */
    method Seek(newOffset: nat) returns (r: Result<()>)
      requires Valid()
      modifies `offset
      ensures Valid()
      ensures if newOffset < |data| then r.Ok? && offset == newOffset else r.Thrown? && offset == old(offset)
    {
      if newOffset >= |data| { return Thrown; }
      offset := newOffset;
      r := Ok(());
    }

    method Write(bs: seq<Byte>)
      requires Valid()
      modifies this
      ensures Valid() && offset == old(offset) + |bs|
      ensures data == Overwritten(old(data), old(offset), bs)
    {
      if offset + |bs| > |data| {
        data := data + seq(offset + |bs| - |data|, _ => 0);
      }
      data := data[..offset] + bs + data[offset + |bs|..];
      offset := offset + |bs|;
    }
  }
}
