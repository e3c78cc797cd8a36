/** Runs of fixed-width fields, as the stream operators read and write them one
    after the other. */
module PelFields {
  import opened Wrappers
  import opened Bytes

  datatype Kind = U8 | U16 | U32 | Raw(n: nat)

  datatype Field = F8(b: Byte) | F16(w: Word) | F32(l: Long) | FRaw(bytes: seq<Byte>)

  function KindOf(f: Field): Kind {
    match f
    case F8(_) => U8
    case F16(_) => U16
    case F32(_) => U32
    case FRaw(bytes) => Raw(|bytes|)
  }

  function Width(k: Kind): nat {
    match k
    case U8 => 1
    case U16 => 2
    case U32 => 4
    case Raw(n) => n
  }

  function Widths(ks: seq<Kind>): nat {
    if ks == [] then 0 else Width(ks[0]) + Widths(ks[1..])
  }

  predicate OfKinds(fs: seq<Field>, ks: seq<Kind>) {
    |fs| == |ks| && forall i | 0 <= i < |fs| :: KindOf(fs[i]) == ks[i]
  }

  function PrintField(f: Field): seq<Byte> {
    match f
    case F8(b) => [b]
    case F16(w) => BigEndian16(w)
    case F32(l) => BigEndian32(l)
    case FRaw(bytes) => bytes
  }

  function FieldOf(bs: seq<Byte>, k: Kind): Field
    requires |bs| == Width(k)
  {
    match k
    case U8 => F8(bs[0])
    case U16 => F16(FromBigEndian16(bs))
    case U32 => F32(FromBigEndian32(bs))
    case Raw(_) => FRaw(bs)
  }

  function PrintFields(fs: seq<Field>): seq<Byte> {
    if fs == [] then [] else PrintField(fs[0]) + PrintFields(fs[1..])
  }

  function ParseFields(bs: seq<Byte>, ks: seq<Kind>): (r: Result<Read<seq<Field>>>)
    ensures r.Ok? ==> OfKinds(r.value.value, ks)
    decreases ks
  {
    if ks == [] then Ok(Read([], bs))
    else
      var w := Width(ks[0]);
      if |bs| < w then Thrown
      else After([FieldOf(bs[..w], ks[0])], ParseFields(bs[w..], ks[1..]))
  }

  lemma FieldInverse(f: Field)
    ensures |PrintField(f)| == Width(KindOf(f))
    ensures FieldOf(PrintField(f), KindOf(f)) == f
  {
    match f
    case F16(w) => BigEndian16Inverse(w);
    case F32(l) => BigEndian32Inverse(l);
    case _ =>
  }

  lemma BytesInverse(bs: seq<Byte>, k: Kind)
    requires |bs| == Width(k)
    ensures PrintField(FieldOf(bs, k)) == bs && KindOf(FieldOf(bs, k)) == k
  {
    if k == U32 { BigEndian32Again(bs); }
  }

  lemma Assoc(a: seq<Byte>, b: seq<Byte>, c: seq<Byte>)
    ensures (a + b) + c == a + (b + c)
  {}

  lemma FrontAndBack(a: seq<Byte>, b: seq<Byte>)
    ensures (a + b)[..|a|] == a && (a + b)[|a|..] == b
  {}

  lemma ParsesFirst(first: seq<Byte>, ks: seq<Kind>, behind: seq<Byte>)
    requires ks != [] && |first| == Width(ks[0])
    ensures ParseFields(first + behind, ks) == After([FieldOf(first, ks[0])], ParseFields(behind, ks[1..]))
  {
    hide FieldOf, Width;
    FrontAndBack(first, behind);
  }

  lemma NoFields(tail: seq<Byte>)
    ensures PrintFields([]) == [] && Widths([]) == 0 && ParseFields([] + tail, []) == Ok(Read([], tail))
  {
    assert [] + tail == tail;
  }

  lemma PrintsFirst(fs: seq<Field>, ks: seq<Kind>, tail: seq<Byte>)
    requires OfKinds(fs, ks) && fs != []
    ensures OfKinds(fs[1..], ks[1..]) && KindOf(fs[0]) == ks[0]
    ensures PrintFields(fs) + tail == PrintField(fs[0]) + (PrintFields(fs[1..]) + tail)
    ensures Widths(ks) == Width(ks[0]) + Widths(ks[1..])
  {
    hide PrintField, Width, KindOf;
    Assoc(PrintField(fs[0]), PrintFields(fs[1..]), tail);
  }

  /** Reading undoes writing. */
  lemma {:induction false} FieldsRoundTrip(fs: seq<Field>, ks: seq<Kind>, tail: seq<Byte>)
    requires OfKinds(fs, ks)
    ensures ParseFields(PrintFields(fs) + tail, ks) == Ok(Read(fs, tail))
    ensures |PrintFields(fs)| == Widths(ks)
  {
    hide PrintField, FieldOf, ParseFields, PrintFields, Width, Widths;
    if fs == [] {
      NoFields(tail);
    } else {
      FieldInverse(fs[0]);
      PrintsFirst(fs, ks, tail);
      PrintsFirst(fs, ks, []);
      FieldsRoundTrip(fs[1..], ks[1..], tail);
      ParsesFirst(PrintField(fs[0]), ks, PrintFields(fs[1..]) + tail);
      assert fs == [fs[0]] + fs[1..];
      assert PrintFields(fs) + [] == PrintFields(fs) && PrintFields(fs[1..]) + [] == PrintFields(fs[1..]);
    }
  }

  lemma PrintBehind(first: seq<Byte>, k: Kind, r: Read<seq<Field>>)
    requires |first| == Width(k) && PrintField(FieldOf(first, k)) == first
    ensures PrintFields([FieldOf(first, k)] + r.value) + r.rest == first + (PrintFields(r.value) + r.rest)
  {
    hide PrintField, FieldOf;
    assert ([FieldOf(first, k)] + r.value)[1..] == r.value;
    Assoc(first, PrintFields(r.value), r.rest);
  }

  /** Writing undoes reading. */
  lemma {:induction false} BytesRoundTrip(bs: seq<Byte>, ks: seq<Kind>)
    requires ParseFields(bs, ks).Ok?
    ensures var r := ParseFields(bs, ks).value; PrintFields(r.value) + r.rest == bs
    decreases ks
  {
    hide PrintField, FieldOf;
    if ks != [] {
      var w := Width(ks[0]);
      var first, more := bs[..w], bs[w..];
      assert bs == first + more;
      BytesInverse(first, ks[0]);
      BytesRoundTrip(more, ks[1..]);
      PrintBehind(first, ks[0], ParseFields(more, ks[1..]).value);
    }
  }
}
