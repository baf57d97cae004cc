/**
 The sixteen bytes of a ring record, and the ARM's reading of them.
 */
module GioRecord {
  import opened Prelude
  import opened LittleEndian
  import opened GioWindow

  /** Type, mask, space bit and doubleword offset in one word. */
  function Word0(r: Rec): (w: nat)
  {
    r.kind * 0x4000_0000 + r.mask * 0x40_0000 + (if r.space then 0x20_0000 else 0) + r.dwoff
  }

  function Encode(r: Rec): (b: seq<Byte>)
    ensures |b| == 16
  {
    BytesOf(Word0(r), 4) + BytesOf(r.recno, 4) + BytesOf(r.lanes, 8)
  }

  /** The consumer's shifts and masks. */
  function Decode(b: seq<Byte>): Rec
    requires |b| == 16
  {
    var w0 := Value(b[..4]);
    ValueBound(b[..4]);
    ValueBound(b[4..8]);
    ValueBound(b[8..16]);
    Weights();
    Rec(w0 / 0x4000_0000 % 4, w0 / 0x40_0000 % 0x100, w0 / 0x20_0000 % 2 == 1, w0 % 0x20_0000, Value(b[4..8]),
      Value(b[8..16]))
  }

  /** Every record the window makes has an offset that fits its 21 bits. */
  lemma OffsetsFit(c: Cpu, d: Dword, begin: bool, no: Word32)
    ensures CpuRec(c, no).dwoff < 0x20_0000 && DmaRec(d, no).dwoff < 0x20_0000 && Marker(begin, no).dwoff < 0x20_0000
  {
  }

  /** The fields of the first word come apart again. */
  lemma Fields(r: Rec)
    requires r.dwoff < 0x20_0000
    ensures var w := Word0(r);
            && w < TWO32 && w / 0x4000_0000 % 4 == r.kind && w / 0x40_0000 % 0x100 == r.mask
            && (w / 0x20_0000 % 2 == 1 <==> r.space) && w % 0x20_0000 == r.dwoff
  {
    var w, s := Word0(r), if r.space then 1 else 0;
    assert w / 0x20_0000 == r.kind * 512 + r.mask * 2 + s;
    assert w / 0x40_0000 == r.kind * 256 + r.mask;
  }

  /** The ARM reads back exactly the record that was written. */
  lemma RecordRoundTrip(r: Rec)
    requires r.dwoff < 0x20_0000
    ensures Decode(Encode(r)) == r
  {
    hide BytesOf, Value, Word0;
    Fields(r);
    Weights();
    var b := Encode(r);
    assert b[..4] == BytesOf(Word0(r), 4) && b[4..8] == BytesOf(r.recno, 4) && b[8..16] == BytesOf(r.lanes, 8);
    ValueOfBytes(Word0(r), 4);
    ValueOfBytes(r.recno, 4);
    ValueOfBytes(r.lanes, 8);
  }
}
