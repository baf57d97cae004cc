/**
 What a record says of the access or the doubleword it was made from, byte by byte: the half of the
 16-byte line with byte enables, where it lies in the window, and its bytes.
 */
module GioMeaning {
  import opened Prelude
  import opened LittleEndian
  import opened Modular
  import opened GioWindow

  /** The sixteen bytes on the wires of an access, and its sixteen byte enables as two octets. */
  function Bytes16(a: Cpu): (b: seq<Byte>)
    ensures |b| == 16
  {
    BytesOf(a.dataLo, 8) + BytesOf(a.dataHi, 8)
  }

  /** The enabled half of the line: the upper one if it has an enable, else the lower one. */
  function Half(a: Cpu): nat { if a.maskHi > 0 then 1 else 0 }

  /** The byte address, within the 8 KB window, of the doubleword a record names. */
  function Place(r: Rec): nat { 8 * r.dwoff }

  /** Record number no of an access: a store (kind 0) with the enabled half's bytes, or a read (kind 1)
      without data. */
  predicate Tells(r: Rec, a: Cpu, no: nat)
  {
    && r.recno == no % TWO32 && r.space == a.space
    && r.kind == (if a.isStore then 0 else 1)
    && r.mask == (if Half(a) == 1 then a.maskHi else a.maskLo)
    && Place(r) == a.addr % 8192 - a.addr % 16 + 8 * Half(a)
    && (if a.isStore then forall i :: 0 <= i < 8 ==> BytesOf(r.lanes, 8)[i] == Bytes16(a)[8 * Half(a) + i]
        else r.lanes == 0)
  }

  /** Record number no of a VDMA doubleword (kind 2): all eight bytes, at its address. */
  predicate TellsDma(r: Rec, d: Dword, no: nat)
  {
    && r.recno == no % TWO32 && !r.space && r.kind == 2 && r.mask == 255
    && Place(r) == d.addr % 8192 - d.addr % 8
    && (forall i :: 0 <= i < 8 ==> BytesOf(r.lanes, 8)[i] == BytesOf(d.lanes, 8)[i])
  }

  /** The window's record of an access tells it. */
  lemma CpuRecTells(a: Cpu, no: nat)
    ensures Tells(CpuRec(a, Wrap32(no)), a, no)
  {
    hide BytesOf;
    InLine(a.addr);
    assert forall i :: 0 <= i < 8 ==> Bytes16(a)[i] == BytesOf(a.dataLo, 8)[i];
    assert forall i :: 0 <= i < 8 ==> Bytes16(a)[8 + i] == BytesOf(a.dataHi, 8)[i];
  }

  lemma DmaRecTells(d: Dword, no: nat)
    ensures TellsDma(DmaRec(d, Wrap32(no)), d, no)
  {
    hide BytesOf;
    InLine(d.addr);
  }

  lemma InLine(addr: Word32)
    ensures addr % WINDOW / 16 * 16 == addr % 8192 - addr % 16
    ensures addr % WINDOW / 8 * 8 == addr % 8192 - addr % 8
  {
    var q, r := addr / 8192, addr % 8192;
    SameLow(r, 512 * q, 16, addr);
    SameLow(r, 1024 * q, 8, addr);
  }

  lemma SameLow(r: nat, k: nat, n: nat, addr: nat)
    requires n > 0 && addr == r + k * n
    ensures r / n * n == r - addr % n
  {
    ModAddMul(r, k, n);
    DivMod(r, n);
  }

  /** Nothing else does: a record is determined by what it tells. */
  lemma TellsOne(r: Rec, r': Rec, a: Cpu, no: nat)
    requires Tells(r, a, no) && Tells(r', a, no)
    ensures r == r'
  {
    hide BytesOf;
    assert BytesOf(r.lanes, 8) == BytesOf(r'.lanes, 8) || !a.isStore;
    Weights();
    ValueOfBytes(r.lanes, 8);
    ValueOfBytes(r'.lanes, 8);
  }

  /** The records tell the accesses, numbered from 1. */
  predicate ToldBy(recs: seq<Rec>, issued: seq<Cpu>)
  {
    |recs| == |issued| && forall k :: 0 <= k < |recs| ==> Tells(recs[k], issued[k], k + 1)
  }

  /** And no others do. */
  lemma ToldOnce(recs: seq<Rec>, recs': seq<Rec>, issued: seq<Cpu>)
    requires ToldBy(recs, issued) && ToldBy(recs', issued)
    ensures recs == recs'
  {
    hide Tells;
    forall k | 0 <= k < |recs|
      ensures recs[k] == recs'[k]
    {
      TellsOne(recs[k], recs'[k], issued[k], k + 1);
    }
  }

  /** The record of a cycle tells its source: the new access, the held one, the doubleword, or a marker
      (kind 3), its mask telling BEGIN from END. */
  lemma QueuedTells(p: Pick, f: Front, i: Inputs, a: Cpu, no: nat)
    requires Offers(p, f, i) && f.built == Wrap32(no)
    requires p == PickHeld ==> f.held.value.rec == CpuRec(a, f.held.value.rec.recno)
    requires p == PickNew ==> a == i.sel.value
    ensures var e := Enqueued(p, f, i);
            match p
            case PickNew => |e| == 1 && Tells(e[0], a, no + 1)
            case PickHeld => |e| == 1 && Tells(e[0], a, no + 1)
            case PickDma => |e| == 1 && TellsDma(e[0], i.dma.value, no + 1)
            case PickBegin => e == [Rec(3, 1, false, 0, (no + 1) % TWO32, 0)]
            case PickEnd => e == [Rec(3, 0, false, 0, (no + 1) % TWO32, 0)]
            case PickNone => e == []
  {
    hide Tells, TellsDma, CpuRec, DmaRec;
    NumberAfter(f, no);
    CpuRecTells(a, no + 1);
    if p == PickDma { DmaRecTells(i.dma.value, no + 1); }
    Renumbered(a, if f.held.Some? then f.held.value.rec.recno else 0, NextNo(f));
  }

  lemma NumberAfter(f: Front, no: nat)
    requires f.built == Wrap32(no)
    ensures NextNo(f) == Wrap32(no + 1) == (no + 1) % TWO32
  {
  }

  lemma Renumbered(a: Cpu, old_: Word32, no: Word32)
    ensures CpuRec(a, old_).(recno := no) == CpuRec(a, no)
  {
  }
}
