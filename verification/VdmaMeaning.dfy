/**
 The VDMA registers and tables bit by bit: what a transfer is for the numbers put into the register
 fields, and what an address translates to for the numbers put into the TLB and the page table.
 */
module VdmaMeaning {
  import opened Prelude
  import opened Modular
  import opened Vdma
  import opened VdmaClosedForm

  // ---- the registers ----

  /** The numbers in the register fields, and what is in the bits that are not used. */
  datatype Fields = Fields(memadr: Word32, lines: nat, width: nat, lineZoom: nat, step: int, firstZoom: nat,
                           firstBytes: nat, unused0: nat, unused1: nat)
  {
    predicate Fit()
    {
      && lines < 0x1_0000 && width < 0x1_0000 && firstBytes < 0x1_0000 && lineZoom < 0x400 && firstZoom < 0x400
      && -0x8000 <= step < 0x8000 && unused0 < 0x40 && unused1 < 0x40
    }

    /** Lines above the width; zoom above the step, a two's complement; zoom above the count. */
    function Registers(): Job
      requires Fit()
    {
      Job(memadr, 0x1_0000 * lines + width,
          0x400_0000 * unused0 + 0x1_0000 * lineZoom + (if step < 0 then 0x1_0000 + step else step),
          0x400_0000 * unused1 + 0x1_0000 * firstZoom + firstBytes)
    }
  }

  lemma FieldsRead(f: Fields)
    requires f.Fit()
    ensures var j := f.Registers();
            && j.memadr == f.memadr && j.Lines() == f.lines && j.Width() == f.width && j.LineZoom() == f.lineZoom
            && j.Stride() == f.step && j.FirstZoom() == f.firstZoom && j.FirstBytes() == f.firstBytes
  {
    var low := if f.step < 0 then 0x1_0000 + f.step else f.step;
    ModUnique(0x1_0000 * f.lines + f.width, f.lines, f.width, 0x1_0000);
    TwoFields(f.unused0, f.lineZoom, low);
    TwoFields(f.unused1, f.firstZoom, f.firstBytes);
  }

  lemma TwoFields(unused: nat, high: nat, low: nat)
    requires high < 0x400 && low < 0x1_0000
    ensures var w := 0x400_0000 * unused + 0x1_0000 * high + low;
            w % 0x1_0000 == low && w / 0x1_0000 % 0x400 == high
  {
    var w := 0x400_0000 * unused + 0x1_0000 * high + low;
    ModUnique(w, 0x400 * unused + high, low, 0x1_0000);
    ModUnique(0x400 * unused + high, unused, high, 0x400);
  }

  /** The transfer of the registers so filled: how many doublewords it sends and where its address
      register ends, whatever is in the unused bits. */
  lemma TransferOfFields(c: Machine, f: Fields)
    requires c.Ok() && f.Fit()
    ensures var t := Transfer(c, f.Registers());
            var copies := if f.lines > 0 then f.firstZoom + (f.lines - 1) * f.lineZoom else 0;
            var entered := (if f.lines > 0 && f.firstZoom > 0 then 1 else 0)
                           + (if f.lines > 1 && f.lineZoom > 0 then f.lines - 1 else 0);
            && |t.out| == (if copies > 0 then (f.firstBytes + 7) / 8 + (copies - 1) * ((f.width + 7) / 8) else 0)
            && t.end == Wrap32(f.memadr + f.lines * f.step
                               + if entered > 0 then f.firstBytes + (entered - 1) * f.width else 0)
  {
    hide Transfer;
    FieldsRead(f);
    TransferCount(c, f.Registers());
    TransferClosed(c, f.Registers());
  }

  // ---- the tables ----

  /** A page number in its field of a word, between what is in the bits above and below. */
  function PageWord(above: nat, page: nat, below: nat): nat { 0x400_0000 * above + 64 * page + below }

  ghost predicate HasPage(w: Word32, page: nat)
  {
    page < 0x10_0000 && exists above: nat, below: nat :: below < 64 && w == PageWord(above, page, below)
  }

  lemma PageRead(w: Word32, page: nat)
    requires HasPage(w, page)
    ensures PageOf(w) == page
  {
    var above, below :| below < 64 && w == PageWord(above, page, below);
    PageOfWord(above, page, below);
  }

  lemma PageOfWord(above: nat, page: nat, below: nat)
    requires page < 0x10_0000 && below < 64
    ensures PageWord(above, page, below) / 64 % 0x10_0000 == page
  {
    var q := 0x10_0000 * above + page;
    assert PageWord(above, page, below) == q * 64 + below;
    ModUnique(PageWord(above, page, below), q, below, 64);
    ModUnique(q, above, page, 0x10_0000);
  }

  lemma {:induction false} FirstMatch(c: Machine, va: Word32, e: nat, from: nat)
    requires c.Ok() && from <= e < 4 && va / 0x40_0000 == c.hi[e] / 0x40_0000
    requires forall i :: from <= i < e ==> va / 0x40_0000 != c.hi[i] / 0x40_0000
    ensures Entry(c, va, from) == Some(e)
    decreases e - from
  {
    if from < e { FirstMatch(c, va, e, from + 1); }
  }

  /** A byte through a TLB entry: the first whose region holds the address names a table; the word
      there, most significant byte first, that the address's bits 21..12 pick names the page. */
  lemma ByteThroughTable(c: Machine, va: Word32, e: nat, table: nat, page: nat)
    requires c.Ok() && e < 4 && va / 0x40_0000 == c.hi[e] / 0x40_0000
    requires forall i :: 0 <= i < e ==> va / 0x40_0000 != c.hi[i] / 0x40_0000
    requires HasPage(c.lo[e], table)
    requires var at := 4096 * table + 4 * (va / 4096 % 1024);
             var word := 0x100_0000 * c.phys(at) + 0x1_0000 * c.phys(at + 1) + 0x100 * c.phys(at + 2) + c.phys(at + 3);
             HasPage(word, page)
    ensures Fetch(c, va) == c.phys(4096 * page + va % 4096)
  {
    hide HasPage, PageOf, Entry;
    FirstMatch(c, va, e, 0);
    PageRead(c.lo[e], table);
    PageRead(Be32(c, PteAddr(c, va, e)), page);
  }

  /** A byte in no entry's region is at its own address. */
  lemma ByteUnmapped(c: Machine, va: Word32)
    requires c.Ok() && forall i :: 0 <= i < 4 ==> va / 0x40_0000 != c.hi[i] / 0x40_0000
    ensures Fetch(c, va) == c.phys(va)
  {
  }
}
