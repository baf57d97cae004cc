/**
 The two reference programs of the walk: the bench's, which packs bytes from the top and swaps,
 and the bare-metal test's, which packs two words from the bottom. Both produce the walk's
 doublewords and end address; the walk's closed form follows.
 */
module VdmaReference {
  import opened Prelude
  import opened Modular
  import opened LittleEndian
  import opened Vdma

  // ---- the bare-metal test's own translation ----

  const VBASE: Word32 := 0x4000_0000

  type PageNo = p: nat | p < 0x10_0000

  /** Its page table, one page of memory, for one region; every other address is physical. */
  function RefByte(phys: Word32 -> Byte, table: PageNo, va: Word32): Byte
  {
    if va / 0x40_0000 == VBASE / 0x40_0000 then
      phys(PageOf(Be32(RefMachine(phys, table), table * 4096 + va / 4096 % 1024 * 4)) * 4096 + va % 4096)
    else phys(va)
  }

  /** The memory with a TLB that says the same. */
  function RefMachine(phys: Word32 -> Byte, table: PageNo): (c: Machine)
    ensures c.Ok()
  {
    Machine(phys, [VBASE, VBASE, VBASE, VBASE], [64 * table, 64 * table, 64 * table, 64 * table])
  }

  lemma {:induction false} FirstEntry(c: Machine, va: Word32, e: nat, e0: nat)
    requires c.Ok() && e <= 4 && va / 0x40_0000 == VBASE / 0x40_0000 && Entry(c, VBASE, e) == Some(e0)
    ensures Entry(c, va, e) == Some(e0)
    decreases 4 - e
  {
    if VBASE / 0x40_0000 != c.hi[e] / 0x40_0000 { FirstEntry(c, va, e + 1, e0); }
  }

  /** It is the TLB's translation of an address whenever the first entry that maps the region leads
      to that table, whichever it is and whatever follows it, and no entry maps another region the
      address lies in. */
  lemma RefByteAgrees(c: Machine, table: PageNo, va: Word32, e0: nat)
    requires c.Ok() && Entry(c, VBASE, 0) == Some(e0) && PageOf(c.lo[e0]) == table
    requires va / 0x40_0000 != VBASE / 0x40_0000 ==> Entry(c, va, 0).None?
    ensures RefByte(c.phys, table, va) == Fetch(c, va)
  {
    hide Be32, PageOf, Entry, RefMachine;
    if va / 0x40_0000 == VBASE / 0x40_0000 {
      FirstEntry(c, va, 0, e0);
      SameWord(c, table, PteAddr(c, va, e0));
    }
  }

  lemma SameWord(c: Machine, table: PageNo, pa: Word32)
    requires pa % 4 == 0
    ensures Be32(c, pa) == Be32(RefMachine(c.phys, table), pa)
  {
  }

  lemma RefByteIs(phys: Word32 -> Byte, table: PageNo, va: Word32)
    ensures RefByte(phys, table, va) == Fetch(RefMachine(phys, table), va)
  {
    var c := RefMachine(phys, table);
    assert PageOf(64 * table) == table;
    assert Entry(c, VBASE, 0) == Some(0);
    if va / 0x40_0000 != VBASE / 0x40_0000 { NoEntry(phys, table, va, 0); }
    RefByteAgrees(c, table, va, 0);
  }

  lemma {:induction false} NoEntry(phys: Word32 -> Byte, table: PageNo, va: Word32, e: nat)
    requires va / 0x40_0000 != VBASE / 0x40_0000 && e <= 4
    ensures Entry(RefMachine(phys, table), va, e).None?
    decreases 4 - e
  {
    if e < 4 { NoEntry(phys, table, va, e + 1); }
  }

  // ---- the addresses a walk reads ----

  /** From the middle of a copy. */
  predicate CopyReads(s: Shape, m: Word32, b: nat, zoom: nat, lines: nat, x: Word32)
    decreases lines, zoom, 2
  {
    || Wrap32(x - m) < b
    || LineReads(s, if zoom > 0 then Wrap32(Wrap32(m + b) - s.width) else Wrap32(m + b), s.width, zoom, lines, x)
  }

  predicate LineReads(s: Shape, m: Word32, b: nat, zoom: nat, lines: nat, x: Word32)
    decreases lines, zoom, 1
  {
    if zoom == 0 then WalkReads(s, Wrap32(m + s.stride), b, s.zoom, lines, x)
    else CopyReads(s, m, b, zoom - 1, lines, x)
  }

  predicate WalkReads(s: Shape, m: Word32, b: nat, zoom: nat, lines: nat, x: Word32)
    decreases lines, 0, 0
  {
    lines > 0 && LineReads(s, m, b, zoom, lines - 1, x)
  }

  predicate JobReads(j: Job, x: Word32)
  {
    WalkReads(j.Consts(), j.memadr, j.FirstBytes(), j.FirstZoom(), j.Lines(), x)
  }

  /** The address i bytes on is i bytes on. */
  lemma BytesOn(m: Word32, i: nat)
    requires i < TWO32
    ensures Wrap32(Wrap32(m + i) - m) == i
  {
  }

  /** An address of the rest of a copy is one of the copy. */
  lemma RestOfCopy(m: Word32, len: nat, n: nat, x: Word32)
    requires len <= n && len <= 8 && Wrap32(x - Wrap32(m + len)) < n - len
    ensures Wrap32(x - m) < n
  {
    var d := Wrap32(x - Wrap32(m + len));
    assert Wrap32(x - m) == Wrap32(d + len);
  }

  lemma SamePack(c: Machine, c': Machine, m: Word32, len: nat)
    requires c.Ok() && c'.Ok() && len <= 8 && forall x: Word32 :: Wrap32(x - m) < len ==> Fetch(c, x) == Fetch(c', x)
    ensures Pack(c, m, len) == Pack(c', m, len)
  {
    hide Fetch, Wrap32;
    forall i | 0 <= i < 8
      ensures Lane(c, m, len, i) == Lane(c', m, len, i)
    {
      BytesOn(m, i);
    }
  }

  lemma {:induction false} SameCopy(c: Machine, c': Machine, m: Word32, n: nat)
    requires c.Ok() && c'.Ok() && forall x: Word32 :: Wrap32(x - m) < n ==> Fetch(c, x) == Fetch(c', x)
    ensures Copy(c, m, n) == Copy(c', m, n)
    decreases n
  {
    hide Fetch, Wrap32, Pack;
    if n > 0 {
      var len := if n < 8 then n else 8;
      var next := Wrap32(m + len);
      SamePack(c, c', m, len);
      forall x: Word32 | Wrap32(x - next) < n - len
        ensures Fetch(c, x) == Fetch(c', x)
      {
        RestOfCopy(m, len, n, x);
      }
      SameCopy(c, c', next, n - len);
    }
  }

  lemma CopyThen(c: Machine, s: Shape, m: Word32, b: nat, zoom: nat, lines: nat, next: Word32)
    requires c.Ok() && zoom > 0 && next == if zoom > 1 then Wrap32(Wrap32(m + b) - s.width) else Wrap32(m + b)
    ensures LineRest(c, s, m, b, zoom, lines) == LineRest(c, s, next, s.width, zoom - 1, lines).After(Copy(c, m, b))
  {
    hide Copy;
    LineStep(c, s, m, b, zoom, lines);
    assert CopyRest(c, s, m, b, zoom - 1, lines)
        == AfterCopy(c, s, Wrap32(m + b), zoom - 1, lines).After(Copy(c, m, b));
  }

  lemma {:induction false} SameLine(c: Machine, c': Machine, s: Shape, m: Word32, b: nat, zoom: nat, lines: nat)
    requires c.Ok() && c'.Ok()
    requires forall x :: LineReads(s, m, b, zoom, lines, x) ==> Fetch(c, x) == Fetch(c', x)
    ensures LineRest(c, s, m, b, zoom, lines) == LineRest(c', s, m, b, zoom, lines)
    decreases lines, zoom
  {
    hide Fetch, Copy;
    if zoom == 0 {
      var next := Wrap32(m + s.stride);
      if lines > 0 {
        assert forall x :: LineReads(s, next, b, s.zoom, lines - 1, x) ==> LineReads(s, m, b, zoom, lines, x);
        SameLine(c, c', s, next, b, s.zoom, lines - 1);
      }
    } else {
      assert forall x: Word32 :: Wrap32(x - m) < b ==> LineReads(s, m, b, zoom, lines, x);
      SameCopy(c, c', m, b);
      var next := if zoom > 1 then Wrap32(Wrap32(m + b) - s.width) else Wrap32(m + b);
      assert forall x :: LineReads(s, next, s.width, zoom - 1, lines, x) ==> LineReads(s, m, b, zoom, lines, x);
      SameLine(c, c', s, next, s.width, zoom - 1, lines);
      CopyThen(c, s, m, b, zoom, lines, next);
      CopyThen(c', s, m, b, zoom, lines, next);
    }
  }

  /** Two machines whose translated bytes agree on what a job reads transfer the same. */
  lemma SameTransfer(c: Machine, c': Machine, j: Job)
    requires c.Ok() && c'.Ok() && forall x :: JobReads(j, x) ==> Fetch(c, x) == Fetch(c', x)
    ensures Transfer(c, j) == Transfer(c', j)
  {
    hide LineReads, LineRest, Fetch;
    if j.Lines() > 0 { SameLine(c, c', j.Consts(), j.memadr, j.FirstBytes(), j.FirstZoom(), j.Lines() - 1); }
  }

  /** So the bare-metal reference expects what the hardware's TLB makes of the job, whenever the
      first entry for the test's region leads to its table and nothing the job reads outside the
      region is mapped. */
  lemma ReferenceMeetsTlb(c: Machine, table: PageNo, j: Job, e0: nat)
    requires c.Ok() && Entry(c, VBASE, 0) == Some(e0) && PageOf(c.lo[e0]) == table
    requires forall x: Word32 :: JobReads(j, x) && x / 0x40_0000 != VBASE / 0x40_0000 ==> Entry(c, x, 0).None?
    ensures Transfer(RefMachine(c.phys, table), j) == Transfer(c, j)
  {
    hide Entry, Fetch, RefByte, RefMachine, JobReads, Transfer, PageOf;
    var r := RefMachine(c.phys, table);
    forall x | JobReads(j, x)
      ensures Fetch(r, x) == Fetch(c, x)
    {
      RefByteAgrees(c, table, x, e0);
      RefByteIs(c.phys, table, x);
    }
    SameTransfer(r, c, j);
  }

  /** The TLB the test programs: entry 1 for its region, the others from 0x7f000000 on. */
  function TestMachine(phys: Word32 -> Byte, table: PageNo): (c: Machine)
    ensures c.Ok()
  {
    Machine(phys, [0x7f00_0000, VBASE, 0x7f80_0000, 0x7fc0_0000], [0, 64 * table, 0, 0])
  }

  /** It meets that for every job that stays below those regions. */
  lemma TestTlbServes(phys: Word32 -> Byte, table: PageNo, j: Job)
    requires forall x :: JobReads(j, x) ==> x < 0x7f00_0000
    ensures Entry(TestMachine(phys, table), VBASE, 0) == Some(1)
    ensures Transfer(RefMachine(phys, table), j) == Transfer(TestMachine(phys, table), j)
  {
    hide Transfer, JobReads, Be32;
    var c := TestMachine(phys, table);
    assert Entry(c, VBASE, 0) == Entry(c, VBASE, 1) == Some(1);
    assert PageOf(64 * table) == table;
    forall x: Word32 | JobReads(j, x) && x / 0x40_0000 != VBASE / 0x40_0000
      ensures Entry(c, x, 0).None?
    {
      assert Entry(c, x, 4).None?;
      assert Entry(c, x, 2) == Entry(c, x, 3) == Entry(c, x, 4);
      assert Entry(c, x, 0) == Entry(c, x, 1) == Entry(c, x, 2);
    }
    ReferenceMeetsTlb(c, table, j, 1);
  }

  // ---- one doubleword ----

  /** The bench's packing: byte i at bits 63-8i .. 56-8i, then a byte swap. */
  method PackSwapped(c: Machine, m: Word32, len: nat) returns (d: nat, m': Word32)
    requires c.Ok() && 1 <= len <= 8
    ensures d == Value(Pack(c, m, len)) && m' == Wrap32(m + len)
  {
    hide Value, Fetch, Pow256, Bswap64;
    d, m' := 0, m;
    ghost var lanes: Lanes := CLEAR;
    ClearValue(Reversed(lanes));
    var i := 0;
    while i < len
      invariant 0 <= i <= len && m' == Wrap32(m + i)
      invariant d == Value(Reversed(lanes))
      invariant forall k :: 0 <= k < 8 ==> lanes[k] == Lane(c, m, i, k)
    {
      var b := Fetch(c, m');
      ghost var r := Reversed(lanes);
      SetLane(r, 7 - i, b);
      lanes := lanes[i := b];
      assert Reversed(lanes) == r[7 - i := b];
      d := d + b * Pow256(7 - i);
      WrapNext(m + i, 1);
      m' := Wrap32(m' + 1);
      i := i + 1;
    }
    assert lanes == Pack(c, m, len);
    SwapValue(lanes);
    d := Bswap64(d);
  }

  lemma SwapValue(l: Lanes)
    ensures Bswap64(Value(Reversed(l))) == Value(l)
  {
    BytesOfValue(Reversed(l));
    assert Reversed(Reversed(l)) == l;
  }

  lemma SetWords(l: Lanes, i: nat, b: Byte)
    requires i < 8 && l[i] == 0
    ensures Words(l[i := b]) == if i < 4 then (Words(l).0, Words(l).1 + b * Pow256(i))
            else (Words(l).0 + b * Pow256(i - 4), Words(l).1)
  {
    hide Value, Pow256;
    var l' := l[i := b];
    if i < 4 {
      SetLane(l[..4], i, b);
      assert l'[..4] == l[..4][i := b] && l'[4..] == l[4..];
    } else {
      SetLane(l[4..], i - 4, b);
      assert l'[4..] == l[4..][i - 4 := b] && l'[..4] == l[..4];
    }
  }

  /** The bare-metal test's packing: bytes 0..3 into the low word, 4..7 into the high word. */
  method PackWords(phys: Word32 -> Byte, table: PageNo, m: Word32, len: nat) returns (hi: nat, lo: nat, m': Word32)
    requires 1 <= len <= 8
    ensures (hi, lo) == Words(Pack(RefMachine(phys, table), m, len)) && m' == Wrap32(m + len)
  {
    hide Value, Fetch, Pow256, RefByte, RefMachine;
    ghost var c := RefMachine(phys, table);
    hi, lo, m' := 0, 0, m;
    ghost var lanes: Lanes := CLEAR;
    ClearValue(lanes[4..]);
    ClearValue(lanes[..4]);
    var i := 0;
    while i < len
      invariant 0 <= i <= len && m' == Wrap32(m + i)
      invariant (hi, lo) == Words(lanes)
      invariant forall k :: 0 <= k < 8 ==> lanes[k] == Lane(c, m, i, k)
    {
      RefByteIs(phys, table, m');
      var b := RefByte(phys, table, m');
      SetWords(lanes, i, b);
      if i < 4 { lo := lo + b * Pow256(i); } else { hi := hi + b * Pow256(i - 4); }
      lanes := lanes[i := b];
      WrapNext(m + i, 1);
      m' := Wrap32(m' + 1);
      i := i + 1;
    }
    assert lanes == Pack(c, m, len);
  }

  /** The two packings name the same 64 bits. */
  lemma WordsAreValue(l: Lanes)
    ensures Value(l) == Words(l).0 * 0x1_0000_0000 + Words(l).1
  {
    assert l == l[..4] + l[4..];
    ValueConcat(l[..4], l[4..]);
    assert Pow256(4) == 0x1_0000_0000;
  }

  // ---- the loops ----

  /** The bench's reference. */
  method PerformSwapped(c: Machine, j: Job) returns (out: seq<nat>, end: Word32)
    requires c.Ok()
    ensures out == Values(Transfer(c, j).out) && end == Transfer(c, j).end
  {
    hide Copy, Pack, Value, CopyRest, AfterCopy, LineRest, WalkRest;
    var s := j.Consts();
    var m: Word32 := j.memadr;
    var lines, zoom, bytes := j.Lines(), j.FirstZoom(), j.FirstBytes();
    out := [];
    ghost var sent: seq<Lanes> := [];
    ghost var whole := Transfer(c, j);
    while lines > 0
      invariant whole == WalkRest(c, s, m, bytes, zoom, lines).After(sent) && out == Values(sent)
      decreases lines
    {
      WalkStep(c, s, m, bytes, zoom, lines);
      lines := lines - 1;
      while zoom > 0
        invariant whole == LineRest(c, s, m, bytes, zoom, lines).After(sent) && out == Values(sent)
        decreases zoom
      {
        LineStep(c, s, m, bytes, zoom, lines);
        zoom := zoom - 1;
        while bytes > 0
          invariant whole == CopyRest(c, s, m, bytes, zoom, lines).After(sent) && out == Values(sent)
          decreases bytes
        {
          var len := if bytes < 8 then bytes else 8;
          CopyStep(c, s, m, bytes, zoom, lines, sent);
          sent := sent + [Pack(c, m, len)];
          var d;
          d, m := PackSwapped(c, m, len);
          out := out + [d];
          bytes := bytes - len;
        }
        CopyEnd(c, s, m, zoom, lines);
        bytes := s.width;
        if zoom > 0 { m := Wrap32(m - s.width); }
      }
      LineEnd(c, s, m, bytes, lines);
      zoom := s.zoom;
      m := Wrap32(m + s.stride);
    }
    WalkEnd(c, s, m, bytes, zoom);
    end := m;
  }

  /** The bare-metal test's reference: the same loops, the other packing, its own translation. */
  method PerformWords(phys: Word32 -> Byte, table: PageNo, j: Job) returns (out: seq<(nat, nat)>, end: Word32)
    ensures var t := Transfer(RefMachine(phys, table), j); out == AllWords(t.out) && end == t.end
  {
    ghost var c := RefMachine(phys, table);
    hide Copy, Pack, Value, Words, CopyRest, AfterCopy, LineRest, WalkRest;
    var s := j.Consts();
    var m: Word32 := j.memadr;
    var lines, zoom, bytes := j.Lines(), j.FirstZoom(), j.FirstBytes();
    out := [];
    ghost var sent: seq<Lanes> := [];
    ghost var whole := Transfer(c, j);
    while lines > 0
      invariant whole == WalkRest(c, s, m, bytes, zoom, lines).After(sent) && out == AllWords(sent)
      decreases lines
    {
      WalkStep(c, s, m, bytes, zoom, lines);
      lines := lines - 1;
      while zoom > 0
        invariant whole == LineRest(c, s, m, bytes, zoom, lines).After(sent) && out == AllWords(sent)
        decreases zoom
      {
        LineStep(c, s, m, bytes, zoom, lines);
        zoom := zoom - 1;
        while bytes > 0
          invariant whole == CopyRest(c, s, m, bytes, zoom, lines).After(sent) && out == AllWords(sent)
          decreases bytes
        {
          var len := if bytes < 8 then bytes else 8;
          CopyStep(c, s, m, bytes, zoom, lines, sent);
          sent := sent + [Pack(c, m, len)];
          var hi, lo;
          hi, lo, m := PackWords(phys, table, m, len);
          out := out + [(hi, lo)];
          bytes := bytes - len;
        }
        CopyEnd(c, s, m, zoom, lines);
        bytes := s.width;
        if zoom > 0 { m := Wrap32(m - s.width); }
      }
      LineEnd(c, s, m, bytes, lines);
      zoom := s.zoom;
      m := Wrap32(m + s.stride);
    }
    WalkEnd(c, s, m, bytes, zoom);
    end := m;
  }
}
