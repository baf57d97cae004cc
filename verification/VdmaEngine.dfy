/**
 The DMA engine's VDMA channel: the same walk as a clocked machine that translates once per page,
 keeps one 64-byte line, and gathers a doubleword from one or two 16-byte pieces. It is proved to
 send exactly the walk's doublewords, whatever the delays of memory and of the receiver.
 */
module VdmaEngine {
  import opened Prelude
  import opened Modular
  import opened Vdma

  datatype State = IDLE | LINE | ZOOM | GROUP | XLATE | PTE | LOAD | EMIT

  /** Walk registers, the doubleword being gathered, the kept page and the kept 64-byte line. */
  datatype Regs = Regs(st: State, mem: Word32, lines: nat, zoom: nat, bytes: nat, shape: Shape, g: Gather, page: Page,
                       line: Kept)

  datatype Gather = Gather(len: nat, gn: nat, grp: Lanes)

  datatype Page = Page(valid: bool, vpn: nat, pfn: nat)

  datatype Kept = Kept(valid: bool, tag: nat, data: seq<Byte>)

  /** A go with its job, the port's answer to this channel, and the receiver's ready. */
  datatype Inputs = Inputs(go: Option<Job>, rsp: bool, ready: bool)

  // ---- one clock ----

  function LineByte(c: Machine, t: nat, i: nat): Byte
    requires t < 0x400_0000 && i < 64
  {
    c.phys(64 * t + i)
  }

  /** The 64 bytes of memory line t. */
  function Line64(c: Machine, t: nat): (l: seq<Byte>)
    requires t < 0x400_0000
    ensures |l| == 64
  {
    seq(64, i requires 0 <= i < 64 => LineByte(c, t, i))
  }

  /** Sixteen lanes rotated up by n. */
  function RotL(d: seq<Byte>, n: nat): (r: seq<Byte>)
    requires |d| == 16 && n < 16
    ensures |r| == 16
  {
    d[16 - n..] + d[..16 - n]
  }

  function TagOf(r: Regs): nat { r.page.pfn * 64 + r.mem / 64 % 64 }

  /** Bytes one piece gives: up to the end of its 16-byte line, or what is wanted. */
  function Take(r: Regs): (n: nat)
    requires r.g.gn <= r.g.len
  {
    var room := 16 - r.mem % 16;
    if r.g.len - r.g.gn < room then r.g.len - r.g.gn else room
  }

  /** The lanes after a piece: lanes gn .. gn+take-1 from the rotated line, the others as they were. */
  function Gathered(r: Regs, line: seq<Byte>): (l: Lanes)
    requires r.g.gn <= r.g.len <= 8 && |line| == 64
  {
    var d := line[r.mem / 16 % 4 * 16..r.mem / 16 % 4 * 16 + 16];
    var rot := RotL(d, (r.g.gn + 16 - r.mem % 16) % 16);
    seq(8, i requires 0 <= i < 8 => Chosen(r, rot, i))
  }

  function Chosen(r: Regs, rot: seq<Byte>, i: nat): Byte
    requires r.g.gn <= r.g.len <= 8 && |rot| == 16 && i < 8
  {
    if r.g.gn <= i < r.g.gn + Take(r) then rot[i] else r.g.grp[i]
  }

  /** The line the piece comes from: the kept one on a hit, else memory's. */
  function Fetched(c: Machine, r: Regs): Kept
    requires r.page.pfn < 0x10_0000
  {
    if r.line.valid && r.line.tag == TagOf(r) then r.line else Kept(true, TagOf(r), Line64(c, TagOf(r)))
  }

  ghost predicate Shaped(r: Regs)
  {
    r.g.gn <= r.g.len <= 8 && r.page.pfn < 0x10_0000 && (r.line.valid ==> |r.line.data| == 64)
  }

  function Loaded(c: Machine, r: Regs): Regs
    requires Shaped(r)
  {
    var line := Fetched(c, r);
    var n := Take(r);
    var g := Gather(r.g.len, r.g.gn + n, Gathered(r, line.data));
    r.(g := g, mem := Wrap32(r.mem + n), bytes := if n <= r.bytes then r.bytes - n else 0, line := line,
       st := if g.gn == g.len then EMIT else XLATE)
  }

  function Next(c: Machine, r: Regs, i: Inputs): Regs
    requires c.Ok() && Shaped(r)
  {
    match r.st
    case IDLE =>
      (match i.go
       case None => r
       case Some(j) =>
         r.(mem := j.memadr, lines := j.Lines(), zoom := j.FirstZoom(), bytes := j.FirstBytes(), shape := j.Consts(),
            page := r.page.(valid := false), line := r.line.(valid := false), st := LINE))
    case LINE => if r.lines == 0 then r.(st := IDLE) else r.(lines := r.lines - 1, st := ZOOM)
    case ZOOM =>
      if r.zoom == 0 then r.(zoom := r.shape.zoom, mem := Wrap32(r.mem + r.shape.stride), st := LINE)
      else r.(zoom := r.zoom - 1, st := GROUP)
    case GROUP =>
      if r.bytes == 0 then
        r.(bytes := r.shape.width, mem := if r.zoom != 0 then Wrap32(r.mem - r.shape.width) else r.mem, st := ZOOM)
      else r.(g := Gather(if r.bytes < 8 then r.bytes else 8, 0, CLEAR), st := XLATE)
    case XLATE =>
      if r.page.valid && r.page.vpn == r.mem / 4096 then r.(st := LOAD)
      else if Entry(c, r.mem, 0).Some? then r.(st := PTE)
      else r.(page := Page(true, r.mem / 4096, r.mem / 4096), st := LOAD)
    case PTE =>
      if i.rsp && Entry(c, r.mem, 0).Some? then
        r.(page := Page(true, r.mem / 4096, PageOf(Be32(c, PteAddr(c, r.mem, Entry(c, r.mem, 0).value)))), st := LOAD)
      else r
    case LOAD => if i.rsp then Loaded(c, r) else r
    case EMIT => if i.ready then r.(st := GROUP) else r
  }

  /** The record taken by the receiver on this clock. */
  function Sent(r: Regs, i: Inputs): seq<Lanes>
  {
    if r.st == EMIT && i.ready then [r.g.grp] else []
  }

  /** The clocked object. */
  class Channel {
    var st: State
    var mem: Word32
    var lines: nat
    var zoom: nat
    var bytes: nat
    var shape: Shape
    var g: Gather
    var page: Page
    var line: Kept

    function Value(): Regs
      reads this
    {
      Regs(st, mem, lines, zoom, bytes, shape, g, page, line)
    }

    constructor ()
      ensures Value() == Regs(IDLE, 0, 0, 0, 0, Shape(0, 0, 0), Gather(0, 0, CLEAR), Page(false, 0, 0),
              Kept(false, 0, []))
    {
      st, mem, lines, zoom, bytes, shape := IDLE, 0, 0, 0, 0, Shape(0, 0, 0);
      g, page, line := Gather(0, 0, CLEAR), Page(false, 0, 0), Kept(false, 0, []);
    }

    /** A go latches the job and forgets the kept page and line. */
    method Go(j: Job)
      modifies this
      ensures Value() == old(Value()).(mem := j.memadr, lines := j.Lines(), zoom := j.FirstZoom(),
                                       bytes := j.FirstBytes(), shape := j.Consts(),
                                       page := old(page).(valid := false), line := old(line).(valid := false),
                                       st := LINE)
    {
      mem, lines, zoom, bytes, shape := j.memadr, j.Lines(), j.FirstZoom(), j.FirstBytes(), j.Consts();
      page, line, st := page.(valid := false), line.(valid := false), LINE;
    }

    /** A 16-byte piece arrives, from the kept line or from memory. */
    method Piece(c: Machine)
      requires Shaped(Value())
      modifies this
      ensures Value() == Loaded(c, old(Value()))
    {
      hide Gathered, Line64;
      var r, n := Value(), Take(Value());
      if !(line.valid && line.tag == page.pfn * 64 + mem / 64 % 64) {
        line := Kept(true, page.pfn * 64 + mem / 64 % 64, Line64(c, page.pfn * 64 + mem / 64 % 64));
      }
      g := Gather(g.len, g.gn + n, Gathered(r, line.data));
      mem := Wrap32(mem + n);
      bytes := if n <= bytes then bytes - n else 0;
      st := if g.gn == g.len then EMIT else XLATE;
    }

    method Clock(c: Machine, i: Inputs) returns (sent: seq<Lanes>)
      requires c.Ok() && Shaped(Value())
      modifies this
      ensures Value() == Next(c, old(Value()), i) && sent == Sent(old(Value()), i)
    {
      hide Loaded, Entry, Be32;
      sent := [];
      match st {
        case IDLE => if i.go.Some? { Go(i.go.value); }
        case LINE =>
          if lines == 0 { st := IDLE; } else { lines, st := lines - 1, ZOOM; }
        case ZOOM =>
          if zoom == 0 {
            zoom, mem, st := shape.zoom, Wrap32(mem + shape.stride), LINE;
          } else {
            zoom, st := zoom - 1, GROUP;
          }
        case GROUP =>
          if bytes == 0 {
            bytes := shape.width;
            if zoom != 0 { mem := Wrap32(mem - shape.width); }
            st := ZOOM;
          } else {
            g, st := Gather(if bytes < 8 then bytes else 8, 0, CLEAR), XLATE;
          }
        case XLATE =>
          var entry := Entry(c, mem, 0);
          if page.valid && page.vpn == mem / 4096 {
            st := LOAD;
          } else if entry.Some? {
            st := PTE;
          } else {
            page, st := Page(true, mem / 4096, mem / 4096), LOAD;
          }
        case PTE =>
          var entry := Entry(c, mem, 0);
          if i.rsp && entry.Some? {
            page, st := Page(true, mem / 4096, PageOf(Be32(c, PteAddr(c, mem, entry.value)))), LOAD;
          }
        case LOAD => if i.rsp { Piece(c); }
        case EMIT =>
          if i.ready {
            sent := [g.grp];
            st := GROUP;
          }
      }
    }
  }

  // ---- the kept page ----

  /** Two addresses of one page translate alike, so a page translated once is translated. */
  lemma PageTranslates(c: Machine, a: Word32, b: Word32)
    requires c.Ok() && a / 4096 == b / 4096
    ensures Translate(c, a) / 4096 == Translate(c, b) / 4096 && Translate(c, b) % 4096 == b % 4096
  {
    hide Be32, Entry, PageOf;
    SameEntry(c, a, b, 0);
    InPage(a);
    InPage(b);
    if Entry(c, a, 0).Some? {
      var e := Entry(c, a, 0).value;
      SamePte(c, a, b, e);
      var p := PageOf(Be32(c, PteAddr(c, a, e)));
      PageAndOffset(p, a);
      PageAndOffset(p, b);
    }
  }

  lemma SamePte(c: Machine, a: Word32, b: Word32, e: nat)
    requires c.Ok() && a / 4096 == b / 4096 && e < 4
    ensures PteAddr(c, a, e) == PteAddr(c, b, e)
  {
    hide PageOf;
  }

  lemma PageAndOffset(p: nat, va: Word32)
    ensures (p * 4096 + va % 4096) / 4096 == p && (p * 4096 + va % 4096) % 4096 == va % 4096
  {
  }

  lemma InPage(va: Word32)
    ensures va == va / 4096 * 4096 + va % 4096
  {
  }

  lemma {:induction false} SameEntry(c: Machine, a: Word32, b: Word32, e: nat)
    requires c.Ok() && a / 4096 == b / 4096 && e <= 4
    ensures Entry(c, a, e) == Entry(c, b, e)
    decreases 4 - e
  {
    SameRegion(a, b);
    if e < 4 { SameEntry(c, a, b, e + 1); }
  }

  lemma SameRegion(a: Word32, b: Word32)
    requires a / 4096 == b / 4096
    ensures a / 0x40_0000 == b / 0x40_0000
  {
    assert a / 0x40_0000 == a / 4096 / 1024;
    assert b / 0x40_0000 == b / 4096 / 1024;
  }

  /** The kept page, when valid, is the translation of its virtual page; the kept line is memory's. */
  ghost predicate Honest(c: Machine, r: Regs)
    requires c.Ok()
  {
    && Shaped(r)
    && (r.page.valid ==> r.page.vpn < 0x10_0000 && Translate(c, r.page.vpn * 4096) / 4096 == r.page.pfn)
    && (r.line.valid ==> r.line.tag < 0x400_0000 && r.line.data == Line64(c, r.line.tag))
  }

  /** Byte i of the doubleword in the line at hand. */
  lemma PieceByte(c: Machine, r: Regs, i: nat)
    requires c.Ok() && Honest(c, r) && r.page.valid && r.page.vpn == r.mem / 4096
    requires r.g.gn <= i < r.g.gn + Take(r)
    ensures Gathered(r, Line64(c, TagOf(r)))[i] == Fetch(c, Wrap32(r.mem + (i - r.g.gn)))
  {
    hide Translate, Line64, Gathered, Wrap32, TagOf;
    var k := i - r.g.gn;
    PieceAddress(c, r, k);
    RotAt(r, Line64(c, TagOf(r)), i);
    LineByteAt(c, TagOf(r), r.mem / 16 % 4 * 16 + r.mem % 16 + k);
  }

  /** Byte k of a piece: its place in the kept line is its translated address. */
  lemma PieceAddress(c: Machine, r: Regs, k: nat)
    requires c.Ok() && Honest(c, r) && r.page.valid && r.page.vpn == r.mem / 4096 && r.mem % 16 + k < 16
    ensures TagOf(r) < 0x400_0000 && r.mem + k < TWO32 && Wrap32(r.mem + k) == r.mem + k
    ensures 64 * TagOf(r) + (r.mem / 16 % 4 * 16 + r.mem % 16 + k) == Translate(c, r.mem + k)
  {
    hide Translate, Line64, Wrap32, TagOf;
    InLine(r.mem, k);
    var va: Word32 := r.mem + k;
    WrapInside(va);
    Offset(r.mem, k);
    TagStart(r);
    PageStart(r.page.vpn);
    PageTranslates(c, r.page.vpn * 4096, va);
    PageByte(Translate(c, va), r.page.pfn, va % 4096);
  }

  lemma PageStart(p: nat)
    requires p < 0x10_0000
    ensures p * 4096 < TWO32 && p * 4096 / 4096 == p
  {
  }

  lemma WrapInside(a: nat)
    requires a < TWO32
    ensures Wrap32(a) == a
  {
  }

  lemma TagStart(r: Regs)
    ensures 64 * TagOf(r) == r.page.pfn * 4096 + r.mem / 64 % 64 * 64
    ensures r.page.pfn < 0x10_0000 ==> TagOf(r) < 0x400_0000
  {
  }

  lemma LineByteAt(c: Machine, t: nat, i: nat)
    requires t < 0x400_0000 && i < 64
    ensures Line64(c, t)[i] == c.phys(64 * t + i)
  {
  }

  lemma PageByte(pa: Word32, pfn: nat, off: nat)
    requires pa / 4096 == pfn && pa % 4096 == off
    ensures pa == pfn * 4096 + off
  {
  }

  /** A piece stays in its line, so in its page and below 2^32. */
  lemma InLine(mem: Word32, k: nat)
    requires mem % 16 + k < 16
    ensures mem + k < TWO32 && (mem + k) / 4096 == mem / 4096
  {
    var q := mem / 16;
    assert mem + k == q * 16 + (mem % 16 + k);
    assert (mem + k) / 16 == q;
    assert (mem + k) / 4096 == (mem + k) / 16 / 256 && mem / 4096 == mem / 16 / 256;
  }

  lemma Offset(mem: Word32, k: nat)
    requires mem % 16 + k < 16
    ensures (mem + k) % 4096 == mem / 64 % 64 * 64 + mem / 16 % 4 * 16 + mem % 16 + k
  {
    var p, u, v, o := mem / 4096, mem / 64 % 64, mem / 16 % 4, mem % 16;
    Digits(mem);
    ModUnique(mem + k, p, u * 64 + v * 16 + o + k, 4096);
  }

  lemma Digits(mem: Word32)
    ensures mem == mem / 4096 * 4096 + mem / 64 % 64 * 64 + mem / 16 % 4 * 16 + mem % 16
  {
    var q, t := mem / 16, mem / 64;
    assert mem == q * 16 + mem % 16;
    assert t == q / 4 && q == t * 4 + q % 4;
    assert mem / 4096 == t / 64 && t == t / 64 * 64 + t % 64;
  }

  /** The rotator puts byte mem%16 + k of the 16-byte line in lane gn + k. */
  lemma RotAt(r: Regs, line: seq<Byte>, i: nat)
    requires r.g.gn <= r.g.len <= 8 && |line| == 64 && r.g.gn <= i < r.g.gn + Take(r)
    ensures Gathered(r, line)[i] == line[r.mem / 16 % 4 * 16 + r.mem % 16 + (i - r.g.gn)]
  {
    var b := r.mem / 16 % 4 * 16;
    var d := line[b..b + 16];
    var o := r.mem % 16;
    var n := (r.g.gn + 16 - o) % 16;
    assert RotL(d, n)[i] == d[o + i - r.g.gn] by {
      if r.g.gn >= o { assert n == r.g.gn - o || (n == 0 && r.g.gn - o == 16); } else { assert n == r.g.gn + 16 - o; }
    }
  }

  // ---- the channel does the walk ----

  /** The first byte of the doubleword being gathered. */
  function Base(r: Regs): Word32 { Wrap32(r.mem - r.g.gn) }

  /** What the walk still has to send from here, and where it ends. */
  ghost function Rest(c: Machine, r: Regs): Result
    requires c.Ok()
  {
    match r.st
    case IDLE => Result([], r.mem)
    case LINE => WalkRest(c, r.shape, r.mem, r.bytes, r.zoom, r.lines)
    case ZOOM => LineRest(c, r.shape, r.mem, r.bytes, r.zoom, r.lines)
    case GROUP => CopyRest(c, r.shape, r.mem, r.bytes, r.zoom, r.lines)
    case EMIT => CopyRest(c, r.shape, r.mem, r.bytes, r.zoom, r.lines).After([r.g.grp])
    case _ => CopyRest(c, r.shape, Base(r), r.bytes + r.g.gn, r.zoom, r.lines)
  }

  predicate Gathering(r: Regs) { r.st == XLATE || r.st == PTE || r.st == LOAD }

  /** The lanes gathered so far are the doubleword's, the others clear. */
  ghost predicate Partial(c: Machine, g: Gather, base: Word32)
    requires c.Ok()
  {
    forall i :: 0 <= i < 8 ==> g.grp[i] == Lane(c, base, g.gn, i)
  }

  ghost predicate Inv(c: Machine, r: Regs)
    requires c.Ok()
  {
    && Honest(c, r)
    && (Gathering(r) ==> r.g.gn < r.g.len && r.g.len == (if r.bytes + r.g.gn < 8 then r.bytes + r.g.gn else 8)
                         && Partial(c, r.g, Base(r)))
    && (r.st == LOAD ==> r.page.valid && r.page.vpn == r.mem / 4096)
    && (r.st == PTE ==> Entry(c, r.mem, 0).Some?)
  }

  /** A piece extends the doubleword. */
  lemma LoadExtends(c: Machine, r: Regs)
    requires c.Ok() && Inv(c, r) && r.st == LOAD
    ensures var r' := Loaded(c, r);
            && Honest(c, r') && Base(r') == Base(r) && Partial(c, r'.g, Base(r))
            && r'.bytes + r'.g.gn == r.bytes + r.g.gn
            && r.g.gn < r'.g.gn <= r.g.len
  {
    hide Fetch, Translate, Line64;
    var r', n := Loaded(c, r), Take(r);
    TagInRange(r);
    assert Fetched(c, r).data == Line64(c, TagOf(r));
    WrapSub(r.mem, n, r.g.gn);
    forall i | 0 <= i < 8
      ensures r'.g.grp[i] == Lane(c, Base(r), r'.g.gn, i)
    {
      if r.g.gn <= i < r.g.gn + n {
        PieceByte(c, r, i);
        WrapBase(r.mem, r.g.gn, i);
      }
    }
  }

  lemma TagInRange(r: Regs)
    requires r.page.pfn < 0x10_0000
    ensures TagOf(r) < 0x400_0000
  {
  }

  lemma WrapSub(mem: Word32, n: nat, gn: nat)
    ensures Wrap32(Wrap32(mem + n) - (gn + n)) == Wrap32(mem - gn)
  {
    WrapTwice(mem + n, -(gn + n));
  }

  lemma WrapBase(mem: Word32, gn: nat, i: nat)
    requires gn <= i
    ensures Wrap32(Wrap32(mem - gn) + i) == Wrap32(mem + (i - gn))
  {
    WrapTwice(mem - gn, i);
  }

  /** A page just translated is kept honestly. */
  lemma PageKept(c: Machine, mem: Word32)
    requires c.Ok()
    ensures var e := Entry(c, mem, 0);
            Translate(c, mem / 4096 * 4096) / 4096
            == if e.Some? then PageOf(Be32(c, PteAddr(c, mem, e.value))) else mem / 4096
  {
    var v: Word32 := mem / 4096 * 4096;
    SameEntry(c, mem, v, 0);
    assert v / 4096 == mem / 4096;
  }

  lemma NextKeepsInv(c: Machine, r: Regs, i: Inputs)
    requires c.Ok() && Inv(c, r)
    ensures Inv(c, Next(c, r, i))
  {
    hide Translate, Fetch, Line64, Be32;
    match r.st {
      case LOAD => if i.rsp { hide Loaded; LoadExtends(c, r); LoadedState(c, r); }
      case XLATE => if !(r.page.valid && r.page.vpn == r.mem / 4096) { PageKept(c, r.mem); }
      case PTE => PageKept(c, r.mem);
      case GROUP => assert r.bytes > 0 ==> Partial(c, Gather(if r.bytes < 8 then r.bytes else 8, 0, CLEAR), r.mem);
      case _ =>
    }
  }

  lemma LoadedState(c: Machine, r: Regs)
    requires Shaped(r)
    ensures var r' := Loaded(c, r);
            && r'.st == (if r'.g.gn == r.g.len then EMIT else XLATE) && r'.g.len == r.g.len
            && r'.shape == r.shape && r'.zoom == r.zoom && r'.lines == r.lines
  {
    hide Fetched, Gathered, Take;
  }

  /** Every clock sends what the walk sends next, or nothing, and keeps the rest. */
  lemma NextRefines(c: Machine, r: Regs, i: Inputs)
    requires c.Ok() && Inv(c, r) && r.st != IDLE
    ensures Rest(c, r) == Rest(c, Next(c, r, i)).After(Sent(r, i))
  {
    hide Translate, Fetch, Line64, Be32, WalkRest, LineRest, CopyRest, Wrap32;
    var s, r' := r.shape, Next(c, r, i);
    AfterNothing(Rest(c, r'));
    match r.st {
      case LINE =>
        if r.lines == 0 {
          WalkEnd(c, s, r.mem, r.bytes, r.zoom);
        } else {
          WalkStep(c, s, r.mem, r.bytes, r.zoom, r.lines);
        }
      case ZOOM =>
        if r.zoom == 0 {
          LineEnd(c, s, r.mem, r.bytes, r.lines);
        } else {
          LineStep(c, s, r.mem, r.bytes, r.zoom, r.lines);
        }
      case GROUP => if r.bytes == 0 { CopyEnd(c, s, r.mem, r.zoom, r.lines); } else { WrapSelf(r.mem); }
      case LOAD => if i.rsp { LoadRefines(c, r); }
      case EMIT =>
      case XLATE =>
      case PTE =>
    }
  }

  lemma AfterNothing(r: Result)
    ensures r.After([]) == r
  {
    assert [] + r.out == r.out;
  }

  lemma WrapSelf(m: Word32)
    ensures Wrap32(m - 0) == m
  {
  }

  lemma LoadRefines(c: Machine, r: Regs)
    requires c.Ok() && Inv(c, r) && r.st == LOAD
    ensures Rest(c, r) == Rest(c, Loaded(c, r))
  {
    hide Translate, Fetch, Line64, CopyRest, Loaded;
    var r' := Loaded(c, r);
    LoadExtends(c, r);
    LoadedState(c, r);
    if r'.g.gn == r.g.len {
      var b := r.bytes + r.g.gn;
      CopyStep(c, r.shape, Base(r), b, r.zoom, r.lines, []);
      AfterNothing(CopyRest(c, r.shape, Base(r), b, r.zoom, r.lines));
      assert r'.g.grp == Pack(c, Base(r), r.g.len);
      WrapBack(r'.mem, r.g.len);
      assert [] + [r'.g.grp] == [r'.g.grp];
    }
  }

  lemma WrapBack(m: Word32, n: nat)
    ensures Wrap32(Wrap32(m - n) + n) == m
  {
    WrapTwice(m - n, n);
  }

  // ---- every run ----

  /** The clocks after a go: the registers and everything sent. */
  function Run(c: Machine, r: Regs, ins: seq<Inputs>): (w: (Regs, seq<Lanes>))
    requires c.Ok() && Shaped(r)
    ensures Shaped(w.0)
  {
    if ins == [] then (r, [])
    else
      var w := Run(c, r, ins[..|ins| - 1]);
      NextShaped(c, w.0, ins[|ins| - 1]);
      (Next(c, w.0, ins[|ins| - 1]), w.1 + Sent(w.0, ins[|ins| - 1]))
  }

  lemma NextShaped(c: Machine, r: Regs, i: Inputs)
    requires c.Ok() && Shaped(r)
    ensures Shaped(Next(c, r, i))
  {
  }

  /** The state right after a go, whatever page and line were kept from before. */
  function Started(c: Machine, r: Regs, j: Job): (r': Regs)
    requires c.Ok() && Shaped(r) && r.st == IDLE
    ensures Shaped(r')
  {
    Next(c, r, Inputs(Some(j), false, false))
  }

  lemma {:induction false} RunKeeps(c: Machine, r: Regs, j: Job, ins: seq<Inputs>)
    requires c.Ok() && Shaped(r) && r.st == IDLE && forall n :: 0 <= n < |ins| ==> ins[n].go.None?
    ensures var w := Run(c, Started(c, r, j), ins);
            Inv(c, w.0) && Rest(c, w.0).After(w.1) == Transfer(c, j)
  {
    hide Next, Inv, Rest;
    if ins == [] {
      StartedInv(c, r, j);
    } else {
      var pre, i := ins[..|ins| - 1], ins[|ins| - 1];
      RunKeeps(c, r, j, pre);
      var w := Run(c, Started(c, r, j), pre);
      NextKeepsInv(c, w.0, i);
      if w.0.st == IDLE { StaysIdle(c, w.0, i, w.1); } else {
        NextRefines(c, w.0, i);
        AfterAfter(Rest(c, Next(c, w.0, i)), Sent(w.0, i), w.1);
      }
    }
  }

  lemma StartedInv(c: Machine, r: Regs, j: Job)
    requires c.Ok() && Shaped(r) && r.st == IDLE
    ensures Inv(c, Started(c, r, j)) && Rest(c, Started(c, r, j)).After([]) == Transfer(c, j)
  {
    AfterNothing(Transfer(c, j));
  }

  lemma StaysIdle(c: Machine, r: Regs, i: Inputs, sent: seq<Lanes>)
    requires c.Ok() && Shaped(r) && r.st == IDLE && i.go.None?
    ensures Next(c, r, i) == r && sent + Sent(r, i) == sent
  {
  }

  /** In every run after a go, with memory and the TLB unchanged, what the channel has sent is a
      prefix of the walk's doublewords; when it is idle again it has sent all of them, and its
      address register is the walk's end. */
  lemma ChannelDoesWalk(c: Machine, r: Regs, j: Job, ins: seq<Inputs>)
    requires c.Ok() && Shaped(r) && r.st == IDLE && forall n :: 0 <= n < |ins| ==> ins[n].go.None?
    ensures var w := Run(c, Started(c, r, j), ins);
            && w.1 <= Transfer(c, j).out
            && (w.0.st == IDLE ==> w.1 == Transfer(c, j).out && w.0.mem == Transfer(c, j).end)
  {
    hide Next, Inv, Transfer;
    RunKeeps(c, r, j, ins);
    var w := Run(c, Started(c, r, j), ins);
    assert w.1 + Rest(c, w.0).out == Transfer(c, j).out;
  }
}
