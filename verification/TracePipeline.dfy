/**
 The clocked trace engine: two retires encoded per clock, the registered append, the 256-bit
 packer, the beat FIFO and the drain into a circular region of memory.
 */
module TracePipeline {
  import opened Prelude
  import opened Bits
  import opened TraceCodec
  import opened TraceFifo

  /** Parameters: the filters, the mode, the region's size in bytes, and the number of physical
      addresses, a power of two whose exponent is not part of this model. */
  datatype Cfg = Cfg(allPc: bool, filter: bool, target: Byte, pcRange: bool, lo: Word32, hi: Word32, loadval: bool,
                     size: nat, space: nat)
  {
    predicate Valid() { 32 <= space && space % 16 == 0 && size < space }
  }

  /** One retiring instruction: PC and value are 64-bit, `load` says its opcode is a load. */
  datatype Retire = Retire(valid: bool, pc: nat, load: bool, regValid: bool, val: nat, addr: Word32)

  datatype Inputs = Inputs(asid: Byte, r0: Retire, r1: Retire, rsp: bool)

  // ---- the filters ----

  predicate User(cfg: Cfg, asid: Byte, r: Retire)
  {
    && r.valid && (cfg.allPc || r.pc / 0x8000_0000 == 0)
    && (!cfg.filter || asid == cfg.target)
    && (!cfg.pcRange || cfg.lo <= Wrap32(r.pc) < cfg.hi)
  }

  function Traced(cfg: Cfg, asid: Byte, r: Retire): Option<Word32>
  {
    if User(cfg, asid, r) then Some(Wrap32(r.pc)) else None
  }

  /** The PCs one clock adds to the trace, in program order. */
  function Pcs(cfg: Cfg, i: Inputs): seq<Word32>
  {
    (match Traced(cfg, i.asid, i.r0) case Some(pc) => [pc] case None => [])
    + (match Traced(cfg, i.asid, i.r1) case Some(pc) => [pc] case None => [])
  }

  predicate IsLoad(cfg: Cfg, asid: Byte, r: Retire)
  {
    cfg.loadval && User(cfg, asid, r) && r.regValid && r.load
  }

  /** The record of one load: PC, low word of the value, address, zeros. */
  function LoadBeat(r: Retire): Beat128
  {
    ToBits(Wrap32(r.pc), 32) + ToBits(Wrap32(r.val), 32) + ToBits(r.addr, 32) + Zeros(32)
  }

  function Loads(cfg: Cfg, i: Inputs): (l: seq<Beat128>)
    ensures |l| <= 2
  {
    (if IsLoad(cfg, i.asid, i.r0) then [LoadBeat(i.r0)] else [])
    + if IsLoad(cfg, i.asid, i.r1) then [LoadBeat(i.r1)] else []
  }

  // ---- the registers ----

  /** Encoder, append register and bit packer. */
  datatype Packer = Packer(coder: Coder, append: seq<bool>, applen: nat, acc: seq<bool>, nbits: nat)
  {
    /** The packer never holds a full beat, and no bit is set above its counters. */
    ghost predicate Ok()
    {
      && |append| == 96 && Fits(append, applen) && applen <= 82
      && |acc| == 256 && Fits(acc, nbits) && nbits < 128
    }

    /** The bits that have not left the packer. */
    ghost function Pending(): seq<bool>
      requires Ok()
    {
      acc[..nbits] + append[..applen]
    }
  }

  datatype Drain = Drain(req: bool, woff: nat, bytes: Word32)

  datatype Regs = Regs(p: Packer, q: seq<Beat128>, ovf: bool, d: Drain)
  {
    ghost predicate Ok() { p.Ok() && |q| <= FIFO_N && (d.req ==> q != []) }
  }

  function Reset(): Regs
  {
    Regs(Packer(FRESH, Zeros(96), 0, Zeros(256), 0), [], false, Drain(false, 0, 0))
  }

  // ---- one clock ----

  function CodeOf(s: Coder, k: Option<Word32>): (w: seq<bool>)
    ensures |w| == 41
  {
    if k.Some? then CodeWire(s, k.value) else Zeros(41)
  }

  function LenOf(s: Coder, k: Option<Word32>): (n: nat)
    ensures n <= 41
  {
    if k.Some? then LenWire(s, k.value) else 0
  }

  function Told(s: Coder, k: Option<Word32>): Coder
  {
    if k.Some? then Coder(true, k.value) else s
  }

  /** The two codes side by side in 96 bits. */
  function AppendWire(s: Coder, k0: Option<Word32>, k1: Option<Word32>): (w: seq<bool>)
    ensures |w| == 96
  {
    Or(Zext(CodeOf(s, k0), 96), Shl(Zext(CodeOf(Told(s, k0), k1), 96), LenOf(s, k0)))
  }

  function Merged(p: Packer): (m: seq<bool>)
    requires |p.append| == 96 && |p.acc| == 256
    ensures |m| == 256
  {
    Or(p.acc, Shl(Zext(p.append, 256), p.nbits))
  }

  /** The beats made this clock. */
  function Beats(cfg: Cfg, p: Packer, i: Inputs): (b: seq<Beat128>)
    requires |p.append| == 96 && |p.acc| == 256
    ensures |b| <= 2
  {
    if cfg.loadval then Loads(cfg, i) else if p.nbits + p.applen >= 128 then [Merged(p)[..128]] else []
  }

  function NextPacker(cfg: Cfg, p: Packer, i: Inputs): Packer
    requires |p.append| == 96 && |p.acc| == 256
  {
    var k0, k1 := Traced(cfg, i.asid, i.r0), Traced(cfg, i.asid, i.r1);
    var s1 := Told(p.coder, k0);
    var total := p.nbits + p.applen;
    Packer(Told(s1, k1), AppendWire(p.coder, k0, k1), LenOf(p.coder, k0) + LenOf(s1, k1),
           if cfg.loadval then p.acc else if total >= 128 then Shr(Merged(p), 128) else Merged(p),
           if cfg.loadval then p.nbits else if total >= 128 then total - 128 else total)
  }

  /** The next place in the region, wrapping by comparison. */
  function NextOffset(cfg: Cfg, woff: nat): nat
    requires cfg.Valid()
  {
    var next := (woff + 16) % cfg.space;
    if next >= cfg.size then 0 else next
  }

  function NextDrain(cfg: Cfg, d: Drain, empty: bool, rsp: bool): Drain
    requires cfg.Valid()
  {
    if !d.req then d.(req := !empty)
    else if rsp then Drain(false, NextOffset(cfg, d.woff), Wrap32(d.bytes + 16))
    else d
  }

  function Next(cfg: Cfg, r: Regs, i: Inputs): Regs
    requires cfg.Valid() && r.Ok()
  {
    var beats := Beats(cfg, r.p, i);
    Regs(NextPacker(cfg, r.p, i), Moved(r.q, beats, r.d.req && i.rsp), r.ovf || |r.q| + |beats| > FIFO_N,
         NextDrain(cfg, r.d, r.q == [], i.rsp))
  }

  // ---- the packer keeps its shape and its bits ----

  /** Zero extension keeps the low bits and adds none. */
  lemma ZextFits(a: seq<bool>, n: nat, w: nat)
    requires Fits(a, n) && |a| <= w
    ensures Fits(Zext(a, w), n) && Zext(a, w)[..n] == a[..n]
  {
  }

  lemma CodeFits(s: Coder, k: Option<Word32>)
    ensures Fits(CodeOf(s, k), LenOf(s, k))
    ensures CodeOf(s, k)[..LenOf(s, k)] == if k.Some? then Code(s, k.value) else []
  {
    if k.Some? {
      hide CodeWire, LenWire, Code;
      WiresCarryCode(s, k.value);
    }
  }

  /** The append word is the codes of the clock's PCs, laid end to end. */
  lemma AppendIsCode(s: Coder, k0: Option<Word32>, k1: Option<Word32>)
    ensures var n := LenOf(s, k0) + LenOf(Told(s, k0), k1);
            && n <= 82 && Fits(AppendWire(s, k0, k1), n)
            && AppendWire(s, k0, k1)[..n] == (if k0.Some? then Code(s, k0.value) else [])
                                             + if k1.Some? then Code(Told(s, k0), k1.value) else []
  {
    hide Code, CodeOf, LenOf;
    var s1 := Told(s, k0);
    CodeFits(s, k0);
    CodeFits(s1, k1);
    ZextFits(CodeOf(s, k0), LenOf(s, k0), 96);
    ZextFits(CodeOf(s1, k1), LenOf(s1, k1), 96);
    OrAppends(Zext(CodeOf(s, k0), 96), LenOf(s, k0), Zext(CodeOf(s1, k1), 96), LenOf(s1, k1));
  }

  lemma MergedBits(p: Packer)
    requires p.Ok()
    ensures Fits(Merged(p), p.nbits + p.applen) && Merged(p)[..p.nbits + p.applen] == p.Pending()
  {
    ZextFits(p.append, p.applen, 256);
    OrAppends(p.acc, p.nbits, Zext(p.append, 256), p.applen);
  }

  /** What a flush leaves behind. */
  lemma FlushSplits(m: seq<bool>, total: nat)
    requires |m| == 256 && Fits(m, total) && 128 <= total
    ensures Fits(Shr(m, 128), total - 128) && m[..total] == m[..128] + Shr(m, 128)[..total - 128]
  {
  }

  lemma PackerKeepsOk(cfg: Cfg, p: Packer, i: Inputs)
    requires p.Ok()
    ensures NextPacker(cfg, p, i).Ok()
  {
    hide AppendWire, LenOf, Merged, Traced;
    AppendIsCode(p.coder, Traced(cfg, i.asid, i.r0), Traced(cfg, i.asid, i.r1));
    MergedBits(p);
    if p.nbits + p.applen >= 128 { FlushSplits(Merged(p), p.nbits + p.applen); }
  }

  lemma NextKeepsOk(cfg: Cfg, r: Regs, i: Inputs)
    requires cfg.Valid() && r.Ok()
    ensures Next(cfg, r, i).Ok()
  {
    hide NextPacker, Beats;
    PackerKeepsOk(cfg, r.p, i);
  }

  // ---- the clocked object ----

  class Tracer {
    const cfg: Cfg
    const fifo: BankedFifo
    var coder: Coder
    var append: seq<bool>
    var applen: nat
    var acc: seq<bool>
    var nbits: nat
    var ovf: bool
    var req: bool
    var woff: nat
    var bytes: Word32

    ghost predicate Valid()
      reads this, fifo, fifo.fifo0, fifo.fifo1
    {
      cfg.Valid() && fifo.Valid() && Value().Ok()
    }

    ghost function Value(): Regs
      requires fifo.Valid()
      reads this, fifo, fifo.fifo0, fifo.fifo1
    {
      Regs(Pack(), fifo.Contents(), ovf, Drain(req, woff, bytes))
    }

    ghost function Pack(): Packer
      reads this
    {
      Packer(coder, append, applen, acc, nbits)
    }

    constructor (cfg: Cfg)
      requires cfg.Valid()
      ensures this.cfg == cfg && Valid() && Value() == Reset()
      ensures fresh(fifo) && fresh(fifo.fifo0) && fresh(fifo.fifo1)
    {
      this.cfg := cfg;
      fifo := new BankedFifo();
      coder, append, applen := FRESH, Zeros(96), 0;
      acc, nbits := Zeros(256), 0;
      ovf, req, woff, bytes := false, false, 0, 0;
    }

    /** The packer's beat, if any, from the registered append; the load records in the other mode. */
    method MakeBeats(i: Inputs) returns (n: nat, beatA: Beat128, beatB: Beat128)
      requires |append| == 96 && |acc| == 256
      modifies `acc, `nbits
      ensures n <= 2 && [beatA, beatB][..n] == Beats(cfg, old(Pack()), i)
      ensures acc == NextPacker(cfg, old(Pack()), i).acc && nbits == NextPacker(cfg, old(Pack()), i).nbits
    {
      hide AppendWire, LenOf, Traced, LoadBeat;
      n, beatA, beatB := 0, Zeros(128), Zeros(128);
      var merged := Or(acc, Shl(Zext(append, 256), nbits));
      var total := nbits + applen;
      if cfg.loadval {
        var ld0, ld1 := IsLoad(cfg, i.asid, i.r0), IsLoad(cfg, i.asid, i.r1);
        n := (if ld0 then 1 else 0) + if ld1 then 1 else 0;
        beatA := if ld0 then LoadBeat(i.r0) else LoadBeat(i.r1);
        beatB := LoadBeat(i.r1);
      } else if total >= 128 {
        n, beatA := 1, merged[..128];
        acc, nbits := Shr(merged, 128), total - 128;
      } else {
        acc, nbits := merged, total;
      }
    }

    /** The encoder: both codes into the append register, and the PC they leave behind. */
    method EncodeRetires(i: Inputs)
      modifies `coder, `append, `applen
      ensures append == AppendWire(old(coder), Traced(cfg, i.asid, i.r0), Traced(cfg, i.asid, i.r1))
      ensures var s1 := Told(old(coder), Traced(cfg, i.asid, i.r0));
              && applen == LenOf(old(coder), Traced(cfg, i.asid, i.r0)) + LenOf(s1, Traced(cfg, i.asid, i.r1))
              && coder == Told(s1, Traced(cfg, i.asid, i.r1))
    {
      hide CodeWire, LenWire, Traced;
      var k0, k1 := Traced(cfg, i.asid, i.r0), Traced(cfg, i.asid, i.r1);
      var ec0, el0 := Zeros(41), 0;
      if k0.Some? { ec0, el0 := CodeWire(coder, k0.value), LenWire(coder, k0.value); }
      var s1 := if k0.Some? then Coder(true, k0.value) else coder;
      var ec1, el1 := Zeros(41), 0;
      if k1.Some? { ec1, el1 := CodeWire(s1, k1.value), LenWire(s1, k1.value); }
      append := Or(Zext(ec0, 96), Shl(Zext(ec1, 96), el0));
      applen := el0 + el1;
      if k0.Some? { coder := Coder(true, k0.value); }
      if k1.Some? { coder := Coder(true, k1.value); }
    }

    /** The drain's own registers. */
    method DrainStep(empty: bool, rsp: bool)
      requires cfg.Valid()
      modifies `req, `woff, `bytes
      ensures Drain(req, woff, bytes) == NextDrain(cfg, old(Drain(req, woff, bytes)), empty, rsp)
    {
      if !req {
        if !empty { req := true; }
      } else if rsp {
        req := false;
        woff := if (woff + 16) % cfg.space >= cfg.size then 0 else (woff + 16) % cfg.space;
        bytes := Wrap32(bytes + 16);
      }
    }

    /** One clock edge out of reset. */
    method Clock(i: Inputs)
      requires Valid()
      modifies this, fifo, fifo.fifo0, fifo.fifo1
      ensures Valid() && Value() == Next(cfg, old(Value()), i)
    {
      hide Beats, NextDrain, AppendWire, LenOf, Traced, Or, Merged;
      NextKeepsOk(cfg, Value(), i);
      ghost var p := Pack();
      var pop := req && i.rsp;
      var empty := fifo.wr == fifo.rd;
      assert empty <==> fifo.Contents() == [];
      DrainStep(empty, i.rsp);
      var n, beatA, beatB := MakeBeats(i);
      var drop := fifo.Clock(n, beatA, beatB, pop);
      EncodeRetires(i);
      ovf := ovf || drop;
      assert Pack() == NextPacker(cfg, p, i);
    }
  }
}
