/**
 The capture window closed with its environment: a processor with one access outstanding, the
 ring memory, an ARM that consumes published records in order and answers READs writing the
 sequence register last, and an unconstrained VDMA. `f` is the device behind the window, any
 function from the records seen so far to an answer.
 */
module GioSystem {
  import opened Prelude
  import opened Modular
  import opened GioWindow

  type Device = seq<Rec> -> (Word32, Word32)

  /** Ring memory and the published index cell. */
  datatype Mem = Mem(ring: seq<Rec>, index: Word32)

  /** A READ the ARM has consumed and is answering: registers already written. */
  datatype Pend = Pend(recno: Word32, lo: Word32, hi: Word32, stage: nat)

  /** The ARM: records consumed, the doorbell and the answer registers it writes. */
  datatype Arm = Arm(cons: Word32, seen: seq<Rec>, pend: Option<Pend>, ansLo: Word32, ansHi: Word32, ansSeq: Word32)

  /** A completed access: the number of its record, and what a load returned. */
  datatype Result = Result(no: nat, lo: Word32, hi: Word32)

  /** History: every record numbered so far, how many are published, accesses in program order,
      completions, the record number awaited and the last one answered. */
  datatype Hist = Hist(stream: seq<Rec>, pub: nat, issued: seq<Cpu>, results: seq<Result>, waitNo: nat, ansNo: nat)

  datatype World = World(g: Regs, mem: Mem, arm: Arm, busy: bool, h: Hist)
  {
    /** Records in ring memory. */
    function W(): int { |h.stream| - |g.q| }
  }

  datatype ArmAct = Rest | Consume | Answer

  /** The environment's choices for one cycle. */
  datatype Choice = Choice(cpu: Option<Cpu>, dmaBegin: bool, dmaEnd: bool, dma: Option<Dword>, rsp: bool, arm: ArmAct)

  function Init(ring: seq<Rec>): World
  {
    World(RESET, Mem(ring, 0), Arm(0, [], None, 0, 0, 0), false, Hist([], 0, [], [], 0, 0))
  }

  function InputsOf(w: World, c: Choice): Inputs
  {
    Inputs(if w.busy then None else c.cpu, c.dmaBegin, c.dmaEnd, c.dma,
           w.arm.cons, w.arm.ansLo, w.arm.ansHi, w.arm.ansSeq, c.rsp)
  }

  /** The write the memory performs when it responds: one slot, four slots, or the index. */
  function MemAfter(cfg: Cfg, m: Mem, g: Regs, rsp: bool): Mem
    requires g.Wf() && cfg.Valid()
  {
    var slot := g.w.written % cfg.ringN;
    if !rsp || slot >= |m.ring| then m
    else if g.w.wst == W_REC then m.(ring := m.ring[slot := g.q[0]])
    else if g.w.wst == W_BURST && slot + 4 <= |m.ring| then m.(ring := m.ring[..slot] + g.q + m.ring[slot + 4..])
    else if g.w.wst == W_PROD then m.(index := g.w.written)
    else m
  }

  function HistAfter(cfg: Cfg, w: World, i: Inputs): Hist
    requires w.g.Wf()
  {
    var p := Picked(cfg, w.g, i);
    var f := NextFront(p, w.g.f, i);
    var stream := w.h.stream + Enqueued(p, w.g.f, i);
    var waitNo := if StartsWait(p, w.g.f, i) then |stream| else w.h.waitNo;
    var issued := w.h.issued + (if i.sel.Some? then [i.sel.value] else []);
    var finished := (w.busy || i.sel.Some?) && f.done;
    Hist(stream,
         if w.g.w.wst == W_PROD && i.rsp && w.W() >= 0 then w.W() else w.h.pub,
         issued,
         w.h.results
         + (if finished then [Result(if Answered(w.g.f, i) then w.h.waitNo else |stream|, f.rdLo, f.rdHi)] else []),
         waitNo, w.h.ansNo)
  }

  /** One clock edge of the window with its memory; the processor sees `done`. */
  function Edge(cfg: Cfg, w: World, c: Choice): World
    requires w.g.Wf() && cfg.Valid()
  {
    var i := InputsOf(w, c);
    var g := Next(cfg, w.g, i);
    World(g, MemAfter(cfg, w.mem, w.g, c.rsp), w.arm, (w.busy || i.sel.Some?) && !g.f.done, HistAfter(cfg, w, i))
  }

  /** The ARM moves: consume the next published record unless it owes an answer, or write the
      next answer register (lanes 0-3, lanes 4-7, then the sequence number). */
  function ArmMove(cfg: Cfg, f: Device, w: World, a: ArmAct): World
    requires cfg.Valid()
  {
    var arm := w.arm;
    var slot := arm.cons % cfg.ringN;
    match a
    case Rest => w
    case Consume =>
      if arm.pend.Some? || arm.cons == w.mem.index || slot >= |w.mem.ring| then w
      else
        var r := w.mem.ring[slot];
        var seen := arm.seen + [r];
        var pend := if r.kind == READ then Some(Pend(r.recno, f(seen).0, f(seen).1, 0)) else None;
        w.(arm := arm.(cons := Wrap32(arm.cons + 1), seen := seen, pend := pend))
    case Answer =>
      if arm.pend.None? then w
      else
        var p := arm.pend.value;
        if p.stage == 0 then w.(arm := arm.(ansLo := p.lo, pend := Some(p.(stage := 1))))
        else if p.stage == 1 then w.(arm := arm.(ansHi := p.hi, pend := Some(p.(stage := 2))))
        else w.(arm := arm.(ansSeq := p.recno, pend := None), h := w.h.(ansNo := |arm.seen|))
  }

  function Step(cfg: Cfg, f: Device, w: World, c: Choice): (w': World)
    requires w.g.Wf() && cfg.Valid()
    ensures w'.g.Wf()
  {
    WfStep(cfg, w.g, InputsOf(w, c));
    ArmMove(cfg, f, Edge(cfg, w, c), c.arm)
  }

  lemma StepIs(cfg: Cfg, f: Device, w: World, c: Choice)
    requires w.g.Wf() && cfg.Valid()
    ensures Step(cfg, f, w, c) == ArmMove(cfg, f, Edge(cfg, w, c), c.arm)
  {
  }

  function Run(cfg: Cfg, f: Device, w: World, cs: seq<Choice>): (w': World)
    requires w.g.Wf() && cfg.Valid()
    ensures w'.g.Wf()
  {
    if cs == [] then w else Step(cfg, f, Run(cfg, f, w, cs[..|cs| - 1]), cs[|cs| - 1])
  }

  lemma RunAppend(cfg: Cfg, f: Device, w: World, cs: seq<Choice>, c: Choice)
    requires cfg.Valid() && w.g.Wf()
    ensures Run(cfg, f, w, cs + [c]) == Step(cfg, f, Run(cfg, f, w, cs), c)
  {
    assert (cs + [c])[..|cs|] == cs;
  }

  lemma {:induction false} RunConcat(cfg: Cfg, f: Device, w: World, a: seq<Choice>, b: seq<Choice>)
    requires cfg.Valid() && w.g.Wf()
    ensures Run(cfg, f, w, a + b) == Run(cfg, f, Run(cfg, f, w, a), b)
    decreases |b|
  {
    hide Step;
    if b == [] {
      assert a + b == a;
    } else {
      RunConcat(cfg, f, w, a, b[..|b| - 1]);
      assert (a + b)[..|a + b| - 1] == a + b[..|b| - 1];
    }
  }

  // ---- ring slots ----

  /** A ring slot computed from the wrapped counter is the slot of the true one. */
  lemma SlotOf(cfg: Cfg, a: nat)
    requires cfg.Valid()
    ensures Wrap32(a) % cfg.ringN == a % cfg.ringN
  {
    var n := cfg.ringN;
    var m := TWO32 / n;
    assert TWO32 == m * n;
    var k := a / TWO32;
    assert a == Wrap32(a) + k * TWO32;
    assert k * TWO32 == (k * m) * n by { assert k * (m * n) == (k * m) * n; }
    ModAddMul(Wrap32(a), k * m, n);
  }

  /** A 64-byte line of the ring: four records from a multiple of four stay inside it. */
  lemma BurstFits(cfg: Cfg, a: nat, k: nat)
    requires cfg.Valid() && a % 4 == 0 && k < 4
    ensures a % cfg.ringN % 4 == 0 && a % cfg.ringN + 4 <= cfg.ringN
    ensures (a + k) % cfg.ringN == a % cfg.ringN + k
  {
    var n := cfg.ringN;
    var q, r := a / n, a % n;
    DivMod(a, n);
    FourthOf(a, q, r, n);
    FourMore(r, n);
    ModUnique(a + k, q, r + k, n);
  }

  lemma FourthOf(a: nat, q: nat, r: nat, n: nat)
    requires n > 0 && n % 4 == 0 && a % 4 == 0 && a == q * n + r
    ensures r % 4 == 0
  {
    var m := n / 4;
    assert q * (m * 4) == (q * m) * 4;
    ModAddMul(r, q * m, 4);
  }

  lemma FourMore(r: nat, n: nat)
    requires r < n && r % 4 == 0 && n % 4 == 0
    ensures r + 4 <= n
  {
  }
}
