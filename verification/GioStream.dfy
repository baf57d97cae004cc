/**
 The stream of a run against what went in: the processor's records tell its accesses, and the VDMA's
 tell the doublewords taken from it, each exactly once and in order.
 */
module GioStream {
  import opened Prelude
  import opened GioWindow
  import opened GioMeaning
  import opened GioSystem
  import opened GioRing
  import opened GioEndToEnd

  /** The accesses the processor has handed over: presented while it was not waiting. */
  function Presented(cfg: Cfg, dev: Device, ring: seq<Rec>, cs: seq<Choice>): seq<Cpu>
    requires cfg.Valid()
  {
    if cs == [] then []
    else
      var pre, c := cs[..|cs| - 1], cs[|cs| - 1];
      Presented(cfg, dev, ring, pre)
      + (if c.cpu.Some? && !Run(cfg, dev, Init(ring), pre).busy then [c.cpu.value] else [])
  }

  /** The doublewords the window has taken. */
  function Taken(cfg: Cfg, dev: Device, ring: seq<Rec>, cs: seq<Choice>): seq<Dword>
    requires cfg.Valid()
  {
    if cs == [] then []
    else
      var pre, c := cs[..|cs| - 1], cs[|cs| - 1];
      var w := Run(cfg, dev, Init(ring), pre);
      Taken(cfg, dev, ring, pre) + (if DmaReady(cfg, w.g, InputsOf(w, c)) then [c.dma.value] else [])
  }

  /** The numbers of the VDMA's records. */
  function DmaNos(stream: seq<Rec>): seq<nat>
  {
    if stream == [] then []
    else DmaNos(stream[..|stream| - 1]) + (if stream[|stream| - 1].kind == VDMA_STORE then [|stream|] else [])
  }

  lemma DmaNosAppend(stream: seq<Rec>, e: seq<Rec>)
    requires |e| <= 1
    ensures DmaNos(stream + e) == DmaNos(stream) + (if e != [] && e[0].kind == VDMA_STORE then [|stream| + 1] else [])
  {
    if e == [] { assert stream + e == stream; } else { assert (stream + e)[..|stream|] == stream; }
  }

  /** Record n of the stream tells doubleword d. */
  predicate DmaTold(stream: seq<Rec>, n: nat, d: Dword) { 1 <= n <= |stream| && TellsDma(stream[n - 1], d, n) }

  predicate CpuTold(stream: seq<Rec>, n: nat, a: Cpu) { 1 <= n <= |stream| && Tells(stream[n - 1], a, n) }

  // ---- the processor's program, with any answers ----

  lemma ProgramStep(cfg: Cfg, dev: Device, w: World, c: Choice)
    requires cfg.Valid() && RingInv(cfg, w) && Program(w.g.f, w.busy, w.h)
    ensures var w' := Step(cfg, dev, w, c); Program(w'.g.f, w'.busy, w'.h)
  {
    var i, m := InputsOf(w, c), Edge(cfg, w, c);
    var p := Picked(cfg, w.g, i);
    EdgeFront(cfg, w, c);
    NumberedAs(cfg, w);
    OrderStep(p, w.g.f, m.g.f, w.busy, m.busy, i, w.h, m.h);
    OccupiedStep(p, w.g.f, m.g.f, w.busy, m.busy, i, w.h, m.h);
    CompletedStep(p, w.g.f, m.g.f, w.busy, m.busy, i, w.h, m.h);
    ArmLeavesOrder(cfg, dev, m, c.arm);
    StepIs(cfg, dev, w, c);
    hide RingInv, Program, Edge, ArmMove, FrontMoved;
  }

  lemma ArmLeavesOrder(cfg: Cfg, dev: Device, w: World, a: ArmAct)
    requires cfg.Valid() && Program(w.g.f, w.busy, w.h)
    ensures var w' := ArmMove(cfg, dev, w, a); Program(w'.g.f, w'.busy, w'.h)
  {
    var w' := ArmMove(cfg, dev, w, a);
    assert forall n, k :: Recorded(w.h, n, k) ==> Recorded(w'.h, n, k);
  }

  lemma {:induction false} ProgramRun(cfg: Cfg, dev: Device, ring: seq<Rec>, cs: seq<Choice>)
    requires cfg.Valid() && |ring| == cfg.ringN
    ensures var w := Run(cfg, dev, Init(ring), cs); Program(w.g.f, w.busy, w.h) && RingInv(cfg, w)
  {
    RingSafe(cfg, dev, ring, cs);
    if cs != [] {
      var pre := cs[..|cs| - 1];
      hide Step, Program, RingInv;
      ProgramRun(cfg, dev, ring, pre);
      ProgramStep(cfg, dev, Run(cfg, dev, Init(ring), pre), cs[|cs| - 1]);
    }
  }

  lemma {:induction false} IssuedAsPresented(cfg: Cfg, dev: Device, ring: seq<Rec>, cs: seq<Choice>)
    requires cfg.Valid()
    ensures Run(cfg, dev, Init(ring), cs).h.issued == Presented(cfg, dev, ring, cs)
  {
    if cs != [] {
      hide Step;
      IssuedAsPresented(cfg, dev, ring, cs[..|cs| - 1]);
      IssuedStep(cfg, dev, Run(cfg, dev, Init(ring), cs[..|cs| - 1]), cs[|cs| - 1]);
    }
  }

  lemma IssuedStep(cfg: Cfg, dev: Device, w: World, c: Choice)
    requires cfg.Valid() && w.g.Wf()
    ensures Step(cfg, dev, w, c).h.issued == w.h.issued + (if c.cpu.Some? && !w.busy then [c.cpu.value] else [])
  {
  }

  /** In every run, whatever the ARM answers: the processor's records tell the accesses it handed
      over, in order, all of them but one that is held; each has completed once, in order, but the
      one it is busy with. */
  lemma AccessesTold(cfg: Cfg, dev: Device, ring: seq<Rec>, cs: seq<Choice>)
    requires cfg.Valid() && |ring| == cfg.ringN
    ensures var w, handed := Run(cfg, dev, Init(ring), cs), Presented(cfg, dev, ring, cs);
            var nos := CpuNos(w.h.stream);
            && |nos| + (if w.g.f.held.Some? then 1 else 0) == |handed|
            && (forall k :: 0 <= k < |nos| ==> CpuTold(w.h.stream, nos[k], handed[k]))
            && |w.h.results| + (if w.busy then 1 else 0) == |handed|
            && (forall k :: 0 <= k < |w.h.results| ==> k < |nos| && w.h.results[k].no == nos[k])
  {
    hide Run, RingInv, Tells, CpuRec;
    ProgramRun(cfg, dev, ring, cs);
    IssuedAsPresented(cfg, dev, ring, cs);
    var w := Run(cfg, dev, Init(ring), cs);
    var nos := CpuNos(w.h.stream);
    forall k | 0 <= k < |nos|
      ensures CpuTold(w.h.stream, nos[k], w.h.issued[k])
    {
      assert Recorded(w.h, nos[k], k);
      NumberOf(cfg, w, nos[k] - 1);
      CpuRecTells(w.h.issued[k], nos[k]);
    }
  }

  // ---- the VDMA's doublewords ----

  /** The VDMA's records are these doublewords', in order. */
  predicate AllDmaTold(stream: seq<Rec>, taken: seq<Dword>)
  {
    |DmaNos(stream)| == |taken| && forall k :: 0 <= k < |taken| ==> DmaTold(stream, DmaNos(stream)[k], taken[k])
  }

  lemma DmaGrows(stream: seq<Rec>, taken: seq<Dword>, e: seq<Rec>, more: seq<Dword>)
    requires AllDmaTold(stream, taken) && |e| <= 1
    requires if e != [] && e[0].kind == VDMA_STORE then |more| == 1 && TellsDma(e[0], more[0], |stream| + 1)
             else more == []
    ensures AllDmaTold(stream + e, taken + more)
  {
    hide DmaNos, TellsDma;
    DmaNosAppend(stream, e);
    var nos, nos' := DmaNos(stream), DmaNos(stream + e);
    forall k | 0 <= k < |taken + more|
      ensures DmaTold(stream + e, nos'[k], (taken + more)[k])
    {
      if k < |taken| { assert DmaTold(stream, nos[k], taken[k]); }
    }
  }

  /** In every run each doubleword taken became exactly one record, in order, that tells it. */
  lemma {:induction false} DoublewordsTold(cfg: Cfg, dev: Device, ring: seq<Rec>, cs: seq<Choice>)
    requires cfg.Valid() && |ring| == cfg.ringN
    ensures AllDmaTold(Run(cfg, dev, Init(ring), cs).h.stream, Taken(cfg, dev, ring, cs))
  {
    hide Step, DmaNos, TellsDma, RingInv, Program, AllDmaTold, DmaReady, Run;
    if cs == [] {
      NoneTold(cfg, dev, ring);
    } else {
      var pre, c := cs[..|cs| - 1], cs[|cs| - 1];
      var w := Run(cfg, dev, Init(ring), pre);
      DoublewordsTold(cfg, dev, ring, pre);
      ProgramRun(cfg, dev, ring, pre);
      DmaStep(cfg, dev, w, c);
      RunAppend(cfg, dev, Init(ring), pre, c);
      assert pre + [c] == cs;
      DmaGrows(w.h.stream, Taken(cfg, dev, ring, pre), RecIn(cfg, w, c),
               if DmaReady(cfg, w.g, InputsOf(w, c)) then [c.dma.value] else []);
    }
  }

  lemma NoneTold(cfg: Cfg, dev: Device, ring: seq<Rec>)
    requires cfg.Valid()
    ensures AllDmaTold(Run(cfg, dev, Init(ring), []).h.stream, [])
  {
  }

  /** A cycle's record is a doubleword's exactly when one is taken. */
  lemma DmaStep(cfg: Cfg, dev: Device, w: World, c: Choice)
    requires cfg.Valid() && RingInv(cfg, w) && Program(w.g.f, w.busy, w.h)
    ensures var e := RecIn(cfg, w, c);
            && |e| <= 1 && Step(cfg, dev, w, c).h.stream == w.h.stream + e
            && (DmaReady(cfg, w.g, InputsOf(w, c)) <==> e != [] && e[0].kind == VDMA_STORE)
            && (e != [] && e[0].kind == VDMA_STORE ==> c.dma.Some? && TellsDma(e[0], c.dma.value, |w.h.stream| + 1))
  {
    NumberedAs(cfg, w);
    StreamStep(cfg, dev, w, c);
    hide TellsDma, RingInv;
    DmaRecord(Picked(cfg, w.g, InputsOf(w, c)), w.g.f, InputsOf(w, c), w.h, |w.h.stream|);
  }

  lemma NumberedAs(cfg: Cfg, w: World)
    requires cfg.Valid() && RingInv(cfg, w)
    ensures w.g.f.built == Wrap32(|w.h.stream|)
  {
  }

  lemma StreamStep(cfg: Cfg, dev: Device, w: World, c: Choice)
    requires cfg.Valid() && w.g.Wf()
    ensures Step(cfg, dev, w, c).h.stream == w.h.stream + RecIn(cfg, w, c) && |RecIn(cfg, w, c)| <= 1
  {
    QueueBound(cfg, w.g, InputsOf(w, c));
  }

  lemma DmaRecord(p: Pick, f: Front, i: Inputs, h: Hist, no: nat)
    requires Offers(p, f, i) && f.built == Wrap32(no) && HeldIsLast(f, h)
    ensures var e := Enqueued(p, f, i);
            && (p == PickDma <==> e != [] && e[0].kind == VDMA_STORE)
            && (p == PickDma ==> TellsDma(e[0], i.dma.value, no + 1))
  {
    hide TellsDma;
    if p == PickDma {
      DmaRecTells(i.dma.value, no + 1);
      NumberAfter(f, no);
    }
  }
}
