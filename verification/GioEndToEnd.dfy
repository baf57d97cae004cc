/**
 End to end: every processor access completes exactly once, and a load returns what the device
 answers after exactly the records numbered up to that load -- in program order of the
 processor, with the VDMA's records where they were numbered.
 */
module GioEndToEnd {
  import opened Prelude
  import opened Modular
  import opened GioWindow
  import opened GioMeaning
  import opened GioSystem
  import opened GioRing

  predicate IsCpu(r: Rec) { r.kind == STORE || r.kind == READ }

  /** The numbers of the processor's records, in stream order. */
  function CpuNos(stream: seq<Rec>): seq<nat>
  {
    if stream == [] then []
    else CpuNos(stream[..|stream| - 1]) + (if IsCpu(stream[|stream| - 1]) then [|stream|] else [])
  }

  lemma CpuNosAppend(stream: seq<Rec>, e: seq<Rec>)
    requires |e| <= 1
    ensures CpuNos(stream + e) == CpuNos(stream) + (if e != [] && IsCpu(e[0]) then [|stream| + 1] else [])
  {
    if e == [] { assert stream + e == stream; } else { assert (stream + e)[..|stream|] == stream; }
  }

  lemma {:induction false} CpuNosRange(stream: seq<Rec>, k: nat)
    requires k < |CpuNos(stream)|
    ensures 1 <= CpuNos(stream)[k] <= |stream| && IsCpu(stream[CpuNos(stream)[k] - 1])
  {
    if k < |CpuNos(stream[..|stream| - 1])| { CpuNosRange(stream[..|stream| - 1], k); }
  }

  /** The access and the record are the same one, whatever the record's number. */
  predicate RecordOf(r: Rec, c: Cpu) { r == CpuRec(c, r.recno) }

  /** The stream's processor records are the accesses in program order, less one that is held. */
  predicate InProgramOrder(f: Front, h: Hist)
  {
    var nos := CpuNos(h.stream);
    && |nos| + (if f.held.Some? then 1 else 0) == |h.issued|
    && (forall k :: 0 <= k < |nos| ==> Recorded(h, nos[k], k))
    && HeldIsLast(f, h)
  }

  /** A held access is the last one issued. */
  predicate HeldIsLast(f: Front, h: Hist)
  {
    f.held.Some? ==>
      && h.issued != [] && RecordOf(f.held.value.rec, h.issued[|h.issued| - 1])
      && f.held.value.isRead == !h.issued[|h.issued| - 1].isStore
  }

  /** The processor is busy exactly while its last access is held or awaits its answer. */
  predicate Occupied(f: Front, busy: bool, h: Hist)
  {
    && (busy <==> f.held.Some? || f.wait.Some?) && !(f.held.Some? && f.wait.Some?)
    && AwaitsLast(f, CpuNos(h.stream), h)
  }

  /** An awaited answer is that of the last access, a load, whose record is the last one. */
  predicate AwaitsLast(f: Front, nos: seq<nat>, h: Hist)
  {
    && (f.wait.Some? ==> nos != [] && nos[|nos| - 1] == h.waitNo && f.wait.value == Wrap32(h.waitNo)
                         && h.issued != [] && !h.issued[|h.issued| - 1].isStore)
  }

  /** Each access completes once, in order, and each completion belongs to its own record. */
  predicate CompletedOnce(busy: bool, h: Hist)
  {
    var nos := CpuNos(h.stream);
    && |h.results| + (if busy then 1 else 0) == |h.issued|
    && (forall k :: 0 <= k < |h.results| ==> k < |nos| && h.results[k].no == nos[k])
  }

  predicate Program(f: Front, busy: bool, h: Hist)
  {
    InProgramOrder(f, h) && Occupied(f, busy, h) && CompletedOnce(busy, h)
  }

  /** Access k is record n. */
  predicate Recorded(h: Hist, n: nat, k: nat)
  {
    1 <= n <= |h.stream| && k < |h.issued| && RecordOf(h.stream[n - 1], h.issued[k])
  }

  /** A completed load holds the device's answer after exactly the records up to its own. */
  predicate LoadsRight(dev: Device, h: Hist)
  {
    forall k :: 0 <= k < |h.results| && k < |h.issued| && !h.issued[k].isStore ==> LoadRight(dev, h, h.results[k])
  }

  predicate LoadRight(dev: Device, h: Hist, r: Result)
  {
    r.no <= |h.stream| && (r.lo, r.hi) == dev(h.stream[..r.no])
  }

  /** The ARM's side: it has consumed a prefix of the stream; an unconsumed READ is the one the
      processor waits for; the answer registers are right before the sequence number says so. */
  predicate Serving(dev: Device, f: Front, arm: Arm, h: Hist)
  {
    var c := |arm.seen|;
    && arm.seen <= h.stream
    && arm.ansSeq == Wrap32(h.ansNo) && h.ansNo <= c
    && (forall n :: c <= n < |h.stream| && h.stream[n].kind == READ ==> f.wait.Some? && h.waitNo == n + 1)
    && (f.wait.Some? ==> 1 <= h.waitNo <= |h.stream| && h.ansNo <= h.waitNo && f.wait.value == Wrap32(h.waitNo)
                         && h.stream[h.waitNo - 1].kind == READ)
    && (f.wait.Some? && h.ansNo != h.waitNo && h.waitNo <= c ==> arm.pend.Some?)
    && (f.wait.Some? && h.ansNo == h.waitNo ==> arm.pend.None? && (arm.ansLo, arm.ansHi) == dev(h.stream[..h.waitNo]))
    && (arm.pend.Some? ==>
          && f.wait.Some? && h.waitNo == c && h.ansNo < c && arm.pend.value.recno == Wrap32(h.waitNo)
          && (arm.pend.value.lo, arm.pend.value.hi) == dev(arm.seen) && arm.pend.value.stage <= 2
          && (arm.pend.value.stage >= 1 ==> arm.ansLo == arm.pend.value.lo)
          && (arm.pend.value.stage >= 2 ==> arm.ansHi == arm.pend.value.hi))
  }

  /** The 32-bit answer number tells the awaited READ from the last one answered: they are not a
      multiple of 2^32 records apart. */
  predicate Distinct(f: Front, h: Hist)
  {
    f.wait.Some? && h.waitNo > h.ansNo ==> (h.waitNo - h.ansNo) % TWO32 != 0
  }

  /** The window takes the answer registers for the awaited answer exactly when the numbers
      agree modulo 2^32, so it takes a stale one exactly when Distinct fails. */
  lemma AnsweredIff(dev: Device, f: Front, arm: Arm, h: Hist, i: Inputs)
    requires Serving(dev, f, arm, h) && i.ansSeq == arm.ansSeq && f.wait.Some?
    ensures Answered(f, i) <==> (h.waitNo - h.ansNo) % TWO32 == 0
    ensures (Answered(f, i) <==> h.ansNo == h.waitNo) <==> Distinct(f, h)
  {
    WrapEqual(h.ansNo, h.waitNo);
  }

  lemma WrapEqual(a: nat, b: nat)
    requires a <= b
    ensures Wrap32(a) == Wrap32(b) <==> (b - a) % TWO32 == 0
  {
  }

  // ---- one clock edge ----

  /** The history of one edge, from the window's front end alone. */
  predicate FrontMoved(p: Pick, f: Front, f': Front, busy: bool, busy': bool, i: Inputs, h: Hist, h': Hist)
  {
    && Offers(p, f, i) && f' == NextFront(p, f, i)
    && (busy ==> i.sel.None?) && (p == PickDma ==> i.sel.None?)
    && h'.stream == h.stream + Enqueued(p, f, i)
    && h'.issued == h.issued + (if i.sel.Some? then [i.sel.value] else [])
    && h'.waitNo == (if StartsWait(p, f, i) then |h'.stream| else h.waitNo) && h'.ansNo == h.ansNo
    && busy' == ((busy || i.sel.Some?) && !f'.done)
    && h'.results == h.results + (if (busy || i.sel.Some?) && f'.done then
                                    [Result(if Answered(f, i) then h.waitNo else |h'.stream|, f'.rdLo, f'.rdHi)]
                                    else [])
  }

  lemma EdgeFront(cfg: Cfg, w: World, c: Choice)
    requires cfg.Valid() && w.g.Wf()
    ensures var w', i := Edge(cfg, w, c), InputsOf(w, c);
            FrontMoved(Picked(cfg, w.g, i), w.g.f, w'.g.f, w.busy, w'.busy, i, w.h, w'.h)
  {
  }

  lemma OrderStep(p: Pick, f: Front, f': Front, busy: bool, busy': bool, i: Inputs, h: Hist, h': Hist)
    requires InProgramOrder(f, h) && Occupied(f, busy, h) && FrontMoved(p, f, f', busy, busy', i, h, h')
    ensures InProgramOrder(f', h')
  {
    var e := Enqueued(p, f, i);
    CpuNosAppend(h.stream, e);
    var nos, nos' := CpuNos(h.stream), CpuNos(h'.stream);
    QueuedAccess(p, f, i, h);
    forall k | 0 <= k < |nos'|
      ensures Recorded(h', nos'[k], k)
    {
      if k < |nos| { StillRecorded(h, h', nos[k], k); }
    }
  }

  lemma StillRecorded(h: Hist, h': Hist, n: nat, k: nat)
    requires Recorded(h, n, k) && h.stream <= h'.stream && h.issued <= h'.issued
    ensures Recorded(h', n, k)
  {
  }

  /** A processor record being queued is the new access's or the held one's, with its number. */
  lemma QueuedAccess(p: Pick, f: Front, i: Inputs, h: Hist)
    requires HeldIsLast(f, h) && Offers(p, f, i) && (f.held.Some? ==> i.sel.None?)
    ensures var e := Enqueued(p, f, i);
            if p == PickNew then e == [CpuRec(i.sel.value, NextNo(f))] && IsCpu(e[0]) && RecordOf(e[0], i.sel.value)
            else if p == PickHeld then |e| == 1 && IsCpu(e[0]) && RecordOf(e[0], h.issued[|h.issued| - 1])
            else |e| <= 1 && forall r :: r in e ==> !IsCpu(r)
  {
  }

  lemma OccupiedStep(p: Pick, f: Front, f': Front, busy: bool, busy': bool, i: Inputs, h: Hist, h': Hist)
    requires HeldIsLast(f, h) && Occupied(f, busy, h) && FrontMoved(p, f, f', busy, busy', i, h, h')
    requires f.built == Wrap32(|h.stream|)
    ensures Occupied(f', busy', h')
  {
    hide CpuNos, Wrap32;
    BusyStep(p, f, f', busy, busy', i, h, h');
    var e := Enqueued(p, f, i);
    CpuNosAppend(h.stream, e);
    QueuedAccess(p, f, i, h);
    AwaitStep(p, f, f', busy, busy', i, h, h', CpuNos(h.stream), CpuNos(h'.stream));
  }

  lemma AwaitStep(p: Pick, f: Front, f': Front, busy: bool, busy': bool, i: Inputs, h: Hist, h': Hist,
                  nos: seq<nat>, nos': seq<nat>)
    requires HeldIsLast(f, h) && AwaitsLast(f, nos, h) && FrontMoved(p, f, f', busy, busy', i, h, h')
    requires f.built == Wrap32(|h.stream|)
    requires nos' == nos + (if p == PickNew || p == PickHeld then [|h.stream| + 1] else [])
    requires f'.wait.Some? ==> if StartsWait(p, f, i) then f'.wait == Some(NextNo(f))
                               else f'.wait == f.wait && i.sel.None? && p != PickHeld && p != PickNew
    ensures AwaitsLast(f', nos', h')
  {
    WrapNext(|h.stream|, 1);
  }

  lemma BusyStep(p: Pick, f: Front, f': Front, busy: bool, busy': bool, i: Inputs, h: Hist, h': Hist)
    requires (busy <==> f.held.Some? || f.wait.Some?) && !(f.held.Some? && f.wait.Some?)
    requires FrontMoved(p, f, f', busy, busy', i, h, h')
    ensures (busy' <==> f'.held.Some? || f'.wait.Some?) && !(f'.held.Some? && f'.wait.Some?)
    ensures f'.wait.Some? ==> if StartsWait(p, f, i) then f'.wait == Some(NextNo(f))
                              else f'.wait == f.wait && i.sel.None? && p != PickHeld && p != PickNew
  {
  }

  lemma CompletedStep(p: Pick, f: Front, f': Front, busy: bool, busy': bool, i: Inputs, h: Hist, h': Hist)
    requires InProgramOrder(f, h) && Occupied(f, busy, h) && CompletedOnce(busy, h)
    requires FrontMoved(p, f, f', busy, busy', i, h, h')
    ensures CompletedOnce(busy', h')
  {
    CpuNosAppend(h.stream, Enqueued(p, f, i));
    QueuedAccess(p, f, i, h);
  }

  lemma LoadsStep(dev: Device, p: Pick, f: Front, f': Front, busy: bool, busy': bool, i: Inputs, arm: Arm, h: Hist,
                  h': Hist)
    requires Program(f, busy, h) && LoadsRight(dev, h) && Serving(dev, f, arm, h) && Distinct(f, h)
    requires FrontMoved(p, f, f', busy, busy', i, h, h')
    requires i.ansSeq == arm.ansSeq && i.ansLo == arm.ansLo && i.ansHi == arm.ansHi
    ensures LoadsRight(dev, h')
  {
    forall k | 0 <= k < |h'.results| && k < |h'.issued| && !h'.issued[k].isStore
      ensures LoadRight(dev, h', h'.results[k])
    {
      if k < |h.results| {
        assert LoadRight(dev, h, h.results[k]);
        assert h'.stream[..h.results[k].no] == h.stream[..h.results[k].no];
      } else {
        LastLoad(dev, p, f, f', busy, busy', i, arm, h, h');
      }
    }
  }

  /** The completion of this cycle, when it is a load's. */
  lemma LastLoad(dev: Device, p: Pick, f: Front, f': Front, busy: bool, busy': bool, i: Inputs, arm: Arm, h: Hist,
                 h': Hist)
    requires HeldIsLast(f, h) && Occupied(f, busy, h) && Serving(dev, f, arm, h) && Distinct(f, h)
    requires |h.results| + (if busy then 1 else 0) == |h.issued|
    requires FrontMoved(p, f, f', busy, busy', i, h, h')
    requires i.ansSeq == arm.ansSeq && i.ansLo == arm.ansLo && i.ansHi == arm.ansHi
    requires |h'.results| == |h.results| + 1 && !h'.issued[|h.results|].isStore
    ensures LoadRight(dev, h', h'.results[|h.results|])
  {
    if f.wait.Some? { AnsweredIff(dev, f, arm, h, i); }
    assert Answered(f, i);
    assert h'.stream[..h.waitNo] == h.stream[..h.waitNo];
  }

  lemma ServingEdge(dev: Device, p: Pick, f: Front, f': Front, busy: bool, busy': bool, i: Inputs, arm: Arm, h: Hist,
                    h': Hist)
    requires HeldIsLast(f, h) && Occupied(f, busy, h) && Serving(dev, f, arm, h) && Distinct(f, h)
    requires FrontMoved(p, f, f', busy, busy', i, h, h')
    requires i.ansSeq == arm.ansSeq && f.built == Wrap32(|h.stream|)
    ensures Serving(dev, f', arm, h')
  {
    WrapNext(|h.stream|, 1);
    QueuedAccess(p, f, i, h);
    BusyStep(p, f, f', busy, busy', i, h, h');
    if f.wait.Some? {
      AnsweredIff(dev, f, arm, h, i);
      assert h'.stream[..h.waitNo] == h.stream[..h.waitNo];
    }
  }

  /** The ARM's moves keep serving; `ring` facts say that consuming reads the stream. */
  lemma ServingArm(cfg: Cfg, dev: Device, w: World, a: ArmAct)
    requires cfg.Valid() && RingInv(cfg, w) && Serving(dev, w.g.f, w.arm, w.h)
    ensures var w' := ArmMove(cfg, dev, w, a);
            Serving(dev, w'.g.f, w'.arm, w'.h)
  {
    hide Serving, RingInv, Wrap32;
    ArmKeepsRing(cfg, dev, w, a);
    var arm, arm' := w.arm, ArmMove(cfg, dev, w, a).arm;
    if arm'.seen != arm.seen {
      NumberOf(cfg, w, |arm.seen|);
      assert arm'.seen[|arm.seen|] == w.h.stream[|arm.seen|];
      ServingConsume(dev, w.g.f, arm, w.h, arm'.cons);
    } else if a == Answer && arm.pend.Some? {
      ServingAnswer(dev, w.g.f, arm, w.h);
    }
  }

  lemma NumberOf(cfg: Cfg, w: World, n: nat)
    requires cfg.Valid() && RingInv(cfg, w) && n < |w.h.stream|
    ensures w.h.stream[n].recno == Wrap32(n + 1)
  {
  }

  /** The next record consumed: a READ is the awaited one. */
  lemma ServingConsume(dev: Device, f: Front, arm: Arm, h: Hist, cons: Word32)
    requires Serving(dev, f, arm, h) && arm.pend.None? && |arm.seen| < |h.stream|
    requires h.stream[|arm.seen|].recno == Wrap32(|arm.seen| + 1)
    ensures var r := h.stream[|arm.seen|];
            var seen := arm.seen + [r];
            var pend := if r.kind == READ then Some(Pend(r.recno, dev(seen).0, dev(seen).1, 0)) else None;
            Serving(dev, f, arm.(cons := cons, seen := seen, pend := pend), h)
  {
    hide Wrap32;
    var c := |arm.seen|;
    assert arm.seen + [h.stream[c]] == h.stream[..c + 1];
    if f.wait.Some? && h.waitNo <= c { assert arm.seen[..h.waitNo] == h.stream[..h.waitNo]; }
  }

  /** The next answer register written. */
  lemma ServingAnswer(dev: Device, f: Front, arm: Arm, h: Hist)
    requires Serving(dev, f, arm, h) && arm.pend.Some?
    ensures var p := arm.pend.value;
            if p.stage == 0 then Serving(dev, f, arm.(ansLo := p.lo, pend := Some(p.(stage := 1))), h)
            else if p.stage == 1 then Serving(dev, f, arm.(ansHi := p.hi, pend := Some(p.(stage := 2))), h)
            else Serving(dev, f, arm.(ansSeq := p.recno, pend := None), h.(ansNo := |arm.seen|))
  {
    hide Wrap32;
    assert arm.seen == h.stream[..h.waitNo];
  }

  // ---- whole runs ----

  ghost predicate EndInv(cfg: Cfg, dev: Device, w: World)
    requires cfg.Valid()
  {
    && RingInv(cfg, w) && Program(w.g.f, w.busy, w.h) && LoadsRight(dev, w.h)
    && Serving(dev, w.g.f, w.arm, w.h)
  }

  lemma EdgeKeepsEnd(cfg: Cfg, dev: Device, w: World, c: Choice)
    requires cfg.Valid() && EndInv(cfg, dev, w) && Distinct(w.g.f, w.h)
    ensures EndInv(cfg, dev, Edge(cfg, w, c))
  {
    var i := InputsOf(w, c);
    var p := Picked(cfg, w.g, i);
    var m := Edge(cfg, w, c);
    EdgeFront(cfg, w, c);
    EdgeKeepsRing(cfg, w, c);
    OrderStep(p, w.g.f, m.g.f, w.busy, m.busy, i, w.h, m.h);
    OccupiedStep(p, w.g.f, m.g.f, w.busy, m.busy, i, w.h, m.h);
    CompletedStep(p, w.g.f, m.g.f, w.busy, m.busy, i, w.h, m.h);
    LoadsStep(dev, p, w.g.f, m.g.f, w.busy, m.busy, i, w.arm, w.h, m.h);
    ServingEdge(dev, p, w.g.f, m.g.f, w.busy, m.busy, i, w.arm, w.h, m.h);
  }

  lemma StepKeepsEnd(cfg: Cfg, dev: Device, w: World, c: Choice)
    requires cfg.Valid() && EndInv(cfg, dev, w) && Distinct(w.g.f, w.h)
    ensures EndInv(cfg, dev, Step(cfg, dev, w, c))
  {
    var m := Edge(cfg, w, c);
    EdgeKeepsEnd(cfg, dev, w, c);
    ServingArm(cfg, dev, m, c.arm);
    ArmKeepsRing(cfg, dev, m, c.arm);
    ArmLeavesProgram(cfg, dev, m, c.arm);
  }

  lemma ArmLeavesProgram(cfg: Cfg, dev: Device, w: World, a: ArmAct)
    requires cfg.Valid() && Program(w.g.f, w.busy, w.h) && LoadsRight(dev, w.h)
    ensures var w' := ArmMove(cfg, dev, w, a);
            Program(w'.g.f, w'.busy, w'.h) && LoadsRight(dev, w'.h)
  {
    var w' := ArmMove(cfg, dev, w, a);
    assert forall n, k :: Recorded(w.h, n, k) ==> Recorded(w'.h, n, k);
    assert forall r :: LoadRight(dev, w.h, r) ==> LoadRight(dev, w'.h, r);
  }

  /** At no cycle of the run is a load awaited whose number equals, modulo 2^32, the last one
      answered. */
  ghost predicate NeverAliases(cfg: Cfg, dev: Device, ring: seq<Rec>, cs: seq<Choice>)
    requires cfg.Valid()
  {
    forall k :: 0 <= k < |cs| ==> DistinctAfter(cfg, dev, ring, cs, k)
  }

  ghost predicate DistinctAfter(cfg: Cfg, dev: Device, ring: seq<Rec>, cs: seq<Choice>, k: nat)
    requires cfg.Valid() && k <= |cs|
  {
    var w := Run(cfg, dev, Init(ring), cs[..k]);
    Distinct(w.g.f, w.h)
  }

  lemma SamePrefix(cfg: Cfg, dev: Device, ring: seq<Rec>, cs: seq<Choice>, m: nat, k: nat)
    requires cfg.Valid() && k <= m <= |cs|
    ensures DistinctAfter(cfg, dev, ring, cs[..m], k) == DistinctAfter(cfg, dev, ring, cs, k)
  {
    assert cs[..m][..k] == cs[..k];
  }

  lemma PrefixAliases(cfg: Cfg, dev: Device, ring: seq<Rec>, cs: seq<Choice>, m: nat)
    requires cfg.Valid() && m <= |cs| && NeverAliases(cfg, dev, ring, cs)
    ensures NeverAliases(cfg, dev, ring, cs[..m])
  {
    forall k | 0 <= k < m
      ensures DistinctAfter(cfg, dev, ring, cs[..m], k)
    {
      SamePrefix(cfg, dev, ring, cs, m, k);
      assert DistinctAfter(cfg, dev, ring, cs, k);
    }
  }

  /** In every such run, with any VDMA traffic: accesses complete once each and in order, and
      each load returned the device's answer after exactly the records up to its own. */
  lemma {:induction false} EndToEnd(cfg: Cfg, dev: Device, ring: seq<Rec>, cs: seq<Choice>)
    requires cfg.Valid() && |ring| == cfg.ringN && NeverAliases(cfg, dev, ring, cs)
    ensures EndInv(cfg, dev, Run(cfg, dev, Init(ring), cs))
  {
    if cs == [] {
      InitRing(cfg, ring);
    } else {
      var pre := cs[..|cs| - 1];
      PrefixAliases(cfg, dev, ring, cs, |pre|);
      EndToEnd(cfg, dev, ring, pre);
      assert DistinctAfter(cfg, dev, ring, cs, |pre|);
      StepKeepsEnd(cfg, dev, Run(cfg, dev, Init(ring), pre), cs[|cs| - 1]);
    }
  }

  lemma StreamGrows(cfg: Cfg, dev: Device, w: World, c: Choice)
    requires cfg.Valid() && w.g.Wf()
    ensures |w.h.stream| <= |Step(cfg, dev, w, c).h.stream|
  {
  }

  lemma ShortDistinct(dev: Device, f: Front, arm: Arm, h: Hist)
    requires Serving(dev, f, arm, h) && |h.stream| < TWO32
    ensures Distinct(f, h)
  {
  }

  lemma ShortLast(cfg: Cfg, dev: Device, ring: seq<Rec>, cs: seq<Choice>, k: nat)
    requires cfg.Valid() && |ring| == cfg.ringN && k <= |cs| && NeverAliases(cfg, dev, ring, cs[..k])
    requires |Run(cfg, dev, Init(ring), cs[..k]).h.stream| < TWO32
    ensures DistinctAfter(cfg, dev, ring, cs, k)
  {
    EndToEnd(cfg, dev, ring, cs[..k]);
    var w := Run(cfg, dev, Init(ring), cs[..k]);
    ShortDistinct(dev, w.g.f, w.arm, w.h);
  }

  lemma StreamGrowsRun(cfg: Cfg, dev: Device, ring: seq<Rec>, cs: seq<Choice>)
    requires cfg.Valid() && cs != []
    ensures |Run(cfg, dev, Init(ring), cs[..|cs| - 1]).h.stream| <= |Run(cfg, dev, Init(ring), cs).h.stream|
  {
    StreamGrows(cfg, dev, Run(cfg, dev, Init(ring), cs[..|cs| - 1]), cs[|cs| - 1]);
  }

  /** Runs of fewer than 2^32 records never alias. */
  lemma {:induction false} ShortRuns(cfg: Cfg, dev: Device, ring: seq<Rec>, cs: seq<Choice>)
    requires cfg.Valid() && |ring| == cfg.ringN && |Run(cfg, dev, Init(ring), cs).h.stream| < TWO32
    ensures NeverAliases(cfg, dev, ring, cs)
  {
    if cs != [] {
      var m := |cs| - 1;
      StreamGrowsRun(cfg, dev, ring, cs);
      ShortRuns(cfg, dev, ring, cs[..m]);
      ShortLast(cfg, dev, ring, cs, m);
      ExtendAliases(cfg, dev, ring, cs);
    }
  }

  lemma ExtendAliases(cfg: Cfg, dev: Device, ring: seq<Rec>, cs: seq<Choice>)
    requires cfg.Valid() && cs != [] && NeverAliases(cfg, dev, ring, cs[..|cs| - 1])
    requires DistinctAfter(cfg, dev, ring, cs, |cs| - 1)
    ensures NeverAliases(cfg, dev, ring, cs)
  {
    var m := |cs| - 1;
    forall k | 0 <= k < |cs|
      ensures DistinctAfter(cfg, dev, ring, cs, k)
    {
      SamePrefix(cfg, dev, ring, cs, m, if k < m then k else m);
      if k < m { assert DistinctAfter(cfg, dev, ring, cs[..m], k); }
    }
  }

  // ---- without VDMA: the device applied directly to the program ----

  /** The processor's accesses as the device would see them one by one. */
  function Direct(issued: seq<Cpu>): seq<Rec>
  {
    seq(|issued|, k requires 0 <= k < |issued| => CpuRec(issued[k], Wrap32(k + 1)))
  }

  lemma DirectTells(issued: seq<Cpu>)
    ensures ToldBy(Direct(issued), issued)
  {
    hide Tells, CpuRec;
    forall k | 0 <= k < |issued|
      ensures Tells(Direct(issued)[k], issued[k], k + 1)
    {
      CpuRecTells(issued[k], k + 1);
    }
  }

  /** The device's answer to records that tell exactly these accesses. */
  ghost predicate DeviceAnswers(dev: Device, issued: seq<Cpu>, r: Result)
  {
    exists recs :: ToldBy(recs, issued) && (r.lo, r.hi) == dev(recs)
  }

  predicate Quiet(cs: seq<Choice>)
  {
    forall k :: 0 <= k < |cs| ==> !cs[k].dmaBegin && !cs[k].dmaEnd && cs[k].dma.None?
  }

  lemma {:induction false} AllCpu(stream: seq<Rec>)
    requires forall r :: r in stream ==> IsCpu(r)
    ensures |CpuNos(stream)| == |stream| && forall k :: 0 <= k < |stream| ==> CpuNos(stream)[k] == k + 1
  {
    if stream != [] { AllCpu(stream[..|stream| - 1]); }
  }

  lemma QuietStep(cfg: Cfg, dev: Device, w: World, c: Choice)
    requires cfg.Valid() && w.g.Wf() && HeldIsLast(w.g.f, w.h) && (w.busy || w.g.f.held.None?)
    requires !w.g.f.beg && !w.g.f.end && (forall r :: r in w.h.stream ==> IsCpu(r))
    requires !c.dmaBegin && !c.dmaEnd && c.dma.None?
    ensures var w' := Step(cfg, dev, w, c);
            !w'.g.f.beg && !w'.g.f.end && forall r :: r in w'.h.stream ==> IsCpu(r)
  {
    var i := InputsOf(w, c);
    QueuedAccess(Picked(cfg, w.g, i), w.g.f, i, w.h);
  }

  lemma {:induction false} QuietRun(cfg: Cfg, dev: Device, ring: seq<Rec>, cs: seq<Choice>)
    requires cfg.Valid() && |ring| == cfg.ringN && NeverAliases(cfg, dev, ring, cs) && Quiet(cs)
    ensures var w := Run(cfg, dev, Init(ring), cs);
            !w.g.f.beg && !w.g.f.end && forall r :: r in w.h.stream ==> IsCpu(r)
  {
    if cs != [] {
      var pre := cs[..|cs| - 1];
      PrefixAliases(cfg, dev, ring, cs, |pre|);
      QuietRun(cfg, dev, ring, pre);
      EndToEnd(cfg, dev, ring, pre);
      QuietStep(cfg, dev, Run(cfg, dev, Init(ring), pre), cs[|cs| - 1]);
    }
  }

  /** Without VDMA the window is invisible: each access completes once, and every load returns
      what the device answers to records that tell the processor's accesses up to it, byte by byte
      and in program order. */
  lemma DeviceRefinement(cfg: Cfg, dev: Device, ring: seq<Rec>, cs: seq<Choice>)
    requires cfg.Valid() && |ring| == cfg.ringN && NeverAliases(cfg, dev, ring, cs) && Quiet(cs)
    ensures var w := Run(cfg, dev, Init(ring), cs);
            && |w.h.results| + (if w.busy then 1 else 0) == |w.h.issued|
            && forall k :: 0 <= k < |w.h.results| && !w.h.issued[k].isStore ==>
                 DeviceAnswers(dev, w.h.issued[..k + 1], w.h.results[k])
  {
    EndToEnd(cfg, dev, ring, cs);
    QuietRun(cfg, dev, ring, cs);
    DirectLoads(cfg, dev, Run(cfg, dev, Init(ring), cs));
  }

  lemma DirectLoads(cfg: Cfg, dev: Device, w: World)
    requires cfg.Valid() && EndInv(cfg, dev, w) && forall r :: r in w.h.stream ==> IsCpu(r)
    ensures |w.h.results| + (if w.busy then 1 else 0) == |w.h.issued|
    ensures forall k :: 0 <= k < |w.h.results| && !w.h.issued[k].isStore ==>
              DeviceAnswers(dev, w.h.issued[..k + 1], w.h.results[k])
  {
    AllCpu(w.h.stream);
    forall k | 0 <= k < |w.h.results| && !w.h.issued[k].isStore
      ensures DeviceAnswers(dev, w.h.issued[..k + 1], w.h.results[k])
    {
      assert LoadRight(dev, w.h, w.h.results[k]);
      StreamIsDirect(w.g.f, w.h, k + 1);
      DirectTells(w.h.issued[..k + 1]);
    }
  }

  lemma StreamIsDirect(f: Front, h: Hist, n: nat)
    requires InProgramOrder(f, h) && n <= |h.stream| && n <= |h.issued|
    requires forall j :: 0 <= j < |h.stream| ==> h.stream[j].recno == Wrap32(j + 1)
    requires |CpuNos(h.stream)| == |h.stream| && forall j :: 0 <= j < |h.stream| ==> CpuNos(h.stream)[j] == j + 1
    ensures h.stream[..n] == Direct(h.issued[..n])
  {
    forall j | 0 <= j < n
      ensures h.stream[j] == Direct(h.issued[..n])[j]
    {
      assert Recorded(h, CpuNos(h.stream)[j], j);
    }
  }
}
