/**
 The 32-bit answer number, and the runs in which it fails: a load numbered a multiple of 2^32
 after the last one answered takes that one's answer. The condition of GioEndToEnd is therefore
 not slack: a run of ordinary accesses, each consumed before the next, violates it.
 */
module GioAliasing {
  import opened Prelude
  import opened Modular
  import opened GioWindow
  import opened GioSystem
  import opened GioRing
  import opened GioEndToEnd

  /** In any run whose earlier cycles were distinct, a load that aliases completes at the very next
      edge, with the answer registers as they stand, though the ARM has not answered it. */
  lemma AliasTakesStale(cfg: Cfg, dev: Device, ring: seq<Rec>, cs: seq<Choice>, c: Choice)
    requires cfg.Valid() && |ring| == cfg.ringN && NeverAliases(cfg, dev, ring, cs)
    requires !DistinctAfter(cfg, dev, ring, cs, |cs|)
    ensures var w := Run(cfg, dev, Init(ring), cs);
            && w.h.ansNo < w.h.waitNo
            && Edge(cfg, w, c).h.results == w.h.results + [Result(w.h.waitNo, w.arm.ansLo, w.arm.ansHi)]
  {
    hide Run, RingInv, InProgramOrder, LoadsRight;
    assert cs[..|cs|] == cs;
    EndToEnd(cfg, dev, ring, cs);
    var w := Run(cfg, dev, Init(ring), cs);
    AnsweredIff(dev, w.g.f, w.arm, w.h, InputsOf(w, c));
    EdgeFront(cfg, w, c);
  }

  /** A load is about to complete whose answer the ARM has not given: the sequence register holds
      its number, but from an earlier load. */
  predicate Premature(w: World)
  {
    w.g.f.wait == Some(w.arm.ansSeq) && w.h.ansNo != w.h.waitNo
  }

  ghost predicate PrematureAfter(cfg: Cfg, dev: Device, ring: seq<Rec>, cs: seq<Choice>, k: nat)
    requires cfg.Valid() && k <= |cs|
  {
    Premature(Run(cfg, dev, Init(ring), cs[..k]))
  }

  /** Up to the first alias, aliasing and completing prematurely are the same. */
  lemma PrematureHere(cfg: Cfg, dev: Device, ring: seq<Rec>, cs: seq<Choice>, k: nat)
    requires cfg.Valid() && |ring| == cfg.ringN && k <= |cs| && NeverAliases(cfg, dev, ring, cs[..k])
    ensures PrematureAfter(cfg, dev, ring, cs, k) <==> !DistinctAfter(cfg, dev, ring, cs, k)
  {
    hide Run, RingInv, Program, LoadsRight;
    EndToEnd(cfg, dev, ring, cs[..k]);
    var w := Run(cfg, dev, Init(ring), cs[..k]);
    if w.g.f.wait.Some? { AnsweredIff(dev, w.g.f, w.arm, w.h, InputsOf(w, REPLY)); }
  }

  lemma {:induction false} FirstAlias(cfg: Cfg, dev: Device, ring: seq<Rec>, cs: seq<Choice>) returns (k: nat)
    requires cfg.Valid() && !NeverAliases(cfg, dev, ring, cs)
    ensures k < |cs| && NeverAliases(cfg, dev, ring, cs[..k]) && !DistinctAfter(cfg, dev, ring, cs, k)
  {
    hide DistinctAfter;
    var m := |cs| - 1;
    if NeverAliases(cfg, dev, ring, cs[..m]) {
      if DistinctAfter(cfg, dev, ring, cs, m) { ExtendAliases(cfg, dev, ring, cs); }
      k := m;
    } else {
      k := FirstAlias(cfg, dev, ring, cs[..m]);
      SamePrefix(cfg, dev, ring, cs, m, k);
      assert cs[..m][..k] == cs[..k];
    }
  }

  /** The condition of the end-to-end theorem is exact: a run never aliases if and only if in none
      of its cycles a load completes that the ARM has not answered. */
  lemma PrematureIff(cfg: Cfg, dev: Device, ring: seq<Rec>, cs: seq<Choice>)
    requires cfg.Valid() && |ring| == cfg.ringN
    ensures NeverAliases(cfg, dev, ring, cs) <==> forall k :: 0 <= k < |cs| ==> !PrematureAfter(cfg, dev, ring, cs, k)
  {
    hide DistinctAfter, PrematureAfter;
    if NeverAliases(cfg, dev, ring, cs) {
      forall k | 0 <= k < |cs|
        ensures !PrematureAfter(cfg, dev, ring, cs, k)
      {
        PrefixAliases(cfg, dev, ring, cs, k);
        PrematureHere(cfg, dev, ring, cs, k);
        assert DistinctAfter(cfg, dev, ring, cs, k);
      }
    } else {
      var k := FirstAlias(cfg, dev, ring, cs);
      PrematureHere(cfg, dev, ring, cs, k);
    }
  }

  // ---- one access at a time ----

  const LOAD := Cpu(false, false, 0, 0xff, 0, 0, 0)
  const STORED := Cpu(true, false, 0, 0xff, 0, 0, 0)
  const REPLY := Choice(None, false, false, None, true, Rest)
  const REPLY_TAKE := Choice(None, false, false, None, true, Consume)
  const ARM_ANSWERS := Choice(None, false, false, None, false, Answer)

  function Issue(a: Cpu): Choice { Choice(Some(a), false, false, None, true, Rest) }

  /** Queue, write, publish, consume. */
  function AccessRound(a: Cpu): seq<Choice> { [Issue(a), REPLY, REPLY, REPLY, REPLY_TAKE] }

  /** Nothing held, no marker, and no answer for the access awaited, if any. */
  predicate Still(w: World)
  {
    && w.g.Wf() && w.g.f.held.None? && !w.g.f.beg && !w.g.f.end
    && w.g.f.wait != Some(w.arm.ansSeq) && (w.busy <==> w.g.f.wait.Some?)
  }

  /** An empty window with everything written, published and consumed. */
  predicate Parked(cfg: Cfg, w: World)
  {
    var k := w.g.f.built;
    && Still(w) && w.g.q == [] && !w.busy && w.g.w == Back(W_IDLE, k, k, false)
    && w.mem.index == k && w.arm.cons == k && w.arm.pend.None? && |w.mem.ring| == cfg.ringN
  }

  /** A cycle moved no record number and completed nothing. */
  predicate Kept(w: World, w': World)
  {
    && w'.g.f == w.g.f.(done := false) && w'.busy == w.busy && w'.h.stream == w.h.stream
    && w'.h.issued == w.h.issued && w'.h.results == w.h.results && w'.h.waitNo == w.h.waitNo
  }

  lemma StillCycle(cfg: Cfg, dev: Device, w: World, c: Choice)
    requires cfg.Valid() && Still(w) && c.cpu.None? && !c.dmaBegin && !c.dmaEnd && c.dma.None?
    ensures var m := Edge(cfg, w, c);
            && Step(cfg, dev, w, c) == ArmMove(cfg, dev, m, c.arm) && Kept(w, m)
            && m.g.q == w.g.q[Dequeued(w.g.w, c.rsp)..] && m.g.w == NextBack(cfg, w.g.q, w.g.w, c.rsp)
            && m.mem == MemAfter(cfg, w.mem, w.g, c.rsp) && m.arm == w.arm && m.h.ansNo == w.h.ansNo
  {
  }

  /** An access of a parked window is queued in its cycle; a load then waits. */
  lemma IssueCycle(cfg: Cfg, dev: Device, w: World, a: Cpu)
    requires cfg.Valid() && Parked(cfg, w)
    ensures var w', no := Step(cfg, dev, w, Issue(a)), NextNo(w.g.f);
            && w'.g.q == [CpuRec(a, no)] && w'.g.w == w.g.w && w'.mem == w.mem && w'.arm == w.arm
            && w'.h.ansNo == w.h.ansNo
            && w'.g.f == w.g.f.(built := no, wait := if a.isStore then None else Some(no), done := a.isStore)
            && w'.busy == !a.isStore && w'.h.stream == w.h.stream + [CpuRec(a, no)] && w'.h.issued == w.h.issued + [a]
            && w'.h.results == w.h.results + (if a.isStore then [Result(|w'.h.stream|, w.g.f.rdLo, w.g.f.rdHi)] else [])
            && (!a.isStore ==> w'.h.waitNo == |w'.h.stream|)
  {
  }

  /** Word k follows word j. */
  predicate Follows(j: Word32, k: Word32) { k == Wrap32(j + 1) && k != j }

  /** A queued record is written, published and consumed in four cycles. */
  predicate Queued(cfg: Cfg, w: World, j: Word32, r: Rec)
  {
    && Still(w) && w.g.q == [r] && w.g.w == Back(W_IDLE, j, j, false) && Follows(j, w.g.f.built)
    && w.mem.index == j && w.arm.cons == j && w.arm.pend.None? && |w.mem.ring| == cfg.ringN
  }

  /** The ARM's side once it has consumed r: a READ is pending, a store is not. */
  predicate Consumed(cfg: Cfg, dev: Device, w: World, w': World, r: Rec)
  {
    var k, seen := w.g.f.built, w.arm.seen + [r];
    && Still(w') && w'.g.q == [] && w'.g.w == Back(W_IDLE, k, k, false) && w'.g.f == w.g.f.(done := false)
    && w'.mem.index == k && |w'.mem.ring| == cfg.ringN && w'.busy == w.busy
    && w'.arm == w.arm.(cons := k, seen := seen,
                        pend := if r.kind == READ then Some(Pend(r.recno, dev(seen).0, dev(seen).1, 0)) else None)
    && w'.h.stream == w.h.stream && w'.h.issued == w.h.issued && w'.h.results == w.h.results
    && w'.h.waitNo == w.h.waitNo && w'.h.ansNo == w.h.ansNo
  }

  lemma Drain(cfg: Cfg, dev: Device, w: World, j: Word32, r: Rec)
    requires cfg.Valid() && Queued(cfg, w, j, r)
    ensures Consumed(cfg, dev, w, Run(cfg, dev, w, [REPLY, REPLY, REPLY, REPLY_TAKE]), r)
  {
    hide Step, Edge, Run, Wrap32;
    var k := w.g.f.built;
    var w1 := Step(cfg, dev, w, REPLY);
    StillCycle(cfg, dev, w, REPLY);
    var w2 := Step(cfg, dev, w1, REPLY);
    StillCycle(cfg, dev, w1, REPLY);
    assert w2.g.q == [] && w2.mem.ring == w.mem.ring[j % cfg.ringN := r];
    var w3 := Step(cfg, dev, w2, REPLY);
    StillCycle(cfg, dev, w2, REPLY);
    var w4 := Step(cfg, dev, w3, REPLY_TAKE);
    StillCycle(cfg, dev, w3, REPLY_TAKE);
    FourSteps(cfg, dev, w, REPLY, REPLY, REPLY, REPLY_TAKE);
  }

  lemma FourSteps(cfg: Cfg, dev: Device, w: World, a: Choice, b: Choice, c: Choice, d: Choice)
    requires cfg.Valid() && w.g.Wf()
    ensures Run(cfg, dev, w, [a, b, c, d])
            == Step(cfg, dev, Step(cfg, dev, Step(cfg, dev, Step(cfg, dev, w, a), b), c), d)
  {
    hide Step;
    assert [a, b, c] + [d] == [a, b, c, d] && [a, b] + [c] == [a, b, c] && [a] + [b] == [a, b] && [] + [a] == [a];
    RunAppend(cfg, dev, w, [], a);
    RunAppend(cfg, dev, w, [a], b);
    RunAppend(cfg, dev, w, [a, b], c);
    RunAppend(cfg, dev, w, [a, b, c], d);
  }

  lemma WordAfter(k: Word32)
    ensures Follows(k, Wrap32(k + 1))
  {
  }

  /** The access is over: numbered, written, published, consumed. */
  lemma RoundOf(cfg: Cfg, dev: Device, w: World, a: Cpu)
    requires cfg.Valid() && Parked(cfg, w) && (!a.isStore ==> NextNo(w.g.f) != w.arm.ansSeq)
    ensures var w1 := Step(cfg, dev, w, Issue(a));
            Queued(cfg, w1, w.g.f.built, CpuRec(a, NextNo(w.g.f)))
            && Consumed(cfg, dev, w1, Run(cfg, dev, w, AccessRound(a)), CpuRec(a, NextNo(w.g.f)))
  {
    hide Step, Run;
    var w1 := Step(cfg, dev, w, Issue(a));
    IssueCycle(cfg, dev, w, a);
    WordAfter(w.g.f.built);
    Drain(cfg, dev, w1, w.g.f.built, CpuRec(a, NextNo(w.g.f)));
    RunConcat(cfg, dev, w, [Issue(a)], [REPLY, REPLY, REPLY, REPLY_TAKE]);
    assert [Issue(a)] + [REPLY, REPLY, REPLY, REPLY_TAKE] == AccessRound(a);
    assert [] + [Issue(a)] == [Issue(a)];
    RunAppend(cfg, dev, w, [], Issue(a));
    RunNone(cfg, dev, w);
  }

  lemma RunNone(cfg: Cfg, dev: Device, w: World)
    requires cfg.Valid() && w.g.Wf()
    ensures Run(cfg, dev, w, []) == w
  {
  }

  /** Parked after n accesses, all complete, with the answer of the first, a load, still in the
      answer registers. */
  predicate Holds(cfg: Cfg, dev: Device, w: World, n: nat)
  {
    var first := [CpuRec(LOAD, 1)];
    && n >= 1 && Parked(cfg, w) && w.g.f.built == Wrap32(n) && |w.h.stream| == n && first <= w.h.stream
    && |w.h.issued| == n && |w.h.results| == n
    && w.arm.ansSeq == 1 && (w.arm.ansLo, w.arm.ansHi) == dev(first)
  }

  lemma StoreRound(cfg: Cfg, dev: Device, w: World, n: nat)
    requires cfg.Valid() && Holds(cfg, dev, w, n)
    ensures Holds(cfg, dev, Run(cfg, dev, w, AccessRound(STORED)), n + 1)
  {
    hide Step, Run, Wrap32;
    RoundOf(cfg, dev, w, STORED);
    IssueCycle(cfg, dev, w, STORED);
    WrapNext(n, 1);
  }

  function Rounds(n: nat): seq<Choice> { if n == 0 then [] else Rounds(n - 1) + AccessRound(STORED) }

  lemma {:induction false} StoreRounds(cfg: Cfg, dev: Device, w: World, m: nat)
    requires cfg.Valid() && Holds(cfg, dev, w, 1)
    ensures Holds(cfg, dev, Run(cfg, dev, w, Rounds(m)), 1 + m)
  {
    hide Run, Holds;
    HoldsParked(cfg, dev, w, 1);
    if m == 0 {
      RunNone(cfg, dev, w);
    } else {
      StoreRounds(cfg, dev, w, m - 1);
      StoreRound(cfg, dev, Run(cfg, dev, w, Rounds(m - 1)), m);
      RunConcat(cfg, dev, w, Rounds(m - 1), AccessRound(STORED));
    }
  }

  lemma HoldsParked(cfg: Cfg, dev: Device, w: World, n: nat)
    requires Holds(cfg, dev, w, n)
    ensures w.g.Wf() && Parked(cfg, w)
  {
  }

  function FirstLoad(): seq<Choice> { AccessRound(LOAD) + [ARM_ANSWERS, ARM_ANSWERS, ARM_ANSWERS, REPLY] }

  /** The first load, answered by the ARM and taken by the window. */
  lemma LoadRound(cfg: Cfg, dev: Device, ring: seq<Rec>)
    requires cfg.Valid() && |ring| == cfg.ringN
    ensures Holds(cfg, dev, Run(cfg, dev, Init(ring), FirstLoad()), 1)
  {
    hide Step, Run, Wrap32;
    var w0 := Init(ring);
    var r := CpuRec(LOAD, 1);
    assert Wrap32(1) == 1 && Wrap32(0) == 0 by { WrapSmall(1); WrapSmall(0); }
    RoundOf(cfg, dev, w0, LOAD);
    IssueCycle(cfg, dev, w0, LOAD);
    var v := Run(cfg, dev, w0, AccessRound(LOAD));
    assert [] + [r] == [r];
    AnswerRound(cfg, dev, v, r);
    RunConcat(cfg, dev, w0, AccessRound(LOAD), [ARM_ANSWERS, ARM_ANSWERS, ARM_ANSWERS, REPLY]);
  }

  lemma WrapSmall(n: nat)
    requires n < TWO32
    ensures Wrap32(n) == n
  {
  }

  /** Three answer registers, then the window takes the answer. */
  lemma AnswerRound(cfg: Cfg, dev: Device, v: World, r: Rec)
    requires cfg.Valid() && Still(v) && v.g.q == [] && v.g.w == Back(W_IDLE, v.g.f.built, v.g.f.built, false)
    requires v.g.f.wait == Some(r.recno) && v.mem.index == v.g.f.built && v.arm.cons == v.g.f.built
    requires v.arm.pend == Some(Pend(r.recno, dev([r]).0, dev([r]).1, 0)) && |v.mem.ring| == cfg.ringN
    ensures var v' := Run(cfg, dev, v, [ARM_ANSWERS, ARM_ANSWERS, ARM_ANSWERS, REPLY]);
            && (v'.g.f.wait != Some(v'.arm.ansSeq) ==> Parked(cfg, v')) && v'.g.f.built == v.g.f.built
            && v'.g.f.wait.None? && v'.h.stream == v.h.stream && v'.h.issued == v.h.issued
            && v'.h.results == v.h.results + [Result(v.h.waitNo, dev([r]).0, dev([r]).1)]
            && v'.arm.ansSeq == r.recno && (v'.arm.ansLo, v'.arm.ansHi) == dev([r])
  {
    hide Step, Edge, Run;
    StillCycle(cfg, dev, v, ARM_ANSWERS);
    var v1 := Step(cfg, dev, v, ARM_ANSWERS);
    StillCycle(cfg, dev, v1, ARM_ANSWERS);
    var v2 := Step(cfg, dev, v1, ARM_ANSWERS);
    StillCycle(cfg, dev, v2, ARM_ANSWERS);
    var v3 := Step(cfg, dev, v2, ARM_ANSWERS);
    AnsweredCycle(cfg, dev, v3, REPLY);
    FourSteps(cfg, dev, v, ARM_ANSWERS, ARM_ANSWERS, ARM_ANSWERS, REPLY);
  }

  /** The awaited number is in the sequence register: the load completes with what is in the
      answer registers. */
  lemma AnsweredCycle(cfg: Cfg, dev: Device, w: World, c: Choice)
    requires cfg.Valid() && w.g.Wf() && w.busy && w.g.f.held.None? && !w.g.f.beg && !w.g.f.end
    requires w.g.f.wait == Some(w.arm.ansSeq) && c == REPLY
    ensures var w' := Step(cfg, dev, w, c);
            && w'.g.f == w.g.f.(wait := None, done := true, rdLo := w.arm.ansLo, rdHi := w.arm.ansHi)
            && !w'.busy && w'.arm == w.arm && w'.h.stream == w.h.stream && w'.h.issued == w.h.issued
            && w'.g.q == w.g.q[Dequeued(w.g.w, true)..] && w'.g.w == NextBack(cfg, w.g.q, w.g.w, true)
            && w'.mem == MemAfter(cfg, w.mem, w.g, true)
            && w'.h.results == w.h.results + [Result(w.h.waitNo, w.arm.ansLo, w.arm.ansHi)]
  {
  }

  // ---- the failing run ----

  function Schedule(m: nat): seq<Choice> { FirstLoad() + Rounds(m) + [Issue(LOAD)] + [REPLY] }

  /** A load answered by the ARM, m stores each consumed at once, and another load: in the cycle
      after it is numbered it completes if and only if m + 1 is a multiple of 2^32, and then with
      the first load's answer, whatever the device and whatever the ring size. */
  lemma StaleIff(cfg: Cfg, dev: Device, ring: seq<Rec>, m: nat)
    requires cfg.Valid() && |ring| == cfg.ringN
    ensures var w := Run(cfg, dev, Init(ring), Schedule(m));
            && |w.h.issued| == |w.h.stream| == m + 2 && !w.h.issued[m + 1].isStore && [CpuRec(LOAD, 1)] <= w.h.stream
            && (|w.h.results| == m + 2 <==> (m + 1) % TWO32 == 0)
            && (|w.h.results| == m + 2 ==>
                  var r := w.h.results[m + 1];
                  r.no == m + 2 && (r.lo, r.hi) == dev(w.h.stream[..1]))
  {
    hide Step, Run, Wrap32;
    var w0 := Init(ring);
    LoadRound(cfg, dev, ring);
    var w1 := Run(cfg, dev, w0, FirstLoad());
    StoreRounds(cfg, dev, w1, m);
    RunConcat(cfg, dev, w0, FirstLoad(), Rounds(m));
    var w2 := Run(cfg, dev, w0, FirstLoad() + Rounds(m));
    IssueCycle(cfg, dev, w2, LOAD);
    RunAppend(cfg, dev, w0, FirstLoad() + Rounds(m), Issue(LOAD));
    var w3 := Step(cfg, dev, w2, Issue(LOAD));
    RunAppend(cfg, dev, w0, FirstLoad() + Rounds(m) + [Issue(LOAD)], REPLY);
    WrapNext(1 + m, 1);
    WrapEqual(1, m + 2);
    assert Wrap32(1) == 1 by { WrapSmall(1); }
    if w3.g.f.wait == Some(w3.arm.ansSeq) {
      AnsweredCycle(cfg, dev, w3, REPLY);
    } else {
      StillCycle(cfg, dev, w3, REPLY);
    }
    assert w3.h.stream[..1] == [CpuRec(LOAD, 1)];
  }

  /** A device that answers 0 after the first record and 1 after any later one. */
  function Later(seen: seq<Rec>): (Word32, Word32) { (if |seen| <= 1 then 0 else 1, 0) }

  /** 2^32 - 1 stores between the two loads: the second returns the first one's answer, 0, where
      the device answers 1. */
  lemma StaleAnswer(cfg: Cfg, ring: seq<Rec>, m: nat)
    requires cfg.Valid() && |ring| == cfg.ringN && m + 1 == TWO32
    ensures var w := Run(cfg, Later, Init(ring), Schedule(m));
            && |w.h.results| == m + 2 && w.h.results[m + 1].lo == 0 && Later(w.h.stream).0 == 1
            && !LoadsRight(Later, w.h)
  {
    hide Run, Schedule;
    StaleIff(cfg, Later, ring, m);
    var w := Run(cfg, Later, Init(ring), Schedule(m));
    assert w.h.stream[..m + 2] == w.h.stream;
    if LoadsRight(Later, w.h) { assert LoadRight(Later, w.h, w.h.results[m + 1]); }
  }
}
