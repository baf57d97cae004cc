/**
 No stuck state: once the VDMA is quiet, a memory that answers and an ARM that consumes what is
 published and answers READs bring the window to rest, whatever their delays, within a bound
 read off the state.
 */
module GioProgress {
  import opened Prelude
  import opened Modular
  import opened GioWindow
  import opened GioSystem
  import opened GioRing
  import opened GioEndToEnd

  /** Markers and held accesses that have no number yet. */
  function Unnumbered(f: Front): nat
  {
    (if f.beg then 1 else 0) + (if f.end then 1 else 0) + (if f.held.Some? then 1 else 0)
  }

  /** How far the awaited answer is. */
  function AnswerDue(f: Front, arm: Arm, h: Hist): nat
  {
    if f.wait.None? then 0
    else if h.ansNo == h.waitNo then 1
    else if arm.pend.Some? then (if arm.pend.value.stage <= 2 then 4 - arm.pend.value.stage else 4)
    else 5
  }

  /** The writer is idle with something to do. */
  function Idling(g: Regs, unpublished: int): nat
  {
    if g.w.wst == W_IDLE && (g.q != [] || unpublished > 0) then 1 else 0
  }

  /** What numbered records still need: to be written, published and consumed. */
  function Unserved(w: World): int
  {
    5 * |w.g.q| + 3 * (w.W() - w.h.pub) + (w.h.pub - |w.arm.seen|) + Idling(w.g, w.W() - w.h.pub)
  }

  /** Work left. */
  function Work(w: World): int { 12 * Unnumbered(w.g.f) + Unserved(w) + AnswerDue(w.g.f, w.arm, w.h) }

  /** Nothing held, awaited, queued, unpublished or unconsumed. */
  predicate AtRest(w: World)
  {
    && w.g.f.held.None? && w.g.f.wait.None? && !w.g.f.beg && !w.g.f.end && !w.busy
    && w.g.q == [] && w.h.pub == |w.h.stream| == |w.arm.seen|
    && w.g.w.published == w.g.w.written == w.g.f.built == w.arm.cons
  }

  /** No new access and a quiet VDMA; memory and ARM do as they like. */
  predicate Calm(c: Choice) { c.cpu.None? && !c.dmaBegin && !c.dmaEnd && c.dma.None? }

  /** The edge: numbering, writing, publishing and completing only reduce the work, and strictly
      when memory answers a waiting writer or an idle writer has something to do. */
  lemma EdgeWork(cfg: Cfg, dev: Device, w: World, c: Choice)
    requires cfg.Valid() && EndInv(cfg, dev, w) && Distinct(w.g.f, w.h) && Calm(c)
    ensures var m := Edge(cfg, w, c);
            && Work(m) <= Work(w)
            && (HasWork(w) && (w.g.w.wst == W_IDLE || c.rsp) ==> Work(m) < Work(w))
            && (w.g.f.wait.Some? && w.h.ansNo == w.h.waitNo ==> Work(m) < Work(w))
            && (Unnumbered(w.g.f) > 0 && w.g.f.wait.None? && w.g.q == [] && |w.h.stream| == |w.arm.seen| ==>
                  Work(m) < Work(w))
  {
    var m := Edge(cfg, w, c);
    hide EndInv, Edge, Work, Unserved, Unnumbered, AnswerDue, PickedFrom, NextFront, Distinct, RecIn;
    EdgeFrontWork(cfg, dev, w, c);
    EdgeBackWork(cfg, dev, w, c);
    WorkIs(w);
    WorkIs(m);
  }

  lemma WorkIs(w: World)
    ensures Work(w) == 12 * Unnumbered(w.g.f) + Unserved(w) + AnswerDue(w.g.f, w.arm, w.h)
  {
  }

  /** The front end's share of an edge. */
  lemma EdgeFrontWork(cfg: Cfg, dev: Device, w: World, c: Choice)
    requires cfg.Valid() && EndInv(cfg, dev, w) && Distinct(w.g.f, w.h) && Calm(c)
    ensures var m, e := Edge(cfg, w, c), |RecIn(cfg, w, c)|;
            && e <= 1 && Unnumbered(m.g.f) == Unnumbered(w.g.f) - e
            && AnswerDue(m.g.f, m.arm, m.h) <= AnswerDue(w.g.f, w.arm, w.h) + 5 * e
            && (w.g.f.wait.Some? && w.h.ansNo == w.h.waitNo ==>
                  AnswerDue(m.g.f, m.arm, m.h) + 12 * Unnumbered(m.g.f) + 6 * e < AnswerDue(w.g.f, w.arm, w.h)
                    + 12 * Unnumbered(w.g.f))
            && (Unnumbered(w.g.f) > 0 && w.g.f.wait.None? && w.g.q == [] && |w.h.stream| == |w.arm.seen| ==> e == 1)
  {
    var i, m := InputsOf(w, c), Edge(cfg, w, c);
    var p := Picked(cfg, w.g, i);
    EdgeFront(cfg, w, c);
    FrontWork(p, Room(cfg, w.g, i), w.g.f, i, w.arm, w.h, m.h, dev);
    EdgeArm(cfg, w, c);
    if |w.h.stream| == |w.arm.seen| { RoomAtRest(cfg, w, i); }
    EnqueuedOne(p, w.g.f, i);
    hide Edge, NextFront, Serving, LoadsRight, Program, RingInv, AnswerDue, Unnumbered, PickedFrom, EndInv;
  }

  lemma EdgeArm(cfg: Cfg, w: World, c: Choice)
    requires cfg.Valid() && w.g.Wf()
    ensures Edge(cfg, w, c).arm == w.arm
  {
  }

  /** The writer's share of an edge. */
  lemma EdgeBackWork(cfg: Cfg, dev: Device, w: World, c: Choice)
    requires cfg.Valid() && EndInv(cfg, dev, w)
    ensures var m, e := Edge(cfg, w, c), |RecIn(cfg, w, c)|;
            && Unserved(m) <= Unserved(w) + 6 * e
            && (HasWork(w) && (w.g.w.wst == W_IDLE || c.rsp) ==> Unserved(m) < Unserved(w) + 6 * e)
  {
    hide Edge, NextBack, Unserved, RecIn, LoadsRight, Program, Serving;
    EdgeMoves(cfg, w, c);
    BackAfter(cfg, w, c);
    BackWork(cfg, w, Edge(cfg, w, c), RecIn(cfg, w, c), c.rsp);
  }

  lemma EnqueuedOne(p: Pick, f: Front, i: Inputs)
    requires Offers(p, f, i)
    ensures |Enqueued(p, f, i)| == if p == PickNone then 0 else 1
  {
  }

  lemma RoomAtRest(cfg: Cfg, w: World, i: Inputs)
    requires cfg.Valid() && Counts(cfg, w) && i.cons == w.arm.cons && |w.h.stream| == |w.arm.seen|
    ensures w.g.q == [] ==> Room(cfg, w.g, i)
  {
    WrapDiff(|w.h.stream|, |w.arm.seen|);
  }

  /** Something is queued, or written and unpublished. */
  predicate HasWork(w: World) { w.g.q != [] || w.W() != w.h.pub }

  /** Numbering one item costs at most what it leaves for the queue and the answer. */
  lemma FrontWork(p: Pick, room: bool, f: Front, i: Inputs, arm: Arm, h: Hist, h': Hist, dev: Device)
    requires p == PickedFrom(room, f, i) && i.sel.None? && i.dma.None? && !i.dmaBegin && !i.dmaEnd
    requires i.ansSeq == arm.ansSeq && Serving(dev, f, arm, h) && Distinct(f, h) && !(f.held.Some? && f.wait.Some?)
    requires h'.ansNo == h.ansNo && (if StartsWait(p, f, i) then h'.waitNo == |h.stream| + 1 else h'.waitNo == h.waitNo)
    ensures var f' := NextFront(p, f, i);
            var numbered := if p == PickNone then 0 else 1;
            && Unnumbered(f') == Unnumbered(f) - numbered
            && AnswerDue(f', arm, h') <= AnswerDue(f, arm, h) + (if StartsWait(p, f, i) then 5 else 0)
            && (f.wait.Some? && h.ansNo == h.waitNo ==> AnswerDue(f', arm, h') < AnswerDue(f, arm, h))
            && (StartsWait(p, f, i) ==> p == PickHeld)
            && (Unnumbered(f) > 0 && room ==> p != PickNone)
  {
    if f.wait.Some? { AnsweredIff(dev, f, arm, h, i); }
  }

  /** The writer's share of the work: it shrinks whenever the writer moves. */
  lemma BackWork(cfg: Cfg, w: World, m: World, e: seq<Rec>, rsp: bool)
    requires cfg.Valid() && Counts(cfg, w) && WriterOk(cfg, w)
    requires Moved(cfg, w, m, e, Dequeued(w.g.w, rsp), w.g.w.wst == W_PROD && rsp)
             && m.g.w == NextBack(cfg, w.g.q, w.g.w, rsp)
    ensures Unserved(m) <= Unserved(w) + 6 * |e|
    ensures HasWork(w) && (w.g.w.wst == W_IDLE || rsp) ==> Unserved(m) < Unserved(w) + 6 * |e|
  {
    hide HasRead, Wrap32;
    PublishedIff(cfg, w);
    assert |m.g.q| == |w.g.q| - Dequeued(w.g.w, rsp) + |e|;
  }

  lemma PublishedIff(cfg: Cfg, w: World)
    requires cfg.Valid() && Counts(cfg, w) && WriterOk(cfg, w)
    ensures w.g.w.published == w.g.w.written <==> w.h.pub == w.W()
  {
    WrapDiff(w.W(), w.h.pub);
  }

  /** The ARM has something to answer or to consume. */
  predicate ArmDue(w: World) { w.arm.pend.Some? || w.arm.cons != w.mem.index }

  /** And this is the move. */
  predicate ArmTakes(w: World, a: ArmAct)
  {
    if w.arm.pend.Some? then a == Answer else w.arm.cons != w.mem.index && a == Consume
  }

  /** The ARM: no move adds work, and a due one reduces it. */
  lemma ArmWork(cfg: Cfg, dev: Device, w: World, a: ArmAct)
    requires cfg.Valid() && EndInv(cfg, dev, w)
    ensures var w' := ArmMove(cfg, dev, w, a);
            && Work(w') <= Work(w)
            && (ArmTakes(w, a) ==> Work(w') < Work(w))
            && (!ArmTakes(w, a) ==> w'.arm == w.arm)
  {
    hide RingInv, Program, LoadsRight, Serving, Unserved, Unnumbered, AnswerDue, ArmMove;
    ArmUnserved(cfg, dev, w, a);
    ArmAnswers(cfg, dev, w, a);
    ArmFront(cfg, dev, w, a);
  }

  lemma ArmFront(cfg: Cfg, dev: Device, w: World, a: ArmAct)
    requires cfg.Valid() && RingInv(cfg, w)
    ensures ArmMove(cfg, dev, w, a).g == w.g && (!ArmTakes(w, a) ==> ArmMove(cfg, dev, w, a).arm == w.arm)
  {
    hide RingInv;
  }

  /** Consuming serves a record. */
  lemma ArmUnserved(cfg: Cfg, dev: Device, w: World, a: ArmAct)
    requires cfg.Valid() && RingInv(cfg, w)
    ensures var w' := ArmMove(cfg, dev, w, a);
            if ArmTakes(w, a) && a == Consume then Unserved(w') == Unserved(w) - 1 else Unserved(w') == Unserved(w)
  {
    RingLength(cfg, w);
    hide RingInv, Idling;
  }

  lemma RingLength(cfg: Cfg, w: World)
    requires cfg.Valid() && RingInv(cfg, w)
    ensures w.arm.cons % cfg.ringN < |w.mem.ring|
  {
    DivMod(w.arm.cons, cfg.ringN);
  }

  /** Answering brings the awaited answer nearer. */
  lemma ArmAnswers(cfg: Cfg, dev: Device, w: World, a: ArmAct)
    requires cfg.Valid() && Serving(dev, w.g.f, w.arm, w.h)
    ensures var w' := ArmMove(cfg, dev, w, a);
            && AnswerDue(w'.g.f, w'.arm, w'.h) <= AnswerDue(w.g.f, w.arm, w.h)
            && (ArmTakes(w, a) && a == Answer ==> AnswerDue(w'.g.f, w'.arm, w'.h) < AnswerDue(w.g.f, w.arm, w.h))
  {
    hide Wrap32;
  }

  /** The index is ahead of the doorbell exactly while published records are unconsumed. */
  lemma IndexBehind(cfg: Cfg, w: World)
    requires cfg.Valid() && Counts(cfg, w)
    ensures w.arm.cons != w.mem.index <==> |w.arm.seen| < w.h.pub
  {
    if |w.arm.seen| < w.h.pub { IndexAhead(cfg, w); }
  }

  /** Unconsumed published records show in the index, despite its 32 bits. */
  lemma IndexAhead(cfg: Cfg, w: World)
    requires cfg.Valid() && Counts(cfg, w) && |w.arm.seen| < w.h.pub
    ensures w.arm.cons != w.mem.index
  {
    WrapDiff(w.h.pub, |w.arm.seen|);
  }

  lemma EdgeKeepsArm(cfg: Cfg, w: World, c: Choice)
    requires cfg.Valid() && RingInv(cfg, w)
    ensures Edge(cfg, w, c).arm == w.arm && Edge(cfg, w, c).h.pub >= w.h.pub
  {
    EdgeMoves(cfg, w, c);
  }

  lemma CountsFacts(cfg: Cfg, w: World)
    requires cfg.Valid() && RingInv(cfg, w)
    ensures |w.arm.seen| <= w.h.pub <= w.W() && Work(w) >= 0
    ensures w.g.w.wst != W_IDLE ==> HasWork(w)
  {
  }

  /** Short of rest there is something in the queue, unpublished, unconsumed, being answered,
      or still to be numbered. */
  lemma NothingElse(cfg: Cfg, dev: Device, w: World)
    requires cfg.Valid() && EndInv(cfg, dev, w) && !AtRest(w)
    requires w.g.q == [] && w.W() == w.h.pub == |w.arm.seen| && w.arm.pend.None?
    requires w.g.f.wait.Some? ==> w.h.ansNo != w.h.waitNo
    ensures w.g.f.wait.None? && Unnumbered(w.g.f) > 0 && |w.h.stream| == |w.arm.seen|
  {
  }

  /** An idle writer stays idle exactly when everything numbered is written and published. */
  lemma IdleMeansPublished(cfg: Cfg, w: World)
    requires cfg.Valid() && RingInv(cfg, w) && w.g.w.wst == W_IDLE
    ensures NextBack(cfg, w.g.q, w.g.w, false).wst == W_IDLE
            <==> w.g.w.published == w.g.w.written == w.g.f.built && w.g.q == []
  {
  }

  /** No work left is rest, with every issued access completed. */
  lemma RestIff(cfg: Cfg, dev: Device, w: World)
    requires cfg.Valid() && EndInv(cfg, dev, w)
    ensures AtRest(w) <==> Work(w) == 0
    ensures AtRest(w) ==> |w.h.results| == |w.h.issued|
  {
    CountsFacts(cfg, w);
  }

  // ---- schedules ----

  /** Memory owes the writer an answer and does not give it. */
  predicate MemStalls(w: World, c: Choice) { w.g.w.wst != W_IDLE && !c.rsp }

  /** The ARM has something to do and does not do it. */
  predicate ArmStalls(cfg: Cfg, w: World, c: Choice)
    requires w.g.Wf() && cfg.Valid()
  {
    ArmDue(Edge(cfg, w, c)) && !ArmTakes(Edge(cfg, w, c), c.arm)
  }

  ghost predicate AllMemStall(cfg: Cfg, dev: Device, w: World, cs: seq<Choice>)
    requires w.g.Wf() && cfg.Valid()
  {
    forall k :: 0 <= k < |cs| ==> MemStalls(Run(cfg, dev, w, cs[..k]), cs[k])
  }

  ghost predicate AllArmStall(cfg: Cfg, dev: Device, w: World, cs: seq<Choice>)
    requires w.g.Wf() && cfg.Valid()
  {
    forall k :: 0 <= k < |cs| ==> ArmStalls(cfg, Run(cfg, dev, w, cs[..k]), cs[k])
  }

  /** In the b cycles from cycle n on, memory does not leave a request unanswered throughout, nor
      the ARM its work undone throughout. */
  ghost predicate FairWindow(cfg: Cfg, dev: Device, w: World, cs: seq<Choice>, b: nat, n: nat)
    requires w.g.Wf() && cfg.Valid() && n + b <= |cs|
  {
    var v := Run(cfg, dev, w, cs[..n]);
    !AllMemStall(cfg, dev, v, cs[n..n + b]) && !AllArmStall(cfg, dev, v, cs[n..n + b])
  }

  ghost predicate Fair(cfg: Cfg, dev: Device, w: World, cs: seq<Choice>, b: nat)
    requires w.g.Wf() && cfg.Valid()
  {
    forall n :: 0 <= n && n + b <= |cs| ==> FairWindow(cfg, dev, w, cs, b, n)
  }

  ghost predicate AllCalm(cs: seq<Choice>) { forall k :: 0 <= k < |cs| ==> Calm(cs[k]) }

  /** No load aliases: neither the one awaited, nor a held one under the number it will get. */
  predicate Clear(f: Front, h: Hist)
  {
    && Distinct(f, h)
    && (f.held.Some? && f.held.value.isRead ==> (|h.stream| + Unnumbered(f) - h.ansNo) % TWO32 != 0)
  }

  ghost predicate Live(cfg: Cfg, dev: Device, w: World)
    requires cfg.Valid()
  {
    EndInv(cfg, dev, w) && Clear(w.g.f, w.h)
  }

  // ---- one cycle ----

  /** Numbering an item uses up one that was waiting for a number, and a held load gets the number
      that was foreseen. */
  lemma FrontStaysClear(p: Pick, room: bool, f: Front, i: Inputs, arm: Arm, h: Hist, h': Hist, dev: Device)
    requires p == PickedFrom(room, f, i) && i.sel.None? && i.dma.None? && !i.dmaBegin && !i.dmaEnd
    requires i.ansSeq == arm.ansSeq && Serving(dev, f, arm, h) && Clear(f, h) && !(f.held.Some? && f.wait.Some?)
    requires h'.ansNo == h.ansNo && (if StartsWait(p, f, i) then h'.waitNo == |h.stream| + 1 else h'.waitNo == h.waitNo)
    requires |h'.stream| == |h.stream| + if p == PickNone then 0 else 1
    ensures Clear(NextFront(p, f, i), h')
  {
  }

  /** The ARM's answer is the awaited one's. */
  lemma ArmStaysClear(cfg: Cfg, dev: Device, w: World, a: ArmAct)
    requires cfg.Valid() && Serving(dev, w.g.f, w.arm, w.h) && Clear(w.g.f, w.h)
             && !(w.g.f.held.Some? && w.g.f.wait.Some?)
    ensures var w' := ArmMove(cfg, dev, w, a); Clear(w'.g.f, w'.h)
  {
  }

  lemma CalmStaysClear(cfg: Cfg, dev: Device, w: World, c: Choice)
    requires cfg.Valid() && Live(cfg, dev, w) && Calm(c)
    ensures var w' := Step(cfg, dev, w, c); Clear(w'.g.f, w'.h)
  {
    var i, m := InputsOf(w, c), Edge(cfg, w, c);
    hide Edge, ArmMove, Serving, LoadsRight, RingInv, Clear, NextFront, PickedFrom;
    var p := Picked(cfg, w.g, i);
    ClearDistinct(w.g.f, w.h);
    EdgeFront(cfg, w, c);
    EnqueuedOne(p, w.g.f, i);
    FrontStaysClear(p, Room(cfg, w.g, i), w.g.f, i, w.arm, w.h, m.h, dev);
    EdgeKeepsEnd(cfg, dev, w, c);
    ArmStaysClear(cfg, dev, m, c.arm);
    StepIs(cfg, dev, w, c);
  }

  lemma ClearDistinct(f: Front, h: Hist)
    requires Clear(f, h)
    ensures Distinct(f, h)
  {
  }

  /** A calm cycle adds no work, and takes some away when memory answers, an idle writer has
      something to do, the ARM does what is due, or only the front end has anything left. */
  lemma CalmStep(cfg: Cfg, dev: Device, w: World, c: Choice)
    requires cfg.Valid() && Live(cfg, dev, w) && Calm(c)
    ensures var w' := Step(cfg, dev, w, c);
            && Live(cfg, dev, w') && 0 <= Work(w') <= Work(w)
            && (HasWork(w) && !MemStalls(w, c) ==> Work(w') < Work(w))
            && (ArmTakes(Edge(cfg, w, c), c.arm) ==> Work(w') < Work(w))
            && (!AtRest(w) && !HasWork(w) && !ArmDue(w) ==> Work(w') < Work(w))
  {
    LiveWork(cfg, dev, w);
    hide EndInv, Work, ArmMove, Edge, AtRest, Distinct;
    ClearDistinct(w.g.f, w.h);
    EdgeWork(cfg, dev, w, c);
    EdgeKeepsEnd(cfg, dev, w, c);
    ArmWork(cfg, dev, Edge(cfg, w, c), c.arm);
    StepKeepsEnd(cfg, dev, w, c);
    CalmStaysClear(cfg, dev, w, c);
    WorkIsNat(cfg, dev, Step(cfg, dev, w, c));
    StepIs(cfg, dev, w, c);
    FrontOnly(cfg, dev, w);
  }

  lemma WorkIsNat(cfg: Cfg, dev: Device, w: World)
    requires cfg.Valid() && EndInv(cfg, dev, w)
    ensures Work(w) >= 0
  {
    CountsFacts(cfg, w);
  }

  /** With nothing for writer and ARM to do, short of rest: an answer to take, or a number to give. */
  lemma FrontOnly(cfg: Cfg, dev: Device, w: World)
    requires cfg.Valid() && EndInv(cfg, dev, w)
    ensures !AtRest(w) && !HasWork(w) && !ArmDue(w) ==>
              || (w.g.f.wait.Some? && w.h.ansNo == w.h.waitNo)
              || (Unnumbered(w.g.f) > 0 && w.g.f.wait.None? && w.g.q == [] && |w.h.stream| == |w.arm.seen|)
  {
    CountsFacts(cfg, w);
    IndexBehind(cfg, w);
    if !AtRest(w) && !HasWork(w) && !ArmDue(w) && (w.g.f.wait.Some? ==> w.h.ansNo != w.h.waitNo) {
      NothingElse(cfg, dev, w);
    }
  }

  // ---- one window ----

  lemma {:induction false} CalmRun(cfg: Cfg, dev: Device, w: World, cs: seq<Choice>)
    requires cfg.Valid() && Live(cfg, dev, w) && AllCalm(cs)
    ensures var v := Run(cfg, dev, w, cs);
            Live(cfg, dev, v) && 0 <= Work(v) <= Work(w)
  {
    LiveWork(cfg, dev, w);
    hide Live, Work, Step;
    if cs != [] {
      CalmRun(cfg, dev, w, cs[..|cs| - 1]);
      CalmStep(cfg, dev, Run(cfg, dev, w, cs[..|cs| - 1]), cs[|cs| - 1]);
    }
  }

  lemma LiveWork(cfg: Cfg, dev: Device, w: World)
    requires cfg.Valid() && Live(cfg, dev, w)
    ensures w.g.Wf() && Work(w) >= 0
  {
    CountsFacts(cfg, w);
  }

  /** A writer that waits for memory throughout, or work done. */
  lemma {:induction false} WriterHolds(cfg: Cfg, dev: Device, w: World, cs: seq<Choice>)
    requires cfg.Valid() && Live(cfg, dev, w) && AllCalm(cs) && w.g.w.wst != W_IDLE
    ensures var v := Run(cfg, dev, w, cs);
            Work(v) < Work(w) || (AllMemStall(cfg, dev, w, cs) && v.g.w.wst != W_IDLE)
  {
    hide Live, Work, Step, EndInv, AllMemStall, AtRest, ArmTakes, ArmDue, Edge, HasWork;
    LiveWork(cfg, dev, w);
    NoStalls(cfg, dev, w);
    if cs != [] {
      var pre, c := cs[..|cs| - 1], cs[|cs| - 1];
      var v := Run(cfg, dev, w, pre);
      WriterHolds(cfg, dev, w, pre);
      CalmRun(cfg, dev, w, pre);
      CalmStep(cfg, dev, v, c);
      LiveHasWork(cfg, dev, v);
      if Work(v) >= Work(w) && MemStalls(v, c) {
        StallHolds(cfg, dev, v, c);
        MemStallMore(cfg, dev, w, pre, c);
        assert pre + [c] == cs;
      }
    }
  }

  lemma NoStalls(cfg: Cfg, dev: Device, w: World)
    requires cfg.Valid() && w.g.Wf()
    ensures AllMemStall(cfg, dev, w, []) && AllArmStall(cfg, dev, w, [])
  {
  }

  lemma MemStallMore(cfg: Cfg, dev: Device, w: World, cs: seq<Choice>, c: Choice)
    requires cfg.Valid() && w.g.Wf() && AllMemStall(cfg, dev, w, cs) && MemStalls(Run(cfg, dev, w, cs), c)
    ensures AllMemStall(cfg, dev, w, cs + [c])
  {
    hide Run, MemStalls;
    var more := cs + [c];
    forall k | 0 <= k < |more|
      ensures MemStalls(Run(cfg, dev, w, more[..k]), more[k])
    {
      assert more[..k] == cs[..k];
      if k == |cs| { assert cs[..k] == cs; }
    }
  }

  lemma ArmStallMore(cfg: Cfg, dev: Device, w: World, cs: seq<Choice>, c: Choice)
    requires cfg.Valid() && w.g.Wf() && AllArmStall(cfg, dev, w, cs) && ArmStalls(cfg, Run(cfg, dev, w, cs), c)
    ensures AllArmStall(cfg, dev, w, cs + [c])
  {
    hide Run, ArmStalls;
    var more := cs + [c];
    forall k | 0 <= k < |more|
      ensures ArmStalls(cfg, Run(cfg, dev, w, more[..k]), more[k])
    {
      assert more[..k] == cs[..k];
      if k == |cs| { assert cs[..k] == cs; }
    }
  }

  lemma LiveHasWork(cfg: Cfg, dev: Device, w: World)
    requires cfg.Valid() && Live(cfg, dev, w)
    ensures w.g.w.wst != W_IDLE ==> HasWork(w)
  {
    CountsFacts(cfg, w);
  }

  lemma StallHolds(cfg: Cfg, dev: Device, w: World, c: Choice)
    requires cfg.Valid() && w.g.Wf() && MemStalls(w, c)
    ensures Step(cfg, dev, w, c).g.w.wst != W_IDLE
  {
  }

  /** An ARM whose work is left undone throughout, or work done. */
  lemma {:induction false} ArmHolds(cfg: Cfg, dev: Device, w: World, cs: seq<Choice>)
    requires cfg.Valid() && Live(cfg, dev, w) && AllCalm(cs) && ArmDue(w)
    ensures var v := Run(cfg, dev, w, cs);
            Work(v) < Work(w) || (AllArmStall(cfg, dev, w, cs) && ArmDue(v))
  {
    hide Live, Work, Step, EndInv, ArmDue, ArmTakes, Edge, AllArmStall, AtRest, MemStalls, HasWork;
    LiveWork(cfg, dev, w);
    NoStalls(cfg, dev, w);
    if cs != [] {
      var pre, c := cs[..|cs| - 1], cs[|cs| - 1];
      var v := Run(cfg, dev, w, pre);
      ArmHolds(cfg, dev, w, pre);
      CalmRun(cfg, dev, w, pre);
      CalmStep(cfg, dev, v, c);
      if Work(v) >= Work(w) && !ArmTakes(Edge(cfg, v, c), c.arm) {
        DueHolds(cfg, dev, v, c);
        ArmStallMore(cfg, dev, w, pre, c);
        assert pre + [c] == cs;
      }
    }
  }

  /** What the ARM owes it goes on owing until it moves. */
  lemma DueHolds(cfg: Cfg, dev: Device, w: World, c: Choice)
    requires cfg.Valid() && Live(cfg, dev, w) && ArmDue(w) && !ArmTakes(Edge(cfg, w, c), c.arm)
    ensures ArmDue(Edge(cfg, w, c)) && ArmDue(Step(cfg, dev, w, c))
  {
    EdgeKeepsArm(cfg, w, c);
    EdgeCounts(cfg, w, c);
    IndexBehind(cfg, w);
    IndexBehind(cfg, Edge(cfg, w, c));
    UntakenMove(cfg, dev, Edge(cfg, w, c), c.arm);
  }

  lemma UntakenMove(cfg: Cfg, dev: Device, w: World, a: ArmAct)
    requires cfg.Valid() && !ArmTakes(w, a)
    ensures ArmMove(cfg, dev, w, a).arm == w.arm && ArmMove(cfg, dev, w, a).mem == w.mem
  {
  }

  /** A fair window of a busy state does work. */
  lemma WindowWorks(cfg: Cfg, dev: Device, w: World, cs: seq<Choice>)
    requires cfg.Valid() && Live(cfg, dev, w) && AllCalm(cs) && cs != [] && !AtRest(w)
    requires !AllMemStall(cfg, dev, w, cs) && !AllArmStall(cfg, dev, w, cs)
    ensures Work(Run(cfg, dev, w, cs)) < Work(w)
  {
    hide Live, Work, EndInv, AtRest, AllMemStall, AllArmStall, ArmDue, HasWork, Step;
    if w.g.w.wst != W_IDLE {
      WriterHolds(cfg, dev, w, cs);
    } else if !HasWork(w) && ArmDue(w) {
      ArmHolds(cfg, dev, w, cs);
    } else {
      CalmStep(cfg, dev, w, cs[0]);
      LaterWork(cfg, dev, w, cs);
    }
  }

  lemma LaterWork(cfg: Cfg, dev: Device, w: World, cs: seq<Choice>)
    requires cfg.Valid() && Live(cfg, dev, w) && AllCalm(cs) && cs != []
    ensures Work(Run(cfg, dev, w, cs)) <= Work(Step(cfg, dev, w, cs[0]))
  {
    hide Live, Work, Step, Run, EndInv, AtRest, ArmTakes, ArmDue, HasWork, MemStalls, Edge;
    LiveWork(cfg, dev, w);
    CalmStep(cfg, dev, w, cs[0]);
    assert cs == [cs[0]] + cs[1..];
    RunConcat(cfg, dev, w, [cs[0]], cs[1..]);
    OneStep(cfg, dev, w, cs[0]);
    CalmRun(cfg, dev, Step(cfg, dev, w, cs[0]), cs[1..]);
  }

  lemma OneStep(cfg: Cfg, dev: Device, w: World, c: Choice)
    requires cfg.Valid() && w.g.Wf()
    ensures Run(cfg, dev, w, [c]) == Step(cfg, dev, w, c)
  {
    assert [c][..0] == [];
  }

  // ---- every fair run ----

  /** A fair calm run of b cycles per unit of work leaves none. */
  lemma {:induction false} WorksOff(cfg: Cfg, dev: Device, w: World, cs: seq<Choice>, b: nat)
    requires cfg.Valid() && w.g.Wf() && Live(cfg, dev, w)
    requires b >= 1 && AllCalm(cs) && Fair(cfg, dev, w, cs, b) && |cs| >= b * Work(w)
    ensures Work(Run(cfg, dev, w, cs)) == 0
    decreases Work(w)
  {
    hide Live, Work, AtRest, FairWindow, Step, Run;
    CalmRun(cfg, dev, w, cs);
    if Work(w) > 0 {
      OnceOrMore(Work(w), b);
      FirstWindow(cfg, dev, w, cs, b);
      var v := Run(cfg, dev, w, cs[..b]);
      CalmRun(cfg, dev, w, cs[..b]);
      RestFair(cfg, dev, w, cs, b);
      LessTimes(b, Work(v), Work(w));
      WorksOff(cfg, dev, v, cs[b..], b);
      assert cs[..b] + cs[b..] == cs;
      RunConcat(cfg, dev, w, cs[..b], cs[b..]);
    }
  }

  /** From every state of the end-to-end invariant in which no awaited or held load aliases, in
      every run without new accesses in which no request of the writer and no work of the ARM goes
      unserved for b cycles: after b * Work(w) cycles the window is at rest and every access has
      completed, whatever the delays below b. */
  lemma Settles(cfg: Cfg, dev: Device, w: World, cs: seq<Choice>, b: nat)
    requires cfg.Valid() && EndInv(cfg, dev, w) && Clear(w.g.f, w.h)
    requires b >= 1 && AllCalm(cs) && Fair(cfg, dev, w, cs, b) && |cs| >= b * Work(w)
    ensures var v := Run(cfg, dev, w, cs);
            AtRest(v) && |v.h.results| == |v.h.issued|
  {
    assert Live(cfg, dev, w);
    WorksOff(cfg, dev, w, cs, b);
    hide EndInv, Work, AtRest, Fair, Step, Run;
    CalmRun(cfg, dev, w, cs);
    RestIff(cfg, dev, Run(cfg, dev, w, cs));
  }

  lemma FirstWindow(cfg: Cfg, dev: Device, w: World, cs: seq<Choice>, b: nat)
    requires cfg.Valid() && w.g.Wf() && Live(cfg, dev, w) && AllCalm(cs) && Work(w) > 0
    requires b >= 1 && |cs| >= b && Fair(cfg, dev, w, cs, b)
    ensures Work(Run(cfg, dev, w, cs[..b])) < Work(w)
  {
    NotAtRest(cfg, dev, w);
    hide Live, Work, AtRest, Step, AllMemStall, AllArmStall;
    assert FairWindow(cfg, dev, w, cs, b, 0);
    assert cs[..0] == [] && cs[0..b] == cs[..b];
    WindowWorks(cfg, dev, w, cs[..b]);
  }

  lemma NotAtRest(cfg: Cfg, dev: Device, w: World)
    requires cfg.Valid() && Live(cfg, dev, w) && Work(w) > 0
    ensures !AtRest(w)
  {
    RestIff(cfg, dev, w);
  }

  /** The rest of a fair run is fair. */
  lemma RestFair(cfg: Cfg, dev: Device, w: World, cs: seq<Choice>, b: nat)
    requires cfg.Valid() && w.g.Wf() && |cs| >= b && Fair(cfg, dev, w, cs, b)
    ensures Fair(cfg, dev, Run(cfg, dev, w, cs[..b]), cs[b..], b)
  {
    hide Run, AllMemStall, AllArmStall;
    var v, rest := Run(cfg, dev, w, cs[..b]), cs[b..];
    forall n | 0 <= n && n + b <= |rest|
      ensures FairWindow(cfg, dev, v, rest, b, n)
    {
      assert FairWindow(cfg, dev, w, cs, b, b + n);
      assert cs[..b] + rest[..n] == cs[..b + n];
      RunConcat(cfg, dev, w, cs[..b], rest[..n]);
      assert rest[n..n + b] == cs[b + n..b + n + b];
    }
  }

  // ---- the promptest schedule ----

  /** Memory answers at once, the ARM does in every cycle what is due. */
  function Help(w: World): Choice
  {
    Choice(None, false, false, None, true, if w.arm.pend.Some? then Answer else Consume)
  }

  function Helped(cfg: Cfg, dev: Device, w: World, n: nat): (cs: seq<Choice>)
    requires w.g.Wf() && cfg.Valid()
    ensures |cs| == n
  {
    if n == 0 then [] else
      var pre := Helped(cfg, dev, w, n - 1);
      pre + [Help(Run(cfg, dev, w, pre))]
  }

  lemma {:induction false} HelpedFair(cfg: Cfg, dev: Device, w: World, n: nat)
    requires cfg.Valid() && w.g.Wf()
    ensures AllCalm(Helped(cfg, dev, w, n)) && Fair(cfg, dev, w, Helped(cfg, dev, w, n), 1)
  {
    hide Run, ArmStalls, MemStalls;
    var cs := Helped(cfg, dev, w, n);
    forall k | 0 <= k < n
      ensures Calm(cs[k]) && FairWindow(cfg, dev, w, cs, 1, k)
    {
      HelpedAt(cfg, dev, w, n, k);
      var v := Run(cfg, dev, w, cs[..k]);
      HelpNeverStalls(cfg, v);
      assert cs[k..k + 1] == [cs[k]];
      OneCycle(cfg, dev, v, cs[k]);
    }
  }

  lemma OneCycle(cfg: Cfg, dev: Device, w: World, c: Choice)
    requires cfg.Valid() && w.g.Wf() && !MemStalls(w, c) && !ArmStalls(cfg, w, c)
    ensures !AllMemStall(cfg, dev, w, [c]) && !AllArmStall(cfg, dev, w, [c])
  {
    hide ArmStalls, MemStalls;
    assert [c][..0] == [] && [c][0] == c;
  }

  lemma {:induction false} HelpedAt(cfg: Cfg, dev: Device, w: World, n: nat, k: nat)
    requires cfg.Valid() && w.g.Wf() && k < n
    ensures var cs := Helped(cfg, dev, w, n); cs[k] == Help(Run(cfg, dev, w, cs[..k]))
  {
    hide Run;
    var cs, pre := Helped(cfg, dev, w, n), Helped(cfg, dev, w, n - 1);
    assert cs[..n - 1] == pre;
    if k < n - 1 {
      HelpedAt(cfg, dev, w, n - 1, k);
      assert cs[..k] == pre[..k];
    }
  }

  lemma HelpNeverStalls(cfg: Cfg, w: World)
    requires cfg.Valid() && w.g.Wf()
    ensures !MemStalls(w, Help(w)) && !ArmStalls(cfg, w, Help(w))
  {
  }

  /** So at best the window rests within Work(w) cycles. */
  lemma SettlesAtOnce(cfg: Cfg, dev: Device, w: World)
    requires cfg.Valid() && EndInv(cfg, dev, w) && Clear(w.g.f, w.h)
    ensures Work(w) >= 0
    ensures var v := Run(cfg, dev, w, Helped(cfg, dev, w, Work(w)));
            AtRest(v) && |v.h.results| == |v.h.issued|
  {
    WorkIsNat(cfg, dev, w);
    HelpedFair(cfg, dev, w, Work(w));
    Settles(cfg, dev, w, Helped(cfg, dev, w, Work(w)), 1);
  }
}
