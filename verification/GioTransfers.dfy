/**
 A doubleword of a VDMA transfer is never kept waiting for good: exactly when the window takes one,
 and that it takes one within a computed time if memory and ARM keep up.
 */
module GioTransfers {
  import opened Prelude
  import opened Modular
  import opened GioWindow
  import opened GioMeaning
  import opened GioSystem
  import opened GioRing
  import opened GioEndToEnd
  import opened GioProgress
  import opened GioStream

  /** This cycle's record is the doubleword's. */
  predicate Goes(cfg: Cfg, dev: Device, w: World, c: Choice, d: Dword)
    requires cfg.Valid() && w.g.Wf()
  {
    var s, n := Step(cfg, dev, w, c).h.stream, |w.h.stream|;
    |s| == n + 1 && s[..n] == w.h.stream && TellsDma(s[n], d, n + 1)
  }

  /** An offered doubleword is recorded in a cycle if and only if no BEGIN waits, no access is new, none
      is held (or END waits, which holds it back), the queue has room, and the ring has room for one
      more record than are not consumed. */
  lemma GoesIff(cfg: Cfg, dev: Device, w: World, c: Choice, d: Dword)
    requires cfg.Valid() && RingInv(cfg, w) && Program(w.g.f, w.busy, w.h) && c.dma == Some(d)
    ensures Goes(cfg, dev, w, c, d)
            <==> && !w.g.f.beg && (c.cpu.None? || w.busy) && (w.g.f.held.None? || w.g.f.end)
                 && |w.g.q| < 4 && |w.h.stream| - |w.arm.seen| < cfg.ringN
  {
    DmaStep(cfg, dev, w, c);
    hide TellsDma, Step, RecIn, SlotsIntact, Numbered;
    RoomIs(cfg, w, c);
    PickIs(cfg, w, c, d);
    var s, n, e := Step(cfg, dev, w, c).h.stream, |w.h.stream|, RecIn(cfg, w, c);
    assert s[..n] == w.h.stream && (e != [] ==> s[n] == e[0]);
    if Goes(cfg, dev, w, c, d) { OnlyDma(s[n], d, n + 1); }
  }

  lemma OnlyDma(r: Rec, d: Dword, no: nat)
    requires TellsDma(r, d, no)
    ensures r.kind == VDMA_STORE
  {
  }

  lemma RoomIs(cfg: Cfg, w: World, c: Choice)
    requires cfg.Valid() && Counts(cfg, w) && w.g.Wf()
    ensures Room(cfg, w.g, InputsOf(w, c)) <==> |w.g.q| < 4 && |w.h.stream| - |w.arm.seen| < cfg.ringN
  {
    WrapDiff(|w.h.stream|, |w.arm.seen|);
  }

  lemma PickIs(cfg: Cfg, w: World, c: Choice, d: Dword)
    requires c.dma == Some(d)
    ensures DmaReady(cfg, w.g, InputsOf(w, c))
            <==> && !w.g.f.beg && (c.cpu.None? || w.busy) && (w.g.f.held.None? || w.g.f.end)
                 && Room(cfg, w.g, InputsOf(w, c))
  {
  }

  // ---- while it is kept waiting ----

  /** The VDMA offers this doubleword; nothing else is new. */
  predicate Presents(c: Choice, d: Dword) { c.cpu.None? && !c.dmaBegin && !c.dmaEnd && c.dma == Some(d) }

  ghost predicate AllPresent(cs: seq<Choice>, d: Dword) { forall k :: 0 <= k < |cs| ==> Presents(cs[k], d) }

  function Alone(c: Choice): Choice { c.(dma := None) }

  /** The same cycles without the doubleword. */
  function AllAlone(cs: seq<Choice>): (r: seq<Choice>)
    ensures |r| == |cs| && forall k :: 0 <= k < |cs| ==> r[k] == Alone(cs[k])
  {
    seq(|cs|, k requires 0 <= k < |cs| => Alone(cs[k]))
  }

  /** A doubleword that is not taken changes nothing. */
  lemma NotTakenNothing(cfg: Cfg, dev: Device, w: World, c: Choice, d: Dword)
    requires cfg.Valid() && w.g.Wf() && Presents(c, d) && !DmaReady(cfg, w.g, InputsOf(w, c))
    ensures Edge(cfg, w, c) == Edge(cfg, w, Alone(c)) && Step(cfg, dev, w, c) == Step(cfg, dev, w, Alone(c))
  {
    hide NextBack, Room;
    var i, j := InputsOf(w, c), InputsOf(w, Alone(c));
    assert Room(cfg, w.g, i) == Room(cfg, w.g, j) by { SameRoom(cfg, w, c); }
    assert Picked(cfg, w.g, i) == Picked(cfg, w.g, j);
  }

  lemma SameRoom(cfg: Cfg, w: World, c: Choice)
    ensures Room(cfg, w.g, InputsOf(w, c)) == Room(cfg, w.g, InputsOf(w, Alone(c)))
  {
  }

  /** In none of these cycles is it taken. */
  ghost predicate NeverTaken(cfg: Cfg, dev: Device, w: World, cs: seq<Choice>)
    requires cfg.Valid() && w.g.Wf()
  {
    forall k :: 0 <= k < |cs| ==> NotTaken(cfg, Run(cfg, dev, w, cs[..k]), cs[k])
  }

  predicate NotTaken(cfg: Cfg, w: World, c: Choice) { !DmaReady(cfg, w.g, InputsOf(w, c)) }

  lemma {:induction false} SameRun(cfg: Cfg, dev: Device, w: World, cs: seq<Choice>, d: Dword)
    requires cfg.Valid() && w.g.Wf() && AllPresent(cs, d) && NeverTaken(cfg, dev, w, cs)
    ensures Run(cfg, dev, w, cs) == Run(cfg, dev, w, AllAlone(cs))
  {
    hide Step, Edge, NotTaken;
    if cs != [] {
      var m := |cs| - 1;
      var pre := cs[..m];
      ShorterWait(cfg, dev, w, cs, d, m);
      SameRun(cfg, dev, w, pre, d);
      assert AllAlone(cs)[..m] == AllAlone(pre);
      assert NotTaken(cfg, Run(cfg, dev, w, cs[..m]), cs[m]) && Presents(cs[m], d);
      NotTakenIs(cfg, Run(cfg, dev, w, pre), cs[m]);
      NotTakenNothing(cfg, dev, Run(cfg, dev, w, pre), cs[m], d);
    }
  }

  lemma NotTakenIs(cfg: Cfg, w: World, c: Choice)
    ensures NotTaken(cfg, w, c) <==> !DmaReady(cfg, w.g, InputsOf(w, c))
  {
  }

  lemma ShorterWait(cfg: Cfg, dev: Device, w: World, cs: seq<Choice>, d: Dword, m: nat)
    requires cfg.Valid() && w.g.Wf() && AllPresent(cs, d) && NeverTaken(cfg, dev, w, cs) && m <= |cs|
    ensures AllPresent(cs[..m], d) && NeverTaken(cfg, dev, w, cs[..m])
  {
    hide Run, NotTaken, Presents;
    var pre := cs[..m];
    forall k | 0 <= k < m
      ensures NotTaken(cfg, Run(cfg, dev, w, pre[..k]), pre[k])
    {
      assert pre[..k] == cs[..k];
    }
  }

  lemma LaterWait(cfg: Cfg, dev: Device, w: World, cs: seq<Choice>, d: Dword, m: nat)
    requires cfg.Valid() && w.g.Wf() && AllPresent(cs, d) && NeverTaken(cfg, dev, w, cs) && m <= |cs|
    ensures AllPresent(cs[m..], d) && NeverTaken(cfg, dev, Run(cfg, dev, w, cs[..m]), cs[m..])
  {
    hide Run, NotTaken, Presents;
    var v, rest := Run(cfg, dev, w, cs[..m]), cs[m..];
    forall k | 0 <= k < |rest|
      ensures NotTaken(cfg, Run(cfg, dev, v, rest[..k]), rest[k])
    {
      assert cs[..m] + rest[..k] == cs[..m + k];
      RunConcat(cfg, dev, w, cs[..m], rest[..k]);
    }
  }

  /** So a window that is fair with it is fair without it. */
  lemma SameStalls(cfg: Cfg, dev: Device, w: World, cs: seq<Choice>, d: Dword)
    requires cfg.Valid() && w.g.Wf() && AllPresent(cs, d) && NeverTaken(cfg, dev, w, cs)
    ensures AllMemStall(cfg, dev, w, AllAlone(cs)) ==> AllMemStall(cfg, dev, w, cs)
    ensures AllArmStall(cfg, dev, w, AllAlone(cs)) ==> AllArmStall(cfg, dev, w, cs)
  {
    hide Run, Edge, NotTaken, ArmDue, ArmTakes;
    var a := AllAlone(cs);
    forall k | 0 <= k < |cs|
      ensures MemStalls(Run(cfg, dev, w, a[..k]), a[k]) ==> MemStalls(Run(cfg, dev, w, cs[..k]), cs[k])
      ensures ArmStalls(cfg, Run(cfg, dev, w, a[..k]), a[k]) ==> ArmStalls(cfg, Run(cfg, dev, w, cs[..k]), cs[k])
    {
      ShorterWait(cfg, dev, w, cs, d, k);
      SameRun(cfg, dev, w, cs[..k], d);
      assert AllAlone(cs[..k]) == a[..k];
      assert NotTaken(cfg, Run(cfg, dev, w, cs[..k]), cs[k]) && Presents(cs[k], d);
      NotTakenIs(cfg, Run(cfg, dev, w, cs[..k]), cs[k]);
      NotTakenNothing(cfg, dev, Run(cfg, dev, w, cs[..k]), cs[k], d);
    }
  }

  lemma FairAlone(cfg: Cfg, dev: Device, w: World, cs: seq<Choice>, d: Dword, b: nat)
    requires cfg.Valid() && w.g.Wf() && AllPresent(cs, d) && NeverTaken(cfg, dev, w, cs) && Fair(cfg, dev, w, cs, b)
    ensures Fair(cfg, dev, w, AllAlone(cs), b)
  {
    hide Run, AllMemStall, AllArmStall, NeverTaken, AllPresent;
    var a := AllAlone(cs);
    forall n | 0 <= n && n + b <= |a|
      ensures FairWindow(cfg, dev, w, a, b, n)
    {
      assert FairWindow(cfg, dev, w, cs, b, n);
      ShorterWait(cfg, dev, w, cs, d, n);
      SameRun(cfg, dev, w, cs[..n], d);
      LaterWait(cfg, dev, w, cs, d, n);
      var v := Run(cfg, dev, w, cs[..n]);
      ShorterWait(cfg, dev, v, cs[n..], d, b);
      assert cs[n..][..b] == cs[n..n + b];
      SameStalls(cfg, dev, v, cs[n..n + b], d);
      assert AllAlone(cs[..n]) == a[..n] && AllAlone(cs[n..n + b]) == a[n..n + b];
    }
  }

  lemma FairShorter(cfg: Cfg, dev: Device, w: World, cs: seq<Choice>, b: nat, m: nat)
    requires cfg.Valid() && w.g.Wf() && Fair(cfg, dev, w, cs, b) && m <= |cs|
    ensures Fair(cfg, dev, w, cs[..m], b)
  {
    hide Run, AllMemStall, AllArmStall;
    var pre := cs[..m];
    forall n | 0 <= n && n + b <= |pre|
      ensures FairWindow(cfg, dev, w, pre, b, n)
    {
      assert FairWindow(cfg, dev, w, cs, b, n);
      assert pre[..n] == cs[..n] && pre[n..n + b] == cs[n..n + b];
    }
  }

  lemma CalmAlone(cs: seq<Choice>, d: Dword)
    requires AllPresent(cs, d)
    ensures AllCalm(AllAlone(cs))
  {
  }

  // ---- result ----

  /** It is taken at rest. */
  lemma TakenAtRest(cfg: Cfg, w: World, c: Choice, d: Dword)
    requires cfg.Valid() && AtRest(w) && Presents(c, d) && Counts(cfg, w) && w.g.Wf()
    ensures !NotTaken(cfg, w, c)
  {
    RoomIs(cfg, w, c);
    PickIs(cfg, w, c, d);
  }

  lemma CountsOf(cfg: Cfg, dev: Device, w: World)
    requires cfg.Valid() && EndInv(cfg, dev, w)
    ensures w.g.Wf() && Counts(cfg, w) && RingInv(cfg, w) && Program(w.g.f, w.busy, w.h)
  {
  }

  lemma NotForGood(cfg: Cfg, dev: Device, w: World, cs: seq<Choice>, d: Dword, b: nat)
    requires cfg.Valid() && EndInv(cfg, dev, w) && Clear(w.g.f, w.h)
    requires b >= 1 && AllPresent(cs, d) && Fair(cfg, dev, w, cs, b) && |cs| > b * Work(w)
    ensures !NeverTaken(cfg, dev, w, cs)
  {
    CountsOf(cfg, dev, w);
    hide Run, Step, Work, Fair, EndInv, AtRest, Counts, NotTaken, Clear, Presents;
    if NeverTaken(cfg, dev, w, cs) {
      var m := |cs| - 1;
      var pre := cs[..m];
      ShorterWait(cfg, dev, w, cs, d, m);
      FairShorter(cfg, dev, w, cs, b, m);
      FairAlone(cfg, dev, w, pre, d, b);
      SameRun(cfg, dev, w, pre, d);
      CalmAlone(pre, d);
      Settles(cfg, dev, w, AllAlone(pre), b);
      assert Live(cfg, dev, w);
      CalmRun(cfg, dev, w, AllAlone(pre));
      var v := Run(cfg, dev, w, pre);
      assert EndInv(cfg, dev, v);
      CountsOf(cfg, dev, v);
      TakenAtRest(cfg, v, cs[m], d);
      assert false;
    }
  }

  lemma {:induction false} RingRun(cfg: Cfg, dev: Device, w: World, cs: seq<Choice>)
    requires cfg.Valid() && w.g.Wf() && RingInv(cfg, w) && Program(w.g.f, w.busy, w.h)
    ensures var v := Run(cfg, dev, w, cs); RingInv(cfg, v) && Program(v.g.f, v.busy, v.h)
  {
    hide RingInv, Program, Step;
    if cs != [] {
      var pre, c := cs[..|cs| - 1], cs[|cs| - 1];
      RingRun(cfg, dev, w, pre);
      ProgramStep(cfg, dev, Run(cfg, dev, w, pre), c);
      StepKeepsRing(cfg, dev, Run(cfg, dev, w, pre), c);
    }
  }

  /** From every state of the end-to-end invariant in which no awaited or held load aliases: a
      doubleword that the VDMA goes on offering, with no new access or pulse, is recorded within
      b * Work(w) + 1 cycles in which no request of the writer and no work of the ARM goes unserved
      for b cycles. */
  lemma DoublewordGoes(cfg: Cfg, dev: Device, w: World, cs: seq<Choice>, d: Dword, b: nat) returns (k: nat)
    requires cfg.Valid() && EndInv(cfg, dev, w) && Clear(w.g.f, w.h)
    requires b >= 1 && AllPresent(cs, d) && Fair(cfg, dev, w, cs, b) && |cs| > b * Work(w)
    ensures k < |cs| && Goes(cfg, dev, Run(cfg, dev, w, cs[..k]), cs[k], d)
  {
    NotForGood(cfg, dev, w, cs, d, b);
    CountsOf(cfg, dev, w);
    hide Run, Step, Work, Fair, EndInv, RingInv, Program, TellsDma, Clear;
    k :| 0 <= k < |cs| && !NotTaken(cfg, Run(cfg, dev, w, cs[..k]), cs[k]);
    var v := Run(cfg, dev, w, cs[..k]);
    assert Presents(cs[k], d);
    RingRun(cfg, dev, w, cs[..k]);
    NotTakenIs(cfg, v, cs[k]);
    hide Goes, NotTaken;
    TakenGoes(cfg, dev, v, cs[k], d);
  }

  lemma TakenGoes(cfg: Cfg, dev: Device, w: World, c: Choice, d: Dword)
    requires cfg.Valid() && RingInv(cfg, w) && Program(w.g.f, w.busy, w.h)
    requires c.dma == Some(d) && DmaReady(cfg, w.g, InputsOf(w, c))
    ensures Goes(cfg, dev, w, c, d)
  {
    DmaStep(cfg, dev, w, c);
    hide TellsDma, Step, RecIn, RingInv, Program, Picked;
    var s, n, e := Step(cfg, dev, w, c).h.stream, |w.h.stream|, RecIn(cfg, w, c);
    assert s[..n] == w.h.stream && s[n] == e[0];
  }
}
