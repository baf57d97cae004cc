/**
 Transfer markers: every VDMA doubleword lies between its own BEGIN and END, and processor
 accesses are recorded on the right side of both. The exact condition is that a transfer's
 BEGIN is out by the time its end pulse arrives; one doubleword is enough for that.
 */
module GioMarkers {
  import opened Prelude
  import opened GioWindow
  import opened GioSystem
  import opened GioRing
  import opened GioEndToEnd

  predicate IsBegin(r: Rec) { r.kind == MARKER && r.mask == 1 }
  predicate IsEnd(r: Rec) { r.kind == MARKER && r.mask == 0 }

  datatype Phase = Outside | Inside | Broken

  /** The bracket grammar: BEGIN, doublewords, END, over and over. */
  function Advance(ph: Phase, r: Rec): Phase
  {
    if IsBegin(r) then (if ph == Outside then Inside else Broken)
    else if IsEnd(r) then (if ph == Inside then Outside else Broken)
    else if r.kind == VDMA_STORE then (if ph == Inside then Inside else Broken)
    else if IsCpu(r) then ph
    else Broken
  }

  function PhaseOf(stream: seq<Rec>): Phase
  {
    if stream == [] then Outside else Advance(PhaseOf(stream[..|stream| - 1]), stream[|stream| - 1])
  }

  function Begins(stream: seq<Rec>): nat
  {
    if stream == [] then 0 else Begins(stream[..|stream| - 1]) + (if IsBegin(stream[|stream| - 1]) then 1 else 0)
  }

  function Ends(stream: seq<Rec>): nat
  {
    if stream == [] then 0 else Ends(stream[..|stream| - 1]) + (if IsEnd(stream[|stream| - 1]) then 1 else 0)
  }

  lemma AppendRec(stream: seq<Rec>, e: seq<Rec>)
    requires |e| <= 1
    ensures PhaseOf(stream + e) == if e == [] then PhaseOf(stream) else Advance(PhaseOf(stream), e[0])
    ensures Begins(stream + e) == Begins(stream) + (if e != [] && IsBegin(e[0]) then 1 else 0)
    ensures Ends(stream + e) == Ends(stream) + (if e != [] && IsEnd(e[0]) then 1 else 0)
  {
    if e == [] { assert stream + e == stream; } else { assert (stream + e)[..|stream|] == stream; }
  }

  // ---- the VDMA source ----

  /** Between transfers, or in one with so many doublewords taken. */
  datatype Source = Between | Transfer(taken: nat)

  /** The pulses and the valid line of the VDMA engine: doublewords only after the begin cycle;
      the end pulse after the last one. The window would take the next begin pulse in the same
      cycle, which the memory controller never raises, so that is allowed too. */
  predicate Legal(s: Source, c: Choice)
  {
    match s
    case Between => c.dma.None? && !c.dmaEnd
    case Transfer(_) => (c.dmaBegin ==> c.dmaEnd) && (c.dmaEnd ==> c.dma.None?)
  }

  /** A transfer that ends has moved a doubleword. */
  predicate NonEmpty(s: Source, c: Choice) { c.dmaEnd ==> s.Transfer? && s.taken >= 1 }

  /** At an end pulse the transfer's BEGIN is queued, or enters the queue in this very cycle. */
  predicate BeginOut(cfg: Cfg, w: World, c: Choice)
  {
    c.dmaEnd && w.g.f.beg ==> Picked(cfg, w.g, InputsOf(w, c)) == PickBegin
  }

  /** Pulses so far, and as they stood when each access was issued. */
  datatype Marks = Marks(begins: nat, ends: nat, atIssue: seq<(nat, nat)>)

  function NextSource(src: Source, i: Inputs, taken: bool): Source
  {
    if i.dmaBegin then Transfer(0)
    else if i.dmaEnd then Between
    else if src.Transfer? && taken then Transfer(src.taken + 1)
    else src
  }

  function NextMarks(marks: Marks, i: Inputs): Marks
  {
    Marks(marks.begins + (if i.dmaBegin then 1 else 0), marks.ends + (if i.dmaEnd then 1 else 0),
          marks.atIssue + (if i.sel.Some? then [(marks.begins, marks.ends)] else []))
  }

  datatype Marked = Marked(w: World, src: Source, marks: Marks)

  /** Before the first cycle. */
  function Start(ring: seq<Rec>): (x: Marked)
    ensures x.w.g.Wf()
  {
    Marked(Init(ring), Between, Marks(0, 0, []))
  }

  function MarkStep(cfg: Cfg, dev: Device, x: Marked, c: Choice): (x': Marked)
    requires x.w.g.Wf() && cfg.Valid()
    ensures x'.w.g.Wf()
  {
    var i := InputsOf(x.w, c);
    Marked(Step(cfg, dev, x.w, c), NextSource(x.src, i, DmaReady(cfg, x.w.g, i)), NextMarks(x.marks, i))
  }

  /** What the pending markers, the source and the stream have to do with each other. */
  predicate Bracketed(f: Front, src: Source, ph: Phase)
  {
    match src
    case Between => !f.beg && ph == (if f.end then Inside else Outside)
    case Transfer(taken) =>
      if f.beg then taken == 0 && ph == (if f.end then Inside else Outside)
      else !f.end && ph == Inside
  }

  /** Every recorded access comes after the markers of all pulses that preceded its issue. */
  predicate Sided(h: Hist, marks: Marks)
  {
    var nos := CpuNos(h.stream);
    && |marks.atIssue| == |h.issued|
    && (forall k :: 0 <= k < |h.issued| ==> marks.atIssue[k].0 <= marks.begins && marks.atIssue[k].1 <= marks.ends)
    && |nos| <= |h.issued|
    && (forall k :: 0 <= k < |nos| ==> AfterMarkers(h.stream, nos[k], marks.atIssue[k]))
  }

  predicate AfterMarkers(stream: seq<Rec>, no: nat, pulses: (nat, nat))
  {
    1 <= no <= |stream| && pulses.0 <= Begins(stream[..no - 1]) && pulses.1 <= Ends(stream[..no - 1])
  }

  predicate MarkCore(f: Front, busy: bool, h: Hist, src: Source, marks: Marks)
  {
    && HeldIsLast(f, h) && (busy <==> f.held.Some? || f.wait.Some?) && !(f.held.Some? && f.wait.Some?)
    && Bracketed(f, src, PhaseOf(h.stream))
    && Begins(h.stream) + (if f.beg then 1 else 0) == marks.begins
    && Ends(h.stream) + (if f.end then 1 else 0) == marks.ends
    && Sided(h, marks)
    && |CpuNos(h.stream)| + (if f.held.Some? then 1 else 0) == |h.issued|
  }

  predicate MarkInv(x: Marked) { MarkCore(x.w.g.f, x.w.busy, x.w.h, x.src, x.marks) }

  lemma MarkInit(ring: seq<Rec>)
    ensures MarkInv(Start(ring))
  {
  }

  // ---- one cycle ----

  /** The record of a cycle, by its source. */
  lemma QueuedKind(p: Pick, f: Front, i: Inputs, h: Hist)
    requires HeldIsLast(f, h) && Offers(p, f, i) && (f.held.Some? ==> i.sel.None?)
    ensures var e := Enqueued(p, f, i);
            && |e| <= 1 && (e == [] <==> p == PickNone)
            && (e != [] ==> (p == PickBegin <==> IsBegin(e[0])) && (p == PickEnd <==> IsEnd(e[0]))
                            && (p == PickDma <==> e[0].kind == VDMA_STORE)
                            && (p == PickNew || p == PickHeld <==> IsCpu(e[0])))
  {
  }

  lemma BracketStep(p: Pick, room: bool, f: Front, i: Inputs, src: Source, ph: Phase)
    requires p == PickedFrom(room, f, i) && Bracketed(f, src, ph)
    requires match src case Between => i.dma.None? && !i.dmaEnd
                       case Transfer(_) => (i.dmaBegin ==> i.dmaEnd) && (i.dmaEnd ==> i.dma.None?)
    requires i.dmaEnd && f.beg ==> p == PickBegin
    ensures var ph' := if p == PickBegin then (if ph == Outside then Inside else Broken)
                       else if p == PickEnd then (if ph == Inside then Outside else Broken)
                       else if p == PickDma then (if ph == Inside then Inside else Broken) else ph;
            var src' := if i.dmaBegin then Transfer(0) else if i.dmaEnd then Between
                        else if src.Transfer? && p == PickDma then Transfer(src.taken + 1) else src;
            Bracketed(NextFront(p, f, i), src', ph')
  {
  }

  lemma SidedStep(h: Hist, h': Hist, e: seq<Rec>, marks: Marks, i: Inputs)
    requires Sided(h, marks) && |e| <= 1 && h'.stream == h.stream + e
    requires h'.issued == h.issued + (if i.sel.Some? then [i.sel.value] else [])
    requires |CpuNos(h'.stream)| <= |h'.issued|
    requires e != [] && IsCpu(e[0]) ==> Begins(h.stream) == marks.begins && Ends(h.stream) == marks.ends
    ensures Sided(h', NextMarks(marks, i))
  {
    hide Begins, Ends, CpuNos, AfterMarkers;
    CpuNosAppend(h.stream, e);
    var nos, nos' := CpuNos(h.stream), CpuNos(h'.stream);
    var marks' := NextMarks(marks, i);
    forall k | 0 <= k < |nos'|
      ensures AfterMarkers(h'.stream, nos'[k], marks'.atIssue[k])
    {
      if k < |nos| {
        assert AfterMarkers(h.stream, nos[k], marks.atIssue[k]);
        StillAfter(h.stream, e, nos[k], marks.atIssue[k]);
      } else {
        NowAfter(h.stream, e, marks'.atIssue[k]);
      }
    }
  }

  lemma StillAfter(stream: seq<Rec>, e: seq<Rec>, no: nat, pulses: (nat, nat))
    requires AfterMarkers(stream, no, pulses)
    ensures AfterMarkers(stream + e, no, pulses)
  {
    hide Begins, Ends;
    assert (stream + e)[..no - 1] == stream[..no - 1];
  }

  lemma NowAfter(stream: seq<Rec>, e: seq<Rec>, pulses: (nat, nat))
    requires |e| == 1 && pulses.0 <= Begins(stream) && pulses.1 <= Ends(stream)
    ensures AfterMarkers(stream + e, |stream| + 1, pulses)
  {
    hide Begins, Ends;
    assert (stream + e)[..|stream|] == stream;
  }

  lemma CountsOfMarks(p: Pick, f: Front, f': Front, busy: bool, busy': bool, i: Inputs, h: Hist, h': Hist)
    requires FrontMoved(p, f, f', busy, busy', i, h, h') && HeldIsLast(f, h) && (f.held.Some? ==> busy)
    requires (p == PickBegin ==> f.beg) && (p == PickEnd ==> f.end)
    requires (i.dmaBegin ==> !f.beg || p == PickBegin) && (i.dmaEnd ==> !f.end || p == PickEnd)
    ensures Begins(h'.stream) + (if f'.beg then 1 else 0)
            == Begins(h.stream) + (if f.beg then 1 else 0) + (if i.dmaBegin then 1 else 0)
    ensures Ends(h'.stream) + (if f'.end then 1 else 0)
            == Ends(h.stream) + (if f.end then 1 else 0) + (if i.dmaEnd then 1 else 0)
    ensures |CpuNos(h'.stream)| + (if f'.held.Some? then 1 else 0) == |CpuNos(h.stream)|
            + (if f.held.Some? then 1 else 0)
              + (|h'.issued| - |h.issued|)
    ensures HeldIsLast(f', h')
  {
    var e := Enqueued(p, f, i);
    QueuedKind(p, f, i, h);
    AppendRec(h.stream, e);
    CpuNosAppend(h.stream, e);
  }

  lemma MarkCoreStep(p: Pick, room: bool, f: Front, f': Front, busy: bool, busy': bool, i: Inputs, h: Hist, h': Hist,
                     src: Source, marks: Marks)
    requires MarkCore(f, busy, h, src, marks) && p == PickedFrom(room, f, i)
    requires FrontMoved(p, f, f', busy, busy', i, h, h')
    requires match src case Between => i.dma.None? && !i.dmaEnd
                       case Transfer(_) => (i.dmaBegin ==> i.dmaEnd) && (i.dmaEnd ==> i.dma.None?)
    requires i.dmaEnd && f.beg ==> p == PickBegin
    ensures MarkCore(f', busy', h', NextSource(src, i, p == PickDma), NextMarks(marks, i))
  {
    QueuedKind(p, f, i, h);
    AppendRec(h.stream, Enqueued(p, f, i));
    BracketStep(p, room, f, i, src, PhaseOf(h.stream));
    PulseRules(p, room, f, i, src, PhaseOf(h.stream));
    CountsOfMarks(p, f, f', busy, busy', i, h, h');
    SidedStep(h, h', Enqueued(p, f, i), marks, i);
    BusyTracks(p, f, f', busy, busy', i, h, h');
  }

  lemma MarkStepKeeps(cfg: Cfg, dev: Device, x: Marked, c: Choice)
    requires cfg.Valid() && x.w.g.Wf() && MarkInv(x) && Legal(x.src, c) && BeginOut(cfg, x.w, c)
    ensures MarkInv(MarkStep(cfg, dev, x, c))
  {
    var i := InputsOf(x.w, c);
    var p := Picked(cfg, x.w.g, i);
    var m := Edge(cfg, x.w, c);
    EdgeFront(cfg, x.w, c);
    MarkCoreStep(p, Room(cfg, x.w.g, i), x.w.g.f, m.g.f, x.w.busy, m.busy, i, x.w.h, m.h, x.src, x.marks);
    ArmLeavesFront(cfg, dev, m, c.arm);
  }

  lemma BusyTracks(p: Pick, f: Front, f': Front, busy: bool, busy': bool, i: Inputs, h: Hist, h': Hist)
    requires busy <==> f.held.Some? || f.wait.Some?
    requires FrontMoved(p, f, f', busy, busy', i, h, h') && !(f.held.Some? && f.wait.Some?)
    ensures (busy' <==> f'.held.Some? || f'.wait.Some?) && !(f'.held.Some? && f'.wait.Some?)
  {
  }

  lemma PulseRules(p: Pick, room: bool, f: Front, i: Inputs, src: Source, ph: Phase)
    requires p == PickedFrom(room, f, i) && Bracketed(f, src, ph)
    requires match src case Between => i.dma.None? && !i.dmaEnd
                       case Transfer(_) => (i.dmaBegin ==> i.dmaEnd) && (i.dmaEnd ==> i.dma.None?)
    requires i.dmaEnd && f.beg ==> p == PickBegin
    ensures (p == PickBegin ==> f.beg && !f.end) && (p == PickEnd ==> f.end)
    ensures (i.dmaBegin ==> !f.beg || p == PickBegin) && (i.dmaEnd ==> !f.end || p == PickEnd)
    ensures p == PickNew || p == PickHeld ==> !f.beg && !f.end
  {
  }

  lemma ArmLeavesFront(cfg: Cfg, dev: Device, w: World, a: ArmAct)
    requires cfg.Valid()
    ensures var w' := ArmMove(cfg, dev, w, a);
            && w'.g == w.g && w'.busy == w.busy && w'.h.stream == w.h.stream && w'.h.issued == w.h.issued
            && w'.h.results == w.h.results && w'.h.waitNo == w.h.waitNo
  {
  }

  function MarkRun(cfg: Cfg, dev: Device, x: Marked, cs: seq<Choice>): (x': Marked)
    requires x.w.g.Wf() && cfg.Valid()
    ensures x'.w.g.Wf()
  {
    if cs == [] then x else MarkStep(cfg, dev, MarkRun(cfg, dev, x, cs[..|cs| - 1]), cs[|cs| - 1])
  }

  /** Every cycle of the run obeys the source's protocol. */
  predicate LegalRun(cfg: Cfg, dev: Device, x: Marked, cs: seq<Choice>)
    requires x.w.g.Wf() && cfg.Valid()
  {
    cs == [] ||
    (var pre := cs[..|cs| - 1];
     LegalRun(cfg, dev, x, pre) && Legal(MarkRun(cfg, dev, x, pre).src, cs[|cs| - 1]))
  }

  /** ... and each transfer's BEGIN is out by its end pulse. */
  predicate Orderly(cfg: Cfg, dev: Device, x: Marked, cs: seq<Choice>)
    requires x.w.g.Wf() && cfg.Valid()
  {
    cs == [] ||
    (var pre := cs[..|cs| - 1];
     Orderly(cfg, dev, x, pre)
     && Legal(MarkRun(cfg, dev, x, pre).src, cs[|cs| - 1])
     && BeginOut(cfg, MarkRun(cfg, dev, x, pre).w, cs[|cs| - 1]))
  }

  /** A doubleword in each transfer is enough: it is taken only once BEGIN is out. */
  lemma NonEmptySuffices(cfg: Cfg, x: Marked, c: Choice)
    requires MarkInv(x) && x.w.g.Wf() && NonEmpty(x.src, c)
    ensures BeginOut(cfg, x.w, c)
  {
  }

  /** In every cycle the source keeps its protocol, and every transfer that ends has moved a
      doubleword: the VDMA engine's own account of what was taken. */
  predicate NonEmptyTransfers(cfg: Cfg, dev: Device, x: Marked, cs: seq<Choice>)
    requires x.w.g.Wf() && cfg.Valid()
  {
    cs == [] ||
    (var pre := cs[..|cs| - 1];
     NonEmptyTransfers(cfg, dev, x, pre)
     && Legal(MarkRun(cfg, dev, x, pre).src, cs[|cs| - 1]) && NonEmpty(MarkRun(cfg, dev, x, pre).src, cs[|cs| - 1]))
  }

  /** In every orderly run, also with a full queue and back-to-back transfers: BEGIN and END
      alternate and every doubleword lies between its own pair; a processor access issued after
      a begin or end pulse is recorded after that marker. */
  lemma {:induction false} MarkersBracket(cfg: Cfg, dev: Device, ring: seq<Rec>, cs: seq<Choice>)
    requires cfg.Valid() && Orderly(cfg, dev, Start(ring), cs)
    ensures var x := MarkRun(cfg, dev, Start(ring), cs);
            MarkInv(x) && PhaseOf(x.w.h.stream) != Broken
  {
    var x0 := Start(ring);
    if cs == [] {
      MarkInit(ring);
    } else {
      var pre := cs[..|cs| - 1];
      MarkersBracket(cfg, dev, ring, pre);
      MarkStepKeeps(cfg, dev, MarkRun(cfg, dev, x0, pre), cs[|cs| - 1]);
    }
  }

  /** Every run of transfers that each move a doubleword is orderly, so it is bracketed. */
  lemma {:induction false} NonEmptyTransfersBracket(cfg: Cfg, dev: Device, ring: seq<Rec>, cs: seq<Choice>)
    requires cfg.Valid() && NonEmptyTransfers(cfg, dev, Start(ring), cs)
    ensures Orderly(cfg, dev, Start(ring), cs)
    ensures var x := MarkRun(cfg, dev, Start(ring), cs);
            MarkInv(x) && PhaseOf(x.w.h.stream) != Broken
  {
    var x0 := Start(ring);
    if cs != [] {
      hide MarkStep, MarkInv, Legal;
      var pre := cs[..|cs| - 1];
      NonEmptyTransfersBracket(cfg, dev, ring, pre);
      NonEmptySuffices(cfg, MarkRun(cfg, dev, x0, pre), cs[|cs| - 1]);
    }
    MarkersBracket(cfg, dev, ring, cs);
  }

  // ---- the failing family: an end pulse that overtakes its BEGIN ----

  /** In every legal cycle from a bracketed state the brackets are kept if and only if no end pulse
      arrives while its BEGIN is still to come out. */
  lemma BracketsIff(cfg: Cfg, dev: Device, x: Marked, c: Choice)
    requires cfg.Valid() && x.w.g.Wf() && MarkInv(x) && Legal(x.src, c)
    ensures MarkInv(MarkStep(cfg, dev, x, c)) <==> BeginOut(cfg, x.w, c)
  {
    if BeginOut(cfg, x.w, c) { MarkStepKeeps(cfg, dev, x, c); } else { OvertakesBreaks(cfg, dev, x, c); }
  }

  predicate BracketedAfter(cfg: Cfg, dev: Device, x: Marked, cs: seq<Choice>, k: nat)
    requires x.w.g.Wf() && cfg.Valid() && k <= |cs|
  {
    MarkInv(MarkRun(cfg, dev, x, cs[..k]))
  }

  /** After every cycle of the run, and before the first, the brackets are kept. */
  ghost predicate BracketedThroughout(cfg: Cfg, dev: Device, x: Marked, cs: seq<Choice>)
    requires x.w.g.Wf() && cfg.Valid()
  {
    forall k :: 0 <= k <= |cs| ==> BracketedAfter(cfg, dev, x, cs, k)
  }

  lemma OneMoreBracketed(cfg: Cfg, dev: Device, x: Marked, cs: seq<Choice>)
    requires x.w.g.Wf() && cfg.Valid() && cs != []
    ensures BracketedThroughout(cfg, dev, x, cs)
            <==> BracketedThroughout(cfg, dev, x, cs[..|cs| - 1]) && MarkInv(MarkRun(cfg, dev, x, cs))
  {
    hide MarkRun, MarkInv, BracketedAfter;
    var pre := cs[..|cs| - 1];
    forall k | 0 <= k <= |pre|
      ensures BracketedAfter(cfg, dev, x, cs, k) == BracketedAfter(cfg, dev, x, pre, k)
    {
      SamePrefixBracketed(cfg, dev, x, cs, k);
    }
    WholeBracketed(cfg, dev, x, cs);
  }

  lemma SamePrefixBracketed(cfg: Cfg, dev: Device, x: Marked, cs: seq<Choice>, k: nat)
    requires x.w.g.Wf() && cfg.Valid() && k < |cs|
    ensures BracketedAfter(cfg, dev, x, cs, k) == BracketedAfter(cfg, dev, x, cs[..|cs| - 1], k)
  {
    hide MarkRun, MarkInv;
    assert cs[..k] == cs[..|cs| - 1][..k];
  }

  lemma WholeBracketed(cfg: Cfg, dev: Device, x: Marked, cs: seq<Choice>)
    requires x.w.g.Wf() && cfg.Valid()
    ensures BracketedAfter(cfg, dev, x, cs, |cs|) == MarkInv(MarkRun(cfg, dev, x, cs))
  {
    hide MarkRun, MarkInv;
    assert cs[..|cs|] == cs;
  }

  lemma LastBracketed(cfg: Cfg, dev: Device, x: Marked, cs: seq<Choice>)
    requires x.w.g.Wf() && cfg.Valid() && BracketedThroughout(cfg, dev, x, cs)
    ensures MarkInv(MarkRun(cfg, dev, x, cs))
  {
    hide MarkRun, MarkInv, BracketedAfter;
    WholeBracketed(cfg, dev, x, cs);
  }

  /** A legal run keeps the brackets throughout if and only if it is orderly. */
  lemma {:induction false} OrderlyIff(cfg: Cfg, dev: Device, ring: seq<Rec>, cs: seq<Choice>)
    requires cfg.Valid() && LegalRun(cfg, dev, Start(ring), cs)
    ensures var x0 := Start(ring);
            Orderly(cfg, dev, x0, cs) <==> BracketedThroughout(cfg, dev, x0, cs)
  {
    hide MarkStep, MarkInv, Legal, BeginOut, BracketedThroughout;
    var x0 := Start(ring);
    if cs == [] {
      NothingYet(cfg, dev, ring);
    } else {
      var pre, c := cs[..|cs| - 1], cs[|cs| - 1];
      OrderlyIff(cfg, dev, ring, pre);
      OneMoreBracketed(cfg, dev, x0, cs);
      if BracketedThroughout(cfg, dev, x0, pre) {
        LastBracketed(cfg, dev, x0, pre);
        BracketsIff(cfg, dev, MarkRun(cfg, dev, x0, pre), c);
      }
    }
  }

  lemma NothingYet(cfg: Cfg, dev: Device, ring: seq<Rec>)
    requires cfg.Valid()
    ensures BracketedThroughout(cfg, dev, Start(ring), [])
  {
    MarkInit(ring);
  }

  /** Both markers wait, outside a transfer: the BEGIN of an ended, empty transfer is not out. */
  predicate Inverted(w: World) { w.g.f.beg && w.g.f.end && PhaseOf(w.h.stream) == Outside }

  /** An end pulse has merged into the END of the transfer before it, which was still waiting. */
  predicate EndLost(x: Marked) { Ends(x.w.h.stream) + (if x.w.g.f.end then 1 else 0) < x.marks.ends }

  /** A begin pulse has merged into a BEGIN that was still waiting. */
  predicate BeginLost(x: Marked) { Begins(x.w.h.stream) + (if x.w.g.f.beg then 1 else 0) < x.marks.begins }

  /** What an overtaking end pulse does, and nothing else does in a bracketed state: if the END
      before it waits and stays, the pulse is lost; otherwise END and BEGIN both wait, the wrong
      way round. A begin pulse in the same cycle, should there be one, is lost too. */
  lemma InvertsIff(cfg: Cfg, dev: Device, x: Marked, c: Choice)
    requires cfg.Valid() && x.w.g.Wf() && MarkInv(x) && Legal(x.src, c)
    ensures var x', out := MarkStep(cfg, dev, x, c), BeginOut(cfg, x.w, c);
            var endStays := x.w.g.f.end && Picked(cfg, x.w.g, InputsOf(x.w, c)) != PickEnd;
            && (Inverted(x'.w) <==> !out && !endStays)
            && (EndLost(x') <==> !out && endStays)
            && (BeginLost(x') <==> !out && c.dmaBegin)
            && (!out ==> !MarkInv(x'))
  {
    if BeginOut(cfg, x.w, c) { MarkStepKeeps(cfg, dev, x, c); } else { OvertakesBreaks(cfg, dev, x, c); }
  }

  lemma OvertakesBreaks(cfg: Cfg, dev: Device, x: Marked, c: Choice)
    requires cfg.Valid() && x.w.g.Wf() && MarkInv(x) && Legal(x.src, c) && !BeginOut(cfg, x.w, c)
    ensures var x' := MarkStep(cfg, dev, x, c);
            var endStays := x.w.g.f.end && Picked(cfg, x.w.g, InputsOf(x.w, c)) != PickEnd;
            && !MarkInv(x') && (Inverted(x'.w) <==> !endStays) && (EndLost(x') <==> endStays)
            && (BeginLost(x') <==> c.dmaBegin)
  {
    var i := InputsOf(x.w, c);
    var p := Picked(cfg, x.w.g, i);
    EdgeFront(cfg, x.w, c);
    QueuedKind(p, x.w.g.f, i, x.w.h);
    AppendRec(x.w.h.stream, Enqueued(p, x.w.g.f, i));
    ArmLeavesFront(cfg, dev, Edge(cfg, x.w, c), c.arm);
  }

  /** From there the next record queued is END, whatever happens, and the brackets are broken. */
  lemma {:induction false} InvertedBreaks(cfg: Cfg, dev: Device, w: World, cs: seq<Choice>)
    requires cfg.Valid() && w.g.Wf() && Inverted(w)
    ensures var w' := Run(cfg, dev, w, cs);
            (Inverted(w') && w'.h.stream == w.h.stream) || PhaseOf(w'.h.stream) == Broken
  {
    if cs != [] {
      hide Step, PhaseOf;
      var pre, c := cs[..|cs| - 1], cs[|cs| - 1];
      InvertedBreaks(cfg, dev, w, pre);
      var v := Run(cfg, dev, w, pre);
      BrokenStep(cfg, dev, v, c);
    }
  }

  /** Nothing but END leaves an inverted state, and a broken stream stays broken. */
  lemma BrokenStep(cfg: Cfg, dev: Device, v: World, c: Choice)
    requires cfg.Valid() && v.g.Wf() && (Inverted(v) || PhaseOf(v.h.stream) == Broken)
    ensures var v' := Step(cfg, dev, v, c);
            if Inverted(v) then (Inverted(v') && v'.h.stream == v.h.stream) || PhaseOf(v'.h.stream) == Broken
            else PhaseOf(v'.h.stream) == Broken
  {
    hide Step, Edge, ArmMove, PhaseOf, FrontMoved, PickedFrom;
    var i, m := InputsOf(v, c), Edge(cfg, v, c);
    EdgeFront(cfg, v, c);
    BrokenFront(Picked(cfg, v.g, i), Room(cfg, v.g, i), v.g.f, m.g.f, v.busy, m.busy, i, v.h, m.h);
    ArmLeavesFront(cfg, dev, m, c.arm);
    StepIs(cfg, dev, v, c);
  }

  lemma BrokenFront(p: Pick, room: bool, f: Front, f': Front, busy: bool, busy': bool, i: Inputs, h: Hist, h': Hist)
    requires FrontMoved(p, f, f', busy, busy', i, h, h') && p == PickedFrom(room, f, i)
    requires (f.beg && f.end && PhaseOf(h.stream) == Outside) || PhaseOf(h.stream) == Broken
    ensures PhaseOf(h'.stream) == Broken
            || (PhaseOf(h.stream) == Outside && f'.beg && f'.end && h'.stream == h.stream
                  && PhaseOf(h'.stream) == Outside)
  {
    hide PhaseOf, Begins, Ends;
    AppendRec(h.stream, Enqueued(p, f, i));
    assert h.stream + [] == h.stream;
  }

  // ---- concrete failing runs ----

  const A_STORE := Choice(Some(Cpu(true, false, 0, 0xff, 0, 0, 0)), false, false, None, false, Rest)
  const QUIET := Choice(None, false, false, None, false, Rest)
  const BEGIN_PULSE := Choice(None, true, false, None, false, Rest)
  const END_PULSE := Choice(None, false, true, None, false, Rest)

  /** As the VDMA engine spaces its pulses: no end pulse together with a begin pulse, or within two
      cycles of one. */
  predicate Spaced(cs: seq<Choice>)
  {
    forall k :: 0 <= k < |cs| && cs[k].dmaEnd ==>
      k >= 3 && !cs[k].dmaBegin && !cs[k - 1].dmaBegin && !cs[k - 2].dmaBegin
  }

  /** An idle processor, a memory that has not answered yet and an ARM at rest: records queued,
      where the stream stands, the markers that wait, the source, and the end pulses so far. */
  datatype Spot = Spot(queued: nat, ph: Phase, beg: bool, end: bool, src: Source, ends: nat)

  predicate Stage(x: Marked, s: Spot)
  {
    var f := x.w.g.f;
    && x.w.g.Wf() && !x.w.busy && f.held.None? && f.wait.None? && f.beg == s.beg && f.end == s.end
    && |x.w.g.q| == f.built == s.queued && x.w.arm.cons == 0
    && PhaseOf(x.w.h.stream) == s.ph && Ends(x.w.h.stream) == 0 && x.src == s.src && x.marks.ends == s.ends
  }

  /** One cycle of such a run: a store or a waiting BEGIN is queued, or pulses come while nothing can be. */
  predicate Goes(s: Spot, c: Choice, s': Spot)
  {
    && Legal(s.src, c)
    && if c == A_STORE then s.queued < QN && !s.beg && !s.end && s.ph != Broken && s' == s.(queued := s.queued + 1)
       else if c == QUIET && s.queued < QN && s.beg then
         !s.end && s.ph == Outside && s' == s.(queued := s.queued + 1, beg := false, ph := Inside)
       else
         && c in [QUIET, BEGIN_PULSE, END_PULSE] && (s.queued == QN || (!s.beg && !s.end))
         && s' == s.(beg := s.beg || c.dmaBegin, end := s.end || c.dmaEnd, ends := s.ends + if c.dmaEnd then 1 else 0,
                     src := if c.dmaBegin then Transfer(0) else if c.dmaEnd then Between else s.src)
  }

  /** Pulses alone, with the queue full or no marker waiting. */
  lemma StagePulse(cfg: Cfg, dev: Device, x: Marked, s: Spot, c: Choice, s': Spot)
    requires cfg.Valid() && Stage(x, s) && Goes(s, c, s') && c.cpu.None? && (s.queued == QN || (!s.beg && !s.end))
    ensures Stage(MarkStep(cfg, dev, x, c), s')
  {
    var i := InputsOf(x.w, c);
    EdgeFront(cfg, x.w, c);
    AppendRec(x.w.h.stream, Enqueued(Picked(cfg, x.w.g, i), x.w.g.f, i));
  }

  /** With no memory answer and an ARM at rest, the record of the cycle joins the queue. */
  lemma QueueGrows(cfg: Cfg, dev: Device, w: World, c: Choice)
    requires cfg.Valid() && w.g.Wf() && !c.rsp && c.arm == Rest
    ensures var w' := Step(cfg, dev, w, c);
            && w' == Edge(cfg, w, c) && w'.arm == w.arm && w'.g.q == w.g.q + RecIn(cfg, w, c)
  {
  }

  /** What a record of the given source does to the front end and the stream of a stage. */
  lemma StageMoved(p: Pick, f: Front, f': Front, busy': bool, i: Inputs, h: Hist, h': Hist, ph: Phase)
    requires FrontMoved(p, f, f', false, busy', i, h, h') && f.held.None? && f.wait.None? && !f.end && ph != Broken
    requires !i.dmaBegin && !i.dmaEnd && PhaseOf(h.stream) == ph && f.built < QN
    requires if f.beg then p == PickBegin && ph == Outside && i.sel.None?
             else p == PickNew && i.sel.Some? && i.sel.value.isStore
    ensures !busy' && f'.held.None? && f'.wait.None? && !f'.beg && !f'.end && f'.built == f.built + 1
    ensures PhaseOf(h'.stream) == (if f.beg then Inside else ph) && Ends(h'.stream) == Ends(h.stream)
  {
    hide PhaseOf, Ends, Begins;
    AppendRec(h.stream, Enqueued(p, f, i));
  }

  /** A BEGIN goes out, or a store is taken. */
  lemma StageRecord(cfg: Cfg, dev: Device, x: Marked, s: Spot, c: Choice, s': Spot)
    requires cfg.Valid() && Stage(x, s) && Goes(s, c, s') && s.queued < QN && (c == A_STORE || s.beg)
    ensures Stage(MarkStep(cfg, dev, x, c), s')
  {
    hide Step, Edge, PhaseOf, Ends, FrontMoved, NextFront;
    var i := InputsOf(x.w, c);
    var w' := Step(cfg, dev, x.w, c);
    QueueGrows(cfg, dev, x.w, c);
    EdgeFront(cfg, x.w, c);
    StageMoved(Picked(cfg, x.w.g, i), x.w.g.f, w'.g.f, w'.busy, i, x.w.h, w'.h, s.ph);
  }

  lemma StageStep(cfg: Cfg, dev: Device, x: Marked, s: Spot, c: Choice, s': Spot)
    requires cfg.Valid() && Stage(x, s) && Goes(s, c, s')
    ensures Legal(x.src, c) && Stage(MarkStep(cfg, dev, x, c), s')
  {
    hide MarkStep, PhaseOf, Ends;
    if s.queued < QN && (c == A_STORE || s.beg) {
      StageRecord(cfg, dev, x, s, c, s');
    } else {
      StagePulse(cfg, dev, x, s, c, s');
    }
  }

  const FIRST := Spot(0, Outside, false, false, Between, 0)

  /** A run given by its stages. */
  lemma {:induction false} StageRun(cfg: Cfg, dev: Device, ring: seq<Rec>, cs: seq<Choice>, spots: seq<Spot>)
    requires cfg.Valid() && |spots| == |cs| + 1 && spots[0] == FIRST
    requires forall k :: 0 <= k < |cs| ==> Goes(spots[k], cs[k], spots[k + 1])
    ensures var x0 := Start(ring);
            LegalRun(cfg, dev, x0, cs) && Stage(MarkRun(cfg, dev, x0, cs), spots[|cs|])
  {
    var x0 := Start(ring);
    if cs == [] {
      assert Stage(x0, FIRST);
    } else {
      hide MarkStep, Stage, Goes, Legal;
      var m := |cs| - 1;
      StageRun(cfg, dev, ring, cs[..m], spots[..m + 1]);
      StageStep(cfg, dev, MarkRun(cfg, dev, x0, cs[..m]), spots[m], cs[m], spots[m + 1]);
    }
  }

  /** Four stores, then a transfer of no doublewords. */
  const INVERTING: seq<Choice> :=
    [A_STORE, QUIET, A_STORE, QUIET, A_STORE, QUIET, A_STORE, QUIET, BEGIN_PULSE, QUIET, QUIET, END_PULSE]

  /** It meets a full queue, and its END is queued before its BEGIN. */
  lemma EmptyTransferInverts(cfg: Cfg, dev: Device, ring: seq<Rec>)
    requires cfg.Valid()
    ensures var x0 := Start(ring);
            Spaced(INVERTING) && LegalRun(cfg, dev, x0, INVERTING) && Inverted(MarkRun(cfg, dev, x0, INVERTING).w)
  {
    hide MarkRun, LegalRun, Stage, Inverted, EndLost, Goes;
    var spots := InvertingSpots();
    StageRun(cfg, dev, ring, INVERTING, spots);
    StageFails(MarkRun(cfg, dev, Start(ring), INVERTING), spots[12]);
  }

  lemma StageFails(x: Marked, s: Spot)
    requires Stage(x, s) && s.beg && s.end
    ensures (s.ph == Outside ==> Inverted(x.w)) && (s.ends == 2 ==> EndLost(x))
  {
  }

  lemma InvertingSpots() returns (spots: seq<Spot>)
    ensures |spots| == |INVERTING| + 1 == 13 && spots[0] == FIRST
            && spots[12] == Spot(4, Outside, true, true, Between, 1)
    ensures forall k :: 0 <= k < |INVERTING| ==> Goes(spots[k], INVERTING[k], spots[k + 1])
  {
    var s0 := FIRST;
    var s1, s2, s3 := s0.(queued := 1), s0.(queued := 2), s0.(queued := 3);
    var s4 := s0.(queued := 4);
    var s5 := s4.(beg := true, src := Transfer(0));
    var s6 := Spot(4, Outside, true, true, Between, 1);
    spots := [s0, s1, s1, s2, s2, s3, s3, s4, s4, s5, s5, s5, s6];
  }

  /** Three stores, then two empty transfers. */
  const LOSING: seq<Choice> :=
    [A_STORE, QUIET, A_STORE, QUIET, A_STORE, QUIET, BEGIN_PULSE, QUIET, QUIET, END_PULSE,
     QUIET, QUIET, QUIET, BEGIN_PULSE, QUIET, QUIET, END_PULSE]

  /** The first BEGIN fills the queue and its END waits; the second END merges into it. */
  lemma BackToBackLosesEnd(cfg: Cfg, dev: Device, ring: seq<Rec>)
    requires cfg.Valid()
    ensures var x0 := Start(ring);
            Spaced(LOSING) && LegalRun(cfg, dev, x0, LOSING) && EndLost(MarkRun(cfg, dev, x0, LOSING))
  {
    hide MarkRun, LegalRun, Stage, Inverted, EndLost, Goes;
    var spots := LosingSpots();
    StageRun(cfg, dev, ring, LOSING, spots);
    StageFails(MarkRun(cfg, dev, Start(ring), LOSING), spots[17]);
  }

  lemma LosingSpots() returns (spots: seq<Spot>)
    ensures |spots| == |LOSING| + 1 == 18 && spots[0] == FIRST && spots[17] == Spot(4, Inside, true, true, Between, 2)
    ensures forall k :: 0 <= k < |LOSING| ==> Goes(spots[k], LOSING[k], spots[k + 1])
  {
    var s0 := FIRST;
    var s1, s2, s3 := s0.(queued := 1), s0.(queued := 2), s0.(queued := 3);
    var s4 := s3.(beg := true, src := Transfer(0));
    var s5 := Spot(4, Inside, false, false, Transfer(0), 0);
    var s6 := Spot(4, Inside, false, true, Between, 1);
    var s7 := Spot(4, Inside, true, true, Transfer(0), 1);
    var s8 := Spot(4, Inside, true, true, Between, 2);
    spots := [s0, s1, s1, s2, s2, s3, s3, s4, s5, s5, s6, s6, s6, s6, s7, s7, s7, s8];
  }
}
