/**
 Ring safety, over every run with any processor and VDMA traffic: counters, slot contents,
 64-byte bursts, the space rule and index publication.
 */
module GioRing {
  import opened Prelude
  import opened Modular
  import opened GioWindow
  import opened GioSystem

  /** The registers are the true counts modulo 2^32, in the order consumed <= published <=
      written <= numbered, and at most a ring's worth is unconsumed. */
  predicate Counts(cfg: Cfg, w: World)
  {
    && |w.g.q| <= |w.h.stream| && w.g.q == w.h.stream[|w.h.stream| - |w.g.q|..]
    && w.g.f.built == Wrap32(|w.h.stream|) && w.g.w.written == Wrap32(w.W())
    && w.g.w.published == Wrap32(w.h.pub) && w.mem.index == w.g.w.published
    && w.arm.cons == Wrap32(|w.arm.seen|)
    && |w.arm.seen| <= w.h.pub <= w.W()
    && |w.h.stream| - |w.arm.seen| <= cfg.ringN
  }

  /** Record n (counting from 1) sits intact in slot (n-1) mod RING_N until it is consumed. */
  predicate SlotsIntact(cfg: Cfg, w: World)
    requires cfg.Valid()
  {
    && |w.mem.ring| == cfg.ringN
    && forall n :: |w.arm.seen| <= n < w.W() && n < |w.h.stream| ==> InSlot(cfg, w, n)
  }

  predicate InSlot(cfg: Cfg, w: World, n: nat)
    requires cfg.Valid() && n < |w.h.stream| && |w.mem.ring| == cfg.ringN
  {
    w.mem.ring[n % cfg.ringN] == w.h.stream[n]
  }

  /** Records carry their own numbers. */
  predicate Numbered(w: World)
  {
    forall n :: 0 <= n < |w.h.stream| ==> w.h.stream[n].recno == Wrap32(n + 1)
  }

  /** The writer: a written READ is published by its very next write; at most PROD_EVERY + 3
      written records are unpublished; a burst starts on a 64-byte line. */
  predicate WriterOk(cfg: Cfg, w: World)
  {
    && w.g.Wf()
    && 0 <= w.h.pub <= w.W() <= |w.h.stream|
    && (w.g.w.rdUnpub <==> HasRead(w.h.stream[w.h.pub..w.W()]))
    && (w.g.w.rdUnpub ==> w.g.w.wst == W_IDLE || w.g.w.wst == W_PROD)
    && w.W() - w.h.pub <= cfg.prodEvery + 3
    && (w.g.w.wst == W_PROD ==> w.h.pub < w.W())
    && (w.g.w.wst == W_REC || w.g.w.wst == W_BURST ==> w.W() - w.h.pub < cfg.prodEvery)
    && (w.g.w.wst == W_BURST ==> w.W() % 4 == 0)
  }

  predicate RingInv(cfg: Cfg, w: World)
    requires cfg.Valid()
  {
    Counts(cfg, w) && SlotsIntact(cfg, w) && Numbered(w) && WriterOk(cfg, w)
  }

  lemma InitRing(cfg: Cfg, ring: seq<Rec>)
    requires cfg.Valid() && |ring| == cfg.ringN
    ensures RingInv(cfg, Init(ring))
  {
    hide InSlot;
  }

  // ---- the clock edge ----

  function RecIn(cfg: Cfg, w: World, c: Choice): seq<Rec>
  {
    var i := InputsOf(w, c);
    Enqueued(Picked(cfg, w.g, i), w.g.f, i)
  }

  /** What a clock edge does to queue, counters and history: d records to memory, at most one
      new record e, perhaps the index. */
  predicate Moved(cfg: Cfg, w: World, w': World, e: seq<Rec>, d: nat, publishes: bool)
  {
    && |e| <= 1 && (|w.g.q| == QN ==> e == []) && d <= |w.g.q|
    && w'.h.stream == w.h.stream + e && w'.g.q == w.g.q[d..] + e && w'.arm == w.arm
    && w'.g.f.built == (if e == [] then w.g.f.built else Wrap32(w.g.f.built + 1))
    && w'.g.w.written == Wrap32(w.g.w.written + d)
    && (if publishes then d == 0 && w'.h.pub == w.W() && w'.g.w.published == w.g.w.written
        else w'.h.pub == w.h.pub && w'.g.w.published == w.g.w.published)
    && (e != [] ==> e[0].recno == Wrap32(w.g.f.built + 1) && Wrap32(w.g.f.built - w.arm.cons) < cfg.ringN)
  }

  lemma EdgeMoves(cfg: Cfg, w: World, c: Choice)
    requires cfg.Valid() && w.g.Wf() && |w.g.q| <= |w.h.stream|
    ensures Moved(cfg, w, Edge(cfg, w, c), RecIn(cfg, w, c), Dequeued(w.g.w, c.rsp), w.g.w.wst == W_PROD && c.rsp)
  {
    QueueBound(cfg, w.g, InputsOf(w, c));
  }

  lemma EdgeIndex(cfg: Cfg, w: World, c: Choice)
    requires cfg.Valid() && w.g.Wf() && |w.mem.ring| == cfg.ringN && w.mem.index == w.g.w.published
    ensures Edge(cfg, w, c).mem.index == Edge(cfg, w, c).g.w.published
    ensures |Edge(cfg, w, c).mem.ring| == cfg.ringN
  {
    assert w.g.w.written % cfg.ringN < cfg.ringN;
  }

  lemma CountsStep(cfg: Cfg, w: World, w': World, e: seq<Rec>, d: nat, publishes: bool)
    requires cfg.Valid() && Counts(cfg, w) && Moved(cfg, w, w', e, d, publishes) && w'.mem.index == w'.g.w.published
    ensures Counts(cfg, w') && w'.W() == w.W() + d
  {
    hide Wrap32;
    WrapNext(|w.h.stream|, 1);
    WrapNext(w.W(), d);
    if e != [] { RoomLeft(cfg, w); }
    SuffixMoves(w.h.stream, w.g.q, e, d);
  }

  /** Ring room is the true one. */
  lemma RoomLeft(cfg: Cfg, w: World)
    requires cfg.Valid() && Counts(cfg, w) && Wrap32(w.g.f.built - w.arm.cons) < cfg.ringN
    ensures |w.h.stream| - |w.arm.seen| < cfg.ringN
  {
    WrapDiff(|w.h.stream|, |w.arm.seen|);
  }

  /** The queue stays the stream's last part. */
  lemma SuffixMoves(stream: seq<Rec>, q: seq<Rec>, e: seq<Rec>, d: nat)
    requires |q| <= |stream| && q == stream[|stream| - |q|..] && d <= |q|
    ensures var q', s' := q[d..] + e, stream + e;
            |q'| == |q| - d + |e| <= |s'| && q' == s'[|s'| - |q'|..]
  {
  }

  lemma EdgeCounts(cfg: Cfg, w: World, c: Choice)
    requires cfg.Valid() && w.g.Wf() && Counts(cfg, w) && |w.mem.ring| == cfg.ringN
    ensures Counts(cfg, Edge(cfg, w, c))
  {
    EdgeMoves(cfg, w, c);
    EdgeIndex(cfg, w, c);
    CountsStep(cfg, w, Edge(cfg, w, c), RecIn(cfg, w, c), Dequeued(w.g.w, c.rsp), w.g.w.wst == W_PROD && c.rsp);
  }

  lemma EdgeNumbers(cfg: Cfg, w: World, c: Choice)
    requires cfg.Valid() && RingInv(cfg, w)
    ensures Numbered(Edge(cfg, w, c))
  {
    var i := InputsOf(w, c);
    QueueBound(cfg, w.g, i);
    var e := Enqueued(Picked(cfg, w.g, i), w.g.f, i);
    WrapNext(|w.h.stream|, 1);
    assert e != [] ==> e[0].recno == NextNo(w.g.f);
  }

  /** The write of a response goes to the slots of exactly the records leaving the queue. */
  lemma EdgeSlots(cfg: Cfg, w: World, c: Choice)
    requires cfg.Valid() && RingInv(cfg, w)
    ensures SlotsIntact(cfg, Edge(cfg, w, c))
  {
    var w' := Edge(cfg, w, c);
    var ring, ring' := w.mem.ring, w'.mem.ring;
    var d := Dequeued(w.g.w, c.rsp);
    var base := w.W();
    SlotOf(cfg, base);
    QueueBound(cfg, w.g, InputsOf(w, c));
    if d == QN { BurstFits(cfg, base, 0); }
    assert |ring'| == cfg.ringN;
    forall n | |w'.arm.seen| <= n < w'.W() && n < |w'.h.stream|
      ensures InSlot(cfg, w', n)
    {
      SlotWritten(cfg, w, c, n);
    }
  }

  lemma SlotWritten(cfg: Cfg, w: World, c: Choice, n: nat)
    requires cfg.Valid() && RingInv(cfg, w)
    requires var w' := Edge(cfg, w, c);
             |w'.mem.ring| == cfg.ringN && |w.arm.seen| <= n < w'.W() && n < |w'.h.stream|
    ensures InSlot(cfg, Edge(cfg, w, c), n)
  {
    var w' := Edge(cfg, w, c);
    var d := Dequeued(w.g.w, c.rsp);
    var base := w.W();
    SlotOf(cfg, base);
    QueueBound(cfg, w.g, InputsOf(w, c));
    assert w'.W() == base + d;
    if n < base {
      // an older record: its slot is none of those written
      assert InSlot(cfg, w, n);
      if d >= 1 { SlotsDiffer(cfg.ringN, n, base); }
      if d == QN {
        BurstFits(cfg, base, 1);
        BurstFits(cfg, base, 2);
        BurstFits(cfg, base, 3);
        SlotsDiffer(cfg.ringN, n, base + 1);
        SlotsDiffer(cfg.ringN, n, base + 2);
        SlotsDiffer(cfg.ringN, n, base + 3);
      }
    } else {
      assert w.h.stream[n] == w.g.q[n - base];
      if d == QN { BurstFits(cfg, base, n - base); }
    }
  }

  lemma HasReadSplit(a: seq<Rec>, b: seq<Rec>)
    ensures HasRead(a + b) <==> HasRead(a) || HasRead(b)
  {
    assert forall k :: 0 <= k < |b| ==> (a + b)[|a| + k] == b[k];
    assert forall k :: 0 <= k < |a| ==> (a + b)[k] == a[k];
  }

  lemma EdgeWriter(cfg: Cfg, w: World, c: Choice)
    requires cfg.Valid() && Counts(cfg, w) && WriterOk(cfg, w) && |w.mem.ring| == cfg.ringN
    ensures WriterOk(cfg, Edge(cfg, w, c))
  {
    EdgeMoves(cfg, w, c);
    WfStep(cfg, w.g, InputsOf(w, c));
    WriterStep(cfg, w.g.q, w.g.w, c.rsp, w.W(), w.h.pub);
    UnpublishedStep(cfg, w, Edge(cfg, w, c), RecIn(cfg, w, c), Dequeued(w.g.w, c.rsp), w.g.w.wst == W_PROD && c.rsp);
    BackAfter(cfg, w, c);
  }

  lemma BackAfter(cfg: Cfg, w: World, c: Choice)
    requires cfg.Valid() && w.g.Wf()
    ensures Edge(cfg, w, c).g.w == NextBack(cfg, w.g.q, w.g.w, c.rsp)
    ensures var b' := NextBack(cfg, w.g.q, w.g.w, c.rsp);
            b'.rdUnpub == (!(w.g.w.wst == W_PROD && c.rsp)
              && (w.g.w.rdUnpub || HasRead(w.g.q[..Dequeued(w.g.w, c.rsp)])))
  {
  }

  /** The unpublished part of the stream grows by the records just written. */
  lemma UnpublishedStep(cfg: Cfg, w: World, w': World, e: seq<Rec>, d: nat, publishes: bool)
    requires Counts(cfg, w) && Moved(cfg, w, w', e, d, publishes)
    ensures 0 <= w'.h.pub <= w'.W() <= |w'.h.stream| && w'.W() == w.W() + d
    ensures HasRead(w'.h.stream[w'.h.pub..w'.W()])
            <==> !publishes && (HasRead(w.h.stream[w.h.pub..w.W()]) || HasRead(w.g.q[..d]))
  {
    assert |w'.g.q| == |w.g.q| - d + |e|;
    if !publishes {
      var unpub := w.h.stream[w.h.pub..w.W()];
      HasReadSplit(unpub, w.g.q[..d]);
      assert w'.h.stream[w'.h.pub..w'.W()] == unpub + w.g.q[..d];
    }
  }

  /** The writer alone, over the true counts. */
  lemma WriterStep(cfg: Cfg, q: seq<Rec>, b: Back, rsp: bool, written: nat, pub: nat)
    requires cfg.Valid() && Dequeued(b, rsp) <= |q|
    requires b.written == Wrap32(written) && b.published == Wrap32(pub) && pub <= written <= pub + cfg.prodEvery + 3
    requires b.rdUnpub ==> b.wst == W_IDLE || b.wst == W_PROD
    requires b.wst == W_PROD || b.rdUnpub ==> pub < written
    requires b.wst == W_REC || b.wst == W_BURST ==> written - pub < cfg.prodEvery
    requires b.wst == W_BURST ==> written % 4 == 0
    ensures var b' := NextBack(cfg, q, b, rsp);
            var written' := written + Dequeued(b, rsp);
            var pub' := if b.wst == W_PROD && rsp then written else pub;
            && (b'.rdUnpub ==> b'.wst == W_IDLE || b'.wst == W_PROD)
            && (b'.rdUnpub ==> !(b.wst == W_PROD && rsp))
            && written' - pub' <= cfg.prodEvery + 3
            && (b'.wst == W_PROD ==> pub' < written')
            && (b'.wst == W_REC || b'.wst == W_BURST ==> written' - pub' < cfg.prodEvery)
            && (b'.wst == W_BURST ==> written' % 4 == 0)
            && (b.rdUnpub && pub < written && b.wst == W_IDLE ==> b'.wst == W_PROD)
  {
    WrapDiff(written, pub);
    assert b.published == b.written <==> pub == written;
    assert b.written % 4 == written % 4;
  }

  // ---- the ARM ----

  /** Consuming takes the next record of the stream. */
  lemma ArmKeepsRing(cfg: Cfg, f: Device, w: World, a: ArmAct)
    requires cfg.Valid() && RingInv(cfg, w)
    ensures var w' := ArmMove(cfg, f, w, a);
            && RingInv(cfg, w') && w'.h.stream == w.h.stream
            && (w'.arm.seen == w.arm.seen
                || (|w.arm.seen| < |w.h.stream| && w'.arm.seen == w.arm.seen + [w.h.stream[|w.arm.seen|]]))
  {
    hide HasRead, Wrap32;
    var w' := ArmMove(cfg, f, w, a);
    var n := |w.arm.seen|;
    SlotOf(cfg, n);
    WrapNext(n, 1);
    if w'.arm.seen != w.arm.seen {
      assert w.arm.cons != w.mem.index;
      assert n < w.h.pub;
      assert InSlot(cfg, w, n);
    }
    assert forall m :: InSlotRange(w', m) ==> InSlotRange(w, m);
    forall m | |w'.arm.seen| <= m < w'.W() && m < |w'.h.stream|
      ensures InSlot(cfg, w', m)
    {
      assert InSlot(cfg, w, m);
    }
  }

  predicate InSlotRange(w: World, m: int) { |w.arm.seen| <= m < w.W() }

  lemma StepKeepsRing(cfg: Cfg, f: Device, w: World, c: Choice)
    requires cfg.Valid() && RingInv(cfg, w)
    ensures RingInv(cfg, Step(cfg, f, w, c))
  {
    EdgeKeepsRing(cfg, w, c);
    ArmKeepsRing(cfg, f, Edge(cfg, w, c), c.arm);
  }

  lemma EdgeKeepsRing(cfg: Cfg, w: World, c: Choice)
    requires cfg.Valid() && RingInv(cfg, w)
    ensures RingInv(cfg, Edge(cfg, w, c))
  {
    EdgeCounts(cfg, w, c);
    EdgeNumbers(cfg, w, c);
    EdgeSlots(cfg, w, c);
    EdgeWriter(cfg, w, c);
  }

  /** In every run: the ring never loses or overwrites an unconsumed record, and the index
      publication keeps its bound. */
  lemma {:induction false} RingSafe(cfg: Cfg, f: Device, ring: seq<Rec>, cs: seq<Choice>)
    requires cfg.Valid() && |ring| == cfg.ringN
    ensures RingInv(cfg, Run(cfg, f, Init(ring), cs))
  {
    if cs == [] {
      InitRing(cfg, ring);
    } else {
      RingSafe(cfg, f, ring, cs[..|cs| - 1]);
      StepKeepsRing(cfg, f, Run(cfg, f, Init(ring), cs[..|cs| - 1]), cs[|cs| - 1]);
    }
  }

  /** In every run at most PROD_EVERY + 3 written records are unpublished; and once a READ is in
      ring memory unpublished, no record is written before the index write that covers it. */
  lemma ReadPublishedNext(cfg: Cfg, f: Device, ring: seq<Rec>, cs: seq<Choice>, c: Choice)
    requires cfg.Valid() && |ring| == cfg.ringN
    ensures var w := Run(cfg, f, Init(ring), cs);
            && w.W() - w.h.pub <= cfg.prodEvery + 3
            && 0 <= w.h.pub <= w.W() <= |w.h.stream|
            && ((exists n :: w.h.pub <= n < w.W() && w.h.stream[n].kind == READ) ==>
                  var w' := Edge(cfg, w, c);
                  && w'.W() == w.W()
                  && (w.g.w.wst == W_IDLE ==> w'.g.w.wst == W_PROD)
                  && (w.g.w.wst == W_PROD && c.rsp ==> w'.h.pub == w.W()))
  {
    hide Run, SlotsIntact, Numbered, Edge, HasRead;
    RingSafe(cfg, f, ring, cs);
    var w := Run(cfg, f, Init(ring), cs);
    UnpublishedRead(cfg, w);
    if HasRead(w.h.stream[w.h.pub..w.W()]) { NextPublishes(cfg, w, c); }
  }

  lemma UnpublishedRead(cfg: Cfg, w: World)
    requires 0 <= w.h.pub <= w.W() <= |w.h.stream|
    ensures HasRead(w.h.stream[w.h.pub..w.W()]) <==> exists n :: w.h.pub <= n < w.W() && w.h.stream[n].kind == READ
  {
    var s, pub := w.h.stream[w.h.pub..w.W()], w.h.pub;
    if k :| 0 <= k < |s| && s[k].kind == READ { assert w.h.stream[pub + k] == s[k]; }
    if n :| pub <= n < w.W() && w.h.stream[n].kind == READ { assert s[n - pub] == w.h.stream[n]; }
  }

  /** In every run an idle writer turns to the index if and only if a written record is unpublished and
      one of them is a READ, or nothing more is queued, or PROD_EVERY of them are unpublished; else to
      a burst if and only if four records are queued and fill a line; else to the record queued first. */
  lemma PublishesIff(cfg: Cfg, f: Device, ring: seq<Rec>, cs: seq<Choice>, c: Choice)
    requires cfg.Valid() && |ring| == cfg.ringN && Run(cfg, f, Init(ring), cs).g.w.wst == W_IDLE
    ensures var w := Run(cfg, f, Init(ring), cs);
            && 0 <= w.h.pub <= w.W() <= |w.h.stream|
            && (Edge(cfg, w, c).g.w.wst == W_PROD
                <==> w.h.pub < w.W() && ((exists n :: w.h.pub <= n < w.W() && w.h.stream[n].kind == READ)
                                         || w.g.q == [] || w.W() - w.h.pub >= cfg.prodEvery))
            && (Edge(cfg, w, c).g.w.wst == W_BURST
                <==> Edge(cfg, w, c).g.w.wst != W_PROD && |w.g.q| == 4 && w.W() % 4 == 0)
            && (Edge(cfg, w, c).g.w.wst == W_IDLE <==> w.g.q == [] && w.h.pub == w.W())
  {
    hide Run, SlotsIntact, Numbered, HasRead;
    RingSafe(cfg, f, ring, cs);
    var w := Run(cfg, f, Init(ring), cs);
    UnpublishedRead(cfg, w);
    WrapDiff(w.W(), w.h.pub);
    WrapFour(w.W());
    hide Edge, Counts, WriterOk, Enqueued;
    IdleTurns(cfg, w, c);
  }

  lemma IdleTurns(cfg: Cfg, w: World, c: Choice)
    requires cfg.Valid() && w.g.Wf() && w.g.w.wst == W_IDLE
    ensures var st, due := Edge(cfg, w, c).g.w.wst, MustPublish(cfg, w.g.q, w.g.w);
            && (st == W_PROD <==> due) && (st == W_BURST <==> !due && |w.g.q| == QN && w.g.w.written % 4 == 0)
            && (st == W_IDLE <==> !due && w.g.q == [])
  {
  }

  lemma WrapFour(n: nat)
    ensures Wrap32(n) % 4 == n % 4
  {
    assert n == 4 * (0x4000_0000 * (n / TWO32)) + Wrap32(n);
  }

  lemma NextPublishes(cfg: Cfg, w: World, c: Choice)
    requires cfg.Valid() && Counts(cfg, w) && WriterOk(cfg, w) && HasRead(w.h.stream[w.h.pub..w.W()])
    ensures var w' := Edge(cfg, w, c);
            && w'.W() == w.W()
            && (w.g.w.wst == W_IDLE ==> w'.g.w.wst == W_PROD)
            && (w.g.w.wst == W_PROD && c.rsp ==> w'.h.pub == w.W())
  {
    hide Edge, RecIn, NextBack;
    assert w.h.pub < w.W();
    EdgeMoves(cfg, w, c);
    BackAfter(cfg, w, c);
    UnpublishedStep(cfg, w, Edge(cfg, w, c), RecIn(cfg, w, c), Dequeued(w.g.w, c.rsp), w.g.w.wst == W_PROD && c.rsp);
    WriterStep(cfg, w.g.q, w.g.w, c.rsp, w.W(), w.h.pub);
  }
}
