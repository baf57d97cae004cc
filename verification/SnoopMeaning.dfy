/**
 The shim's accesses by their opcodes and byte addresses: which bytes an access is, what a load
 returns for each of them, and what a store leaves behind in each of them.
 */
module SnoopMeaning {
  import opened Prelude
  import opened SnoopShim
  import opened SnoopSystem
  import opened SnoopCoherence

  const LOAD16 := 4
  const LOAD64 := 5
  const STORE64 := 6
  const STORE16 := 7

  /** The bytes of an access: the 64 or 16 around its address, whatever its low bits. */
  function Width(q: Request): (n: nat)
    ensures n == 16 || n == 64
  {
    if q.op == LOAD64 || q.op == STORE64 then 64 else 16
  }

  function First(q: Request): (a: nat)
    ensures a % 16 == 0
  {
    q.addr - q.addr % Width(q)
  }

  /** A byte as the processor sees it. */
  function ByteView(w: World, a: nat): Byte
    requires w.Ok() && a / 16 < |w.s.dram|
  {
    w.s.View(a / 16)[a % 16]
  }

  /** Staging memory. */
  predicate InStaging(q: Request) { 0x1e00_0000 <= q.addr < 0x1f00_0000 }

  lemma LinesOf(q: Request)
    ensures q.Count() == Width(q) / 16
    ensures forall k :: 0 <= k < q.Count() ==> q.LineNo(k) == First(q) / 16 + k
    ensures q.Write() <==> q.op == STORE64 || q.op == STORE16
    ensures q.Staging() <==> InStaging(q)
  {
    var a := q.addr;
    assert a == a / 64 * 64 + a % 64 && a == a / 16 * 16 + a % 16;
  }

  lemma ByteOf(q: Request, i: nat)
    requires i < Width(q)
    ensures i / 16 < q.Count() && q.LineNo(i / 16) == (First(q) + i) / 16 && (First(q) + i) % 16 == i % 16
  {
    LinesOf(q);
    var f := First(q) / 16;
    assert First(q) == f * 16;
  }

  // ---- the instants of an access ----

  /** From the n-th event on, the engine has held this request. */
  ghost predicate Held(dram: seq<Line>, vs: seq<Event>, q: Request, n: nat)
  {
    n <= |vs| && forall m :: n <= m <= |vs| ==> Run(dram, vs[..m]).e.req == Some(q)
  }

  /** At some instant since the request, line l was seen so. */
  ghost predicate SeenSo(dram: seq<Line>, vs: seq<Event>, q: Request, l: nat, v: Line)
  {
    exists n: nat :: n <= |vs| && Held(dram, vs, q, n) && Shows(Run(dram, vs[..n]), l, v)
  }

  ghost predicate Shows(w: World, l: nat, v: Line) { w.Ok() && l < |w.s.dram| && w.s.View(l) == v }

  lemma {:induction false} HeldNow(dram: seq<Line>, vs: seq<Event>, q: Request)
    requires Run(dram, vs).e.req == Some(q)
    ensures Held(dram, vs, q, |vs|)
  {
    assert vs[..|vs|] == vs;
  }

  lemma HeldBefore(dram: seq<Line>, vs: seq<Event>, q: Request, n: nat)
    requires vs != [] && Held(dram, vs[..|vs| - 1], q, n) && Run(dram, vs).e.req == Some(q)
    ensures Held(dram, vs, q, n) && Run(dram, vs[..n]) == Run(dram, vs[..|vs| - 1][..n])
  {
    hide Run;
    var pre := vs[..|vs| - 1];
    forall m | n <= m <= |vs|
      ensures Run(dram, vs[..m]).e.req == Some(q)
    {
      if m == |vs| { assert vs[..m] == vs; } else { assert vs[..m] == pre[..m]; }
    }
    assert vs[..n] == pre[..n];
  }

  /** The processor has stored to line l since the request. */
  ghost predicate StoredSince(dram: seq<Line>, vs: seq<Event>, q: Request, l: nat)
  {
    exists n: nat :: n < |vs| && Held(dram, vs, q, n) && StoresTo(vs[n], l)
  }

  predicate StoresTo(v: Event, l: nat) { v.Do? && v.act.CpuStore? && v.act.line == l }

  /** The recorded views of a line, and its base, were seen since the request, and so was the store
      by the processor if one is recorded. */
  ghost predicate Recorded(dram: seq<Line>, vs: seq<Event>, q: Request, k: nat)
    requires k < q.Count()
  {
    var w := Run(dram, vs);
    var l := q.LineNo(k);
    && (forall v :: v in w.h.seen[k] ==> SeenSo(dram, vs, q, l, v))
    && w.h.base[k] in w.h.seen[k] && (w.h.stored[k] ==> StoredSince(dram, vs, q, l))
    && (exists v :: v in w.h.seen[k] && Shows(w, l, v))
  }

  /** One event's effect on the records of a line of the request. */
  lemma StepRecords(w: World, v: Event, k: nat)
    requires w.Ok() && Protocol(w)
    requires var w' := Step(w, v);
             w'.e.req.Some? && k < w'.e.req.value.Count()
    ensures var w' := Step(w, v);
            var l := w'.e.req.value.LineNo(k);
            if w.e.req.None? then
              w'.h.seen[k] == {w'.s.View(l)} && w'.h.base[k] == w'.s.View(l) && !w'.h.stored[k]
            else
              && w'.e.req == w.e.req && w'.h.seen[k] == w.h.seen[k] + {w'.s.View(l)}
              && (w'.h.base[k] == w.h.base[k] || w'.h.base[k] == w.s.View(l))
              && (w'.h.stored[k] ==> w.h.stored[k] || StoresTo(v, l))
  {
    hide MergeLine, Spoilt;
    var w' := Step(w, v);
    if v.Do? { EffectRecords(w, v.act, k); } else { EdgeRecords(w, v.choice, k); }
  }

  lemma EffectRecords(w: World, a: Act, k: nat)
    requires w.Ok() && Protocol(w) && w.e.req.Some? && k < w.e.req.value.Count()
    ensures var w' := Effect(w, a);
            var l := w.e.req.value.LineNo(k);
            && w'.e.req == w.e.req && w'.h.seen == w.h.seen
            && (w'.h.base[k] == w.h.base[k] || w'.h.base[k] == w.s.View(l))
            && (w'.h.stored[k] ==> w.h.stored[k] || StoresTo(Do(a), l))
  {
    hide MergeLine, Spoilt, UpTo;
  }

  lemma EdgeRecords(w: World, c: Choice, k: nat)
    requires w.Ok() && Edge(w, c).e.req.Some? && k < Edge(w, c).e.req.value.Count()
    ensures var w' := Edge(w, c);
            var l := w'.e.req.value.LineNo(k);
            if w.e.req.None? then w'.h.seen[k] == {} && w'.h.base[k] == w'.s.View(l) && !w'.h.stored[k]
            else w'.e.req == w.e.req && w'.h == w.h
  {
  }

  /** What was seen or stored before the last event was seen or stored since the request. */
  lemma StillSince(dram: seq<Line>, vs: seq<Event>, q: Request, l: nat, v: Line)
    requires vs != [] && Run(dram, vs).e.req == Some(q)
    ensures SeenSo(dram, vs[..|vs| - 1], q, l, v) ==> SeenSo(dram, vs, q, l, v)
    ensures StoredSince(dram, vs[..|vs| - 1], q, l) ==> StoredSince(dram, vs, q, l)
  {
    hide Run, Held;
    var pre := vs[..|vs| - 1];
    if SeenSo(dram, pre, q, l, v) {
      var n: nat :| n <= |pre| && Held(dram, pre, q, n) && Shows(Run(dram, pre[..n]), l, v);
      HeldBefore(dram, vs, q, n);
    }
    if StoredSince(dram, pre, q, l) {
      var n: nat :| n < |pre| && Held(dram, pre, q, n) && StoresTo(pre[n], l);
      HeldBefore(dram, vs, q, n);
      assert pre[n] == vs[n];
    }
  }

  /** The present is an instant since the request, and so was the one before if it was held then. */
  lemma SinceNow(dram: seq<Line>, vs: seq<Event>, q: Request, l: nat)
    requires Run(dram, vs).e.req == Some(q) && l < |Run(dram, vs).s.dram|
    ensures SeenSo(dram, vs, q, l, Run(dram, vs).s.View(l))
    ensures vs != [] && Run(dram, vs[..|vs| - 1]).e.req == Some(q) && StoresTo(vs[|vs| - 1], l) ==>
              StoredSince(dram, vs, q, l)
  {
    hide Run, Held;
    HeldNow(dram, vs, q);
    assert vs[..|vs|] == vs;
    assert Shows(Run(dram, vs[..|vs|]), l, Run(dram, vs).s.View(l));
    if vs != [] && Run(dram, vs[..|vs| - 1]).e.req == Some(q) && StoresTo(vs[|vs| - 1], l) {
      HeldNow(dram, vs[..|vs| - 1], q);
      HeldBefore(dram, vs, q, |vs| - 1);
    }
  }

  lemma LineInside(q: Request, k: nat, lines: nat)
    requires Fits(q, lines) && k < q.Count()
    ensures q.LineNo(k) < lines
  {
  }

  lemma {:induction false} AlwaysRecorded(dram: seq<Line>, vs: seq<Event>, q: Request, k: nat)
    requires Run(dram, vs).e.req == Some(q) && k < q.Count()
    ensures Recorded(dram, vs, q, k)
  {
    hide Run, Step, SeenSo, StoredSince, Held;
    var w, l := Run(dram, vs), q.LineNo(k);
    LineInside(q, k, |w.s.dram|);
    SinceNow(dram, vs, q, l);
    if vs == [] {
      StartsIdle(dram);
    } else {
      var pre, v := vs[..|vs| - 1], vs[|vs| - 1];
      var w0 := Run(dram, pre);
      RunKeeps(dram, pre);
      RunLast(dram, vs);
      hide CleanOk, LoadOk, StoreOk, StagingOk, BytesOk;
      assert Protocol(w0);
      hide Protocol, Inv;
      StepRecords(w0, v, k);
      assert Shows(w, l, w.s.View(l));
      if w0.e.req.Some? {
        AlwaysRecorded(dram, pre, q, k);
        forall x | x in w.h.seen[k]
          ensures SeenSo(dram, vs, q, l, x)
        {
          StillSince(dram, vs, q, l, x);
        }
        StillSince(dram, vs, q, l, w.s.View(l));
      }
    }
  }

  lemma StartsIdle(dram: seq<Line>)
    ensures Run(dram, []).e.req == None
  {
  }

  lemma RunLast(dram: seq<Line>, vs: seq<Event>)
    requires vs != []
    ensures Run(dram, vs) == Step(Run(dram, vs[..|vs| - 1]), vs[|vs| - 1])
  {
    hide Step;
  }

  // ---- results ----

  /** A load of 16 bytes (4) or 64 (5): when it is answered, every byte of the access is one that
      the processor saw at its address at some instant since the request. */
  lemma LoadReturns(dram: seq<Line>, vs: seq<Event>, q: Request, i: nat) returns (n: nat)
    requires var w := Run(dram, vs);
             w.r.st == RSP && w.e.req == Some(q) && (q.op == LOAD16 || q.op == LOAD64) && i < Width(q)
    ensures var w, a := Run(dram, vs), First(q) + i;
            && Held(dram, vs, q, n) && |w.r.loadData| == 4 && a / 16 < |Run(dram, vs[..n]).s.dram|
            && w.r.loadData[i / 16][i % 16] == ByteView(Run(dram, vs[..n]), a)
  {
    hide Run, Held;
    var w, k := Run(dram, vs), i / 16;
    LinesOf(q);
    ByteOf(q, i);
    LoadsAreLinearizable(dram, vs, k);
    AlwaysRecorded(dram, vs, q, k);
    assert SeenSo(dram, vs, q, q.LineNo(k), w.r.loadData[k]);
    n :| n <= |vs| && Held(dram, vs, q, n) && Shows(Run(dram, vs[..n]), q.LineNo(k), w.r.loadData[k]);
  }

  /** A store of 16 bytes (7) or 64 (6), staging or not: when it is answered, every byte of the access
      whose line the processor has not stored to since the request is the store's where its mask is
      set, and elsewhere one that the processor saw there since the request, in memory and in view. */
  lemma StoreLeaves(dram: seq<Line>, vs: seq<Event>, q: Request, i: nat) returns (n: nat)
    requires var w := Run(dram, vs);
             w.r.st == RSP && w.e.req == Some(q) && (q.op == STORE16 || q.op == STORE64) && i < Width(q)
    requires !StoredSince(dram, vs, q, (First(q) + i) / 16)
    ensures var w, a := Run(dram, vs), First(q) + i;
            && q.Ok() && Held(dram, vs, q, n) && a / 16 < |w.s.dram| && a / 16 < |Run(dram, vs[..n]).s.dram|
            && ByteView(w, a) == w.s.dram[a / 16][a % 16]
            && ByteView(w, a) == (if q.masks[i / 16][i % 16] then q.data[i / 16][i % 16]
                                  else ByteView(Run(dram, vs[..n]), a))
  {
    hide Run, Held, StoredSince;
    var w, k := Run(dram, vs), i / 16;
    LinesOf(q);
    ByteOf(q, i);
    LineInside(q, k, |w.s.dram|);
    AlwaysRecorded(dram, vs, q, k);
    if q.Staging() { StagingStoresLand(dram, vs, k); } else { StoresLeaveNoStaleCopy(dram, vs, k); }
    assert SeenSo(dram, vs, q, q.LineNo(k), w.h.base[k]);
    n :| n <= |vs| && Held(dram, vs, q, n) && Shows(Run(dram, vs[..n]), q.LineNo(k), w.h.base[k]);
  }
}
