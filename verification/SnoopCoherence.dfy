/**
 What the shim guarantees, whatever the cache does meanwhile: a load's lines are values the
 processor's view held during the access; a store leaves no stale copy unless the processor
 stores to the line inside the window; and over whole runs the view is one sequential memory.
 */
module SnoopCoherence {
  import opened Prelude
  import opened SnoopShim
  import opened SnoopSystem

  // ---- the protocol ----

  /** The first k of n flags are up, and no other of the n. */
  ghost predicate UpTo(b: seq<bool>, n: nat, k: nat)
    requires n <= |b|
  {
    forall j :: 0 <= j < n ==> b[j] == (j < k)
  }

  /** How far each state has come with the snoops and the access. */
  ghost predicate Protocol(w: World)
    requires w.Ok()
  {
    if w.e.req.None? then w.r.st == IDLE && w.e.snoop.None?
    else
      var q, h, m := w.e.req.value, w.h, w.e.moved;
      var n, sub := q.Count(), w.r.sub;
      var taken := if w.e.snoop.Some? && w.e.snoop.value.taken then 1 else 0;
      match w.r.st
      case IDLE => w.e.snoop.None? && UpTo(h.pre, n, 0) && UpTo(m, n, 0) && UpTo(h.post, n, 0)
      case PRE => !q.Staging() && sub < n && w.e.snoop.None? && UpTo(h.pre, n, sub) && UpTo(m, n, 0)
        && UpTo(h.post, n, 0)
      case PRE_WAIT => !q.Staging() && sub < n && Snooping(w) && UpTo(h.pre, n, sub + taken) && UpTo(m, n, 0)
        && UpTo(h.post, n, 0)
      case FWD => w.e.snoop.None? && UpTo(h.pre, n, if q.Staging() then 0 else n) && UpTo(h.post, n, 0)
      case POST => !q.Staging() && q.Write() && sub < n && w.e.snoop.None? && UpTo(h.pre, n, n) && UpTo(m, n, n)
        && UpTo(h.post, n, sub)
      case POST_WAIT => !q.Staging() && q.Write() && sub < n && Snooping(w) && UpTo(h.pre, n, n) && UpTo(m, n, n)
        && UpTo(h.post, n, sub + taken)
      case RSP => w.e.snoop.None? && UpTo(m, n, n) && UpTo(h.pre, n, if q.Staging() then 0 else n)
                  && UpTo(h.post, n, if q.Write() && !q.Staging() then n else 0)
  }

  /** A snoop of the current line has been acknowledged. */
  ghost predicate Snooping(w: World)
    requires w.Ok() && w.e.req.Some?
  {
    w.e.snoop.Some? && w.e.snoop.value.line == w.e.req.value.LineNo(w.r.sub)
  }

  lemma ProtocolEffect(w: World, a: Act)
    requires w.Ok() && Protocol(w)
    ensures Protocol(Effect(w, a))
  {
    hide Flushed, Spoilt, StoredTo, MergeLine;
  }

  lemma ProtocolEdge(w: World, c: Choice)
    requires w.Ok() && Protocol(w)
    ensures Protocol(Edge(w, c))
  {
  }

  // ---- clean copies ----

  /** Line l has been written by the device and not yet snooped again: its byte j may be stale. */
  ghost predicate MayBeStale(w: World, l: nat, j: nat)
    requires w.Ok() && j < 16
  {
    Owned(w, l) && w.e.moved[Index(w, l).value] && w.e.req.value.masks[Index(w, l).value][j]
  }

  /** A clean copy agrees with memory outside the bytes just written; staging is never cached. */
  ghost predicate CleanAt(w: World, l: nat)
    requires w.Ok() && l < |w.s.dram|
  {
    && (StagingLine(l) ==> w.s.cache[l] == Absent)
    && (w.s.cache[l].Clean? ==>
          forall j :: 0 <= j < 16 && !MayBeStale(w, l, j) ==> w.s.cache[l].value[j] == w.s.dram[l][j])
  }

  ghost predicate CleanOk(w: World)
    requires w.Ok()
  {
    forall l :: 0 <= l < |w.s.dram| ==> CleanAt(w, l)
  }

  /** The lines of a staging request are staging lines. */
  lemma StagingLines(q: Request, k: nat)
    requires q.Staging() && k < q.Count()
    ensures StagingLine(q.LineNo(k))
  {
  }

  lemma CleanEffect(w: World, a: Act)
    requires w.Ok() && Protocol(w) && CleanOk(w)
    ensures CleanOk(Effect(w, a))
  {
    var w' := Effect(w, a);
    forall l | 0 <= l < |w'.s.dram|
      ensures CleanAt(w', l)
    {
      assert CleanAt(w, l);
      CleanLineEffect(w, a, l);
    }
  }

  lemma CleanLineEffect(w: World, a: Act, l: nat)
    requires w.Ok() && Protocol(w) && l < |w.s.dram| && CleanAt(w, l)
    ensures CleanAt(Effect(w, a), l)
  {
    hide IndexOf, Spoilt, StoredTo;
    match a {
      case Refill(m) =>
      case CpuStore(m, v) =>
      case Evict(m) =>
      case SnoopTakes =>
      case Transfer(k) =>
        if w.e.req.Some? && k < w.e.req.value.Count() {
          IndexOfLine(w.e.req.value, k);
          if w.e.req.value.Staging() { StagingLines(w.e.req.value, k); }
        }
    }
  }

  lemma CleanEdge(w: World, c: Choice)
    requires w.Ok() && Protocol(w) && CleanOk(w)
    ensures CleanOk(Edge(w, c))
  {
    hide IndexOf;
    var w' := Edge(w, c);
    forall l | 0 <= l < |w'.s.dram|
      ensures CleanAt(w', l)
    {
      assert CleanAt(w, l);
    }
  }

  // ---- loads ----

  /** Line k of a load: memory holds a value seen since the request once the line has been
      snooped, and what the load got is such a value. */
  ghost predicate LoadAt(w: World, k: nat)
    requires w.Ok() && w.e.req.Some? && k < w.e.req.value.Count()
  {
    var l, seen := w.e.req.value.LineNo(k), w.h.seen[k];
    && w.s.View(l) in seen
    && (w.h.pre[k] || w.e.req.value.Staging() ==> w.s.dram[l] in seen)
    && (w.e.moved[k] ==> w.e.got[k] in seen)
    && (w.r.st == RSP ==> |w.r.loadData| == 4 && w.r.loadData[k] == w.e.got[k])
  }

  ghost predicate LoadOk(w: World)
    requires w.Ok()
  {
    w.e.req.Some? && !w.e.req.value.Write() ==> forall k :: 0 <= k < w.e.req.value.Count() ==> LoadAt(w, k)
  }

  lemma LoadEffect(w: World, a: Act)
    requires w.Ok() && Protocol(w) && CleanOk(w) && CleanOk(Effect(w, a)) && LoadOk(w)
    ensures LoadOk(Step(w, Do(a)))
  {
    if w.e.req.Some? && !w.e.req.value.Write() {
      var w' := Step(w, Do(a));
      forall k | 0 <= k < w.e.req.value.Count()
        ensures LoadAt(w', k)
      {
        assert LoadAt(w, k);
        LoadLineEffect(w, a, k);
      }
    }
  }

  lemma LoadLineEffect(w: World, a: Act, k: nat)
    requires w.Ok() && Protocol(w) && CleanOk(w) && CleanOk(Effect(w, a))
    requires w.e.req.Some? && !w.e.req.value.Write() && k < w.e.req.value.Count() && LoadAt(w, k)
    ensures LoadAt(Step(w, Do(a)), k)
  {
    hide LoadAt, Step, CleanOk, Protocol;
    if a.ByCpu() { LoadLineCpu(w, a, k); } else { LoadLineDma(w, a, k); }
  }

  /** The processor side moves memory only to a value that was in view. */
  lemma LoadLineCpu(w: World, a: Act, k: nat)
    requires w.Ok() && Protocol(w) && CleanOk(w) && CleanOk(Effect(w, a))
    requires w.e.req.Some? && !w.e.req.value.Write() && k < w.e.req.value.Count() && LoadAt(w, k)
    requires a.ByCpu()
    ensures LoadAt(Step(w, Do(a)), k)
  {
    hide IndexOf, Spoilt, StoredTo, MergeLine, CleanOk, Protocol;
  }

  /** The first snoop leaves the view in memory; a transfer takes what memory holds. */
  lemma LoadLineDma(w: World, a: Act, k: nat)
    requires w.Ok() && Protocol(w) && CleanOk(w) && CleanOk(Effect(w, a))
    requires w.e.req.Some? && !w.e.req.value.Write() && k < w.e.req.value.Count() && LoadAt(w, k)
    requires !a.ByCpu()
    ensures LoadAt(Step(w, Do(a)), k)
  {
    hide LoadAt, Step, Protocol;
    assert CleanAt(w, w.e.req.value.LineNo(k));
    if a.SnoopTakes? { LoadLineSnoop(w, k); } else { LoadLineTransfer(w, a, k); }
  }

  lemma LoadLineSnoop(w: World, k: nat)
    requires w.Ok() && Protocol(w) && w.e.req.Some? && !w.e.req.value.Write() && k < w.e.req.value.Count()
             && LoadAt(w, k)
    requires CleanAt(w, w.e.req.value.LineNo(k))
    ensures LoadAt(Step(w, Do(SnoopTakes)), k)
  {
    hide IndexOf, Spoilt, StoredTo, MergeLine;
    var l := w.e.req.value.LineNo(k);
    IndexOfLine(w.e.req.value, k);
    if w.s.cache[l].Clean? { CleanView(w, l); }
  }

  lemma LoadLineTransfer(w: World, a: Act, k: nat)
    requires w.Ok() && Protocol(w) && w.e.req.Some? && !w.e.req.value.Write() && k < w.e.req.value.Count()
             && LoadAt(w, k)
    requires a.Transfer?
    ensures LoadAt(Step(w, Do(a)), k)
  {
    hide IndexOf, Spoilt, StoredTo, Flushed, MergeLine;
  }

  /** A clean copy of a line no write owns is memory's value. */
  lemma CleanView(w: World, l: nat)
    requires w.Ok() && l < |w.s.dram| && CleanAt(w, l) && !Owned(w, l) && w.s.cache[l].Clean?
    ensures w.s.View(l) == w.s.dram[l]
  {
  }

  lemma LoadEdge(w: World, c: Choice)
    requires w.Ok() && Protocol(w) && CleanOk(w) && LoadOk(w)
    ensures LoadOk(Step(w, Clock(c)))
  {
    var w' := Step(w, Clock(c));
    if w'.e.req.Some? && !w'.e.req.value.Write() {
      var q := w'.e.req.value;
      forall k | 0 <= k < q.Count()
        ensures LoadAt(w', k)
      {
        if w.e.req.Some? { assert LoadAt(w, k); }
        assert CleanAt(w, q.LineNo(k));
        LoadLineEdge(w, c, k);
      }
    }
  }

  lemma LoadLineEdge(w: World, c: Choice, k: nat)
    requires w.Ok() && Protocol(w)
    requires var w' := Edge(w, c);
             && w'.e.req.Some? && !w'.e.req.value.Write() && k < w'.e.req.value.Count()
             && (w.e.req.Some? ==> LoadAt(w, k)) && CleanAt(w, w'.e.req.value.LineNo(k))
    ensures LoadAt(Step(w, Clock(c)), k)
  {
    hide IndexOf, Views;
    var q := Edge(w, c).e.req.value;
    if q.Staging() { StagingLines(q, k); }
  }

  // ---- stores ----

  /** Line k of a store the processor has not stored to since its first snoop: memory holds the
      view of that time, with the written bytes replaced once they have been, no copy is dirty,
      and a clean one is memory's value or, until the second snoop, the old one. */
  ghost predicate StoreAt(w: World, k: nat)
    requires w.Ok() && w.e.req.Some? && k < w.e.req.value.Count()
  {
    w.h.pre[k] && !w.h.stored[k] ==>
      var q := w.e.req.value;
      var l := q.LineNo(k);
      && !w.s.cache[l].Dirty?
      && w.s.dram[l] == (if w.e.moved[k] then MergeLine(w.h.base[k], q.data[k], q.masks[k]) else w.h.base[k])
      && (w.s.cache[l].Clean? ==> w.s.cache[l].value == w.s.dram[l]
                                  || (w.e.moved[k] && !w.h.post[k] && w.s.cache[l].value == w.h.base[k]))
  }

  ghost predicate StoreOk(w: World)
    requires w.Ok()
  {
    w.e.req.Some? && w.e.req.value.Write() && !w.e.req.value.Staging() ==>
      forall k :: 0 <= k < w.e.req.value.Count() ==> StoreAt(w, k)
  }

  lemma StoreEffect(w: World, a: Act)
    requires w.Ok() && Protocol(w) && CleanOk(w) && StoreOk(w)
    ensures StoreOk(Effect(w, a))
  {
    if w.e.req.Some? && w.e.req.value.Write() && !w.e.req.value.Staging() {
      forall k | 0 <= k < w.e.req.value.Count()
        ensures StoreAt(Effect(w, a), k)
      {
        assert StoreAt(w, k);
        assert CleanAt(w, w.e.req.value.LineNo(k));
        StoreLineEffect(w, a, k);
      }
    }
  }

  lemma StoreLineEffect(w: World, a: Act, k: nat)
    requires w.Ok() && Protocol(w) && w.e.req.Some? && k < w.e.req.value.Count() && StoreAt(w, k)
    requires w.e.req.value.Write() && !w.e.req.value.Staging() && CleanAt(w, w.e.req.value.LineNo(k))
    ensures StoreAt(Effect(w, a), k)
  {
    hide IndexOf, Spoilt, MergeLine;
    var q := w.e.req.value;
    IndexOfLine(q, k);
    match a {
      case Refill(m) =>
      case CpuStore(m, v) =>
      case Evict(m) =>
      case SnoopTakes =>
        if w.r.st == PRE_WAIT && w.r.sub == k && !w.h.pre[k] { UnownedClean(w, q.LineNo(k)); }
      case Transfer(m) =>
    }
  }

  /** A copy not owned by a write is dirty, or memory's value. */
  lemma UnownedClean(w: World, l: nat)
    requires w.Ok() && l < |w.s.dram| && CleanAt(w, l) && !Owned(w, l)
    ensures w.s.cache[l].Dirty? || w.s.View(l) == w.s.dram[l]
  {
  }

  lemma StoreEdge(w: World, c: Choice)
    requires w.Ok() && Protocol(w) && StoreOk(w)
    ensures StoreOk(Edge(w, c))
  {
    hide MergeLine;
    var w' := Edge(w, c);
    if w'.e.req.Some? && w'.e.req.value.Write() && !w'.e.req.value.Staging() {
      forall k | 0 <= k < w'.e.req.value.Count()
        ensures StoreAt(w', k)
      {
        if w.e.req.Some? { assert StoreAt(w, k); }
      }
    }
  }

  /** Line k of a staging store: memory holds what it held at the request, with the written bytes
      replaced once they have been. */
  ghost predicate StagingAt(w: World, k: nat)
    requires w.Ok() && w.e.req.Some? && k < w.e.req.value.Count()
  {
    var q := w.e.req.value;
    w.s.dram[q.LineNo(k)] == if w.e.moved[k] then MergeLine(w.h.base[k], q.data[k], q.masks[k]) else w.h.base[k]
  }

  ghost predicate StagingOk(w: World)
    requires w.Ok()
  {
    w.e.req.Some? && w.e.req.value.Write() && w.e.req.value.Staging() ==>
      forall k :: 0 <= k < w.e.req.value.Count() ==> StagingAt(w, k)
  }

  lemma StagingEffect(w: World, a: Act)
    requires w.Ok() && Protocol(w) && CleanOk(w) && StagingOk(w)
    ensures StagingOk(Effect(w, a))
  {
    if w.e.req.Some? && w.e.req.value.Write() && w.e.req.value.Staging() {
      forall k | 0 <= k < w.e.req.value.Count()
        ensures StagingAt(Effect(w, a), k)
      {
        assert StagingAt(w, k);
        assert CleanAt(w, w.e.req.value.LineNo(k));
        StagingLineEffect(w, a, k);
      }
    }
  }

  lemma StagingLineEffect(w: World, a: Act, k: nat)
    requires w.Ok() && Protocol(w) && w.e.req.Some? && w.e.req.value.Staging() && k < w.e.req.value.Count()
    requires w.e.req.value.Write() && StagingAt(w, k) && CleanAt(w, w.e.req.value.LineNo(k))
    ensures StagingAt(Effect(w, a), k)
  {
    hide IndexOf, Spoilt, StoredTo, MergeLine;
    StagingLines(w.e.req.value, k);
  }

  lemma StagingEdge(w: World, c: Choice)
    requires w.Ok() && Protocol(w) && CleanOk(w) && StagingOk(w)
    ensures StagingOk(Edge(w, c))
  {
    hide MergeLine, IndexOf;
    var w' := Edge(w, c);
    if w'.e.req.Some? && w'.e.req.value.Write() && w'.e.req.value.Staging() {
      forall k | 0 <= k < w'.e.req.value.Count()
        ensures StagingAt(w', k)
      {
        if w.e.req.Some? {
          assert StagingAt(w, k);
        } else {
          StagingLines(w'.e.req.value, k);
          assert CleanAt(w, w'.e.req.value.LineNo(k));
        }
      }
    }
  }

  // ---- one sequential memory ----

  /** Byte j of line l is one a write in progress replaces. */
  ghost predicate Replaced(w: World, l: nat, j: nat)
    requires w.Ok() && j < 16
  {
    Owned(w, l) && w.e.req.value.masks[Index(w, l).value][j]
  }

  /** A byte no racing store has spoilt is the sequential memory's in the processor's view; while
      a write is replacing it, memory holds it and a clean copy may still show the old one. */
  ghost predicate ByteAt(w: World, l: nat, j: nat)
    requires w.Ok() && l < |w.s.dram| && j < 16
  {
    w.h.torn[l][j] ||
    if Replaced(w, l, j) then
      var k := Index(w, l).value;
      && !w.s.cache[l].Dirty? && w.s.dram[l][j] == w.h.spec[l][j]
      && (!w.e.moved[k] ==> w.h.base[k][j] == w.h.spec[l][j])
      && (w.s.cache[l].Clean? ==> w.s.cache[l].value[j] == w.s.dram[l][j]
                                  || (w.e.moved[k] && w.s.cache[l].value[j] == w.h.base[k][j]))
    else w.s.View(l)[j] == w.h.spec[l][j]
  }

  ghost predicate BytesOk(w: World)
    requires w.Ok()
  {
    forall l, j :: 0 <= l < |w.s.dram| && 0 <= j < 16 ==> ByteAt(w, l, j)
  }

  lemma BytesEffect(w: World, a: Act)
    requires w.Ok() && Protocol(w) && CleanOk(w) && BytesOk(w)
    ensures BytesOk(Effect(w, a))
  {
    var w' := Effect(w, a);
    forall l, j | 0 <= l < |w'.s.dram| && 0 <= j < 16
      ensures ByteAt(w', l, j)
    {
      assert ByteAt(w, l, j) && CleanAt(w, l);
      ByteEffect(w, a, l, j);
    }
  }

  lemma ByteEffect(w: World, a: Act, l: nat, j: nat)
    requires w.Ok() && Protocol(w) && l < |w.s.dram| && j < 16 && CleanAt(w, l) && ByteAt(w, l, j)
    ensures ByteAt(Effect(w, a), l, j)
  {
    hide ByteAt, Effect, CleanAt, Protocol;
    if a.ByCpu() { ByteCpu(w, a, l, j); } else { ByteDma(w, a, l, j); }
  }

  lemma ByteCpu(w: World, a: Act, l: nat, j: nat)
    requires w.Ok() && Protocol(w) && l < |w.s.dram| && j < 16 && CleanAt(w, l) && ByteAt(w, l, j)
    requires a.ByCpu()
    ensures ByteAt(Effect(w, a), l, j)
  {
    hide IndexOf, Protocol;
  }

  lemma ByteDma(w: World, a: Act, l: nat, j: nat)
    requires w.Ok() && Protocol(w) && l < |w.s.dram| && j < 16 && CleanAt(w, l) && ByteAt(w, l, j)
    requires !a.ByCpu()
    ensures ByteAt(Effect(w, a), l, j)
  {
    hide ByteAt, Effect, CleanAt, Protocol;
    if a.SnoopTakes? { ByteSnoop(w, l, j); } else { ByteTransfer(w, a, l, j); }
  }

  lemma ByteSnoop(w: World, l: nat, j: nat)
    requires w.Ok() && Protocol(w) && l < |w.s.dram| && j < 16 && CleanAt(w, l) && ByteAt(w, l, j)
    ensures ByteAt(Effect(w, SnoopTakes), l, j)
  {
    hide IndexOf, Spoilt, StoredTo, MergeLine;
    if w.e.req.Some? { IndexOfLine(w.e.req.value, SubOf(w.e.req.value, w.r.sub)); }
  }

  lemma ByteTransfer(w: World, a: Act, l: nat, j: nat)
    requires w.Ok() && Protocol(w) && l < |w.s.dram| && j < 16 && CleanAt(w, l) && ByteAt(w, l, j)
    requires a.Transfer?
    ensures ByteAt(Effect(w, a), l, j)
  {
    hide IndexOf, Spoilt, StoredTo, Flushed;
    if w.e.req.Some? && a.k < w.e.req.value.Count() {
      IndexOfLine(w.e.req.value, a.k);
      if w.e.req.value.Staging() { StagingLines(w.e.req.value, a.k); }
    }
  }

  lemma BytesEdge(w: World, c: Choice)
    requires w.Ok() && Protocol(w) && BytesOk(w)
    ensures BytesOk(Edge(w, c))
  {
    hide IndexOf;
    var w' := Edge(w, c);
    forall l, j | 0 <= l < |w'.s.dram| && 0 <= j < 16
      ensures ByteAt(w', l, j)
    {
      assert ByteAt(w, l, j);
    }
  }

  // ---- every run ----

  ghost predicate Inv(w: World)
    requires w.Ok()
  {
    Protocol(w) && CleanOk(w) && LoadOk(w) && StoreOk(w) && StagingOk(w) && BytesOk(w)
  }

  /** Recording the views changes nothing else. */
  lemma LookKeeps(w: World)
    requires w.Ok()
    ensures Protocol(w) ==> Protocol(Look(w))
    ensures CleanOk(w) ==> CleanOk(Look(w))
    ensures StoreOk(w) ==> StoreOk(Look(w))
    ensures StagingOk(w) ==> StagingOk(Look(w))
    ensures BytesOk(w) ==> BytesOk(Look(w))
  {
    hide Seen, IndexOf;
    var w' := Look(w);
    if CleanOk(w) {
      forall l | 0 <= l < |w'.s.dram| ensures CleanAt(w', l) { assert CleanAt(w, l); }
    }
    if StoreOk(w) && w.e.req.Some? && w.e.req.value.Write() && !w.e.req.value.Staging() {
      forall k | 0 <= k < w.e.req.value.Count() ensures StoreAt(w', k) { assert StoreAt(w, k); }
    }
    if StagingOk(w) && w.e.req.Some? && w.e.req.value.Write() && w.e.req.value.Staging() {
      forall k | 0 <= k < w.e.req.value.Count() ensures StagingAt(w', k) { assert StagingAt(w, k); }
    }
    if BytesOk(w) {
      forall l, j | 0 <= l < |w'.s.dram| && 0 <= j < 16 ensures ByteAt(w', l, j) { assert ByteAt(w, l, j); }
    }
  }

  lemma StepKeeps(w: World, v: Event)
    requires w.Ok() && Inv(w)
    ensures Inv(Step(w, v))
  {
    hide Protocol, CleanOk, LoadOk, StoreOk, StagingOk, BytesOk, Look;
    match v {
      case Do(a) =>
        ProtocolEffect(w, a);
        CleanEffect(w, a);
        LoadEffect(w, a);
        StoreEffect(w, a);
        StagingEffect(w, a);
        BytesEffect(w, a);
        LookKeeps(Effect(w, a));
      case Clock(c) =>
        ProtocolEdge(w, c);
        CleanEdge(w, c);
        LoadEdge(w, c);
        StoreEdge(w, c);
        StagingEdge(w, c);
        BytesEdge(w, c);
        LookKeeps(Edge(w, c));
    }
  }

  lemma {:induction false} RunKeeps(dram: seq<Line>, vs: seq<Event>)
    ensures Inv(Run(dram, vs))
  {
    if vs == [] {
      InitKeeps(dram);
    } else {
      hide Inv, Step;
      RunKeeps(dram, vs[..|vs| - 1]);
      StepKeeps(Run(dram, vs[..|vs| - 1]), vs[|vs| - 1]);
    }
  }

  lemma InitKeeps(dram: seq<Line>)
    ensures Inv(Init(dram))
  {
    var w := Init(dram);
    forall l | 0 <= l < |dram| ensures CleanAt(w, l) {}
    forall l, j | 0 <= l < |dram| && 0 <= j < 16 ensures ByteAt(w, l, j) {}
  }

  // ---- results ----

  /** Every line a load returns is a value the processor's view of it had at some instant between
      the request and the response, whatever the cache did meanwhile. */
  lemma LoadsAreLinearizable(dram: seq<Line>, vs: seq<Event>, k: nat)
    requires var w := Run(dram, vs);
             w.r.st == RSP && !w.e.req.value.Write() && k < w.e.req.value.Count()
    ensures var w := Run(dram, vs);
            |w.r.loadData| == 4 && w.r.loadData[k] in w.h.seen[k]
  {
    RunKeeps(dram, vs);
    assert LoadAt(Run(dram, vs), k);
  }

  /** When a store is answered, every line the processor has not stored to since the line's first
      snoop shows its old value with the masked bytes replaced, in memory and in the processor's
      view, and no cached copy differs from memory. */
  lemma StoresLeaveNoStaleCopy(dram: seq<Line>, vs: seq<Event>, k: nat)
    requires var w := Run(dram, vs);
             w.r.st == RSP && w.e.req.value.Write() && !w.e.req.value.Staging() && k < w.e.req.value.Count()
               && !w.h.stored[k]
    ensures var w := Run(dram, vs);
            var q := w.e.req.value;
            var l := q.LineNo(k);
            && w.s.View(l) == w.s.dram[l] == MergeLine(w.h.base[k], q.data[k], q.masks[k])
            && w.s.cache[l] in {Absent, Clean(w.s.dram[l])}
  {
    hide MergeLine, Run;
    RunKeeps(dram, vs);
    var w := Run(dram, vs);
    assert StoreAt(w, k) && w.h.pre[k] && w.h.post[k] && w.e.moved[k];
  }

  /** When a store to staging memory, which is never snooped, is answered: no copy of its lines is
      cached, and memory and view show the value at the request with the masked bytes replaced. */
  lemma StagingStoresLand(dram: seq<Line>, vs: seq<Event>, k: nat)
    requires var w := Run(dram, vs);
             w.r.st == RSP && w.e.req.value.Write() && w.e.req.value.Staging() && k < w.e.req.value.Count()
    ensures var w := Run(dram, vs);
            var q := w.e.req.value;
            var l := q.LineNo(k);
            w.s.cache[l] == Absent && w.s.View(l) == w.s.dram[l] == MergeLine(w.h.base[k], q.data[k], q.masks[k])
  {
    hide MergeLine, Run;
    RunKeeps(dram, vs);
    var w := Run(dram, vs);
    assert StagingAt(w, k) && w.e.moved[k];
    StagingLines(w.e.req.value, k);
    assert CleanAt(w, w.e.req.value.LineNo(k));
  }

  /** At every instant of every run, each byte that no processor store inside a write's window has
      spoilt is what one sequential memory would hold in the processor's view, except while a
      device write is replacing it. */
  lemma OneMemory(dram: seq<Line>, vs: seq<Event>, l: nat, j: nat)
    requires l < |Run(dram, vs).s.dram| && j < 16
    requires var w := Run(dram, vs);
             !w.h.torn[l][j] && !Replaced(w, l, j)
    ensures Run(dram, vs).s.View(l)[j] == Run(dram, vs).h.spec[l][j]
  {
    hide Run;
    RunKeeps(dram, vs);
    assert ByteAt(Run(dram, vs), l, j);
  }

  /** The rule the shim relies on: the processor does not store to a line between the two snoops
      of a device write to it. */
  ghost predicate RuleKept(dram: seq<Line>, vs: seq<Event>)
  {
    forall n :: 0 <= n < |vs| && vs[n].Do? && vs[n].act.CpuStore? ==> !Owned(Run(dram, vs[..n]), vs[n].act.line)
  }

  /** Under the rule no byte is ever spoilt. */
  lemma {:induction false} NothingTorn(dram: seq<Line>, vs: seq<Event>, l: nat, j: nat)
    requires RuleKept(dram, vs) && l < |Run(dram, vs).s.dram| && j < 16
    ensures !Run(dram, vs).h.torn[l][j]
  {
    if vs != [] {
      var pre, v := vs[..|vs| - 1], vs[|vs| - 1];
      assert forall n :: 0 <= n < |pre| ==> vs[..n] == pre[..n];
      SameSize(Run(dram, pre), v);
      NothingTorn(dram, pre, l, j);
      TornStep(Run(dram, pre), v);
    }
  }

  lemma SameSize(w: World, v: Event)
    requires w.Ok()
    ensures |Step(w, v).s.dram| == |w.s.dram|
  {
  }

  lemma TornStep(w: World, v: Event)
    requires w.Ok() && (v.Do? && v.act.CpuStore? ==> !Owned(w, v.act.line))
    ensures Step(w, v).h.torn == w.h.torn
  {
  }

  /** So under the rule, with no device write in progress on a line, the processor's view of it is
      exactly what one sequential memory holds after the same stores and transfers. */
  lemma CoherentUnderRule(dram: seq<Line>, vs: seq<Event>, l: nat)
    requires RuleKept(dram, vs) && l < |Run(dram, vs).s.dram| && !Owned(Run(dram, vs), l)
    ensures Run(dram, vs).s.View(l) == Run(dram, vs).h.spec[l]
  {
    hide Run, RuleKept;
    var v, t := Run(dram, vs).s.View(l), Run(dram, vs).h.spec[l];
    forall j | 0 <= j < 16
      ensures v[j] == t[j]
    {
      NothingTorn(dram, vs, l, j);
      OneMemory(dram, vs, l, j);
    }
  }

  // ---- why the rule is needed ----

  const ONES: Line := [1, 1, 1, 1, 1, 1, 1, 1, 1, 1, 1, 1, 1, 1, 1, 1]
  const TWOS: Line := [2, 2, 2, 2, 2, 2, 2, 2, 2, 2, 2, 2, 2, 2, 2, 2]
  const ALL: Mask := [true, true, true, true, true, true, true, true, true, true, true, true, true, true, true, true]

  const DEVICE_WRITE := Request(0, OP_STORE16, [ONES, ONES, ONES, ONES], [ALL, ALL, ALL, ALL])

  const RACE: seq<Event> := [
    Clock(Choice(Some(DEVICE_WRITE), false, false, false)),
    Clock(Choice(None, false, false, false)),
    Clock(Choice(None, true, false, false)),
    Do(SnoopTakes),
    Clock(Choice(None, false, true, false)),
    Do(Refill(0)),
    Do(CpuStore(0, TWOS)),
    Do(Transfer(0)),
    Clock(Choice(None, false, false, true)),
    Clock(Choice(None, true, false, false)),
    Do(SnoopTakes),
    Clock(Choice(None, false, true, false))]

  /** A one-line memory with the device's write in progress. */
  ghost predicate Stage(w: World, st: State, snoop: Option<Snoop>, pre: bool, moved: bool, stored: bool, d: Line,
                        c: Copy)
  {
    && w.Ok() && w.s == Store([d], [c]) && w.r.st == st && w.r.sub < 4 && w.e.req == Some(DEVICE_WRITE)
    && w.e.snoop == snoop
    && w.h.pre[0] == pre && w.e.moved[0] == moved && w.h.stored[0] == stored && (pre ==> w.h.base[0] == ZERO_LINE)
  }

  lemma RunOneMore(vs: seq<Event>, n: nat)
    requires n < |vs|
    ensures Run([ZERO_LINE], vs[..n + 1]) == Step(Run([ZERO_LINE], vs[..n]), vs[n])
  {
    assert vs[..n + 1][..n] == vs[..n];
  }

  /** A store of the device's line: all its bytes. */
  lemma WholeLine(was: Line)
    ensures MergeLine(was, ONES, ALL) == ONES
  {
  }

  lemma RaceToAccess(w: World)
    requires w == Init([ZERO_LINE])
    ensures var w4 := Step(Step(Step(Step(w, RACE[0]), RACE[1]), RACE[2]), RACE[3]);
            Stage(Step(w4, RACE[4]), FWD, None, true, false, false, ZERO_LINE, Absent)
  {
    hide MergeLine, Seen;
    var w1 := Step(w, RACE[0]);
    assert Stage(w1, IDLE, None, false, false, false, ZERO_LINE, Absent);
    var w2 := Step(w1, RACE[1]);
    assert Stage(w2, PRE, None, false, false, false, ZERO_LINE, Absent);
    var w3 := Step(w2, RACE[2]);
    assert Stage(w3, PRE_WAIT, Some(Snoop(0, false)), false, false, false, ZERO_LINE, Absent);
    var w4 := Step(w3, RACE[3]);
    assert Stage(w4, PRE_WAIT, Some(Snoop(0, true)), true, false, false, ZERO_LINE, Absent);
  }

  lemma RaceToAnswer(w: World)
    requires Stage(w, FWD, None, true, false, false, ZERO_LINE, Absent)
    ensures var w4 := Step(Step(Step(Step(w, RACE[5]), RACE[6]), RACE[7]), RACE[8]);
            Stage(Step(Step(Step(w4, RACE[9]), RACE[10]), RACE[11]), RSP, None, true, true, true, TWOS, Absent)
  {
    hide MergeLine, Seen;
    var w1 := Step(w, RACE[5]);
    assert Stage(w1, FWD, None, true, false, false, ZERO_LINE, Clean(ZERO_LINE));
    var w2 := Step(w1, RACE[6]);
    assert Stage(w2, FWD, None, true, false, true, ZERO_LINE, Dirty(TWOS));
    var w3 := Step(w2, RACE[7]);
    WholeLine(ZERO_LINE);
    assert Stage(w3, FWD, None, true, true, true, ONES, Dirty(TWOS));
    var w4 := Step(w3, RACE[8]);
    assert AllMoved(w3);
    assert Stage(w4, POST, None, true, true, true, ONES, Dirty(TWOS));
    var w5 := Step(w4, RACE[9]);
    assert Stage(w5, POST_WAIT, Some(Snoop(0, false)), true, true, true, ONES, Dirty(TWOS));
    var w6 := Step(w5, RACE[10]);
    assert Stage(w6, POST_WAIT, Some(Snoop(0, true)), true, true, true, TWOS, Absent);
  }

  /** A processor store racing the write: the second snoop writes it back over the device's data,
      which is lost although the access is answered. */
  lemma RacingStoreWins()
    ensures var w := Run([ZERO_LINE], RACE);
            && w.r.st == RSP && w.e.req == Some(DEVICE_WRITE) && w.h.stored[0]
            && w.s.View(0) == w.s.dram[0] == TWOS
            && MergeLine(w.h.base[0], w.e.req.value.data[0], w.e.req.value.masks[0]) == ONES
  {
    hide Step, MergeLine;
    assert RACE[..0] == [] && RACE[..12] == RACE;
    RunOneMore(RACE, 0); RunOneMore(RACE, 1); RunOneMore(RACE, 2); RunOneMore(RACE, 3);
    RunOneMore(RACE, 4); RunOneMore(RACE, 5); RunOneMore(RACE, 6); RunOneMore(RACE, 7);
    RunOneMore(RACE, 8); RunOneMore(RACE, 9); RunOneMore(RACE, 10); RunOneMore(RACE, 11);
    RaceToAccess(Init([ZERO_LINE]));
    RaceToAnswer(Run([ZERO_LINE], RACE[..5]));
    WholeLine(ZERO_LINE);
  }
}
