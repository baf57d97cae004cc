/**
 The ARM-served capture window (`gio_window`): record layout, the next-state function of the
 enqueue/hold/answer logic and of the ring writer, and the clocked object with its four-entry
 circular queue.
 */
module GioWindow {
  import opened Prelude

  // ---- records ----

  type Kind = k: int | 0 <= k < 4
  const STORE: Kind := 0
  const READ: Kind := 1
  const VDMA_STORE: Kind := 2
  const MARKER: Kind := 3

  /** One 16-byte record. `dwoff` is a doubleword offset of the window, `space` its top bit. */
  datatype Rec = Rec(kind: Kind, mask: Byte, space: bool, dwoff: nat, recno: Word32, lanes: Word64)

  function Marker(begin: bool, recno: Word32): Rec { Rec(MARKER, if begin then 1 else 0, false, 0, recno, 0) }

  /** A processor access: a 16-byte line address, byte enables and data of its two halves. */
  datatype Cpu = Cpu(isStore: bool, space: bool, addr: Word32, maskLo: Byte, maskHi: Byte, dataLo: Word64,
                     dataHi: Word64)

  const WINDOW := 8192

  /** The doubleword of the window that a half of a line names. */
  function HalfOffset(addr: Word32, hi: bool): nat { addr % WINDOW / 16 * 2 + (if hi then 1 else 0) }

  /** The record of a processor access: the half with byte enables, no data for a READ. */
  function CpuRec(c: Cpu, recno: Word32): Rec
  {
    var hi := c.maskHi != 0;
    Rec(if c.isStore then STORE else READ, if hi then c.maskHi else c.maskLo, c.space,
        HalfOffset(c.addr, hi), recno,
        if c.isStore then (if hi then c.dataHi else c.dataLo) else 0)
  }

  /** A doubleword of a VDMA transfer: its GIO address and its eight byte lanes. */
  datatype Dword = Dword(addr: Word32, lanes: Word64)

  function DmaRec(d: Dword, recno: Word32): Rec
  {
    Rec(VDMA_STORE, 0xff, false, d.addr % WINDOW / 8, recno, d.lanes)
  }

  // ---- the machine ----

  const QN := 4

  datatype Cfg = Cfg(ringN: nat, prodEvery: nat)
  {
    /** A power of two of at least one 64-byte line, below the counters' range. */
    predicate Valid() { 4 <= ringN < TWO32 && ringN % 4 == 0 && TWO32 % ringN == 0 && 1 <= prodEvery < TWO32 - 4 }
  }

  datatype WState = W_IDLE | W_REC | W_PROD | W_BURST

  /** An accepted processor access that has no record number yet. */
  datatype Held = Held(rec: Rec, isRead: bool)

  /** The registers facing the processor and the VDMA. `built` counts the records numbered;
      `beg` and `end` are transfer markers still to be queued. */
  datatype Front = Front(
    held: Option<Held>, wait: Option<Word32>, built: Word32,
    done: bool, rdLo: Word32, rdHi: Word32, beg: bool, end: bool)

  /** The registers of the ring writer. */
  datatype Back = Back(wst: WState, written: Word32, published: Word32, rdUnpub: bool)

  /** All registers, with the circular queue as a sequence. */
  datatype Regs = Regs(q: seq<Rec>, f: Front, w: Back)
  {
    /** The queue holds what the writer is writing. */
    predicate Wf() { |q| <= QN && (w.wst == W_REC ==> |q| >= 1) && (w.wst == W_BURST ==> |q| == QN) }
  }

  const RESET := Regs([], Front(None, None, 0, false, 0, 0, false, false), Back(W_IDLE, 0, 0, false))

  datatype Inputs = Inputs(
    sel: Option<Cpu>, dmaBegin: bool, dmaEnd: bool, dma: Option<Dword>,
    cons: Word32, ansLo: Word32, ansHi: Word32, ansSeq: Word32, rsp: bool)

  /** What enters the queue in a cycle. */
  datatype Pick = PickBegin | PickEnd | PickNew | PickHeld | PickDma | PickNone

  /** Queue room and ring room: ring space counts every record numbered, queued or written. */
  predicate Room(cfg: Cfg, g: Regs, i: Inputs) { |g.q| != QN && Wrap32(g.f.built - i.cons) < cfg.ringN }

  function PickedFrom(room: bool, f: Front, i: Inputs): Pick
  {
    if f.beg && !f.end && room then PickBegin
    else if f.end && (i.dma.None? || f.beg) && room then PickEnd
    else if i.sel.Some? then (if !f.beg && !f.end && room then PickNew else PickNone)
    else if f.held.Some? && !f.beg && !f.end then (if room then PickHeld else PickNone)
    else if i.dma.Some? && !f.beg && room then PickDma
    else PickNone
  }

  function Picked(cfg: Cfg, g: Regs, i: Inputs): Pick { PickedFrom(Room(cfg, g, i), g.f, i) }

  function NextNo(f: Front): Word32 { Wrap32(f.built + 1) }

  /** The source has what the pick takes. */
  predicate Offers(p: Pick, f: Front, i: Inputs)
  {
    (p == PickNew ==> i.sel.Some?) && (p == PickHeld ==> f.held.Some? && i.sel.None?) && (p == PickDma ==> i.dma.Some?)
  }

  /** The record queued for a pick. */
  function Enqueued(p: Pick, f: Front, i: Inputs): seq<Rec>
    requires Offers(p, f, i)
  {
    match p
    case PickBegin => [Marker(true, NextNo(f))]
    case PickEnd => [Marker(false, NextNo(f))]
    case PickNew => [CpuRec(i.sel.value, NextNo(f))]
    case PickHeld => [f.held.value.rec.(recno := NextNo(f))]
    case PickDma => [DmaRec(i.dma.value, NextNo(f))]
    case PickNone => []
  }

  /** The awaited answer is here. */
  predicate Answered(f: Front, i: Inputs) { f.wait == Some(i.ansSeq) }

  /** A READ is queued: the processor now waits for its answer. */
  predicate StartsWait(p: Pick, f: Front, i: Inputs)
    requires Offers(p, f, i)
  {
    (p == PickNew && !i.sel.value.isStore) || (p == PickHeld && f.held.value.isRead)
  }

  /** A STORE is queued: the processor goes on. */
  predicate PostsStore(p: Pick, f: Front, i: Inputs)
    requires Offers(p, f, i)
  {
    (p == PickNew && i.sel.value.isStore) || (p == PickHeld && !f.held.value.isRead)
  }

  /** A new access that is not queued is held; a held one that is queued is not held any more. */
  function NextHeld(p: Pick, f: Front, i: Inputs): Option<Held>
  {
    if p == PickHeld then None
    else if i.sel.Some? && p != PickNew then Some(Held(CpuRec(i.sel.value, NextNo(f)), !i.sel.value.isStore))
    else f.held
  }

  function NextFront(p: Pick, f: Front, i: Inputs): Front
    requires Offers(p, f, i)
  {
    Front(
      NextHeld(p, f, i),
      if Answered(f, i) then None else if StartsWait(p, f, i) then Some(NextNo(f)) else f.wait,
      if p == PickNone then f.built else NextNo(f),
      PostsStore(p, f, i) || Answered(f, i),
      if Answered(f, i) then i.ansLo else f.rdLo, if Answered(f, i) then i.ansHi else f.rdHi,
      (f.beg && p != PickBegin) || i.dmaBegin, (f.end && p != PickEnd) || i.dmaEnd)
  }

  predicate HasRead(q: seq<Rec>) { exists k :: 0 <= k < |q| && q[k].kind == READ }

  /** The index is due: after a READ, when the queue has drained, or after prodEvery records. */
  predicate MustPublish(cfg: Cfg, q: seq<Rec>, w: Back)
  {
    w.published != w.written && (w.rdUnpub || q == [] || Wrap32(w.written - w.published) >= cfg.prodEvery)
  }

  /** Records leaving the queue for ring memory. */
  function Dequeued(w: Back, rsp: bool): nat
  {
    if rsp && w.wst == W_REC then 1 else if rsp && w.wst == W_BURST then QN else 0
  }

  function NextBack(cfg: Cfg, q: seq<Rec>, w: Back, rsp: bool): Back
    requires Dequeued(w, rsp) <= |q|
  {
    match w.wst
    case W_IDLE =>
      w.(wst := if MustPublish(cfg, q, w) then W_PROD
                else if |q| == QN && w.written % 4 == 0 then W_BURST
                else if q != [] then W_REC
                else W_IDLE)
    case W_PROD => if rsp then Back(W_IDLE, w.written, w.written, false) else w
    case _ =>
      if rsp then
        var d := Dequeued(w, rsp);
        w.(wst := W_IDLE, written := Wrap32(w.written + d), rdUnpub := w.rdUnpub || HasRead(q[..d]))
      else w
  }

  /** One clock edge, given what is queued: both halves look at the same cycle's registers. */
  function NextBy(cfg: Cfg, p: Pick, g: Regs, i: Inputs): Regs
    requires g.Wf() && Offers(p, g.f, i)
  {
    Regs(g.q[Dequeued(g.w, i.rsp)..] + Enqueued(p, g.f, i), NextFront(p, g.f, i), NextBack(cfg, g.q, g.w, i.rsp))
  }

  /** One clock edge. */
  function Next(cfg: Cfg, g: Regs, i: Inputs): Regs
    requires g.Wf()
  {
    NextBy(cfg, Picked(cfg, g, i), g, i)
  }

  /** The doubleword handed over by the VDMA is taken this cycle. */
  predicate DmaReady(cfg: Cfg, g: Regs, i: Inputs) { Picked(cfg, g, i) == PickDma }

  /** At most one record enters, and none when the queue is full. */
  lemma QueueBound(cfg: Cfg, g: Regs, i: Inputs)
    requires g.Wf()
    ensures var e := Enqueued(Picked(cfg, g, i), g.f, i); |e| <= 1 && (|g.q| == QN ==> e == [])
  {
  }

  lemma WfStep(cfg: Cfg, g: Regs, i: Inputs)
    requires g.Wf()
    ensures Next(cfg, g, i).Wf()
  {
    QueueBound(cfg, g, i);
  }

  // ---- the clocked object ----

  /** A two-bit pointer k slots further on. */
  function Slot(p: nat, k: nat): (r: nat)
    requires p < QN && k <= QN
    ensures r < QN && (r == p + k || r == p + k - QN)
  {
    if p + k < QN then p + k else p + k - QN
  }

  /** The n entries of a four-slot circular buffer from position head. */
  function Circular(s: seq<Rec>, head: nat, n: nat): (q: seq<Rec>)
    requires |s| == QN && head < QN && n <= QN
    ensures |q| == n && forall k :: 0 <= k < n ==> q[k] == s[Slot(head, k)]
  {
    seq(n, k requires 0 <= k < n => s[Slot(head, k)])
  }

  /** A write at the tail appends; moving the head drops from the front (by four it wraps to itself). */
  lemma CircularStep(s: seq<Rec>, head: nat, n: nat, d: nat, e: seq<Rec>)
    requires |s| == QN && head < QN && d <= n <= QN && |e| <= 1 && (n == QN ==> e == [])
    ensures var s' := if e == [] then s else s[Slot(head, n) := e[0]];
            Circular(s', Slot(head, d), n - d + |e|) == Circular(s, head, n)[d..] + e
  {
  }

  class Window {
    const cfg: Cfg
    const slots: array<Rec>
    var head: nat
    var tail: nat
    var cnt: nat
    var held: bool
    var heldRec: Rec
    var heldRd: bool
    var waiting: bool
    var waitSeq: Word32
    var built: Word32
    var done: bool
    var rdLo: Word32
    var rdHi: Word32
    var beg: bool
    var end: bool
    var wst: WState
    var written: Word32
    var published: Word32
    var rdUnpub: bool

    ghost predicate Valid()
      reads this, slots
    {
      slots.Length == QN && head < QN && cnt <= QN && tail == Slot(head, cnt) && Value().Wf()
    }

    function Queue(): seq<Rec>
      requires slots.Length == QN && head < QN && cnt <= QN
      reads this, slots
    {
      Circular(slots[..], head, cnt)
    }

    function FrontValue(): Front
      reads this
    {
      Front(if held then Some(Held(heldRec, heldRd)) else None, if waiting then Some(waitSeq) else None,
            built, done, rdLo, rdHi, beg, end)
    }

    function BackValue(): Back
      reads this
    {
      Back(wst, written, published, rdUnpub)
    }

    function Value(): Regs
      requires slots.Length == QN && head < QN && cnt <= QN
      reads this, slots
    {
      Regs(Queue(), FrontValue(), BackValue())
    }

    constructor (cfg: Cfg, slots: array<Rec>)
      requires slots.Length == QN
      ensures this.cfg == cfg && this.slots == slots && Valid() && Value() == RESET
    {
      this.cfg, this.slots := cfg, slots;
      head, tail, cnt := 0, 0, 0;
      held, heldRd, waiting, waitSeq := false, false, false, 0;
      heldRec := Rec(STORE, 0, false, 0, 0, 0);
      built, done, rdLo, rdHi, beg, end := 0, false, 0, 0, false, false;
      wst, written, published, rdUnpub := W_IDLE, 0, 0, false;
    }

    /** The source of this cycle's record: BEGIN first (after an earlier END), then END, then
        the processor's access, new or held, then the VDMA. */
    method Choose(i: Inputs) returns (pick: Pick)
      requires Valid()
      ensures pick == Picked(cfg, Value(), i)
    {
      var room := cnt != QN && Wrap32(built - i.cons) < cfg.ringN;
      if beg && !end && room {
        pick := PickBegin;
      } else if end && (i.dma.None? || beg) && room {
        pick := PickEnd;
      } else if i.sel.Some? {
        pick := if !beg && !end && room then PickNew else PickNone;
      } else if held && !beg && !end {
        pick := if room then PickHeld else PickNone;
      } else {
        pick := if i.dma.Some? && !beg && room then PickDma else PickNone;
      }
    }

    /** The record of this cycle's pick, numbered now. */
    method Build(i: Inputs, pick: Pick) returns (rec: seq<Rec>)
      requires Offers(pick, FrontValue(), i)
      ensures rec == Enqueued(pick, FrontValue(), i)
    {
      var no := Wrap32(built + 1);
      match pick {
        case PickBegin => rec := [Marker(true, no)];
        case PickEnd => rec := [Marker(false, no)];
        case PickNew => rec := [CpuRec(i.sel.value, no)];
        case PickHeld => rec := [heldRec.(recno := no)];
        case PickDma => rec := [DmaRec(i.dma.value, no)];
        case PickNone => rec := [];
      }
    }

    /** The registers facing the processor: hold, post, wait, complete, mark. */
    method Accept(i: Inputs, pick: Pick)
      requires Offers(pick, FrontValue(), i)
      modifies this`held, this`heldRec, this`heldRd, this`waiting, this`waitSeq, this`built, this`done, this`rdLo,
               this`rdHi, this`beg, this`end
      ensures FrontValue() == NextFront(pick, old(FrontValue()), i)
    {
      hide CpuRec;
      ghost var f := FrontValue();
      Complete(i, pick);
      Hold(f, i, pick);
      if pick != PickNone { built := Wrap32(built + 1); }
      beg := (beg && pick != PickBegin) || i.dmaBegin;
      end := (end && pick != PickEnd) || i.dmaEnd;
    }

    /** A new access that cannot be queued is held; a held one that is queued is released. */
    method Hold(ghost f: Front, i: Inputs, pick: Pick)
      requires f.held == FrontValue().held && f.built == built
      modifies this`held, this`heldRec, this`heldRd
      ensures FrontValue().held == NextHeld(pick, f, i)
    {
      if pick == PickHeld {
        held := false;
      } else if i.sel.Some? && pick != PickNew {
        held, heldRec, heldRd := true, CpuRec(i.sel.value, Wrap32(built + 1)), !i.sel.value.isStore;
      }
    }

    /** Completion: a posted store, or the answer the processor waits for. */
    method Complete(i: Inputs, pick: Pick)
      requires Offers(pick, FrontValue(), i)
      modifies this`waiting, this`waitSeq, this`done, this`rdLo, this`rdHi
      ensures var f, n := old(FrontValue()), NextFront(pick, old(FrontValue()), i);
              FrontValue() == f.(wait := n.wait, done := n.done, rdLo := n.rdLo, rdHi := n.rdHi)
    {
      var no := Wrap32(built + 1);
      var answered := waiting && i.ansSeq == waitSeq;
      done := false;
      if pick == PickNew || pick == PickHeld {
        var isRead := if pick == PickNew then !i.sel.value.isStore else heldRd;
        if isRead { waiting, waitSeq := true, no; } else { done := true; }
      }
      if answered {
        waiting, done := false, true;
        rdLo, rdHi := i.ansLo, i.ansHi;
      }
    }

    /** The ring writer: what leaves the queue, and the ring counters. */
    method Drain(rsp: bool) returns (deq: nat)
      requires Valid()
      modifies this`wst, this`written, this`published, this`rdUnpub
      ensures deq == Dequeued(old(BackValue()), rsp) && deq <= cnt
      ensures BackValue() == NextBack(cfg, Queue(), old(BackValue()), rsp)
    {
      ghost var q := Queue();
      deq := 0;
      match wst {
        case W_IDLE =>
          if published != written && (rdUnpub || cnt == 0 || Wrap32(written - published) >= cfg.prodEvery) {
            wst := W_PROD;
          } else if cnt == QN && written % 4 == 0 {
            wst := W_BURST;
          } else if cnt != 0 {
            wst := W_REC;
          }
        case W_REC =>
          if rsp {
            deq := 1;
            assert q[..1] == [slots[head]] && q[..1][0] == slots[head];
            rdUnpub := rdUnpub || slots[head].kind == READ;
            wst, written := W_IDLE, Wrap32(written + 1);
          }
        case W_PROD =>
          if rsp { published, rdUnpub, wst := written, false, W_IDLE; }
        case W_BURST =>
          if rsp {
            deq := QN;
            var any := false;
            for k := 0 to QN
              invariant any <==> exists j :: 0 <= j < k && q[j].kind == READ
            {
              any := any || slots[Slot(head, k)].kind == READ;
              assert q[k] == slots[Slot(head, k)];
            }
            assert q[..QN] == q && (HasRead(q) <==> any);
            rdUnpub := rdUnpub || any;
            wst, written := W_IDLE, Wrap32(written + 4);
          }
      }
    }

    /** The queue with at most one record in and deq records out. */
    method MoveQueue(rec: seq<Rec>, deq: nat)
      requires slots.Length == QN && head < QN && cnt <= QN && tail == Slot(head, cnt)
      requires |rec| <= 1 && deq <= cnt && (cnt == QN ==> rec == [])
      modifies slots, this`head, this`tail, this`cnt
      ensures head < QN && cnt <= QN && tail == Slot(head, cnt)
      ensures Queue() == old(Queue())[deq..] + rec
    {
      CircularStep(slots[..], head, cnt, deq, rec);
      ghost var after := if rec == [] then slots[..] else slots[..][tail := rec[0]];
      if rec != [] {
        slots[tail] := rec[0];
        tail := Slot(tail, 1);
      }
      assert slots[..] == after;
      head := Slot(head, deq);
      cnt := cnt + |rec| - deq;
    }

    /** The clock edge, given the source of the record. */
    method Edge(i: Inputs, pick: Pick)
      requires Valid() && Offers(pick, FrontValue(), i) && (cnt == QN ==> Enqueued(pick, FrontValue(), i) == [])
      modifies this, slots
      ensures head < QN && cnt <= QN && tail == Slot(head, cnt)
      ensures Value() == NextBy(cfg, pick, old(Value()), i)
    {
      hide NextFront, NextBack, Circular, Dequeued;
      ghost var q, f, w := Queue(), FrontValue(), BackValue();
      var rec := Build(i, pick);
      var deq := Drain(i.rsp);
      assert FrontValue() == f && Queue() == q;
      Accept(i, pick);
      assert BackValue() == NextBack(cfg, q, w, i.rsp) && Queue() == q;
      MoveQueue(rec, deq);
      assert BackValue() == NextBack(cfg, q, w, i.rsp) && FrontValue() == NextFront(pick, f, i);
    }

    /** One clock edge. */
    method Clock(i: Inputs)
      requires Valid()
      modifies this, slots
      ensures Valid() && Value() == Next(cfg, old(Value()), i)
    {
      QueueBound(cfg, Value(), i);
      WfStep(cfg, Value(), i);
      var pick := Choose(i);
      Edge(i, pick);
    }
  }
}
