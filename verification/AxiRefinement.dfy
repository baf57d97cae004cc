/**
 The refinement: however the slave delays and reorders memory effects across IDs, the two-lane
 master answers like one sequential memory that performs each access at its acceptance.
 */
module AxiRefinement {
  import opened Prelude
  import opened AxiBus
  import AxiLane
  import AxiMaster
  import opened AxiSystem

  // ---- the invariant of one lane with its slave port ----

  /** The lane works for access x: its registers are x's, latched. */
  predicate Holds(id: Lane, l: AxiLane.Regs, x: Access)
  {
    l.Busy() ==>
      && x.lane == id && (x.Read() || x.Write())
      && l.isWr == x.Write() && l.burst == x.Burst() && l.addr == AxiLane.LatchedAddr(x)
      && l.len == x.Beats() - 1 && l.sd == x.req.data && l.mask == x.req.mask
      && (l.st == AxiLane.BAD <==> x.Bad())
  }

  predicate IdlePort(p: Port) { p.rd.None? && p.wr.None? }

  /** Lane and slave agree on how far the transaction is. */
  predicate Paired(l: AxiLane.Regs, p: Port)
  {
    l.beat < 4 && l.len < 4 &&
    match l.st
    case IDLE => IdlePort(p)
    case WAIT => IdlePort(p)
    case BAD => IdlePort(p)
    case AR => IdlePort(p) && !l.isWr && l.beat == 0
    case RD =>
      && p.rd.Some? && p.wr.None? && !l.isWr && l.beat <= l.len
      && p.rd.value.addr == l.addr && p.rd.value.len == l.len && p.rd.value.next == l.beat
      && |p.rd.value.vals| == l.len + 1
    case AW => IdlePort(p) && l.isWr && l.beat == 0
    case WD => WritePaired(l, p) && l.beat <= l.len && |p.wr.value.got| == l.beat
    case WB => WritePaired(l, p) && |p.wr.value.got| == l.len + 1
  }

  predicate WritePaired(l: AxiLane.Regs, p: Port)
    requires l.len < 4
  {
    && p.wr.Some? && p.rd.None? && l.isWr
    && p.wr.value.addr == l.addr && p.wr.value.len == l.len
    && |p.wr.value.got| <= l.len + 1
    && (forall k :: 0 <= k < |p.wr.value.got| ==> p.wr.value.got[k] == WriteBeat(l.sd[k], l.Strb()))
    && (forall k :: k in p.wr.value.applied ==> k < |p.wr.value.got|)
  }

  predicate Covers(x: Access, a: int) { x.FirstBeat() <= a < x.FirstBeat() + x.Beats() }

  /** Beat a of access x is written by the lane but not yet in memory. */
  predicate Pending(l: AxiLane.Regs, p: Port, x: Access, a: int)
  {
    && Covers(x, a)
    && (l.st == AxiLane.AW ||
        ((l.st == AxiLane.WD || l.st == AxiLane.WB) && p.wr.Some? && a - x.FirstBeat() !in p.wr.value.applied))
  }

  /** What beat a will be once the lane's pending write reaches memory. */
  function Overlay(l: AxiLane.Regs, p: Port, x: Access, a: int, v: Beat): Beat
  {
    if Pending(l, p, x, a) then Merge(v, x.req.data[a - x.FirstBeat()], x.Strb()) else v
  }

  /** A lane with a read in flight: what it has and will get is `answer`. */
  predicate Reads(l: AxiLane.Regs, p: Port, answer: seq<Beat>)
  {
    (l.st == AxiLane.RD && p.rd.Some? ==>
      && |answer| == |p.rd.value.vals| == l.len + 1 <= 4
      && (forall k :: 0 <= k < |answer| ==> p.rd.value.vals[k].Some? ==> p.rd.value.vals[k].value == answer[k])
      && (forall k :: 0 <= k < l.beat && k < |answer| ==> l.data[k] == answer[k]))
  }

  /** The two lanes are never on one 64-byte line with a write among them. */
  predicate Apart(l0: AxiLane.Regs, x0: Access, l1: AxiLane.Regs, x1: Access)
  {
    l0.Busy() && l1.Busy() && (l0.isWr || l1.isWr) ==> x0.Addr() / 64 != x1.Addr() / 64
  }

  // ---- one lane over one clock ----

  /** The channel events a lane sees, and those its port sees, are the same ones. */
  predicate Matched(l: AxiLane.Regs, p: Port, i: AxiLane.Inputs, e: PortEvents)
  {
    && l.beat < 4
    && (i.arFire ==> l.st == AxiLane.AR) && (i.awFire ==> l.st == AxiLane.AW) && (i.wFire ==> l.st == AxiLane.WD)
    && e.ar == (if i.arFire then Some((l.addr, l.len)) else None)
    && e.aw == (if i.awFire then Some((l.addr, l.len)) else None)
    && e.w == (if i.wFire then Some(WriteBeat(l.sd[l.beat], l.Strb())) else None)
    && e.rTaken == i.r.Some? && e.bTaken == i.bValid
    && (i.r.Some? ==> p.CanSend() && i.r.value.data == p.rd.value.vals[p.rd.value.next].value
                      && i.r.value.last == (p.rd.value.next == p.rd.value.len))
    && (i.bValid ==> p.CanRespond())
  }

  lemma PairStep(id: Lane, l: AxiLane.Regs, p: Port, x: Access, i: AxiLane.Inputs, e: PortEvents)
    requires Paired(l, p) && Holds(id, l, x) && Matched(l, p, i, e)
    ensures Paired(AxiLane.Next(id, l, i), NextPort(p, e))
  {
    hide Paired, AxiLane.Next, NextPort, Holds, Matched;
    if l.st == AxiLane.AW || l.st == AxiLane.WD || l.st == AxiLane.WB {
      PairWrites(id, l, p, i, e);
    } else {
      PairReads(id, l, p, i, e);
    }
  }

  lemma PairReads(id: Lane, l: AxiLane.Regs, p: Port, i: AxiLane.Inputs, e: PortEvents)
    requires Paired(l, p) && Matched(l, p, i, e) && l.st != AxiLane.AW && l.st != AxiLane.WD && l.st != AxiLane.WB
    ensures Paired(AxiLane.Next(id, l, i), NextPort(p, e))
  {
    hide AxiLane.Accepts, AxiLane.LatchedAddr;
  }

  lemma PairWrites(id: Lane, l: AxiLane.Regs, p: Port, i: AxiLane.Inputs, e: PortEvents)
    requires Paired(l, p) && Matched(l, p, i, e) && (l.st == AxiLane.AW || l.st == AxiLane.WD || l.st == AxiLane.WB)
    ensures Paired(AxiLane.Next(id, l, i), NextPort(p, e))
  {
    hide AxiLane.Accepts, AxiLane.LatchedAddr;
  }

  /** An unaccepted clock keeps the lane on its access; an accepting one puts it on the new one. */
  lemma HoldsStep(id: Lane, l: AxiLane.Regs, x: Access, i: AxiLane.Inputs)
    requires l.beat < 4 && Holds(id, l, x)
    ensures Holds(id, AxiLane.Next(id, l, i), if AxiLane.Accepts(id, l, i) then AxiLane.Candidate(id, i) else x)
  {
  }

  /** Outside an acceptance, no lane transition changes which beats are still to reach memory. */
  lemma OverlayStep(id: Lane, l: AxiLane.Regs, p: Port, x: Access, i: AxiLane.Inputs, e: PortEvents, a: int, v: Beat)
    requires Paired(l, p) && Holds(id, l, x) && Matched(l, p, i, e) && !AxiLane.Accepts(id, l, i)
    ensures Overlay(AxiLane.Next(id, l, i), NextPort(p, e), x, a, v) == Overlay(l, p, x, a, v)
  {
  }

  /** At an acceptance, the beats to come are exactly what the sequential memory writes. */
  lemma OverlayAccept(id: Lane, l: AxiLane.Regs, p: Port, i: AxiLane.Inputs, e: PortEvents, a: int, v: Beat)
    requires Paired(l, p) && Matched(l, p, i, e) && AxiLane.Accepts(id, l, i)
    ensures var x := AxiLane.Candidate(id, i);
            Overlay(AxiLane.Next(id, l, i), NextPort(p, e), x, a, v) == Written(x, a, v)
  {
  }

  lemma ReadsStep(id: Lane, l: AxiLane.Regs, p: Port, x: Access, i: AxiLane.Inputs, e: PortEvents, answer: seq<Beat>)
    requires Paired(l, p) && Holds(id, l, x) && Matched(l, p, i, e) && Reads(l, p, answer)
    requires l.st == AxiLane.AR || l.st == AxiLane.RD ==> |answer| == x.Beats()
    ensures Reads(AxiLane.Next(id, l, i), NextPort(p, e), answer)
  {
    if l.st == AxiLane.RD && i.r.Some? {
      assert l.beat < |answer|;
    }
  }

  /** A response carries the whole answer. */
  lemma ResponseStep(id: Lane, l: AxiLane.Regs, p: Port, x: Access, i: AxiLane.Inputs, e: PortEvents,
                     m: Mem)
    requires Paired(l, p) && Holds(id, l, x) && Matched(l, p, i, e)
    requires l.Busy() && !x.Write() ==> Reads(l, p, Answer(m, x))
    ensures var l' := AxiLane.Next(id, l, i);
            l'.rspValid ==> l'.rspBad == x.Bad() && l.Busy()
                            && (if l'.isWr then [] else l'.data[..l'.len + 1]) == Answer(m, x)
  {
    var l' := AxiLane.Next(id, l, i);
    if l'.rspValid && !x.Write() {
      if l.st == AxiLane.RD {
        assert l'.data[..l'.len + 1] == Answer(m, x);
      } else {
        assert l'.data[..l'.len + 1] == Answer(m, x);
      }
    }
  }

  // ---- both lanes, the channel locks and the memory ----

  /** Channel ownership: a lock names a lane that is waiting on that channel; write data is
      being moved by exactly the lane that owns the W channel, in address order. */
  predicate Locks(m: AxiMaster.Regs, wq: seq<Lane>)
  {
    && (m.arLock ==> m.L(m.arOwn).st == AxiLane.AR)
    && (m.awLock ==> m.L(m.awOwn).st == AxiLane.AW && !m.wBusy)
    && (m.l0.st == AxiLane.WD <==> m.wBusy && m.wOwn == 0)
    && (m.l1.st == AxiLane.WD <==> m.wBusy && m.wOwn == 1)
    && wq == (if m.wBusy then [m.wOwn] else [])
  }

  /** Memory, with what lane l still owes it and then what lane l' does. */
  ghost predicate OverlaysTo(l: AxiLane.Regs, p: Port, x: Access, l': AxiLane.Regs, p': Port, x': Access, mem: Mem,
                             seqMem: Mem)
  {
    forall a :: 0 <= a < N_BEATS ==> seqMem[a] == Overlay(l', p', x', a, Overlay(l, p, x, a, mem[a]))
  }

  /** The sequential memory is the real one with every accepted write completed. */
  ghost predicate Coherent(s: Sys, x0: Access, x1: Access, seqMem: Mem)
  {
    OverlaysTo(s.m.l0, s.p0, x0, s.m.l1, s.p1, x1, s.mem, seqMem)
  }

  /** A read in flight: the sequential memory still holds its answer, and so does all it got. */
  predicate ReadOk(l: AxiLane.Regs, p: Port, x: Access, seqMem: Mem, answer: seq<Beat>)
  {
    l.Busy() && !x.Write() ==>
      Reads(l, p, answer) && (!x.Bad() ==> answer == Answer(seqMem, x))
  }

  ghost predicate SysInv(s: Sys, x0: Access, x1: Access, seqMem: Mem, ans0: seq<Beat>, ans1: seq<Beat>)
  {
    && Paired(s.m.l0, s.p0) && Paired(s.m.l1, s.p1)
    && Holds(0, s.m.l0, x0) && Holds(1, s.m.l1, x1)
    && Apart(s.m.l0, x0, s.m.l1, x1)
    && Locks(s.m, s.wq)
    && Coherent(s, x0, x1, seqMem)
    && ReadOk(s.m.l0, s.p0, x0, seqMem, ans0) && ReadOk(s.m.l1, s.p1, x1, seqMem, ans1)
  }

  /** No beat is pending in one lane while the other covers it. */
  lemma NoOverlap(l: AxiLane.Regs, p: Port, x: Access, l': AxiLane.Regs, p': Port, x': Access, a: int)
    requires Apart(l, x, l', x') || Apart(l', x', l, x)
    requires Paired(l, p) && l.Busy() && l'.Busy() && Pending(l, p, x, a)
    ensures !Covers(x', a)
  {
    InSpace(x);
    InSpace(x');
  }

  lemma FirstOfLatched(id: Lane, l: AxiLane.Regs, x: Access)
    requires Holds(id, l, x) && l.Busy() && !x.Bad()
    ensures First(l.addr) == x.FirstBeat() && x.FirstBeat() + x.Beats() <= N_BEATS
  {
  }

  lemma ActKeepsInv(s: Sys, a: Act, x0: Access, x1: Access, seqMem: Mem, ans0: seq<Beat>, ans1: seq<Beat>)
    requires SysInv(s, x0, x1, seqMem, ans0, ans1)
    ensures SysInv(Do(s, a), x0, x1, seqMem, ans0, ans1)
  {
    hide Paired, Holds, Apart, Locks, ReadOk, DoSample, ApplyTo, MarkApplied, CanApply, OverlaysTo, Overlay;
    match a
    case Sample(id, k) =>
      if id == 0 { SampleKeeps(0, s.m.l0, s.p0, x0, s.m.l1, s.p1, x1, s.mem, seqMem, ans0, k); }
      else { SampleKeeps(1, s.m.l1, s.p1, x1, s.m.l0, s.p0, x0, s.mem, seqMem, ans1, k); }
      SampleCoherent(s, id, k, x0, x1, seqMem);
    case Apply(id, k) =>
      if CanApply(s.P(id), k) {
        if id == 0 { ApplyKeeps(0, s.m.l0, s.p0, x0, s.m.l1, s.p1, x1, s.mem, k); }
        else { ApplyKeeps(1, s.m.l1, s.p1, x1, s.m.l0, s.p0, x0, s.mem, k); }
        ApplyCoherent(s, id, k, x0, x1, seqMem);
        ApplyReads(s.m.L(id), s.P(id), if id == 0 then x0 else x1, seqMem, if id == 0 then ans0 else ans1, k);
      }
  }

  lemma SampleCoherent(s: Sys, id: Lane, k: nat, x0: Access, x1: Access, seqMem: Mem)
    requires Coherent(s, x0, x1, seqMem)
    ensures Coherent(Do(s, Sample(id, k)), x0, x1, seqMem)
  {
    hide Merge;
  }

  lemma ApplyCoherent(s: Sys, id: Lane, k: nat, x0: Access, x1: Access, seqMem: Mem)
    requires Coherent(s, x0, x1, seqMem) && CanApply(s.P(id), k)
    requires var l, p, x := s.m.L(id), s.P(id), if id == 0 then x0 else x1;
             var l', p', x' := s.m.L(1 - id), s.P(1 - id), if id == 0 then x1 else x0;
             forall a :: 0 <= a < N_BEATS ==>
               SameView(l, p, MarkApplied(p, k), x, l', p', x', a, s.mem[a], ApplyTo(p, s.mem, k)[a])
    ensures Coherent(Do(s, Apply(id, k)), x0, x1, seqMem)
  {
    hide Overlay, ApplyTo, MarkApplied, CanApply;
  }

  lemma ApplyReads(l: AxiLane.Regs, p: Port, x: Access, seqMem: Mem, ans: seq<Beat>, k: nat)
    requires CanApply(p, k) && ReadOk(l, p, x, seqMem, ans)
    ensures ReadOk(l, MarkApplied(p, k), x, seqMem, ans)
  {
    hide Answer;
  }

  /** Sampling a beat of a read takes the sequential memory's value. */
  lemma SampleKeeps(id: Lane, l: AxiLane.Regs, p: Port, x: Access, l': AxiLane.Regs, p': Port, x': Access,
                    mem: Mem, seqMem: Mem, ans: seq<Beat>, k: nat)
    requires Paired(l, p) && Paired(l', p') && Holds(id, l, x)
    requires Apart(l, x, l', x') || Apart(l', x', l, x)
    requires ReadOk(l, p, x, seqMem, ans)
    requires OverlaysTo(l, p, x, l', p', x', mem, seqMem) || OverlaysTo(l', p', x', l, p, x, mem, seqMem)
    ensures var q := DoSample(p, mem, k);
            Paired(l, q) && ReadOk(l, q, x, seqMem, ans) && q.wr == p.wr
  {
    hide Overlay, Apart;
    if DoSample(p, mem, k) != p { SampleSettled(id, l, p, x, l', p', x', mem, seqMem, k); }
  }

  /** Neither lane owes memory a beat that a read is about to sample. */
  lemma SampleSettled(id: Lane, l: AxiLane.Regs, p: Port, x: Access, l': AxiLane.Regs, p': Port, x': Access,
                      mem: Mem, seqMem: Mem, k: nat)
    requires Paired(l, p) && Paired(l', p') && Holds(id, l, x) && DoSample(p, mem, k) != p
    requires Apart(l, x, l', x') || Apart(l', x', l, x)
    requires OverlaysTo(l, p, x, l', p', x', mem, seqMem) || OverlaysTo(l', p', x', l, p, x, mem, seqMem)
    ensures var a := First(l.addr) + k;
            a < N_BEATS && First(l.addr) == x.FirstBeat() && k < x.Beats() && l.st == AxiLane.RD && seqMem[a] == mem[a]
  {
    FirstOfLatched(id, l, x);
    hide Apart, Merge;
    var a := First(l.addr) + k;
    if Pending(l', p', x', a) { NoOverlap(l', p', x', l, p, x, a); }
  }

  /** Applying a beat of a write turns a pending beat into memory. */
  lemma ApplyBeat(id: Lane, l: AxiLane.Regs, p: Port, x: Access, mem: Mem, k: nat, a: int)
    requires Paired(l, p) && Holds(id, l, x) && CanApply(p, k) && 0 <= a < N_BEATS
    ensures Paired(l, MarkApplied(p, k))
    ensures Overlay(l, MarkApplied(p, k), x, a, ApplyTo(p, mem, k)[a]) == Overlay(l, p, x, a, mem[a])
    ensures a != x.FirstBeat() + k ==> ApplyTo(p, mem, k)[a] == mem[a]
                                       && Pending(l, MarkApplied(p, k), x, a) == Pending(l, p, x, a)
    ensures Pending(l, p, x, x.FirstBeat() + k)
  {
    FirstOfLatched(id, l, x);
  }

  lemma ApplyKeeps(id: Lane, l: AxiLane.Regs, p: Port, x: Access, l': AxiLane.Regs, p': Port, x': Access,
                   mem: Mem, k: nat)
    requires Paired(l, p) && Paired(l', p') && Holds(id, l, x)
    requires Apart(l, x, l', x') || Apart(l', x', l, x)
    requires CanApply(p, k)
    ensures Paired(l, MarkApplied(p, k))
    ensures forall a :: 0 <= a < N_BEATS ==> SameView(l, p, MarkApplied(p, k), x, l', p', x', a, mem[a],
            ApplyTo(p, mem, k)[a])
  {
    var q, mem' := MarkApplied(p, k), ApplyTo(p, mem, k);
    forall a | 0 <= a < N_BEATS
      ensures Paired(l, q) && SameView(l, p, q, x, l', p', x', a, mem[a], mem'[a])
    {
      ApplyBeat(id, l, p, x, mem, k, a);
      if a == x.FirstBeat() + k && Pending(l', p', x', a) { NoOverlap(l', p', x', l, p, x, a); }
    }
    ApplyBeat(id, l, p, x, mem, k, 0);
  }

  /** Whichever lane's write is laid over memory first, beat a looks the same before and after. */
  ghost predicate SameView(l: AxiLane.Regs, p: Port, q: Port, x: Access, l': AxiLane.Regs, p': Port, x': Access,
                           a: int, v: Beat, w: Beat)
  {
    && Overlay(l', p', x', a, Overlay(l, q, x, a, w)) == Overlay(l', p', x', a, Overlay(l, p, x, a, v))
    && Overlay(l, q, x, a, Overlay(l', p', x', a, w)) == Overlay(l, p, x, a, Overlay(l', p', x', a, v))
  }

  lemma {:induction false} ActsKeepInv(s: Sys, acts: seq<Act>, x0: Access, x1: Access, seqMem: Mem,
                                       ans0: seq<Beat>, ans1: seq<Beat>)
    requires SysInv(s, x0, x1, seqMem, ans0, ans1)
    ensures SysInv(DoAll(s, acts), x0, x1, seqMem, ans0, ans1)
  {
    if acts != [] {
      ActsKeepInv(s, acts[..|acts| - 1], x0, x1, seqMem, ans0, ans1);
      ActKeepsInv(DoAll(s, acts[..|acts| - 1]), acts[|acts| - 1], x0, x1, seqMem, ans0, ans1);
    }
  }

  // ---- the clock edge ----

  function In(s: Sys, i: AxiMaster.Inputs, id: Lane): AxiLane.Inputs
  {
    if id == 0 then AxiMaster.LaneIn0(s.m, i) else AxiMaster.LaneIn1(s.m, i)
  }

  predicate AcceptsAt(s: Sys, i: AxiMaster.Inputs, id: Lane) { AxiLane.Accepts(id, s.m.L(id), In(s, i, id)) }

  /** The access a lane works for after the edge. */
  function NextAccess(s: Sys, i: AxiMaster.Inputs, id: Lane, x: Access): Access
  {
    if AcceptsAt(s, i, id) then AxiLane.Candidate(id, In(s, i, id)) else x
  }

  /** The sequential memory after lane id's acceptance, if there is one. */
  function After(s: Sys, i: AxiMaster.Inputs, id: Lane, x: Access, seqMem: Mem): Mem
  {
    if AcceptsAt(s, i, id) then Perform(seqMem, NextAccess(s, i, id, x)) else seqMem
  }

  function NextAnswer(s: Sys, i: AxiMaster.Inputs, id: Lane, x: Access, seqMem: Mem, ans: seq<Beat>): seq<Beat>
  {
    if AcceptsAt(s, i, id) then Answer(seqMem, NextAccess(s, i, id, x)) else ans
  }

  /** The bus shows each lane and its port the same events: R and B data find their lane
      waiting, and a write beat goes to the lane that sent it. */
  lemma BusMatches(s: Sys, c: Choice, id: Lane)
    requires Paired(s.m.l0, s.p0) && Paired(s.m.l1, s.p1) && Locks(s.m, s.wq)
    ensures Matched(s.m.L(id), s.P(id), In(s, MasterIn(s, c), id), EventsOf(s, MasterIn(s, c), id))
  {
    BusAddress(s, MasterIn(s, c), id);
    BusData(s, c, id);
  }

  /** The address and write-data channels carry the owner's registers. */
  lemma BusAddress(s: Sys, i: AxiMaster.Inputs, id: Lane)
    requires s.m.l0.beat < 4 && s.m.l1.beat < 4 && Locks(s.m, s.wq)
    ensures var l, j, e := s.m.L(id), In(s, i, id), EventsOf(s, i, id);
            && (j.arFire ==> l.st == AxiLane.AR) && (j.awFire ==> l.st == AxiLane.AW)
            && (j.wFire ==> l.st == AxiLane.WD)
            && e.ar == (if j.arFire then Some((l.addr, l.len)) else None)
            && e.aw == (if j.awFire then Some((l.addr, l.len)) else None)
            && e.w == (if j.wFire then Some(WriteBeat(l.sd[l.beat], l.Strb())) else None)
  {
  }

  lemma BusData(s: Sys, c: Choice, id: Lane)
    requires s.m.l0.beat < 4 && s.m.l1.beat < 4
    ensures var i := MasterIn(s, c);
            var p, j, e := s.P(id), In(s, i, id), EventsOf(s, i, id);
            && e.rTaken == j.r.Some? && e.bTaken == j.bValid
            && (j.r.Some? ==> p.CanSend() && j.r.value.data == p.rd.value.vals[p.rd.value.next].value
                              && j.r.value.last == (p.rd.value.next == p.rd.value.len))
            && (j.bValid ==> p.CanRespond())
  {
  }

  lemma LocksStep(s: Sys, c: Choice)
    requires Paired(s.m.l0, s.p0) && Paired(s.m.l1, s.p1) && Locks(s.m, s.wq)
    ensures Locks(AxiMaster.Next(s.m, MasterIn(s, c)), NextWq(s, MasterIn(s, c)))
  {
    hide AxiLane.Next, MasterIn, AxiLane.Accepts;
    var i := MasterIn(s, c);
    ChannelStates(0, s.m.l0, AxiMaster.LaneIn0(s.m, i));
    ChannelStates(1, s.m.l1, AxiMaster.LaneIn1(s.m, i));
    hide AxiMaster.LaneIn0, AxiMaster.LaneIn1;
    LaneWires(s.m, i);
  }

  /** When a lane is on an address channel, or moves write data. */
  lemma ChannelStates(id: Lane, l: AxiLane.Regs, i: AxiLane.Inputs)
    requires l.beat < 4
    ensures var st' := AxiLane.Next(id, l, i).st;
            && (l.st == AxiLane.AR && !i.arFire ==> st' == AxiLane.AR)
            && (l.st == AxiLane.AW && !i.awFire ==> st' == AxiLane.AW)
            && (st' == AxiLane.WD
                <==> (l.st == AxiLane.AW && i.awFire) || (l.st == AxiLane.WD && !(i.wFire && l.LastBeat())))
  {
    hide AxiLane.Accepts, AxiLane.LatchedAddr;
  }

  lemma LaneWires(m: AxiMaster.Regs, i: AxiMaster.Inputs)
    ensures var i0, i1 := AxiMaster.LaneIn0(m, i), AxiMaster.LaneIn1(m, i);
            && (i0.arFire <==> AxiMaster.ArFire(m, i) && m.ArSel() == 0)
            && (i1.arFire <==> AxiMaster.ArFire(m, i) && m.ArSel() == 1)
            && (i0.awFire <==> AxiMaster.AwFire(m, i) && m.AwSel() == 0)
            && (i1.awFire <==> AxiMaster.AwFire(m, i) && m.AwSel() == 1)
            && (i0.wFire <==> AxiMaster.WFire(m, i) && m.wOwn == 0)
            && (i1.wFire <==> AxiMaster.WFire(m, i) && m.wOwn == 1)
  {
    hide AxiLane.Accepts, AxiLane.WantsWrite, AxiLane.WantedLine;
  }

  /** The interlock: an acceptance, also two in one cycle, never puts the lanes on one line
      with a write among them. */
  lemma ApartStep(s: Sys, i: AxiMaster.Inputs, x0: Access, x1: Access)
    requires s.m.l0.beat < 4 && s.m.l1.beat < 4
    requires Holds(0, s.m.l0, x0) && Holds(1, s.m.l1, x1) && Apart(s.m.l0, x0, s.m.l1, x1)
    ensures var m' := AxiMaster.Next(s.m, i);
            Apart(m'.l0, NextAccess(s, i, 0, x0), m'.l1, NextAccess(s, i, 1, x1))
  {
    LineOfLatched(0, s.m.l0, x0);
    LineOfLatched(1, s.m.l1, x1);
    var i0, i1 := AxiMaster.LaneIn0(s.m, i), AxiMaster.LaneIn1(s.m, i);
    BusyAfter(0, s.m.l0, i0);
    BusyAfter(1, s.m.l1, i1);
    Interlock(s.m.l0, i0, x0, s.m.l1, i1, x1);
  }

  /** A lane is busy after a clock only if it was, or by accepting. */
  lemma BusyAfter(id: Lane, l: AxiLane.Regs, i: AxiLane.Inputs)
    requires l.beat < 4
    ensures var l' := AxiLane.Next(id, l, i);
            l'.Busy() ==> if AxiLane.Accepts(id, l, i) then l'.isWr == AxiLane.Candidate(id, i).Write()
                          else l.Busy() && l'.isWr == l.isWr
  {
  }

  /** The hazard wires, case by case: lane 0 checks what lane 1 has in flight, lane 1 checks
      what lane 0 has in flight or accepts now. */
  lemma Interlock(l0: AxiLane.Regs, i0: AxiLane.Inputs, x0: Access, l1: AxiLane.Regs, i1: AxiLane.Inputs, x1: Access)
    requires l0.Busy() ==> l0.Line() == x0.Addr() / 64
    requires l1.Busy() ==> l1.Line() == x1.Addr() / 64
    requires i0.other == AxiLane.Other(l1.Busy(), l1.isWr, l1.Line(), false, false, 0)
    requires i1.other == AxiLane.Other(l0.Busy(), l0.isWr, l0.Line(), AxiLane.Accepts(0, l0, i0),
                                       AxiLane.WantsWrite(0, i0), AxiLane.WantedLine(i0))
    ensures var c0, c1 := AxiLane.Candidate(0, i0), AxiLane.Candidate(1, i1);
            && (AxiLane.Accepts(0, l0, i0) && l1.Busy() && (l1.isWr || c0.Write()) ==> c0.Addr() / 64 != x1.Addr() / 64)
            && (AxiLane.Accepts(1, l1, i1) && l0.Busy() && (l0.isWr || c1.Write()) ==> c1.Addr() / 64 != x0.Addr() / 64)
            && (AxiLane.Accepts(0, l0, i0) && AxiLane.Accepts(1, l1, i1) && (c0.Write() || c1.Write()) ==>
                  c0.Addr() / 64 != c1.Addr() / 64)
  {
    assert AxiLane.WantedLine(i0) == AxiLane.Candidate(0, i0).Addr() / 64;
    assert AxiLane.WantedLine(i1) == AxiLane.Candidate(1, i1).Addr() / 64;
  }

  lemma LineOfLatched(id: Lane, l: AxiLane.Regs, x: Access)
    requires Holds(id, l, x)
    ensures l.Busy() ==> l.Line() == x.Addr() / 64
  {
    hide AxiAddr;
    SameLine(x.Addr());
  }

  /** A 16-byte line, marked or not, and a 64-byte line lie in the 64-byte line of their address. */
  lemma SameLine(a: nat)
    ensures (a / 16 * 16 + 1) / 64 == (a / 16 * 16 + 2) / 64 == a / 64 && a / 64 * 64 / 64 == a / 64
  {
  }

  /** The beat an access leaves at address a. */
  function Written(x: Access, a: int, v: Beat): Beat
  {
    if x.Write() && !x.Bad() && Covers(x, a) then Merge(v, x.req.data[a - x.FirstBeat()], x.Strb()) else v
  }

  lemma PerformAt(m: Mem, x: Access, a: int)
    requires 0 <= a < N_BEATS
    ensures Perform(m, x)[a] == Written(x, a, m[a])
  {
  }

  /** A lane's view of beat a over one clock. */
  lemma ViewStep(s: Sys, c: Choice, id: Lane, x: Access, a: int, v: Beat)
    requires Paired(s.m.l0, s.p0) && Paired(s.m.l1, s.p1) && Locks(s.m, s.wq) && Holds(id, s.m.L(id), x)
    ensures var i := MasterIn(s, c);
            var s' := Edge(s, i);
            var x' := NextAccess(s, i, id, x);
            if AcceptsAt(s, i, id) then
              && Overlay(s.m.L(id), s.P(id), x, a, v) == v
              && Overlay(s'.m.L(id), s'.P(id), x', a, v) == Written(x', a, v)
            else Overlay(s'.m.L(id), s'.P(id), x', a, v) == Overlay(s.m.L(id), s.P(id), x, a, v)
  {
    var i := MasterIn(s, c);
    BusMatches(s, c, id);
    if AcceptsAt(s, i, id) {
      OverlayAccept(id, s.m.L(id), s.P(id), In(s, i, id), EventsOf(s, i, id), a, v);
    } else {
      OverlayStep(id, s.m.L(id), s.P(id), x, In(s, i, id), EventsOf(s, i, id), a, v);
    }
  }

  /** Everything SysInv says of the lanes but not of memory. */
  ghost predicate LanesInv(s: Sys, x0: Access, x1: Access)
  {
    && Paired(s.m.l0, s.p0) && Paired(s.m.l1, s.p1)
    && Holds(0, s.m.l0, x0) && Holds(1, s.m.l1, x1)
    && Apart(s.m.l0, x0, s.m.l1, x1)
    && Locks(s.m, s.wq)
  }

  lemma LanesStep(s: Sys, c: Choice, x0: Access, x1: Access)
    requires LanesInv(s, x0, x1)
    ensures var i := MasterIn(s, c);
            LanesInv(Edge(s, i), NextAccess(s, i, 0, x0), NextAccess(s, i, 1, x1))
  {
    var i := MasterIn(s, c);
    BusMatches(s, c, 0);
    BusMatches(s, c, 1);
    PairStep(0, s.m.l0, s.p0, x0, In(s, i, 0), EventsOf(s, i, 0));
    PairStep(1, s.m.l1, s.p1, x1, In(s, i, 1), EventsOf(s, i, 1));
    HoldsStep(0, s.m.l0, x0, In(s, i, 0));
    HoldsStep(1, s.m.l1, x1, In(s, i, 1));
    ApartStep(s, i, x0, x1);
    LocksStep(s, c);
  }

  lemma CoherentStep(s: Sys, c: Choice, x0: Access, x1: Access, seqMem: Mem)
    requires LanesInv(s, x0, x1) && Coherent(s, x0, x1, seqMem)
    ensures var i := MasterIn(s, c);
            Coherent(Edge(s, i), NextAccess(s, i, 0, x0), NextAccess(s, i, 1, x1),
                     After(s, i, 1, x1, After(s, i, 0, x0, seqMem)))
  {
    var i := MasterIn(s, c);
    var s' := Edge(s, i);
    var y0, y1 := NextAccess(s, i, 0, x0), NextAccess(s, i, 1, x1);
    var m1 := After(s, i, 0, x0, seqMem);
    var m2 := After(s, i, 1, x1, m1);
    LanesStep(s, c, x0, x1);
    forall a | 0 <= a < N_BEATS
      ensures m2[a] == Overlay(s'.m.l1, s'.p1, y1, a, Overlay(s'.m.l0, s'.p0, y0, a, s'.mem[a]))
    {
      var v := s.mem[a];
      var v0 := Overlay(s.m.l0, s.p0, x0, a, v);
      ViewStep(s, c, 0, x0, a, v);
      var w0 := Overlay(s'.m.l0, s'.p0, y0, a, v);
      ViewStep(s, c, 1, x1, a, v0);
      ViewStep(s, c, 1, x1, a, w0);
      PerformAt(seqMem, y0, a);
      PerformAt(m1, y1, a);
      if AcceptsAt(s, i, 0) && y0.Write() && !y0.Bad() && Covers(y0, a) {
        // lane 0 has just taken a write of this beat: nothing of lane 1 touches it
        PendingAtAccept(s, i, y0, a);
        if Pending(s'.m.l1, s'.p1, y1, a) { NoOverlap(s'.m.l1, s'.p1, y1, s'.m.l0, s'.p0, y0, a); }
        ViewStep(s, c, 1, x1, a, v);
        if AcceptsAt(s, i, 1) && y1.Write() && !y1.Bad() && Covers(y1, a) {
          NoOverlap(s'.m.l0, s'.p0, y0, s'.m.l1, s'.p1, y1, a);
        }
      }
    }
  }

  lemma PendingAtAccept(s: Sys, i: AxiMaster.Inputs, y: Access, a: int)
    requires s.m.l0.beat < 4 && s.m.l1.beat < 4
    requires AcceptsAt(s, i, 0) && y == NextAccess(s, i, 0, y) && y.Write() && !y.Bad() && Covers(y, a)
    ensures var s' := Edge(s, i); Pending(s'.m.l0, s'.p0, y, a) && s'.m.l0.Busy()
  {
  }

  /** An access of another line, or no write, leaves a read's answer alone. */
  /** Accesses on different lines have no beat in common. */
  lemma LinesApart(x: Access, y: Access, a: int)
    requires y.Addr() / 64 != x.Addr() / 64 && Covers(x, a) && !x.Bad()
    ensures y.Bad() || !Covers(y, a)
  {
    InSpace(x);
    InSpace(y);
  }

  lemma AnswerStable(m: Mem, y: Access, x: Access)
    requires y.Write() ==> y.Addr() / 64 != x.Addr() / 64
    ensures Answer(Perform(m, y), x) == Answer(m, x)
  {
    if y.Write() && !x.Write() && !x.Bad() {
      InSpace(x);
      forall a | Covers(x, a)
        ensures Perform(m, y)[a] == m[a]
      {
        LinesApart(x, y, a);
        PerformAt(m, y, a);
      }
      hide Perform;
    }
  }

  /** The acceptance of lane id leaves the answer of the other lane's read alone. */
  lemma OtherAnswerStable(s: Sys, i: AxiMaster.Inputs, id: Lane, x: Access, l': AxiLane.Regs, x': Access,
                          other: AxiLane.Regs,
                          y: Access, m: Mem)
    requires x' == NextAccess(s, i, id, x)
    requires AcceptsAt(s, i, id) ==> l'.Busy() && l'.isWr == x'.Write()
    requires other.Busy()
    requires Apart(l', x', other, y) || Apart(other, y, l', x')
    ensures Answer(After(s, i, id, x, m), y) == Answer(m, y)
  {
    if AcceptsAt(s, i, id) { AnswerStable(m, x', y); }
  }

  lemma BusyAtAccept(id: Lane, l: AxiLane.Regs, i: AxiLane.Inputs)
    requires l.beat < 4
    ensures var l' := AxiLane.Next(id, l, i);
            AxiLane.Accepts(id, l, i) ==>
              l'.Busy() && l'.isWr == AxiLane.Candidate(id, i).Write() && l'.st != AxiLane.RD
  {
  }

  /** One lane's read over one clock, given that the sequential memory still answers it alike. */
  lemma ReadOkStep(s: Sys, c: Choice, id: Lane, x: Access, seqMem: Mem, ans: seq<Beat>, before: Mem, after: Mem)
    requires Paired(s.m.l0, s.p0) && Paired(s.m.l1, s.p1) && Locks(s.m, s.wq) && Holds(id, s.m.L(id), x)
    requires ReadOk(s.m.L(id), s.P(id), x, seqMem, ans)
    requires var s' := Edge(s, MasterIn(s, c));
             var y := NextAccess(s, MasterIn(s, c), id, x);
             s'.m.L(id).Busy() && !y.Write() ==>
               && Answer(after, y) == Answer(before, y)
               && (!AcceptsAt(s, MasterIn(s, c), id) ==> Answer(before, y) == Answer(seqMem, y))
    ensures var i := MasterIn(s, c);
            var s' := Edge(s, i);
            ReadOk(s'.m.L(id), s'.P(id), NextAccess(s, i, id, x), after, NextAnswer(s, i, id, x, before, ans))
  {
    hide AxiLane.Next, AxiLane.Accepts, EventsOf, MasterIn, NextPort, Matched;
    var i := MasterIn(s, c);
    BusMatches(s, c, id);
    var l, p := s.m.L(id), s.P(id);
    BusyAtAccept(id, l, In(s, i, id));
    BusyAfter(id, l, In(s, i, id));
    if !AcceptsAt(s, i, id) && AxiLane.Next(id, l, In(s, i, id)).Busy() && !x.Write() {
      ReadsStep(id, l, p, x, In(s, i, id), EventsOf(s, i, id), ans);
    }
  }

  lemma EdgeKeepsInv(s: Sys, c: Choice, x0: Access, x1: Access, seqMem: Mem, ans0: seq<Beat>, ans1: seq<Beat>)
    requires SysInv(s, x0, x1, seqMem, ans0, ans1)
    ensures var i := MasterIn(s, c);
            var m1 := After(s, i, 0, x0, seqMem);
            SysInv(Edge(s, i), NextAccess(s, i, 0, x0), NextAccess(s, i, 1, x1), After(s, i, 1, x1, m1),
                   NextAnswer(s, i, 0, x0, seqMem, ans0), NextAnswer(s, i, 1, x1, m1, ans1))
  {
    var i := MasterIn(s, c);
    var s' := Edge(s, i);
    var y0, y1 := NextAccess(s, i, 0, x0), NextAccess(s, i, 1, x1);
    var m1 := After(s, i, 0, x0, seqMem);
    var m2 := After(s, i, 1, x1, m1);
    LanesStep(s, c, x0, x1);
    CoherentStep(s, c, x0, x1, seqMem);
    BusyAtAccept(0, s.m.l0, In(s, i, 0));
    BusyAtAccept(1, s.m.l1, In(s, i, 1));
    if s'.m.l0.Busy() && !y0.Write() {
      OtherAnswerStable(s, i, 1, x1, s'.m.l1, y1, s'.m.l0, y0, m1);
      if AcceptsAt(s, i, 0) { AnswerStable(seqMem, y0, y0); }
    }
    if s'.m.l1.Busy() && !y1.Write() {
      OtherAnswerStable(s, i, 0, x0, s'.m.l0, y0, s'.m.l1, y1, seqMem);
      if AcceptsAt(s, i, 1) { AnswerStable(m1, y1, y1); }
    }
    ReadOkStep(s, c, 0, x0, seqMem, ans0, seqMem, m2);
    ReadOkStep(s, c, 1, x1, seqMem, ans1, m1, m2);
  }

  // ---- whole runs ----

  const NO_ACCESS := Access(0, Config(false, 0, 0),
    Request(false, 0, 0, ALL_LANES, [ZERO_BEAT, ZERO_BEAT, ZERO_BEAT, ZERO_BEAT]))

  function AccessAt(log: seq<Access>, cur: Option<nat>): Access
  {
    if cur.Some? && cur.value < |log| then log[cur.value] else NO_ACCESS
  }

  /** The answer of log entry cur when the log is performed in order. */
  function AnswerAt(m0: Mem, log: seq<Access>, cur: Option<nat>): seq<Beat>
  {
    if cur.Some? && cur.value < |log| then Answer(Replay(m0, log[..cur.value]), log[cur.value]) else []
  }

  /** A response answers a logged access of its lane as the sequential memory does. */
  predicate Correct(m0: Mem, log: seq<Access>, r: Response)
  {
    && r.idx.Some? && r.idx.value < |log|
    && r.lane == log[r.idx.value].lane
    && r.bad == log[r.idx.value].Bad()
    && r.data == AnswerAt(m0, log, r.idx)
  }

  predicate CurOk(log: seq<Access>, cur: Option<nat>, l: AxiLane.Regs)
  {
    && (cur.Some? ==> cur.value < |log|)
    && (l.Busy() ==> cur.Some?)
  }

  ghost predicate WorldInv(m0: Mem, w: World)
  {
    && Sane(w.s.m)
    && CurOk(w.o.log, w.o.cur0, w.s.m.l0) && CurOk(w.o.log, w.o.cur1, w.s.m.l1)
    && SysInv(w.s, AccessAt(w.o.log, w.o.cur0), AccessAt(w.o.log, w.o.cur1), Replay(m0, w.o.log),
              AnswerAt(m0, w.o.log, w.o.cur0), AnswerAt(m0, w.o.log, w.o.cur1))
    && (forall k :: 0 <= k < |w.o.rsps| ==> Correct(m0, w.o.log, w.o.rsps[k]))
  }

  lemma InitInv(m0: Mem, sd0: Quad, data0: Quad, sd1: Quad, data1: Quad)
    ensures WorldInv(m0, Init(m0, sd0, data0, sd1, data1))
  {
  }

  /** A longer log does not change what an earlier entry is answered. */
  lemma AnswerAtExtends(m0: Mem, log: seq<Access>, more: seq<Access>, cur: Option<nat>)
    requires cur.Some? ==> cur.value < |log|
    ensures AccessAt(log + more, cur) == AccessAt(log, cur)
    ensures AnswerAt(m0, log + more, cur) == AnswerAt(m0, log, cur)
  {
    if cur.Some? { assert (log + more)[..cur.value] == log[..cur.value]; }
  }

  lemma ReplayAppend(m0: Mem, log: seq<Access>, x: Access)
    ensures Replay(m0, log + [x]) == Perform(Replay(m0, log), x)
    ensures AnswerAt(m0, log + [x], Some(|log|)) == Answer(Replay(m0, log), x)
    ensures AccessAt(log + [x], Some(|log|)) == x
  {
    assert (log + [x])[..|log|] == log;
  }

  /** The observer's bookkeeping of one cycle is the invariant's. */
  lemma ObserverStep(m0: Mem, s: Sys, c: Choice, o: Obs)
    requires Sane(s.m) && CurOk(o.log, o.cur0, s.m.l0) && CurOk(o.log, o.cur1, s.m.l1)
    ensures var i := MasterIn(s, c);
            var s' := Edge(s, i);
            var o' := Observed(o, s, i);
            var x0, x1 := AccessAt(o.log, o.cur0), AccessAt(o.log, o.cur1);
            var m1 := After(s, i, 0, x0, Replay(m0, o.log));
            && Sane(s'.m) && CurOk(o'.log, o'.cur0, s'.m.l0) && CurOk(o'.log, o'.cur1, s'.m.l1)
            && AccessAt(o'.log, o'.cur0) == NextAccess(s, i, 0, x0)
            && AccessAt(o'.log, o'.cur1) == NextAccess(s, i, 1, x1)
            && Replay(m0, o'.log) == After(s, i, 1, x1, m1)
            && AnswerAt(m0, o'.log, o'.cur0) == NextAnswer(s, i, 0, x0, Replay(m0, o.log), AnswerAt(m0, o.log, o.cur0))
            && AnswerAt(m0, o'.log, o'.cur1) == NextAnswer(s, i, 1, x1, m1, AnswerAt(m0, o.log, o.cur1))
  {
    hide AxiLane.Next, AxiLane.Accepts, MasterIn, NextPort, EventsOf, NextWq, Perform, Answer, Replay;
    var i := MasterIn(s, c);
    SaneNext(s.m, i);
    var s' := Edge(s, i);
    var o' := Observed(o, s, i);
    var x0, x1 := AccessAt(o.log, o.cur0), AccessAt(o.log, o.cur1);
    BusyAfter(0, s.m.l0, In(s, i, 0));
    BusyAfter(1, s.m.l1, In(s, i, 1));
    var a0, a1 := AccessesOf(0, s.m.l0, In(s, i, 0)), AccessesOf(1, s.m.l1, In(s, i, 1));
    var mid := o.log + a0;
    LogOne(m0, s, i, 0, x0, o.log, o.cur0);
    LogOne(m0, s, i, 1, x1, mid, o.cur1);
    AnswerAtExtends(m0, o.log, a0, o.cur1);
    AnswerAtExtends(m0, mid, a1, o'.cur0);
  }

  /** Logging one lane's acceptance. */
  lemma LogOne(m0: Mem, s: Sys, i: AxiMaster.Inputs, id: Lane, x: Access, log: seq<Access>, cur: Option<nat>)
    requires cur.Some? ==> cur.value < |log|
    requires x == AccessAt(log, cur)
    ensures var a := AccessesOf(id, s.m.L(id), In(s, i, id));
            var cur' := if a != [] then Some(|log|) else cur;
            && (cur'.Some? ==> cur'.value < |log + a|)
            && AccessAt(log + a, cur') == NextAccess(s, i, id, x)
            && Replay(m0, log + a) == After(s, i, id, x, Replay(m0, log))
            && AnswerAt(m0, log + a, cur') == NextAnswer(s, i, id, x, Replay(m0, log), AnswerAt(m0, log, cur))
  {
    if AcceptsAt(s, i, id) {
      ReplayAppend(m0, log, AxiLane.Candidate(id, In(s, i, id)));
    } else {
      assert log + [] == log;
    }
  }

  /** One lane's response, if it gives one, is correct. */
  lemma ResponseCorrect(m0: Mem, s: Sys, c: Choice, id: Lane, log: seq<Access>, cur: Option<nat>, more: seq<Access>,
                        seqMem: Mem)
    requires Paired(s.m.l0, s.p0) && Paired(s.m.l1, s.p1) && Locks(s.m, s.wq)
             && Holds(id, s.m.L(id), AccessAt(log, cur))
    requires CurOk(log, cur, s.m.L(id))
    requires ReadOk(s.m.L(id), s.P(id), AccessAt(log, cur), seqMem, AnswerAt(m0, log, cur))
    ensures var l' := AxiLane.Next(id, s.m.L(id), In(s, MasterIn(s, c), id));
            l'.rspValid ==> l'.len < 4 && (forall r :: r in ResponsesOf(id, cur, l') ==> Correct(m0, log + more, r))
  {
    var i := MasterIn(s, c);
    var l, p, x := s.m.L(id), s.P(id), AccessAt(log, cur);
    var l' := AxiLane.Next(id, l, In(s, i, id));
    if l'.rspValid {
      BusMatches(s, c, id);
      RespondsOnce(id, l, In(s, i, id));
      var k := cur.value;
      ResponseStep(id, l, p, x, In(s, i, id), EventsOf(s, i, id), Replay(m0, log[..k]));
      AnswerAtExtends(m0, log, more, cur);
      assert (log + more)[k] == log[k];
    }
  }

  /** A response is given from a busy state, once, and ends the access. */
  lemma RespondsOnce(id: Lane, l: AxiLane.Regs, i: AxiLane.Inputs)
    requires l.beat < 4
    ensures var l' := AxiLane.Next(id, l, i);
            && (l'.rspValid <==> l.Busy() && !l'.Busy())
            && (l'.rspValid ==> l'.st == AxiLane.WAIT && !AxiLane.Accepts(id, l, i) && l'.len == l.len)
  {
  }

  /** One cycle keeps the invariant, for every choice of the environment. */
  lemma StepKeepsInv(m0: Mem, w: World, c: Choice)
    requires WorldInv(m0, w)
    ensures WorldInv(m0, Step(w, c))
  {
    var log, o := w.o.log, w.o;
    var x0, x1 := AccessAt(log, o.cur0), AccessAt(log, o.cur1);
    var b0, b1 := AnswerAt(m0, log, o.cur0), AnswerAt(m0, log, o.cur1);
    var seqMem := Replay(m0, log);
    var s := DoAll(w.s, c.acts);
    ActsKeepInv(w.s, c.acts, x0, x1, seqMem, b0, b1);
    DoAllKeepsMaster(w.s, c.acts);
    EdgeKeepsInv(s, c, x0, x1, seqMem, b0, b1);
    ObserverStep(m0, s, c, o);
    LogGrows(s, c, o);
    StepResponses(m0, s, c, o, seqMem);
  }

  /** The log only grows. */
  lemma LogGrows(s: Sys, c: Choice, o: Obs)
    requires Sane(s.m)
    ensures var i := MasterIn(s, c);
            Observed(o, s, i).log
              == o.log + (AccessesOf(0, s.m.l0, In(s, i, 0)) + AccessesOf(1, s.m.l1, In(s, i, 1)))
  {
  }

  lemma StepResponses(m0: Mem, s: Sys, c: Choice, o: Obs, seqMem: Mem)
    requires Sane(s.m) && CurOk(o.log, o.cur0, s.m.l0) && CurOk(o.log, o.cur1, s.m.l1)
    requires SysInv(s, AccessAt(o.log, o.cur0), AccessAt(o.log, o.cur1), seqMem,
                    AnswerAt(m0, o.log, o.cur0), AnswerAt(m0, o.log, o.cur1))
    requires forall k :: 0 <= k < |o.rsps| ==> Correct(m0, o.log, o.rsps[k])
    ensures var i := MasterIn(s, c);
            var o' := Observed(o, s, i);
            forall k :: 0 <= k < |o'.rsps| ==> Correct(m0, o'.log, o'.rsps[k])
  {
    var i := MasterIn(s, c);
    SaneNext(s.m, i);
    var s' := Edge(s, i);
    var o' := Observed(o, s, i);
    var more := AccessesOf(0, s.m.l0, In(s, i, 0)) + AccessesOf(1, s.m.l1, In(s, i, 1));
    LogGrows(s, c, o);
    ResponseCorrect(m0, s, c, 0, o.log, o.cur0, more, seqMem);
    ResponseCorrect(m0, s, c, 1, o.log, o.cur1, more, seqMem);
    RespondsOnce(0, s.m.l0, In(s, i, 0));
    RespondsOnce(1, s.m.l1, In(s, i, 1));
    forall k | 0 <= k < |o'.rsps|
      ensures Correct(m0, o'.log, o'.rsps[k])
    {
      if k < |o.rsps| {
        AnswerAtExtends(m0, o.log, more, o.rsps[k].idx);
      } else {
        assert o'.rsps[k] in ResponsesOf(0, o'.cur0, s'.m.l0) || o'.rsps[k] in ResponsesOf(1, o'.cur1, s'.m.l1);
      }
    }
  }

  lemma {:induction false} RunKeepsInv(m0: Mem, w: World, cs: seq<Choice>)
    requires WorldInv(m0, w)
    ensures WorldInv(m0, Run(w, cs))
  {
    if cs != [] {
      RunKeepsInv(m0, w, cs[..|cs| - 1]);
      StepKeepsInv(m0, Run(w, cs[..|cs| - 1]), cs[|cs| - 1]);
    }
  }

  // ---- each accepted request is answered exactly once, in order ----

  /** Log positions of a lane's accesses. */
  function Accepted(log: seq<Access>, id: Lane): seq<Option<nat>>
  {
    if log == [] then []
    else Accepted(log[..|log| - 1], id) + (if log[|log| - 1].lane == id then [Some(|log| - 1)] else [])
  }

  /** Log positions that a lane's responses answer. */
  function Answered(rsps: seq<Response>, id: Lane): seq<Option<nat>>
  {
    if rsps == [] then []
    else Answered(rsps[..|rsps| - 1], id) + (if rsps[|rsps| - 1].lane == id then [rsps[|rsps| - 1].idx] else [])
  }

  lemma AcceptedAppend(log: seq<Access>, x: Access, id: Lane)
    ensures Accepted(log + [x], id) == Accepted(log, id) + (if x.lane == id then [Some(|log|)] else [])
  {
    assert (log + [x])[..|log|] == log;
  }

  lemma AnsweredAppend(rsps: seq<Response>, r: Response, id: Lane)
    ensures Answered(rsps + [r], id) == Answered(rsps, id) + (if r.lane == id then [r.idx] else [])
  {
    assert (rsps + [r])[..|rsps|] == rsps;
  }

  /** The responses of a lane answer its acceptances one by one; a busy lane owes one more. */
  predicate InOrder(o: Obs, id: Lane, cur: Option<nat>, busy: bool)
  {
    Answered(o.rsps, id) + (if busy then [cur] else []) == Accepted(o.log, id)
  }

  ghost predicate Ordered(w: World)
  {
    InOrder(w.o, 0, w.o.cur0, w.s.m.l0.Busy()) && InOrder(w.o, 1, w.o.cur1, w.s.m.l1.Busy())
  }

  lemma OrderedStep(w: World, c: Choice)
    requires Sane(w.s.m) && Ordered(w)
    ensures Ordered(Step(w, c))
  {
    hide Accepted, Answered, AxiLane.Next, AxiLane.Accepts, DoAll, MasterIn, EventsOf, NextPort, NextWq;
    var s := DoAll(w.s, c.acts);
    DoAllKeepsMaster(w.s, c.acts);
    var i := MasterIn(s, c);
    SaneNext(s.m, i);
    var s' := Edge(s, i);
    var a0, a1 := AccessesOf(0, s.m.l0, In(s, i, 0)), AccessesOf(1, s.m.l1, In(s, i, 1));
    var o' := Observed(w.o, s, i);
    var r0, r1 := ResponsesOf(0, o'.cur0, s'.m.l0), ResponsesOf(1, o'.cur1, s'.m.l1);
    assert o'.log == w.o.log + a0 + a1 && o'.rsps == w.o.rsps + r0 + r1;
    LogOrder(w.o.log, a0, a1);
    ResponseOrder(w.o.rsps, r0, r1);
    LaneOrder(0, s.m.l0, In(s, i, 0));
    LaneOrder(1, s.m.l1, In(s, i, 1));
  }

  lemma AcceptedMore(log: seq<Access>, a: seq<Access>, id: Lane)
    requires |a| <= 1
    ensures Accepted(log + a, id) == Accepted(log, id) + (if a != [] && a[0].lane == id then [Some(|log|)] else [])
  {
    hide Accepted;
    if a == [] {
      assert log + a == log;
    } else {
      AcceptedAppend(log, a[0], id);
      assert [a[0]] == a;
    }
  }

  lemma AnsweredMore(rsps: seq<Response>, r: seq<Response>, id: Lane)
    requires |r| <= 1
    ensures Answered(rsps + r, id) == Answered(rsps, id) + (if r != [] && r[0].lane == id then [r[0].idx] else [])
  {
    hide Answered;
    if r == [] {
      assert rsps + r == rsps;
    } else {
      AnsweredAppend(rsps, r[0], id);
      assert [r[0]] == r;
    }
  }

  lemma LogOrder(log: seq<Access>, a0: seq<Access>, a1: seq<Access>)
    requires |a0| <= 1 && |a1| <= 1
    requires (a0 != [] ==> a0[0].lane == 0) && (a1 != [] ==> a1[0].lane == 1)
    ensures Accepted(log + a0 + a1, 0) == Accepted(log, 0) + (if a0 != [] then [Some(|log|)] else [])
    ensures Accepted(log + a0 + a1, 1) == Accepted(log, 1) + (if a1 != [] then [Some(|log| + |a0|)] else [])
  {
    hide Accepted;
    AcceptedMore(log, a0, 0);
    AcceptedMore(log, a0, 1);
    AcceptedMore(log + a0, a1, 0);
    AcceptedMore(log + a0, a1, 1);
  }

  lemma ResponseOrder(rsps: seq<Response>, r0: seq<Response>, r1: seq<Response>)
    requires |r0| <= 1 && |r1| <= 1
    requires (r0 != [] ==> r0[0].lane == 0) && (r1 != [] ==> r1[0].lane == 1)
    ensures Answered(rsps + r0 + r1, 0) == Answered(rsps, 0) + (if r0 != [] then [r0[0].idx] else [])
    ensures Answered(rsps + r0 + r1, 1) == Answered(rsps, 1) + (if r1 != [] then [r1[0].idx] else [])
  {
    hide Answered;
    AnsweredMore(rsps, r0, 0);
    AnsweredMore(rsps, r0, 1);
    AnsweredMore(rsps + r0, r1, 0);
    AnsweredMore(rsps + r0, r1, 1);
  }

  /** Busy starts with an acceptance and ends with a response. */
  lemma LaneOrder(id: Lane, l: AxiLane.Regs, i: AxiLane.Inputs)
    requires l.beat < 4
    ensures var l' := AxiLane.Next(id, l, i);
            && (AxiLane.Accepts(id, l, i) ==> !l.Busy() && l'.Busy() && !l'.rspValid)
            && (l'.rspValid ==> l.Busy() && !l'.Busy())
            && (!AxiLane.Accepts(id, l, i) && !l'.rspValid ==> l'.Busy() == l.Busy())
  {
  }

  lemma {:induction false} RunOrdered(w: World, cs: seq<Choice>)
    requires Sane(w.s.m) && Ordered(w)
    ensures Ordered(Run(w, cs))
  {
    if cs != [] {
      RunOrdered(w, cs[..|cs| - 1]);
      OrderedStep(Run(w, cs[..|cs| - 1]), cs[|cs| - 1]);
    }
  }

  // ---- the theorem ----

  /** In every run, every response of both lanes is the answer of one sequential memory that
      performs each access atomically at its acceptance (0xA5 bytes and the error flag when out
      of range); each acceptance is answered once and in its lane's order; and when both lanes
      are idle, DRAM is that sequential memory. */
  lemma LinearizableMemory(m0: Mem, sd0: Quad, data0: Quad, sd1: Quad, data1: Quad, cs: seq<Choice>)
    ensures var w := Run(Init(m0, sd0, data0, sd1, data1), cs);
            && (forall k :: 0 <= k < |w.o.rsps| ==> Correct(m0, w.o.log, w.o.rsps[k]))
            && InOrder(w.o, 0, w.o.cur0, w.s.m.l0.Busy()) && InOrder(w.o, 1, w.o.cur1, w.s.m.l1.Busy())
            && (!w.s.m.l0.Busy() && !w.s.m.l1.Busy() ==> w.s.mem == Replay(m0, w.o.log))
  {
    var w0 := Init(m0, sd0, data0, sd1, data1);
    InitInv(m0, sd0, data0, sd1, data1);
    StartsOrdered(m0, sd0, data0, sd1, data1);
    hide Init, Run, Ordered, Correct, InOrder;
    RunKeepsInv(m0, w0, cs);
    RunOrdered(w0, cs);
    OrderedLanes(Run(w0, cs));
    var w := Run(w0, cs);
    if !w.s.m.l0.Busy() && !w.s.m.l1.Busy() { IdleMemory(m0, w); }
  }

  lemma StartsOrdered(m0: Mem, sd0: Quad, data0: Quad, sd1: Quad, data1: Quad)
    ensures Ordered(Init(m0, sd0, data0, sd1, data1))
  {
  }

  lemma OrderedLanes(w: World)
    requires Ordered(w)
    ensures InOrder(w.o, 0, w.o.cur0, w.s.m.l0.Busy()) && InOrder(w.o, 1, w.o.cur1, w.s.m.l1.Busy())
  {
  }

  /** With both lanes idle nothing is still to come to memory. */
  lemma IdleMemory(m0: Mem, w: World)
    requires WorldInv(m0, w) && !w.s.m.l0.Busy() && !w.s.m.l1.Busy()
    ensures w.s.mem == Replay(m0, w.o.log)
  {
    hide Replay, Merge, Correct, Paired, Locks, ReadOk, Apart, Holds;
    var seqMem := Replay(m0, w.o.log);
    forall a | 0 <= a < N_BEATS
      ensures w.s.mem[a] == seqMem[a]
    {
    }
  }
}
