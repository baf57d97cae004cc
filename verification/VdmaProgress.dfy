/**
 The VDMA channel finishes: with a memory and a receiver that answer within b clocks of being
 asked, it is idle again after at most b clocks for each unit of the walk's cost, and has then
 sent the whole walk.
 */
module VdmaProgress {
  import opened Vdma
  import opened VdmaEngine

  // ---- the clocks a walk can need, waiting aside ----

  /** From between two lines. */
  function WalkCost(s: Shape, b: nat, zoom: nat, lines: nat): (n: nat)
    ensures n >= 1
    decreases lines, 0, 0
  {
    1 + if lines == 0 then 0 else LineCost(s, b, zoom, lines - 1)
  }

  /** From inside a line with so many copies to start. */
  function LineCost(s: Shape, b: nat, zoom: nat, lines: nat): (n: nat)
    ensures n >= 1
    decreases lines, zoom, 1
  {
    1 + if zoom == 0 then WalkCost(s, b, s.zoom, lines) else CopyCost(s, b, zoom - 1, lines)
  }

  /** From the middle of a copy: a byte is at worst a doubleword of its own, with a page walk. */
  function CopyCost(s: Shape, b: nat, zoom: nat, lines: nat): (n: nat)
    ensures n >= 1
    decreases lines, zoom, 2
  {
    5 * b + 1 + LineCost(s, s.width, zoom, lines)
  }

  /** The clocks of a job whose memory and receiver answer at once. */
  function JobCost(j: Job): (n: nat)
    ensures n >= 1
  {
    WalkCost(j.Consts(), j.FirstBytes(), j.FirstZoom(), j.Lines())
  }

  /** Bytes still wanted for the doubleword being gathered. */
  function Wanted(r: Regs): int { r.g.len - r.g.gn }

  function Cost(r: Regs): int
  {
    match r.st
    case IDLE => 0
    case LINE => WalkCost(r.shape, r.bytes, r.zoom, r.lines)
    case ZOOM => LineCost(r.shape, r.bytes, r.zoom, r.lines)
    case GROUP => CopyCost(r.shape, r.bytes, r.zoom, r.lines)
    case EMIT => 1 + CopyCost(r.shape, r.bytes, r.zoom, r.lines)
    case _ =>
      (if r.st == XLATE then 1 else if r.st == PTE then 0 else -1) + 3 * Wanted(r)
      + if Wanted(r) <= r.bytes then CopyCost(r.shape, r.bytes - Wanted(r), r.zoom, r.lines) else 1
  }

  /** The channel waits: for memory, or for the receiver. */
  predicate Stalls(r: Regs, i: Inputs)
  {
    match r.st
    case PTE => !i.rsp
    case LOAD => !i.rsp
    case EMIT => !i.ready
    case _ => false
  }

  lemma CostRange(c: Machine, r: Regs)
    requires c.Ok() && Inv(c, r)
    ensures Cost(r) >= 0 && (Cost(r) == 0 <==> r.st == IDLE)
  {
    hide WalkCost, LineCost, CopyCost, Honest, Partial;
  }

  /** A waiting channel stays as it is; any other clock is one step nearer the end. */
  lemma CostStep(c: Machine, r: Regs, i: Inputs)
    requires c.Ok() && Inv(c, r) && r.st != IDLE
    ensures if Stalls(r, i) then Next(c, r, i) == r else Cost(Next(c, r, i)) < Cost(r)
  {
    hide WalkCost, LineCost, CopyCost, Honest, Partial, Loaded;
    match r.st {
      case LINE => if r.lines > 0 { WalkUnfold(r); }
      case ZOOM => LineUnfold(r);
      case GROUP => CopyUnfold(r);
      case LOAD => if i.rsp { PieceCost(c, r); }
      case _ =>
    }
  }

  lemma WalkUnfold(r: Regs)
    ensures WalkCost(r.shape, r.bytes, r.zoom, r.lines) == 1 + if r.lines == 0 then 0
            else LineCost(r.shape, r.bytes, r.zoom, r.lines - 1)
  {
  }

  lemma LineUnfold(r: Regs)
    ensures LineCost(r.shape, r.bytes, r.zoom, r.lines)
            == 1 + if r.zoom == 0 then WalkCost(r.shape, r.bytes, r.shape.zoom, r.lines)
            else CopyCost(r.shape, r.bytes, r.zoom - 1, r.lines)
  {
  }

  lemma CopyUnfold(r: Regs)
    ensures CopyCost(r.shape, r.bytes, r.zoom, r.lines) == 5 * r.bytes + 1
            + LineCost(r.shape, r.shape.width, r.zoom, r.lines)
    ensures r.bytes > 0 ==>
              var len := if r.bytes < 8 then r.bytes else 8;
              CopyCost(r.shape, r.bytes - len, r.zoom, r.lines) == CopyCost(r.shape, r.bytes, r.zoom, r.lines) - 5 * len
  {
  }

  /** A piece brings at least one byte. */
  lemma PieceCost(c: Machine, r: Regs)
    requires c.Ok() && Inv(c, r) && r.st == LOAD
    ensures Cost(Loaded(c, r)) < Cost(r)
  {
    hide WalkCost, LineCost, CopyCost, Fetched, Gathered;
    var n := Take(r);
    assert 1 <= n <= Wanted(r) <= r.bytes;
  }

  // ---- whole runs ----

  /** In every window of b clocks there is one in which the channel does not wait. */
  ghost predicate Responsive(c: Machine, r: Regs, ins: seq<Inputs>, b: nat)
    requires c.Ok() && Shaped(r)
  {
    forall k: nat :: k + b <= |ins| ==> Answers(c, r, ins, b, k)
  }

  ghost predicate Answers(c: Machine, r: Regs, ins: seq<Inputs>, b: nat, k: nat)
    requires c.Ok() && Shaped(r) && k + b <= |ins|
  {
    exists m :: k <= m < k + b && !Stalls(Run(c, r, ins[..m]).0, ins[m])
  }

  lemma {:induction false} CostFalls(c: Machine, r: Regs, j: Job, ins: seq<Inputs>, lo: nat, hi: nat)
    requires c.Ok() && Shaped(r) && r.st == IDLE && (forall n :: 0 <= n < |ins| ==> ins[n].go.None?)
             && lo <= hi <= |ins|
    ensures Inv(c, Run(c, Started(c, r, j), ins[..lo]).0)
    ensures 0 <= Cost(Run(c, Started(c, r, j), ins[..hi]).0) <= Cost(Run(c, Started(c, r, j), ins[..lo]).0)
    decreases hi - lo
  {
    hide Next, Inv, Cost, Run;
    var r0 := Started(c, r, j);
    RunKeeps(c, r, j, ins[..lo]);
    RunKeeps(c, r, j, ins[..hi]);
    CostRange(c, Run(c, r0, ins[..hi]).0);
    if lo < hi {
      CostFalls(c, r, j, ins, lo, hi - 1);
      RunKeeps(c, r, j, ins[..hi - 1]);
      OneMore(c, r0, ins, hi - 1);
      CostClock(c, Run(c, r0, ins[..hi - 1]).0, ins[hi - 1]);
    }
  }

  lemma OneMore(c: Machine, r: Regs, ins: seq<Inputs>, n: nat)
    requires c.Ok() && Shaped(r) && n < |ins|
    ensures Run(c, r, ins[..n + 1]).0 == Next(c, Run(c, r, ins[..n]).0, ins[n])
  {
    assert ins[..n + 1][..n] == ins[..n];
  }

  /** One clock, idle or not. */
  lemma CostClock(c: Machine, r: Regs, i: Inputs)
    requires c.Ok() && Inv(c, r) && i.go.None?
    ensures Cost(Next(c, r, i)) <= Cost(r) && (!Stalls(r, i) ==>
            Cost(Next(c, r, i)) <= if Cost(r) > 0 then Cost(r) - 1 else 0)
  {
    hide Cost, Inv;
    CostRange(c, r);
    if r.st != IDLE { CostStep(c, r, i); }
  }

  /** k windows bring the cost down by k. */
  lemma {:induction false} Windows(c: Machine, r: Regs, j: Job, ins: seq<Inputs>, b: nat, k: nat)
    requires c.Ok() && Shaped(r) && r.st == IDLE && forall n :: 0 <= n < |ins| ==> ins[n].go.None?
    requires Responsive(c, Started(c, r, j), ins, b) && k * b <= |ins|
    ensures Cost(Run(c, Started(c, r, j), ins[..k * b]).0) <= if k <= JobCost(j) then JobCost(j) - k else 0
  {
    hide Next, Inv, Cost, Run, JobCost;
    var r0 := Started(c, r, j);
    if k == 0 {
      StartCost(c, r, j);
      assert ins[..0] == [];
      RunNothing(c, r0);
    } else {
      var lo := (k - 1) * b;
      assert k * b == lo + b;
      Windows(c, r, j, ins, b, k - 1);
      assert Answers(c, r0, ins, b, lo);
      var m :| lo <= m < lo + b && !Stalls(Run(c, r0, ins[..m]).0, ins[m]);
      CostFalls(c, r, j, ins, lo, m);
      CostFalls(c, r, j, ins, m, m + 1);
      CostFalls(c, r, j, ins, m + 1, lo + b);
      OneMore(c, r0, ins, m);
      CostClock(c, Run(c, r0, ins[..m]).0, ins[m]);
    }
  }

  lemma RunNothing(c: Machine, r: Regs)
    requires c.Ok() && Shaped(r)
    ensures Run(c, r, []) == (r, [])
  {
  }

  lemma StartCost(c: Machine, r: Regs, j: Job)
    requires c.Ok() && Shaped(r) && r.st == IDLE
    ensures Cost(Started(c, r, j)) == JobCost(j)
  {
  }

  /** Whatever memory and receiver do within their bound, the channel is idle again b clocks for
      each unit of the job's cost after its go, with every doubleword of the walk sent, once and
      in order, and its address register at the walk's end. */
  lemma ChannelFinishes(c: Machine, r: Regs, j: Job, ins: seq<Inputs>, b: nat)
    requires c.Ok() && Shaped(r) && r.st == IDLE && forall n :: 0 <= n < |ins| ==> ins[n].go.None?
    requires b >= 1 && Responsive(c, Started(c, r, j), ins, b) && |ins| >= b * JobCost(j)
    ensures var w := Run(c, Started(c, r, j), ins);
            w.0.st == IDLE && w.1 == Transfer(c, j).out && w.0.mem == Transfer(c, j).end
  {
    hide Next, Inv, Cost, Run, JobCost, Transfer, Responsive;
    var r0, k := Started(c, r, j), JobCost(j);
    assert k * b == b * k;
    Windows(c, r, j, ins, b, k);
    CostFalls(c, r, j, ins, k * b, |ins|);
    assert ins[..|ins|] == ins;
    RunKeeps(c, r, j, ins);
    CostRange(c, Run(c, r0, ins).0);
    ChannelDoesWalk(c, r, j, ins);
  }
}
