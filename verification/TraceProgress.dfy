/**
 The drain gets everything out: once nothing retires, the FIFO is empty and all but less than a beat
 of the trace is in memory after b clocks for each step left, if memory keeps no store waiting longer.
 */
module TraceProgress {
  import opened Prelude
  import opened TraceCodec
  import opened TraceFifo
  import opened TracePipeline
  import opened TraceMeaning
  import opened TraceRuns

  /** No instruction retires. */
  predicate Quiet(i: Inputs) { !i.r0.valid && !i.r1.valid }

  /** Memory keeps a store waiting. */
  predicate Waits(r: Regs, i: Inputs) { r.d.req && !i.rsp }

  /** Steps until nothing is left to store: a request and a response for each beat in the FIFO, and
      one more for a beat still in the packer. */
  function Left(cfg: Cfg, r: Regs): int
  {
    2 * |r.q| - (if r.d.req then 1 else 0) + if !cfg.loadval && r.p.nbits + r.p.applen >= 128 then 3 else 0
  }

  const MOST := 131

  lemma LeftRange(cfg: Cfg, r: Regs)
    requires r.Ok()
    ensures 0 <= Left(cfg, r) <= MOST
    ensures Left(cfg, r) == 0 <==>
            r.q == [] && !r.d.req && (cfg.loadval || r.p.nbits + r.p.applen < 128)
  {
  }

  lemma QuietPacker(cfg: Cfg, p: Packer, i: Inputs)
    requires p.Ok() && Quiet(i)
    ensures Pcs(cfg, i) == [] && Loads(cfg, i) == []
    ensures var p' := NextPacker(cfg, p, i);
            p'.applen == 0 && (p.nbits + p.applen >= 128 && !cfg.loadval ==> p'.nbits < 128)
    ensures |Beats(cfg, p, i)| == if !cfg.loadval && p.nbits + p.applen >= 128 then 1 else 0
  {
    hide AppendWire, Merged;
  }

  /** A clock in which nothing retires adds no step, and takes one away unless memory keeps a store
      waiting or nothing is left. */
  lemma QuietStep(cfg: Cfg, r: Regs, i: Inputs)
    requires cfg.Valid() && r.Ok() && Quiet(i)
    ensures var n := Left(cfg, Next(cfg, r, i));
            n <= Left(cfg, r) && (!Waits(r, i) && Left(cfg, r) > 0 ==> n < Left(cfg, r))
  {
    hide NextPacker, Beats, NextOffset;
    QuietPacker(cfg, r.p, i);
    PackerKeepsOk(cfg, r.p, i);
  }

  // ---- whole runs ----

  ghost predicate AllQuiet(ins: seq<Inputs>) { forall n :: 0 <= n < |ins| ==> Quiet(ins[n]) }

  /** In every window of b clocks there is one in which memory keeps no store waiting. */
  ghost predicate Responsive(cfg: Cfg, past: seq<Inputs>, ins: seq<Inputs>, b: nat)
    requires cfg.Valid()
  {
    forall k: nat :: k + b <= |ins| ==> Answers(cfg, past, ins, b, k)
  }

  ghost predicate Answers(cfg: Cfg, past: seq<Inputs>, ins: seq<Inputs>, b: nat, k: nat)
    requires cfg.Valid() && k + b <= |ins|
  {
    exists m :: k <= m < k + b && !Waits(Run(cfg, past + ins[..m]).r, ins[m])
  }

  lemma OneMore(cfg: Cfg, past: seq<Inputs>, ins: seq<Inputs>, m: nat)
    requires cfg.Valid() && m < |ins| && AllQuiet(ins)
    ensures var n, r := Left(cfg, Run(cfg, past + ins[..m + 1]).r), Run(cfg, past + ins[..m]).r;
            n <= Left(cfg, r) && (!Waits(r, ins[m]) && Left(cfg, r) > 0 ==> n < Left(cfg, r))
  {
    hide Run, Left, Next, Quiet;
    assert past + ins[..m + 1] == (past + ins[..m]) + [ins[m]];
    RunSnoc(cfg, past + ins[..m], ins[m]);
    assert Quiet(ins[m]);
    QuietStep(cfg, Run(cfg, past + ins[..m]).r, ins[m]);
  }

  lemma {:induction false} NeverMore(cfg: Cfg, past: seq<Inputs>, ins: seq<Inputs>, lo: nat, hi: nat)
    requires cfg.Valid() && AllQuiet(ins) && lo <= hi <= |ins|
    ensures Left(cfg, Run(cfg, past + ins[..hi]).r) <= Left(cfg, Run(cfg, past + ins[..lo]).r)
    decreases hi - lo
  {
    hide Run, Left, AllQuiet;
    if lo < hi {
      NeverMore(cfg, past, ins, lo, hi - 1);
      OneMore(cfg, past, ins, hi - 1);
    }
  }

  /** n windows of b clocks take n steps away. */
  lemma {:induction false} Windows(cfg: Cfg, past: seq<Inputs>, ins: seq<Inputs>, b: nat, n: nat, m: nat)
    requires cfg.Valid() && AllQuiet(ins) && Responsive(cfg, past, ins, b) && m == n * b && m <= |ins|
    ensures var left := Left(cfg, Run(cfg, past).r);
            Left(cfg, Run(cfg, past + ins[..m]).r) <= if n <= left then left - n else 0
    decreases n
  {
    hide Run, Left, AllQuiet, Waits;
    if n == 0 {
      assert past + ins[..0] == past;
      LeftRange(cfg, Run(cfg, past).r);
    } else {
      Times(n - 1, b);
      var lo := m - b;
      Windows(cfg, past, ins, b, n - 1, lo);
      assert Answers(cfg, past, ins, b, lo);
      var k :| lo <= k < lo + b && !Waits(Run(cfg, past + ins[..k]).r, ins[k]);
      NeverMore(cfg, past, ins, lo, k);
      OneMore(cfg, past, ins, k);
      NeverMore(cfg, past, ins, k + 1, m);
    }
  }

  lemma Times(n: nat, b: nat)
    ensures 0 <= n * b && (n + 1) * b == n * b + b
  {
  }

  lemma {:induction false} NothingNew(past: seq<Inputs>, ins: seq<Inputs>)
    requires AllQuiet(ins)
    ensures Program(past + ins) == Program(past)
    decreases |ins|
  {
    if ins == [] {
      assert past + ins == past;
    } else {
      var m := |ins| - 1;
      NothingNew(past, ins[..m]);
      assert (past + ins)[..|past| + m] == past + ins[..m];
      assert Quiet(ins[m]);
    }
  }

  /** From every reachable state, once nothing retires and memory keeps no store waiting for b clocks:
      after b clocks for each of at most 131 steps the FIFO is empty and no store is outstanding. If
      nothing overflowed, memory then holds all of the trace but less than one beat, or in load mode
      all of the loads. */
  lemma Drains(cfg: Cfg, past: seq<Inputs>, ins: seq<Inputs>, b: nat)
    requires cfg.Valid() && AllQuiet(ins) && Responsive(cfg, past, ins, b)
    requires |ins| >= b * Left(cfg, Run(cfg, past).r)
    ensures Left(cfg, Run(cfg, past).r) <= MOST
    ensures var w := Run(cfg, past + ins);
            && w.r.q == [] && !w.r.d.req
            && (!w.r.ovf && !cfg.loadval ==>
                  var code := Encode(FRESH, Expected(cfg, past));
                  Flatten(w.drained) <= code && |code| - |Flatten(w.drained)| < 128)
            && (!w.r.ovf && cfg.loadval ==> AllSpell(w.drained, WantedLoads(cfg, Program(past))))
  {
    hide Run, Left, AllQuiet, Responsive, Flatten, Encode, AllSpell, WantedLoads, Program, Wanted;
    var n := Left(cfg, Run(cfg, past).r);
    LeftRange(cfg, Run(cfg, past).r);
    Times(n, b);
    var m: nat := n * b;
    Windows(cfg, past, ins, b, n, m);
    NeverMore(cfg, past, ins, m, |ins|);
    assert ins[..|ins|] == ins;
    NothingNew(past, ins);
    var w := Run(cfg, past + ins);
    LeftRange(cfg, w.r);
    if !w.r.ovf {
      assert w.drained + [] == w.drained;
      if cfg.loadval { LoadsInOrder(cfg, past + ins); } else { RestIsPacked(cfg, past + ins); }
    }
  }

  /** With the FIFO empty, what is not in memory is in the packer. */
  lemma RestIsPacked(cfg: Cfg, ins: seq<Inputs>)
    requires cfg.Valid() && !cfg.loadval && !Run(cfg, ins).r.ovf && Run(cfg, ins).r.q == []
    ensures var w, code := Run(cfg, ins), Encode(FRESH, Expected(cfg, ins));
            Flatten(w.drained) <= code && |code| == |Flatten(w.drained)| + w.r.p.nbits + w.r.p.applen
  {
    hide Run, Encode, Expected;
    StreamIsCode(cfg, ins);
    var w := Run(cfg, ins);
    assert Flatten(w.r.q) == [];
  }
}
