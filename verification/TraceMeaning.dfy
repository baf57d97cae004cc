/**
 What the trace is to hold, told from the retire slots alone: the valid slots in program order, those
 of them the filters let through, and of each its low 32 PC bits or, in load mode, its load record.
 */
module TraceMeaning {
  import opened Prelude
  import opened Bits
  import opened TraceFifo
  import opened TracePipeline

  /** An instruction that retired, with the address space it retired in. */
  datatype Retired = Retired(asid: Byte, r: Retire)

  /** One clock's: the first slot before the second, and only slots that are valid. */
  function OfClock(i: Inputs): (s: seq<Retired>)
    ensures |s| == (if i.r0.valid then 1 else 0) + (if i.r1.valid then 1 else 0)
  {
    if i.r0.valid && i.r1.valid then [Retired(i.asid, i.r0), Retired(i.asid, i.r1)]
    else if i.r0.valid then [Retired(i.asid, i.r0)]
    else if i.r1.valid then [Retired(i.asid, i.r1)]
    else []
  }

  /** All that retired in a run. */
  function Program(ins: seq<Inputs>): seq<Retired>
  {
    if ins == [] then [] else Program(ins[..|ins| - 1]) + OfClock(ins[|ins| - 1])
  }

  /** The three filters: user half of the address space, one address space, one range of PCs. */
  predicate Chosen(cfg: Cfg, s: Retired)
  {
    && (cfg.allPc || s.r.pc < 0x8000_0000)
    && (cfg.filter ==> s.asid == cfg.target)
    && (cfg.pcRange ==> cfg.lo <= s.r.pc % TWO32 && s.r.pc % TWO32 < cfg.hi)
  }

  /** The PCs of what the filters choose. */
  function Wanted(cfg: Cfg, ss: seq<Retired>): (pcs: seq<Word32>)
    ensures |pcs| <= |ss|
  {
    if ss == [] then []
    else Wanted(cfg, ss[..|ss| - 1]) + (if Chosen(cfg, ss[|ss| - 1]) then [ss[|ss| - 1].r.pc % TWO32] else [])
  }

  /** The trace a run is to produce. */
  function Expected(cfg: Cfg, ins: seq<Inputs>): seq<Word32> { Wanted(cfg, Program(ins)) }

  lemma {:induction false} WantedConcat(cfg: Cfg, a: seq<Retired>, b: seq<Retired>)
    ensures Wanted(cfg, a + b) == Wanted(cfg, a) + Wanted(cfg, b)
  {
    hide Chosen;
    if b == [] {
      assert a + b == a;
    } else {
      WantedConcat(cfg, a, b[..|b| - 1]);
      assert (a + b)[..|a + b| - 1] == a + b[..|b| - 1];
    }
  }

  lemma WantedOne(cfg: Cfg, s: Retired)
    ensures Wanted(cfg, [s]) == if Chosen(cfg, s) then [s.r.pc % TWO32] else []
  {
    assert [s][..0] == [];
  }

  /** What one clock adds to the trace is what it is to add. */
  lemma ClockTraces(cfg: Cfg, i: Inputs)
    ensures Pcs(cfg, i) == Wanted(cfg, OfClock(i))
  {
    var s0, s1 := Retired(i.asid, i.r0), Retired(i.asid, i.r1);
    SlotTraces(cfg, i.asid, i.r0);
    SlotTraces(cfg, i.asid, i.r1);
    WantedOne(cfg, s0);
    WantedOne(cfg, s1);
    WantedConcat(cfg, [s0], [s1]);
    assert [s0] + [s1] == [s0, s1];
    hide Chosen, Traced;
  }

  lemma SlotTraces(cfg: Cfg, asid: Byte, r: Retire)
    ensures Traced(cfg, asid, r) == if r.valid && Chosen(cfg, Retired(asid, r)) then Some(r.pc % TWO32) else None
  {
  }

  /** With the filters off every valid slot is in the trace. */
  lemma {:induction false} UnfilteredCount(cfg: Cfg, ss: seq<Retired>)
    requires cfg.allPc && !cfg.filter && !cfg.pcRange
    ensures |Wanted(cfg, ss)| == |ss|
  {
    if ss != [] { UnfilteredCount(cfg, ss[..|ss| - 1]); }
  }

  // ---- load records ----

  predicate ChosenLoad(cfg: Cfg, s: Retired) { Chosen(cfg, s) && s.r.regValid && s.r.load }

  /** The loads of what the filters choose. */
  function WantedLoads(cfg: Cfg, ss: seq<Retired>): (l: seq<Retire>)
  {
    if ss == [] then []
    else WantedLoads(cfg, ss[..|ss| - 1]) + (if ChosenLoad(cfg, ss[|ss| - 1]) then [ss[|ss| - 1].r] else [])
  }

  /** A beat spells a load's PC, the low word of its value, its address, and zero. */
  predicate Spells(b: Beat128, r: Retire)
  {
    && FromBits(b[..32]) == r.pc % TWO32 && FromBits(b[32..64]) == r.val % TWO32
    && FromBits(b[64..96]) == r.addr && FromBits(b[96..]) == 0
  }

  /** The beats spell the loads. */
  predicate AllSpell(bs: seq<Beat128>, l: seq<Retire>)
  {
    |bs| == |l| && forall k :: 0 <= k < |bs| ==> Spells(bs[k], l[k])
  }

  lemma {:induction false} LoadsConcat(cfg: Cfg, a: seq<Retired>, b: seq<Retired>)
    ensures WantedLoads(cfg, a + b) == WantedLoads(cfg, a) + WantedLoads(cfg, b)
  {
    hide ChosenLoad;
    if b == [] {
      assert a + b == a;
    } else {
      LoadsConcat(cfg, a, b[..|b| - 1]);
      assert (a + b)[..|a + b| - 1] == a + b[..|b| - 1];
    }
  }

  lemma LoadsOne(cfg: Cfg, s: Retired)
    ensures WantedLoads(cfg, [s]) == if ChosenLoad(cfg, s) then [s.r] else []
  {
    assert [s][..0] == [];
  }

  lemma SlotLoads(cfg: Cfg, asid: Byte, r: Retire)
    requires cfg.loadval
    ensures IsLoad(cfg, asid, r) <==> r.valid && ChosenLoad(cfg, Retired(asid, r))
  {
  }

  lemma {:induction false} ZeroWord(n: nat)
    ensures FromBits(Zeros(n)) == 0
  {
    if n > 0 {
      ZeroWord(n - 1);
      assert Zeros(n)[1..] == Zeros(n - 1);
    }
  }

  lemma RecordSpells(r: Retire)
    ensures Spells(LoadBeat(r), r)
  {
    hide ToBits, FromBits, Pow2;
    Bits32();
    FromToBits(Wrap32(r.pc), 32);
    FromToBits(Wrap32(r.val), 32);
    FromToBits(r.addr, 32);
    ZeroWord(32);
    var b := LoadBeat(r);
    assert b[..32] == ToBits(Wrap32(r.pc), 32) && b[32..64] == ToBits(Wrap32(r.val), 32);
    assert b[64..96] == ToBits(r.addr, 32) && b[96..] == Zeros(32);
  }

  lemma Bits32()
    ensures Pow2(32) == TWO32
  {
    assert Pow2(8) == 256;
    assert Pow2(16) == 0x1_0000;
    assert Pow2(24) == 0x100_0000;
  }

  /** The load records a clock makes spell what it is to record. */
  lemma ClockLoads(cfg: Cfg, i: Inputs)
    requires cfg.loadval
    ensures AllSpell(Loads(cfg, i), WantedLoads(cfg, OfClock(i)))
  {
    var s0, s1 := Retired(i.asid, i.r0), Retired(i.asid, i.r1);
    SlotLoads(cfg, i.asid, i.r0);
    SlotLoads(cfg, i.asid, i.r1);
    LoadsOne(cfg, s0);
    LoadsOne(cfg, s1);
    LoadsConcat(cfg, [s0], [s1]);
    assert [s0] + [s1] == [s0, s1];
    RecordSpells(i.r0);
    RecordSpells(i.r1);
    hide ChosenLoad, IsLoad, LoadBeat, Spells;
  }
}
