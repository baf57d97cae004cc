/**
 Whole runs of the trace engine against a memory that performs each store with its response:
 what the stored beats, the FIFO and the packer hold together is exactly the code of the traced
 PCs, and the region of memory is a ring of the last beats.
 */
module TraceRuns {
  import opened Prelude
  import opened Bits
  import opened Modular
  import opened TraceCodec
  import opened TraceDecoder
  import opened TraceFifo
  import opened TracePipeline
  import opened TraceMeaning
  import opened TraceRoundTrip

  /** The engine, the region (offset to beat), and the history: PCs and loads traced, beats made
      by the packer, beats stored. */
  datatype World = World(r: Regs, mem: map<nat, Beat128>, pcs: seq<Word32>, loads: seq<Beat128>,
                         made: seq<Beat128>, drained: seq<Beat128>)

  function Init(): World { World(Reset(), map[], [], [], [], []) }

  /** A store completes on this clock. */
  predicate Stores(w: World, i: Inputs) { w.r.d.req && i.rsp }

  function Step(cfg: Cfg, w: World, i: Inputs): (w': World)
    requires cfg.Valid() && w.r.Ok()
    ensures w'.r.Ok()
  {
    NextKeepsOk(cfg, w.r, i);
    World(Next(cfg, w.r, i),
          if Stores(w, i) then w.mem[w.r.d.woff := w.r.q[0]] else w.mem,
          w.pcs + Pcs(cfg, i), w.loads + Loads(cfg, i), w.made + Beats(cfg, w.r.p, i),
          if Stores(w, i) then w.drained + [w.r.q[0]] else w.drained)
  }

  function Run(cfg: Cfg, ins: seq<Inputs>): (w: World)
    requires cfg.Valid()
    ensures w.r.Ok()
  {
    if ins == [] then Init() else Step(cfg, Run(cfg, ins[..|ins| - 1]), ins[|ins| - 1])
  }

  /** The history is what the retire slots say it is to be. */
  lemma {:induction false} HistoryIsInput(cfg: Cfg, ins: seq<Inputs>)
    requires cfg.Valid()
    ensures Run(cfg, ins).pcs == Expected(cfg, ins)
    ensures cfg.loadval ==> AllSpell(Run(cfg, ins).loads, WantedLoads(cfg, Program(ins)))
  {
    hide Next, Beats, Pcs, Loads, Spells, OfClock, Wanted, WantedLoads;
    if ins == [] {
      NothingWanted(cfg);
    } else {
      var pre, i := ins[..|ins| - 1], ins[|ins| - 1];
      HistoryIsInput(cfg, pre);
      ClockTraces(cfg, i);
      WantedConcat(cfg, Program(pre), OfClock(i));
      LoadsConcat(cfg, Program(pre), OfClock(i));
      if cfg.loadval { ClockLoads(cfg, i); }
    }
  }

  lemma NothingWanted(cfg: Cfg)
    ensures Wanted(cfg, []) == [] && WantedLoads(cfg, []) == []
  {
  }

  // ---- no beat is lost unless the overflow flag says so ----

  ghost predicate Conserved(w: World)
  {
    if w.r.ovf then |w.drained| + |w.r.q| < |w.made| else w.made == w.drained + w.r.q
  }

  lemma ConservedStep(cfg: Cfg, w: World, i: Inputs)
    requires cfg.Valid() && w.r.Ok() && Conserved(w)
    ensures Conserved(Step(cfg, w, i))
  {
    hide Beats, NextPacker, NextDrain;
    var beats := Beats(cfg, w.r.p, i);
    var w' := Step(cfg, w, i);
    if Stores(w, i) { QueueFront(w.drained, w.r.q, Kept(w.r.q, beats)); }
    if !w'.r.ovf {
      assert w'.made == (w.drained + w.r.q) + beats;
    }
  }

  lemma QueueFront(d: seq<Beat128>, q: seq<Beat128>, more: seq<Beat128>)
    requires q != []
    ensures (d + [q[0]]) + (q[1..] + more) == (d + q) + more
  {
  }

  // ---- the bits ----

  function Flatten(bs: seq<Beat128>): (f: seq<bool>)
    ensures |f| == 128 * |bs|
  {
    if bs == [] then [] else Flatten(bs[..|bs| - 1]) + bs[|bs| - 1]
  }

  lemma {:induction false} FlattenConcat(a: seq<Beat128>, b: seq<Beat128>)
    ensures Flatten(a + b) == Flatten(a) + Flatten(b)
  {
    if b == [] {
      assert a + b == a;
    } else {
      FlattenConcat(a, b[..|b| - 1]);
      assert (a + b)[..|a + b| - 1] == a + b[..|b| - 1];
    }
  }

  /** In codec mode the beats made and the packer's bits are the code of the PCs traced so far;
      in load mode the beats made are the load records. */
  ghost predicate Carried(cfg: Cfg, w: World)
    requires w.r.Ok()
  {
    if cfg.loadval then w.made == w.loads
    else Flatten(w.made) + w.r.p.Pending() == Encode(FRESH, w.pcs) && w.r.p.coder == After(FRESH, w.pcs)
  }

  lemma CarriedStep(cfg: Cfg, w: World, i: Inputs)
    requires cfg.Valid() && w.r.Ok() && Carried(cfg, w)
    ensures Carried(cfg, Step(cfg, w, i))
  {
    if !cfg.loadval {
      hide Encode, Flatten, Code, Next, AppendWire, Beats, LenOf, Traced, NextPacker;
      var p, p' := w.r.p, NextPacker(cfg, w.r.p, i);
      PackerKeepsOk(cfg, p, i);
      var codes := NewCodes(cfg, p, i);
      PackStep(cfg, p, i, codes);
      var beats := Beats(cfg, p, i);
      FlattenConcat(w.made, beats);
      PcsEncode(cfg, w.pcs, i);
      Regroup(Flatten(w.made), Flatten(beats), p'.Pending(), p.Pending(), codes);
      NextOf(cfg, w, i);
    }
  }

  lemma NextOf(cfg: Cfg, w: World, i: Inputs)
    requires cfg.Valid() && w.r.Ok()
    ensures Next(cfg, w.r, i).p == NextPacker(cfg, w.r.p, i)
  {
  }

  lemma Regroup(m: seq<bool>, b: seq<bool>, pend': seq<bool>, pend: seq<bool>, codes: seq<bool>)
    requires b + pend' == pend + codes
    ensures (m + b) + pend' == (m + pend) + codes
  {
    assert (m + b) + pend' == m + (b + pend');
    assert (m + pend) + codes == m + (pend + codes);
  }

  /** The codes of one clock's PCs. */
  function NewCodes(cfg: Cfg, p: Packer, i: Inputs): seq<bool>
  {
    var k0, k1 := Traced(cfg, i.asid, i.r0), Traced(cfg, i.asid, i.r1);
    (if k0.Some? then Code(p.coder, k0.value) else []) + if k1.Some? then Code(Told(p.coder, k0), k1.value) else []
  }

  /** One clock of the packer moves bits, adds the new codes at the end, and loses nothing. */
  lemma PackStep(cfg: Cfg, p: Packer, i: Inputs, codes: seq<bool>)
    requires p.Ok() && !cfg.loadval && codes == NewCodes(cfg, p, i) && NextPacker(cfg, p, i).Ok()
    ensures Flatten(Beats(cfg, p, i)) + NextPacker(cfg, p, i).Pending() == p.Pending() + codes
  {
    hide AppendWire, LenOf, Merged, Traced, Code, FromBits, ToBits;
    AppendIsCode(p.coder, Traced(cfg, i.asid, i.r0), Traced(cfg, i.asid, i.r1));
    MergedBits(p);
    var p', m, total := NextPacker(cfg, p, i), Merged(p), p.nbits + p.applen;
    assert p'.append[..p'.applen] == codes;
    if total >= 128 {
      FlushSplits(m, total);
      OneBeat(m[..128]);
      assert m[..128] + (p'.acc[..p'.nbits] + codes) == (m[..128] + p'.acc[..p'.nbits]) + codes;
    } else {
      assert [] + (p'.acc[..p'.nbits] + codes) == m[..total] + codes;
    }
  }

  lemma OneBeat(b: Beat128)
    ensures Flatten([b]) == b
  {
    assert Flatten([b][..0]) == [];
  }

  /** The code of the PCs after a clock, and the coder's state. */
  lemma PcsEncode(cfg: Cfg, pcs: seq<Word32>, i: Inputs)
    ensures var s := After(FRESH, pcs);
            var k0, k1 := Traced(cfg, i.asid, i.r0), Traced(cfg, i.asid, i.r1);
            && Encode(FRESH, pcs + Pcs(cfg, i)) == Encode(FRESH, pcs) + ((if k0.Some? then Code(s, k0.value) else [])
                                                                        + if k1.Some? then Code(Told(s, k0), k1.value)
                                                                        else [])
            && After(FRESH, pcs + Pcs(cfg, i)) == Told(Told(s, k0), k1)
  {
    hide Encode, Code, Traced;
    var k0, k1 := Traced(cfg, i.asid, i.r0), Traced(cfg, i.asid, i.r1);
    var mid := pcs + (if k0.Some? then [k0.value] else []);
    if k0.Some? { EncodeSnoc(FRESH, pcs, k0.value); } else { assert mid == pcs; }
    if k1.Some? {
      EncodeSnoc(FRESH, mid, k1.value);
      assert pcs + Pcs(cfg, i) == mid + [k1.value];
    } else {
      assert pcs + Pcs(cfg, i) == mid;
    }
  }

  // ---- the ring ----

  /** How many beats the region's wrap-by-comparison cycles through, for any size. */
  function Places(cfg: Cfg): (n: nat)
    ensures n >= 1
  {
    if cfg.size <= 16 then 1 else (cfg.size + 15) / 16
  }

  /** The offset of beat k. */
  function Place(cfg: Cfg, k: nat): nat { 16 * (k % Places(cfg)) }

  lemma NextPlace(cfg: Cfg, k: nat)
    requires cfg.Valid()
    ensures NextOffset(cfg, Place(cfg, k)) == Place(cfg, k + 1)
  {
    hide NextOffset, Places;
    var n := Places(cfg);
    var q, r := k / n, k % n;
    DivMod(k, n);
    if r + 1 < n {
      ModUnique(k + 1, q, r + 1, n);
      Advances(cfg, r);
    } else {
      assert (q + 1) * n == q * n + n;
      ModUnique(k + 1, q + 1, 0, n);
      Wraps(cfg, 16 * r);
    }
  }

  lemma Advances(cfg: Cfg, r: nat)
    requires cfg.Valid() && r + 1 < Places(cfg)
    ensures NextOffset(cfg, 16 * r) == 16 * (r + 1)
  {
    assert 16 * (r + 1) < cfg.size < cfg.space;
    ModUnique(16 * r + 16, 0, 16 * r + 16, cfg.space);
  }

  /** The last place of the cycle is followed by offset 0, even at the end of the address space. */
  lemma Wraps(cfg: Cfg, woff: nat)
    requires cfg.Valid() && woff == 16 * (Places(cfg) - 1)
    ensures NextOffset(cfg, woff) == 0
  {
    var space := cfg.space;
    var m := space / 16;
    assert space == 16 * m && woff + 16 <= space && woff + 16 >= cfg.size;
    if woff + 16 == space {
      ModUnique(woff + 16, 1, 0, space);
    } else {
      ModUnique(woff + 16, 0, woff + 16, space);
    }
  }

  /** Beat k is where it belongs. */
  ghost predicate At(cfg: Cfg, w: World, k: nat)
    requires k < |w.drained|
  {
    Place(cfg, k) in w.mem && w.mem[Place(cfg, k)] == w.drained[k]
  }

  /** The region holds the last beats stored, one ring of them, and nothing else. */
  ghost predicate Ring(cfg: Cfg, w: World)
  {
    && w.r.d.woff == Place(cfg, |w.drained|) && w.r.d.bytes == Wrap32(16 * |w.drained|)
    && (forall k :: 0 <= k < |w.drained| && |w.drained| - Places(cfg) <= k ==> At(cfg, w, k))
    && (forall o :: o in w.mem ==> Used(cfg, |w.drained|, o))
  }

  ghost predicate Used(cfg: Cfg, n: nat, o: nat)
  {
    exists j :: 0 <= j < Places(cfg) && j < n && o == 16 * j
  }

  lemma RingStep(cfg: Cfg, w: World, i: Inputs)
    requires cfg.Valid() && w.r.Ok() && Ring(cfg, w)
    ensures Ring(cfg, Step(cfg, w, i))
  {
    hide Next, Beats, Pcs, Loads, Place, Places, NextOffset;
    var w' := Step(cfg, w, i);
    var n := |w.drained|;
    DrainOf(cfg, w, i);
    if Stores(w, i) {
      NextPlace(cfg, n);
      ByteCount(n);
      forall k | 0 <= k < |w'.drained| && |w'.drained| - Places(cfg) <= k
        ensures At(cfg, w', k)
      {
        if k < n {
          PlacesDiffer(cfg, k, n);
          assert At(cfg, w, k);
        }
      }
      forall o | o in w'.mem
        ensures Used(cfg, n + 1, o)
      {
        if o == Place(cfg, n) { PlaceUsed(cfg, n); } else { assert Used(cfg, n, o); }
      }
    } else {
      forall k | 0 <= k < |w'.drained| && |w'.drained| - Places(cfg) <= k
        ensures At(cfg, w', k)
      {
        assert At(cfg, w, k);
      }
    }
  }

  lemma DrainOf(cfg: Cfg, w: World, i: Inputs)
    requires cfg.Valid() && w.r.Ok()
    ensures var d := Next(cfg, w.r, i).d;
            if Stores(w, i) then d.woff == NextOffset(cfg, w.r.d.woff) && d.bytes == Wrap32(w.r.d.bytes + 16)
            else d.woff == w.r.d.woff && d.bytes == w.r.d.bytes
  {
  }

  lemma ByteCount(n: nat)
    ensures Wrap32(Wrap32(16 * n) + 16) == Wrap32(16 * (n + 1))
  {
    WrapNext(16 * n, 16);
  }

  lemma PlacesDiffer(cfg: Cfg, a: nat, b: nat)
    requires a < b < a + Places(cfg)
    ensures Place(cfg, a) != Place(cfg, b)
  {
    SlotsDiffer(Places(cfg), a, b);
  }

  lemma PlaceUsed(cfg: Cfg, n: nat)
    ensures Used(cfg, n + 1, Place(cfg, n))
  {
    var j := n % Places(cfg);
    assert j <= n by { DivMod(n, Places(cfg)); MultipleInside(n / Places(cfg), Places(cfg)); }
    assert 0 <= j < Places(cfg) && j < n + 1 && Place(cfg, n) == 16 * j;
  }

  // ---- every run ----

  lemma {:induction false} RunKeeps(cfg: Cfg, ins: seq<Inputs>)
    requires cfg.Valid()
    ensures var w := Run(cfg, ins);
            Conserved(w) && Carried(cfg, w) && Ring(cfg, w)
  {
    if ins == [] {
      InitKeeps(cfg);
    } else {
      hide Step, Conserved, Carried, Ring;
      var w := Run(cfg, ins[..|ins| - 1]);
      RunKeeps(cfg, ins[..|ins| - 1]);
      ConservedStep(cfg, w, ins[|ins| - 1]);
      CarriedStep(cfg, w, ins[|ins| - 1]);
      RingStep(cfg, w, ins[|ins| - 1]);
    }
  }

  lemma InitKeeps(cfg: Cfg)
    ensures Conserved(Init()) && Carried(cfg, Init()) && Ring(cfg, Init())
  {
    assert Flatten([]) + Init().r.p.Pending() == Encode(FRESH, []);
    SmallMod(Places(cfg));
  }

  lemma SmallMod(n: nat)
    requires n >= 1
    ensures 0 % n == 0
  {
  }

  // ---- results ----

  /** The overflow flag is up exactly when a beat is missing; while it is down, the beats stored
      and the queue are all the beats made, in order. */
  lemma OverflowTellsLoss(cfg: Cfg, ins: seq<Inputs>)
    requires cfg.Valid()
    ensures var w := Run(cfg, ins);
            !w.r.ovf <==> w.drained + w.r.q == w.made
  {
    RunKeeps(cfg, ins);
  }

  /** Without overflow, memory, FIFO, packer and append register hold together exactly the code
      of the PCs that passed the filter, and the packer holds less than a beat. */
  lemma StreamIsCode(cfg: Cfg, ins: seq<Inputs>)
    requires cfg.Valid() && !cfg.loadval && !Run(cfg, ins).r.ovf
    ensures var w := Run(cfg, ins);
            && Flatten(w.drained) + Flatten(w.r.q) + w.r.p.Pending() == Encode(FRESH, Expected(cfg, ins))
            && w.r.p.nbits < 128
  {
    RunKeeps(cfg, ins);
    HistoryIsInput(cfg, ins);
    FlattenConcat(Run(cfg, ins).drained, Run(cfg, ins).r.q);
  }

  /** In load mode, without overflow, the beats in memory and FIFO spell the retired loads that the
      filters choose, in program order. */
  lemma LoadsInOrder(cfg: Cfg, ins: seq<Inputs>)
    requires cfg.Valid() && cfg.loadval && !Run(cfg, ins).r.ovf
    ensures AllSpell(Run(cfg, ins).drained + Run(cfg, ins).r.q, WantedLoads(cfg, Program(ins)))
  {
    RunKeeps(cfg, ins);
    HistoryIsInput(cfg, ins);
  }

  /** For a size that is a positive multiple of 16 the region holds exactly the last
      min(beats, size/16) beats, beat k at 16 * (k mod size/16), and nothing outside itself. */
  lemma RingHoldsLast(cfg: Cfg, ins: seq<Inputs>)
    requires cfg.Valid() && cfg.size > 0 && cfg.size % 16 == 0
    ensures var w, n := Run(cfg, ins), cfg.size / 16;
            && (forall k :: 0 <= k < |w.drained| && |w.drained| - n <= k ==>
                  16 * (k % n) in w.mem && w.mem[16 * (k % n)] == w.drained[k])
            && (forall o :: o in w.mem ==> o % 16 == 0 && o / 16 < n && o / 16 < |w.drained| && o + 16 <= cfg.size)
  {
    hide Run, Conserved, Carried, Used;
    RunKeeps(cfg, ins);
    var w, n := Run(cfg, ins), cfg.size / 16;
    assert Places(cfg) == n;
    forall k | 0 <= k < |w.drained| && |w.drained| - n <= k
      ensures 16 * (k % n) in w.mem && w.mem[16 * (k % n)] == w.drained[k]
    {
      assert At(cfg, w, k);
    }
    forall o | o in w.mem
      ensures o % 16 == 0 && o / 16 < n && o / 16 < |w.drained| && o + 16 <= cfg.size
    {
      assert Used(cfg, |w.drained|, o);
      UsedInside(cfg, |w.drained|, o);
    }
  }

  lemma UsedInside(cfg: Cfg, n: nat, o: nat)
    requires Used(cfg, n, o)
    ensures o % 16 == 0 && o / 16 < Places(cfg) && o / 16 < n
  {
  }

  /** Once the region has been gone round, no store has left it if and only if its size is a
      positive multiple of 16. */
  lemma StaysInsideIff(cfg: Cfg, ins: seq<Inputs>)
    requires cfg.Valid() && |Run(cfg, ins).drained| >= Places(cfg)
    ensures (forall o :: o in Run(cfg, ins).mem ==> o + 16 <= cfg.size) <==> cfg.size > 0 && cfg.size % 16 == 0
  {
    hide Run, Conserved, Carried, Ring, Places;
    RunKeeps(cfg, ins);
    if cfg.size > 0 && cfg.size % 16 == 0 { RingHoldsLast(cfg, ins); } else { LastPlaceUsed(cfg, Run(cfg, ins)); }
  }

  /** Once round, something is stored in the last place, which ends past a size that is no positive
      multiple of 16. */
  lemma LastPlaceUsed(cfg: Cfg, w: World)
    requires Ring(cfg, w) && |w.drained| >= Places(cfg)
    ensures exists o :: o in w.mem && (cfg.size == 0 || cfg.size % 16 != 0 ==> o + 16 > cfg.size)
  {
    hide Places;
    var n := Places(cfg);
    var k := LastPlace(n, |w.drained|);
    assert At(cfg, w, k);
    assert Place(cfg, k) == 16 * (n - 1);
    PlacesCover(cfg);
  }

  lemma PlacesCover(cfg: Cfg)
    ensures cfg.size == 0 || cfg.size % 16 != 0 ==> 16 * Places(cfg) > cfg.size
  {
  }

  /** Among the last n beats one sits in the last place. */
  lemma LastPlace(n: nat, m: nat) returns (k: nat)
    requires 1 <= n <= m
    ensures m - n <= k < m && k % n == n - 1
  {
    var q, r := m / n, m % n;
    DivMod(m, n);
    MultipleInside(q, n);
    k := q * n - 1;
    assert q >= 1;
    assert (q - 1) * n == q * n - n;
    MultipleInside(q - 1, n);
    ModUnique(k, q - 1, n - 1, n);
  }

  // ---- a run that leaves the region, for each size that lets it ----

  const NOTHING := Retire(false, 0, false, false, 0, 0)
  const ONE_LOAD := Inputs(0, Retire(true, 0x1000, true, true, 7, 0x2000), NOTHING, false)
  const WAITING := Inputs(0, NOTHING, NOTHING, false)
  const STORED := Inputs(0, NOTHING, NOTHING, true)

  /** Load mode without filters. */
  function Unfiltered(size: nat, space: nat): Cfg { Cfg(true, false, 0, false, 0, 0, true, size, space) }

  /** n loads, each stored before the next one retires. */
  function LoadRounds(n: nat): seq<Inputs>
  {
    if n == 0 then [] else LoadRounds(n - 1) + [ONE_LOAD] + [WAITING] + [STORED]
  }

  lemma RunSnoc(cfg: Cfg, ins: seq<Inputs>, i: Inputs)
    requires cfg.Valid()
    ensures Run(cfg, ins + [i]) == Step(cfg, Run(cfg, ins), i)
  {
    assert (ins + [i])[..|ins|] == ins;
  }

  /** One clock of load mode, as far as the queue and the drain go. */
  lemma LoadClock(size: nat, space: nat, w: World, i: Inputs)
    requires Unfiltered(size, space).Valid() && w.r.Ok() && |w.r.q| <= 1 && (i == ONE_LOAD ==> w.r.q == [])
    requires i == ONE_LOAD || i == WAITING || i == STORED
    ensures var w' := Step(Unfiltered(size, space), w, i);
            && |w'.r.q| == |w.r.q| + (if i == ONE_LOAD then 1 else 0) - (if Stores(w, i) then 1 else 0)
            && (w'.r.d.req <==> if w.r.d.req then !i.rsp else w.r.q != [])
            && |w'.drained| == |w.drained| + (if Stores(w, i) then 1 else 0)
  {
    hide LoadBeat, NextPacker, NextOffset;
  }

  lemma LoadRound(size: nat, space: nat, w: World)
    requires Unfiltered(size, space).Valid() && w.r.Ok() && w.r.q == [] && !w.r.d.req
    ensures var cfg := Unfiltered(size, space);
            var w' := Step(cfg, Step(cfg, Step(cfg, w, ONE_LOAD), WAITING), STORED);
            |w'.drained| == |w.drained| + 1 && w'.r.q == [] && !w'.r.d.req
  {
    hide Step;
    var cfg := Unfiltered(size, space);
    LoadClock(size, space, w, ONE_LOAD);
    LoadClock(size, space, Step(cfg, w, ONE_LOAD), WAITING);
    LoadClock(size, space, Step(cfg, Step(cfg, w, ONE_LOAD), WAITING), STORED);
  }

  lemma {:induction false} EveryLoadStored(size: nat, space: nat, n: nat)
    requires Unfiltered(size, space).Valid()
    ensures var w := Run(Unfiltered(size, space), LoadRounds(n));
            |w.drained| == n && w.r.q == [] && !w.r.d.req
  {
    hide Step;
    if n > 0 {
      hide Run;
      var cfg, ins := Unfiltered(size, space), LoadRounds(n - 1);
      EveryLoadStored(size, space, n - 1);
      LoadRound(size, space, Run(cfg, ins));
      RunSnoc(cfg, ins, ONE_LOAD);
      RunSnoc(cfg, ins + [ONE_LOAD], WAITING);
      RunSnoc(cfg, ins + [ONE_LOAD] + [WAITING], STORED);
    }
  }

  /** For every size that is no positive multiple of 16 some run stores past the region's end:
      once round it with single loads is enough. With a size of 24 the second load does. */
  lemma LeavesRegion(size: nat, space: nat)
    requires Unfiltered(size, space).Valid() && (size == 0 || size % 16 != 0)
    ensures var w := Run(Unfiltered(size, space), LoadRounds(size / 16 + 1));
            16 * (size / 16) in w.mem && 16 * (size / 16) + 16 > size
  {
    hide Run;
    var cfg, n := Unfiltered(size, space), size / 16 + 1;
    EveryLoadStored(size, space, n);
    RunKeeps(cfg, LoadRounds(n));
    var w := Run(cfg, LoadRounds(n));
    assert Places(cfg) == n && At(cfg, w, n - 1);
    ModUnique(n - 1, 0, n - 1, n);
  }

  /** The first n beats of the region, as the decoder reads them. */
  function Region(mem: map<nat, Beat128>, n: nat): (bs: seq<Beat128>)
    ensures |bs| == n
  {
    seq(n, j requires 0 <= j < n => if 16 * j in mem then mem[16 * j] else Zeros(128))
  }

  /** End to end: in codec mode, without overflow and before the ring or the byte counter wraps,
      the decoder run on the bytes the engine reports returns every traced PC whose code lies
      wholly in them, in order, and at most one value more. */
  lemma TraceDecodes(cfg: Cfg, ins: seq<Inputs>, refs: nat)
    requires cfg.Valid() && !cfg.loadval && !Run(cfg, ins).r.ovf
    requires |Run(cfg, ins).drained| <= Places(cfg) && 16 * |Run(cfg, ins).drained| < TWO32
    ensures var w, pcs := Run(cfg, ins), Expected(cfg, ins);
            var bits := Flatten(Region(w.mem, w.r.d.bytes / 16));
            && |bits| == 8 * w.r.d.bytes
            && Follows(Decode(bits, refs), pcs, Whole(FRESH, pcs, |bits|), refs)
  {
    hide Run, Decode, Follows, Whole, Encode, Places, Flatten;
    RunKeeps(cfg, ins);
    StreamIsCode(cfg, ins);
    var w, pcs := Run(cfg, ins), Expected(cfg, ins);
    var n := |w.drained|;
    assert w.r.d.bytes == 16 * n by { ModUnique(16 * n, 0, 16 * n, TWO32); }
    var bs := Region(w.mem, n);
    forall k | 0 <= k < n
      ensures bs[k] == w.drained[k]
    {
      assert At(cfg, w, k);
      ModUnique(k, 0, k, Places(cfg));
    }
    assert bs == w.drained;
    FirstBits(Flatten(bs), Flatten(w.r.q), w.r.p.Pending());
    DecodesPrefix(pcs, Flatten(bs), refs);
  }

  lemma FirstBits(a: seq<bool>, b: seq<bool>, c: seq<bool>)
    ensures a <= a + b + c
  {
  }
}
