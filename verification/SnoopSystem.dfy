/**
 The shim closed with memory, a write-back cache that may refill, be stored to or evict any line
 at any instant, and an engine that holds one request until its response. A snoop takes effect
 some time between its acknowledgement and its completion, and each line of the forwarded access
 at some instant before the memory's response.
 */
module SnoopSystem {
  import opened Prelude
  import opened SnoopShim

  /** The cache's copy of one line. */
  datatype Copy = Absent | Clean(value: Line) | Dirty(value: Line)

  /** Memory and cache, line by line. */
  datatype Store = Store(dram: seq<Line>, cache: seq<Copy>)
  {
    predicate Ok() { |dram| == |cache| }

    /** The value the processor would read: the cached copy if there is one, else memory. */
    function View(l: nat): Line
      requires Ok() && l < |dram|
    {
      if cache[l] == Absent then dram[l] else cache[l].value
    }
  }

  function MergeLine(was: Line, data: Line, mask: Mask): (r: Line)
    ensures forall j :: 0 <= j < 16 ==> r[j] == if mask[j] then data[j] else was[j]
  {
    seq(16, j requires 0 <= j < 16 => if mask[j] then data[j] else was[j])
  }

  /** The snoop the cache has acknowledged, and whether it has taken effect. */
  datatype Snoop = Snoop(line: nat, taken: bool)

  /** The engine's request, the snoop in progress, and per line of the request: forwarded yet,
      and what a load got. */
  datatype Env = Env(req: Option<Request>, snoop: Option<Snoop>, moved: seq<bool>, got: seq<Line>)

  /** History. For the current request and each of its lines: the first and second snoop have
      taken effect, the processor has stored since the first, the view when the first took effect
      (until then, when the request came), and every view the line has had since the request. For
      each line of memory: the contents of one sequential memory, and the bytes a racing processor
      store has spoilt. */
  datatype Hist = Hist(pre: seq<bool>, post: seq<bool>, stored: seq<bool>, base: seq<Line>, seen: seq<set<Line>>,
                       spec: seq<Line>, torn: seq<Mask>)

  datatype World = World(r: Regs, s: Store, e: Env, h: Hist)
  {
    predicate Ok()
    {
      && s.Ok() && |h.spec| == |h.torn| == |s.dram|
      && |e.moved| == |e.got| == 4 && |h.pre| == |h.post| == |h.stored| == |h.base| == |h.seen| == 4
      && (e.req.Some? ==> Fits(e.req.value, |s.dram|)) && (r.st != IDLE ==> e.req.Some?)
      && r.sub < 4 && (e.snoop.Some? ==> e.snoop.value.line < |s.dram|)
    }
  }

  /** A request inside memory. */
  predicate Fits(q: Request, lines: nat) { q.Ok() && q.LineNo(q.Count() - 1) < lines }

  predicate StagingLine(l: nat) { l / 0x10_0000 == 0x1e }

  const NO: seq<bool> := [false, false, false, false]
  const NO_LINES: seq<Line> := [ZERO_LINE, ZERO_LINE, ZERO_LINE, ZERO_LINE]

  // ---- what happens between clock edges ----

  datatype Act =
    | Refill(line: nat)
    | CpuStore(line: nat, value: Line)
    | Evict(line: nat)
    | SnoopTakes
    | Transfer(k: nat)
  {
    /** Done by the processor and its cache, not by the device's access. */
    predicate ByCpu() { Refill? || CpuStore? || Evict? }
  }

  /** Write back if dirty, and drop the copy. */
  function Flushed(s: Store, l: nat): (s': Store)
    requires s.Ok() && l < |s.dram|
    ensures s'.Ok() && |s'.dram| == |s.dram|
  {
    Store(if s.cache[l].Dirty? then s.dram[l := s.cache[l].value] else s.dram, s.cache[l := Absent])
  }

  /** The index, within the request, of the line being snooped. */
  function SubOf(q: Request, sub: nat): (k: nat)
    requires sub < 4
    ensures k < q.Count()
  {
    if q.Is64() then sub else 0
  }

  /** The index of line l within the request. */
  function IndexOf(q: Request, l: nat): (k: Option<nat>)
    ensures k.Some? ==> k.value < q.Count() && q.LineNo(k.value) == l
  {
    if q.Is64() then (if l / 4 == q.addr / 64 then Some(l % 4) else None)
    else if l == q.addr / 16 then Some(0) else None
  }

  lemma IndexOfLine(q: Request, k: nat)
    requires k < q.Count()
    ensures IndexOf(q, q.LineNo(k)) == Some(k)
  {
  }

  /** The index of line l in the current request. */
  function Index(w: World, l: nat): (k: Option<nat>)
    ensures k.Some? ==> w.e.req.Some? && k.value < w.e.req.value.Count() && w.e.req.value.LineNo(k.value) == l
  {
    if w.e.req.Some? then IndexOf(w.e.req.value, l) else None
  }

  /** Line l belongs to a write and is between its two snoops. */
  predicate Owned(w: World, l: nat)
    requires w.Ok()
  {
    Index(w, l).Some? && w.e.req.value.Write() && !w.e.req.value.Staging()
    && w.h.pre[Index(w, l).value] && !w.h.post[Index(w, l).value]
  }

  function OrMask(a: Mask, b: Mask): (m: Mask)
    ensures forall j :: 0 <= j < 16 ==> m[j] == (a[j] || b[j])
  {
    seq(16, j requires 0 <= j < 16 => a[j] || b[j])
  }

  /** A processor store spoils the bytes a write that owns the line is replacing. */
  function Spoilt(w: World, l: nat): (t: seq<Mask>)
    requires w.Ok() && l < |w.s.dram|
    ensures |t| == |w.s.dram|
  {
    if Owned(w, l) then w.h.torn[l := OrMask(w.h.torn[l], w.e.req.value.masks[Index(w, l).value])] else w.h.torn
  }

  function StoredTo(w: World, l: nat): (s: seq<bool>)
    requires w.Ok()
    ensures |s| == 4
  {
    if Index(w, l).Some? && w.h.pre[Index(w, l).value] then w.h.stored[Index(w, l).value := true] else w.h.stored
  }

  /** The effect of one action; one that is not possible has none. */
  function Effect(w: World, a: Act): (w': World)
    requires w.Ok()
    ensures w'.Ok()
  {
    match a
    case Refill(l) =>
      if l < |w.s.dram| && w.s.cache[l] == Absent && !StagingLine(l) then
        w.(s := w.s.(cache := w.s.cache[l := Clean(w.s.dram[l])]))
      else w
    case CpuStore(l, v) =>
      if l < |w.s.dram| && w.s.cache[l] != Absent then
        w.(s := w.s.(cache := w.s.cache[l := Dirty(v)]),
           h := w.h.(spec := w.h.spec[l := v], torn := Spoilt(w, l), stored := StoredTo(w, l)))
      else w
    case Evict(l) => if l < |w.s.dram| then w.(s := Flushed(w.s, l)) else w
    case SnoopTakes =>
      if w.r.st == IDLE || w.e.snoop.None? || w.e.snoop.value.taken then w
      else
        var k := SubOf(w.e.req.value, w.r.sub);
        var l := w.e.snoop.value.line;
        var w1 := w.(s := Flushed(w.s, l), e := w.e.(snoop := Some(Snoop(l, true))));
        if w.r.st == PRE_WAIT then
          w1.(h := w.h.(pre := w.h.pre[k := true], stored := w.h.stored[k := false],
            base := w.h.base[k := w.s.View(l)]))
        else w1.(h := w.h.(post := w.h.post[k := true]))
    case Transfer(k) =>
      if w.r.st != FWD || k >= w.e.req.value.Count() || w.e.moved[k] then w
      else
        var q := w.e.req.value;
        var l := q.LineNo(k);
        if q.Write() then
          w.(s := w.s.(dram := w.s.dram[l := MergeLine(w.s.dram[l], q.data[k], q.masks[k])]),
            e := w.e.(moved := w.e.moved[k := true]),
             h := w.h.(spec := w.h.spec[l := MergeLine(w.h.spec[l], q.data[k], q.masks[k])]))
        else w.(e := w.e.(moved := w.e.moved[k := true], got := w.e.got[k := w.s.dram[l]]))
  }

  /** The views recorded, with the present one of each line of the request. */
  function Seen(w: World): (v: seq<set<Line>>)
    requires w.Ok()
    ensures |v| == 4
  {
    seq(4, k requires 0 <= k < 4 =>
      w.h.seen[k] + (if w.e.req.Some? && k < w.e.req.value.Count() then {w.s.View(w.e.req.value.LineNo(k))} else {}))
  }

  function Look(w: World): (w': World)
    requires w.Ok()
    ensures w'.Ok()
  {
    w.(h := w.h.(seen := Seen(w)))
  }

  // ---- clock edges ----

  /** What the surroundings may do at an edge: raise a request, acknowledge or complete a snoop,
      answer the access. Each counts only when the protocol allows it. */
  datatype Choice = Choice(req: Option<Request>, ack: bool, done: bool, rsp: bool)

  predicate AllMoved(w: World)
    requires w.Ok() && w.e.req.Some?
  {
    forall k :: 0 <= k < w.e.req.value.Count() ==> w.e.moved[k]
  }

  function InputsOf(w: World, c: Choice): Inputs
    requires w.Ok()
  {
    Inputs(w.e.req, c.ack && (w.r.st == PRE || w.r.st == POST),
           c.done && (w.r.st == PRE_WAIT || w.r.st == POST_WAIT) && w.e.snoop.Some? && w.e.snoop.value.taken,
           if c.rsp && w.r.st == FWD && AllMoved(w) then Some(w.e.got) else None)
  }

  /** The lines of a request as the processor sees them. */
  function Views(w: World, q: Request): (v: seq<Line>)
    requires w.Ok() && Fits(q, |w.s.dram|)
    ensures |v| == 4 && forall k :: 0 <= k < q.Count() ==> v[k] == w.s.View(q.LineNo(k))
  {
    seq(4, k requires 0 <= k < 4 => if k < q.Count() then w.s.View(q.LineNo(k)) else ZERO_LINE)
  }

  function Edge(w: World, c: Choice): (w': World)
    requires w.Ok()
    ensures w'.Ok()
  {
    var i := InputsOf(w, c);
    var r' := Next(w.r, i);
    if w.e.req.None? then
      if c.req.Some? && Fits(c.req.value, |w.s.dram|) then
        w.(e := Env(c.req, None, NO, NO_LINES), h := w.h.(pre := NO, post := NO, stored := NO,
          base := Views(w, c.req.value), seen := [{}, {}, {}, {}]))
      else w
    else if w.r.st == RSP then w.(r := r', e := w.e.(req := None))
    else
      var snoop := if i.ack then Some(Snoop(w.e.req.value.LineNo(SubOf(w.e.req.value, w.r.sub)), false))
                   else if i.done then None else w.e.snoop;
      w.(r := r', e := w.e.(snoop := snoop))
  }

  // ---- runs ----

  datatype Event = Do(act: Act) | Clock(choice: Choice)

  function Step(w: World, v: Event): (w': World)
    requires w.Ok()
    ensures w'.Ok()
  {
    match v
    case Do(a) => Look(Effect(w, a))
    case Clock(c) => Look(Edge(w, c))
  }

  function Init(dram: seq<Line>): (w: World)
    ensures w.Ok()
  {
    World(ResetRegs(), Store(dram, seq(|dram|, _ => Absent)), Env(None, None, NO, NO_LINES),
          Hist(NO, NO, NO, NO_LINES, [{}, {}, {}, {}], dram, seq(|dram|, _ => seq(16, _ => false))))
  }

  function Run(dram: seq<Line>, vs: seq<Event>): (w: World)
    ensures w.Ok()
  {
    if vs == [] then Init(dram) else Step(Run(dram, vs[..|vs| - 1]), vs[|vs| - 1])
  }
}
