/**
 No access is left unanswered: if what an access waits for -- an acknowledgement, a snoop's effect,
 its completion, a line's transfer, memory's response -- is not withheld for b clock cycles, it is
 answered within b cycles for each step it still has, whatever the caches do in between.
 */
module SnoopProgress {
  import opened Prelude
  import opened SnoopShim
  import opened SnoopSystem
  import opened SnoopCoherence

  // ---- the steps an access has ----

  /** Lines of the access that are still to move. */
  function ToMove(e: Env): nat
    requires e.req.Some? && |e.moved| == 4
  {
    if !e.req.value.Is64() then if e.moved[0] then 0 else 1
    else (if e.moved[0] then 0 else 1) + (if e.moved[1] then 0 else 1)
         + (if e.moved[2] then 0 else 1) + (if e.moved[3] then 0 else 1)
  }

  /** Acknowledgement, effect and completion for each line from this one on, less what the snoop
      in progress has behind it. */
  function Snoops(w: World, waiting: bool): int
    requires w.Ok() && w.e.req.Some?
  {
    3 * (w.e.req.value.Count() - w.r.sub)
    - (if !waiting then 0 else if w.e.snoop.Some? && w.e.snoop.value.taken then 2 else 1)
  }

  /** The snoops after a write. */
  function Later(q: Request): nat { if q.Write() && !q.Staging() then 3 * q.Count() else 0 }

  /** Steps until the answer. */
  function Left(w: World): int
    requires w.Ok() && w.e.req.Some?
  {
    var q := w.e.req.value;
    match w.r.st
    case IDLE => 1 + (if q.Staging() then 0 else 3 * q.Count()) + q.Count() + 1 + Later(q)
    case PRE => Snoops(w, false) + q.Count() + 1 + Later(q)
    case PRE_WAIT => Snoops(w, true) + q.Count() + 1 + Later(q)
    case FWD => ToMove(w.e) + 1 + Later(q)
    case POST => Snoops(w, false)
    case POST_WAIT => Snoops(w, true)
    case RSP => 0
  }

  /** The most an access can have: 64-byte stores. */
  const MOST := 30

  /** The event is what the access waits for. */
  predicate Serves(w: World, v: Event)
    requires w.Ok() && w.e.req.Some?
  {
    match w.r.st
    case IDLE => v.Clock?
    case PRE => v.Clock? && v.choice.ack
    case POST => v.Clock? && v.choice.ack
    case PRE_WAIT => SnoopServed(w, v)
    case POST_WAIT => SnoopServed(w, v)
    case FWD =>
      if AllMoved(w) then v.Clock? && v.choice.rsp
      else v.Do? && v.act.Transfer? && v.act.k < w.e.req.value.Count() && !w.e.moved[v.act.k]
    case RSP => true
  }

  predicate SnoopServed(w: World, v: Event)
  {
    if w.e.snoop.Some? && w.e.snoop.value.taken then v.Clock? && v.choice.done else v == Do(SnoopTakes)
  }

  lemma LeftRange(w: World)
    requires w.Ok() && Protocol(w) && w.e.req.Some?
    ensures 0 <= Left(w) <= MOST && (Left(w) == 0 <==> w.r.st == RSP)
  {
  }

  /** No event takes an unanswered access back, and one it waits for takes it a step on. */
  lemma EventStep(w: World, v: Event)
    requires w.Ok() && Protocol(w) && w.e.req.Some? && w.r.st != RSP
    ensures var w' := Step(w, v);
            && w'.e.req == w.e.req && Left(w') <= Left(w) && (Serves(w, v) ==> Left(w') < Left(w))
  {
    hide Seen, IndexOf, Flushed, MergeLine, Spoilt, StoredTo;
    match v {
      case Do(a) => ActStep(w, a);
      case Clock(c) => EdgeStep(w, c);
    }
  }

  lemma ActStep(w: World, a: Act)
    requires w.Ok() && Protocol(w) && w.e.req.Some? && w.r.st != RSP
    ensures var w' := Step(w, Do(a));
            && w'.e.req == w.e.req && Left(w') <= Left(w) && (Serves(w, Do(a)) ==> Left(w') < Left(w))
  {
    hide Seen, Left, Protocol, Effect;
    if a.ByCpu() {
      CpuAct(w, a);
    } else if a.SnoopTakes? {
      SnoopAct(w);
    } else {
      TransferAct(w, a);
    }
    SameLeft(Effect(w, a));
  }

  /** Recording the views is no step. */
  lemma SameLeft(w: World)
    requires w.Ok() && w.e.req.Some?
    ensures Look(w).e == w.e && Look(w).r == w.r && Left(Look(w)) == Left(w)
  {
    hide Seen;
  }

  /** What the processor and its cache do is none either. */
  lemma CpuAct(w: World, a: Act)
    requires w.Ok() && w.e.req.Some? && w.r.st != RSP && a.ByCpu()
    ensures var w' := Effect(w, a);
            w'.e == w.e && Left(w') == Left(w) && !Serves(w, Do(a))
  {
    hide Flushed, Spoilt, StoredTo;
  }

  lemma SnoopAct(w: World)
    requires w.Ok() && Protocol(w) && w.e.req.Some? && w.r.st != RSP
    ensures var w' := Effect(w, SnoopTakes);
            && w'.e.req == w.e.req && Left(w') <= Left(w) && (Serves(w, Do(SnoopTakes)) ==> Left(w') < Left(w))
  {
    hide Flushed;
  }

  lemma TransferAct(w: World, a: Act)
    requires w.Ok() && Protocol(w) && w.e.req.Some? && w.r.st != RSP && a.Transfer?
    ensures var w' := Effect(w, a);
            && w'.e.req == w.e.req && Left(w') <= Left(w) && (Serves(w, Do(a)) ==> Left(w') < Left(w))
  {
    hide MergeLine;
  }

  lemma EdgeStep(w: World, c: Choice)
    requires w.Ok() && Protocol(w) && w.e.req.Some? && w.r.st != RSP
    ensures var w' := Step(w, Clock(c));
            && w'.e.req == w.e.req && Left(w') <= Left(w) && (Serves(w, Clock(c)) ==> Left(w') < Left(w))
  {
    hide Seen;
  }

  // ---- runs from a state ----

  function From(w: World, vs: seq<Event>): (w': World)
    requires w.Ok()
    ensures w'.Ok()
  {
    if vs == [] then w else Step(From(w, vs[..|vs| - 1]), vs[|vs| - 1])
  }

  lemma {:induction false} FromConcat(w: World, a: seq<Event>, b: seq<Event>)
    requires w.Ok()
    ensures From(w, a + b) == From(From(w, a), b)
    decreases |b|
  {
    hide Step;
    if b == [] {
      assert a + b == a;
    } else {
      FromConcat(w, a, b[..|b| - 1]);
      assert (a + b)[..|a + b| - 1] == a + b[..|b| - 1];
    }
  }

  lemma {:induction false} FromRun(dram: seq<Line>, past: seq<Event>, vs: seq<Event>)
    ensures From(Run(dram, past), vs) == Run(dram, past + vs)
    decreases |vs|
  {
    hide Step;
    if vs == [] {
      assert past + vs == past;
    } else {
      FromRun(dram, past, vs[..|vs| - 1]);
      assert (past + vs)[..|past + vs| - 1] == past + vs[..|vs| - 1];
    }
  }

  /** The access of w is answered in the course of the events. */
  ghost predicate Answered(w: World, vs: seq<Event>)
    requires w.Ok()
  {
    exists k :: 0 <= k <= |vs| && AnsweredAfter(w, vs, k)
  }

  predicate AnsweredAfter(w: World, vs: seq<Event>, k: nat)
    requires w.Ok() && k <= |vs|
  {
    From(w, vs[..k]).r.st == RSP && From(w, vs[..k]).e.req == w.e.req
  }

  lemma AnsweredLater(w: World, vs: seq<Event>, more: seq<Event>)
    requires w.Ok() && Answered(w, vs)
    ensures Answered(w, vs + more)
  {
    hide From;
    var k :| 0 <= k <= |vs| && AnsweredAfter(w, vs, k);
    assert (vs + more)[..k] == vs[..k];
    assert AnsweredAfter(w, vs + more, k);
  }

  /** Among the events is one the access waited for. */
  ghost predicate Served(w: World, vs: seq<Event>)
    requires w.Ok()
  {
    exists k :: 0 <= k < |vs| && ServedAt(w, vs, k)
  }

  predicate ServedAt(w: World, vs: seq<Event>, k: nat)
    requires w.Ok() && k < |vs|
  {
    var v := From(w, vs[..k]);
    v.e.req.Some? && Serves(v, vs[k])
  }

  /** The access is still under way, with no more steps than before. */
  ghost predicate UnderWay(w: World, v: World, steps: int)
    requires w.Ok() && v.Ok()
  {
    v.e.req == w.e.req && v.e.req.Some? && v.r.st != RSP && Protocol(v) && Left(v) <= steps
  }

  /** Events answer the access or leave it under way; if one serves it, with fewer steps. */
  lemma {:induction false} Stretch(w: World, vs: seq<Event>)
    requires w.Ok() && Protocol(w) && w.e.req.Some? && w.r.st != RSP
    ensures Answered(w, vs) || UnderWay(w, From(w, vs), if Served(w, vs) then Left(w) - 1 else Left(w))
  {
    hide Step, Protocol, Left, Serves;
    if vs != [] {
      var pre, v := vs[..|vs| - 1], vs[|vs| - 1];
      Stretch(w, pre);
      assert pre + [v] == vs;
      if Answered(w, pre) {
        AnsweredLater(w, pre, [v]);
      } else {
        var u := From(w, pre);
        StepOn(u, v);
        if Served(w, vs) { ServedEarlier(w, vs); }
        if From(w, vs).r.st == RSP {
          assert vs[..|vs|] == vs;
          assert AnsweredAfter(w, vs, |vs|);
        }
      }
    }
  }

  lemma StepOn(w: World, v: Event)
    requires w.Ok() && Protocol(w) && w.e.req.Some? && w.r.st != RSP
    ensures var w' := Step(w, v);
            && Protocol(w') && w'.e.req == w.e.req && Left(w') <= Left(w) && (Serves(w, v) ==> Left(w') <= Left(w) - 1)
  {
    hide Protocol, Left, Serves, Look, Effect, Edge;
    EventStep(w, v);
    match v {
      case Do(a) =>
        ProtocolEffect(w, a);
        LookKeeps(Effect(w, a));
      case Clock(c) =>
        ProtocolEdge(w, c);
        LookKeeps(Edge(w, c));
    }
  }

  lemma ServedEarlier(w: World, vs: seq<Event>)
    requires w.Ok() && vs != [] && Served(w, vs)
    ensures Served(w, vs[..|vs| - 1]) || ServedAt(w, vs, |vs| - 1)
  {
    hide From, Serves;
    var pre := vs[..|vs| - 1];
    var k :| 0 <= k < |vs| && ServedAt(w, vs, k);
    if k < |pre| {
      assert vs[..k] == pre[..k];
      assert ServedAt(w, pre, k);
    }
  }

  // ---- clock cycles ----

  /** Whatever happens between two edges, then an edge. */
  datatype Cycle = Cycle(acts: seq<Act>, edge: Choice)

  function OfCycle(c: Cycle): seq<Event>
  {
    seq(|c.acts|, i requires 0 <= i < |c.acts| => Do(c.acts[i])) + [Clock(c.edge)]
  }

  function Events(cs: seq<Cycle>): seq<Event>
  {
    if cs == [] then [] else Events(cs[..|cs| - 1]) + OfCycle(cs[|cs| - 1])
  }

  lemma Regroup(a: seq<Event>, b: seq<Event>, c: seq<Event>)
    ensures (a + b) + c == a + (b + c)
  {
  }

  lemma {:induction false} EventsConcat(a: seq<Cycle>, b: seq<Cycle>)
    ensures Events(a + b) == Events(a) + Events(b)
    decreases |b|
  {
    hide OfCycle;
    if b == [] {
      assert a + b == a;
    } else {
      var m := |b| - 1;
      EventsConcat(a, b[..m]);
      assert (a + b)[..|a| + m] == a + b[..m];
      Regroup(Events(a), Events(b[..m]), OfCycle(b[m]));
    }
  }

  /** In the b cycles from cycle k on the access gets something it waits for, unless it has been
      answered by their end. */
  ghost predicate Attended(w: World, cs: seq<Cycle>, b: nat, k: nat)
    requires w.Ok() && k + b <= |cs|
  {
    Answered(w, Events(cs[..k + b])) || Served(From(w, Events(cs[..k])), Events(cs[k..k + b]))
  }

  ghost predicate Responsive(w: World, cs: seq<Cycle>, b: nat)
    requires w.Ok()
  {
    forall k: nat :: k + b <= |cs| ==> Attended(w, cs, b, k)
  }

  /** After n windows of b cycles the access is answered or has n steps fewer. */
  lemma {:induction false} Windows(w: World, cs: seq<Cycle>, b: nat, n: nat)
    requires w.Ok() && Protocol(w) && w.e.req.Some? && w.r.st != RSP && Responsive(w, cs, b) && n * b <= |cs|
    ensures Answered(w, Events(cs[..n * b])) || UnderWay(w, From(w, Events(cs[..n * b])), Left(w) - n)
  {
    hide Step, Protocol, Left, Serves, Answered, Served, From, Events;
    if n == 0 {
      assert cs[..0] == [];
      NoEvents(w);
    } else {
      var lo := (n - 1) * b;
      assert n * b == lo + b;
      Windows(w, cs, b, n - 1);
      assert Attended(w, cs, b, lo);
      var past, window := Events(cs[..lo]), Events(cs[lo..lo + b]);
      assert cs[..lo] + cs[lo..lo + b] == cs[..lo + b];
      EventsConcat(cs[..lo], cs[lo..lo + b]);
      if Answered(w, past) {
        AnsweredLater(w, past, window);
      } else if !Answered(w, past + window) {
        var u := From(w, past);
        Stretch(u, window);
        FromConcat(w, past, window);
        if Answered(u, window) { AnsweredAfterPast(w, past, window); }
      }
    }
  }

  lemma NoEvents(w: World)
    requires w.Ok() && Protocol(w) && w.e.req.Some? && w.r.st != RSP
    ensures UnderWay(w, From(w, Events([])), Left(w))
  {
    hide Protocol, Left;
  }

  lemma AnsweredAfterPast(w: World, past: seq<Event>, more: seq<Event>)
    requires w.Ok() && From(w, past).e.req == w.e.req && Answered(From(w, past), more)
    ensures Answered(w, past + more)
  {
    hide From;
    var u := From(w, past);
    var k :| 0 <= k <= |more| && AnsweredAfter(u, more, k);
    assert (past + more)[..|past| + k] == past + more[..k];
    FromConcat(w, past, more[..k]);
    assert AnsweredAfter(w, past + more, |past| + k);
  }

  /** From every reachable state with a request: within b cycles for each of its at most thirty
      steps the same request is answered, load or store, 16 or 64 bytes, staging or not. */
  lemma EveryRequestAnswered(dram: seq<Line>, past: seq<Event>, cs: seq<Cycle>, b: nat)
    requires var w := Run(dram, past);
             w.e.req.Some? && Responsive(w, cs, b) && |cs| >= b * Left(w)
    ensures Answered(Run(dram, past), Events(cs)) && Left(Run(dram, past)) <= MOST
  {
    hide Step, Protocol, Left, Serves, Answered, Served, From, Events, Run, Responsive;
    RunProtocol(dram, past);
    var w := Run(dram, past);
    LeftRange(w);
    if w.r.st == RSP {
      AlreadyAnswered(w, Events(cs));
    } else {
      var n := Left(w);
      assert n * b == b * n;
      Windows(w, cs, b, n);
      if !Answered(w, Events(cs[..n * b])) { NoStepsLeft(w, From(w, Events(cs[..n * b]))); }
      assert cs[..n * b] + cs[n * b..] == cs;
      EventsConcat(cs[..n * b], cs[n * b..]);
      AnsweredLater(w, Events(cs[..n * b]), Events(cs[n * b..]));
    }
  }

  lemma RunProtocol(dram: seq<Line>, vs: seq<Event>)
    ensures Protocol(Run(dram, vs))
  {
    RunKeeps(dram, vs);
  }

  lemma AlreadyAnswered(w: World, vs: seq<Event>)
    requires w.Ok() && w.r.st == RSP
    ensures Answered(w, vs)
  {
    assert vs[..0] == [];
    assert AnsweredAfter(w, vs, 0);
  }

  lemma NoStepsLeft(w: World, v: World)
    requires w.Ok() && v.Ok()
    ensures !UnderWay(w, v, 0)
  {
    hide Left, Protocol;
    if UnderWay(w, v, 0) { LeftRange(v); }
  }

  /** The answer lasts one cycle: the next edge, and nothing before it, leaves the shim idle with no
      request. */
  lemma AnsweredOnce(w: World, v: Event)
    requires w.Ok() && w.r.st == RSP
    ensures var w' := Step(w, v);
            if v.Clock? then w'.r.st == IDLE && w'.e.req.None? else w'.r.st == RSP && w'.e.req == w.e.req
  {
    hide Seen, Flushed, MergeLine, Spoilt, StoredTo, IndexOf;
  }
}
