/**
 What the chunks of a log hold: every record, and the stores and exceptions of the calls up to the
 last chunk. Only a record writes a chunk, so what is logged after the last one is lost.
 */
module CtraceLog {
  import opened Prelude
  import opened Modular
  import opened CtraceFormat

  // ---- what the chunks hold ----

  function AllRecs(calls: seq<Call>): seq<Rec>
  {
    if calls == [] then []
    else AllRecs(calls[..|calls| - 1]) + (match calls[|calls| - 1] case Add(r) => [r] case _ => [])
  }

  function AllStores(calls: seq<Call>): seq<StoreRec>
  {
    if calls == [] then []
    else AllStores(calls[..|calls| - 1]) + (match calls[|calls| - 1] case AddStore(s) => [s] case _ => [])
  }

  ghost predicate WellMade(chunks: seq<Cols>)
  {
    forall i :: 0 <= i < |chunks| ==> chunks[i].Aligned() && chunks[i].pc != []
  }

  function RecsIn(chunks: seq<Cols>): seq<Rec>
    requires WellMade(chunks)
  {
    if chunks == [] then [] else RecsIn(chunks[..|chunks| - 1]) + chunks[|chunks| - 1].Recs()
  }

  function StoresIn(chunks: seq<Cols>): seq<StoreRec>
    requires WellMade(chunks)
  {
    if chunks == [] then [] else StoresIn(chunks[..|chunks| - 1]) + chunks[|chunks| - 1].Stores()
  }

  function ExceptionsIn(chunks: seq<Cols>): seq<ExcRec>
    requires WellMade(chunks)
  {
    if chunks == [] then [] else ExceptionsIn(chunks[..|chunks| - 1]) + chunks[|chunks| - 1].Exceptions()
  }

  /** Records and stores so far are those in the chunks, then the pending ones. */
  ghost predicate Holds(l: Log, recs: seq<Rec>, stores: seq<StoreRec>)
  {
    && WellMade(l.chunks) && l.pending.Aligned()
    && RecsIn(l.chunks) + l.pending.Recs() == recs && StoresIn(l.chunks) + l.pending.Stores() == stores
  }

  lemma FlushHolds(l: Log, recs: seq<Rec>, stores: seq<StoreRec>)
    requires Holds(l, recs, stores) && l.pending.pc != []
    ensures Holds(Flushed(l), recs, stores)
  {
    hide RecsIn, StoresIn;
    SnocIn(l.chunks, l.pending);
    NothingIn();
    assert recs + [] == recs && stores + [] == stores;
  }

  lemma SnocIn(chunks: seq<Cols>, c: Cols)
    requires WellMade(chunks) && c.Aligned() && c.pc != []
    ensures WellMade(chunks + [c]) && RecsIn(chunks + [c]) == RecsIn(chunks) + c.Recs()
    ensures StoresIn(chunks + [c]) == StoresIn(chunks) + c.Stores()
    ensures ExceptionsIn(chunks + [c]) == ExceptionsIn(chunks) + c.Exceptions()
  {
    assert (chunks + [c])[..|chunks|] == chunks;
  }

  lemma NothingIn()
    ensures EMPTY.Aligned() && EMPTY.Recs() == [] && EMPTY.Stores() == []
  {
  }

  lemma CallHolds(l: Log, chunkRecs: Word32, a: Call, recs: seq<Rec>, stores: seq<StoreRec>)
    requires l.open && Holds(l, recs, stores)
    ensures Holds(After(l, chunkRecs, a), recs + (match a case Add(r) => [r] case _ => []),
                  stores + (match a case AddStore(s) => [s] case _ => []))
  {
    hide RecsIn, StoresIn, WellMade;
    match a {
      case Add(r) =>
        var l' := l.(pending := WithRec(l.pending, r));
        assert l'.pending.Recs() == l.pending.Recs() + [r];
        assert l'.pending.Stores() == l.pending.Stores();
        Tack(RecsIn(l.chunks), l.pending.Recs(), [r]);
        assert stores + [] == stores;
        if |l'.pending.pc| >= chunkRecs { FlushHolds(l', recs + [r], stores); }
      case AddStore(s) =>
        var l' := l.(pending := WithStore(l.pending, s));
        assert l'.pending.Stores() == l.pending.Stores() + [s];
        assert l'.pending.Recs() == l.pending.Recs();
        Tack(StoresIn(l.chunks), l.pending.Stores(), [s]);
        assert recs + [] == recs;
      case AddException(cause, epc, badv) =>
        var l' := l.(pending := WithException(l.pending, cause, epc, badv));
        assert l'.pending.Recs() == l.pending.Recs() && l'.pending.Stores() == l.pending.Stores();
        assert recs + [] == recs && stores + [] == stores;
    }
  }

  lemma Tack<T>(a: seq<T>, b: seq<T>, c: seq<T>)
    ensures a + (b + c) == (a + b) + c
  {
  }

  lemma {:induction false} LogHolds(chunkRecs: Word32, calls: seq<Call>)
    ensures AfterAll(chunkRecs, calls).open && Holds(AfterAll(chunkRecs, calls), AllRecs(calls), AllStores(calls))
  {
    if calls == [] {
      assert EMPTY.Recs() == [] && EMPTY.Stores() == [];
    } else {
      hide Holds, After;
      var pre := calls[..|calls| - 1];
      LogHolds(chunkRecs, pre);
      CallHolds(AfterAll(chunkRecs, pre), chunkRecs, calls[|calls| - 1], AllRecs(pre), AllStores(pre));
      StaysOpen(AfterAll(chunkRecs, pre), chunkRecs, calls[|calls| - 1]);
    }
  }

  lemma StaysOpen(l: Log, chunkRecs: Word32, a: Call)
    requires l.open
    ensures After(l, chunkRecs, a).open
  {
  }

  /** After close, the chunks hold every record in order; they hold every store unless stores were
      logged after the last chunk and no record was. */
  lemma ClosedHolds(chunkRecs: Word32, calls: seq<Call>)
    ensures var pending, l := AfterAll(chunkRecs, calls).pending, Closed(AfterAll(chunkRecs, calls));
            && WellMade(l.chunks) && RecsIn(l.chunks) == AllRecs(calls)
            && StoresIn(l.chunks) <= AllStores(calls)
            && (StoresIn(l.chunks) == AllStores(calls) <==> pending.pc != [] || pending.stpc == [])
  {
    hide RecsIn, StoresIn, AllRecs, AllStores;
    var l0 := AfterAll(chunkRecs, calls);
    LogHolds(chunkRecs, calls);
    if l0.pending.pc != [] {
      FlushHolds(l0, AllRecs(calls), AllStores(calls));
      assert EMPTY.Recs() == [] && EMPTY.Stores() == [];
      var l := Flushed(l0);
      assert RecsIn(l.chunks) + [] == RecsIn(l.chunks) && StoresIn(l.chunks) + [] == StoresIn(l.chunks);
    } else {
      assert l0.pending.Recs() == [];
      assert RecsIn(l0.chunks) + [] == RecsIn(l0.chunks);
      assert |StoresIn(l0.chunks) + l0.pending.Stores()| == |StoresIn(l0.chunks)| + |l0.pending.stpc|;
      if l0.pending.stpc == [] { assert l0.pending.Stores() == [] && StoresIn(l0.chunks) + [] == StoresIn(l0.chunks); }
    }
  }

  lemma {:induction false} CountRecs(chunks: seq<Cols>)
    requires WellMade(chunks)
    ensures |RecsIn(chunks)| == Total(chunks)
  {
    if chunks != [] { CountRecs(chunks[..|chunks| - 1]); }
  }

  // ---- what is lost, told from the calls alone ----

  /** Records per chunk: a chunk is written as soon as it holds that many. */
  function ChunkSize(chunkRecs: Word32): (n: nat)
    ensures n >= 1
  {
    if chunkRecs == 0 then 1 else chunkRecs
  }

  /** How many calls the last chunk ends with: up to the last record that fills one. */
  function FlushPoint(chunkRecs: Word32, calls: seq<Call>): (n: nat)
    ensures n <= |calls|
  {
    if calls == [] then 0
    else if calls[|calls| - 1].Add? && |AllRecs(calls)| % ChunkSize(chunkRecs) == 0 then |calls|
    else FlushPoint(chunkRecs, calls[..|calls| - 1])
  }

  /** The calls whose stores and exceptions reach the file of a closed writer: all of them if
      records wait for a chunk, else those up to the last chunk. */
  function Kept(chunkRecs: Word32, calls: seq<Call>): seq<Call>
  {
    if |AllRecs(calls)| % ChunkSize(chunkRecs) != 0 then calls else calls[..FlushPoint(chunkRecs, calls)]
  }

  /** The exceptions logged, each with its own cause, address and bad address, and with the number of
      records that its chunk holds already. */
  function AllExceptions(chunkRecs: Word32, calls: seq<Call>): seq<ExcRec>
  {
    if calls == [] then []
    else
      var pre := calls[..|calls| - 1];
      AllExceptions(chunkRecs, pre)
      + (match calls[|calls| - 1]
         case AddException(cause, epc, badv) =>
           [ExcRec(|AllRecs(pre)| % ChunkSize(chunkRecs) % TWO32, cause, epc, badv)]
         case _ => [])
  }

  lemma {:induction false} LogCounts(chunkRecs: Word32, calls: seq<Call>)
    ensures var l := AfterAll(chunkRecs, calls);
            && WellMade(l.chunks) && l.pending.Aligned()
            && ExceptionsIn(l.chunks) + l.pending.Exceptions() == AllExceptions(chunkRecs, calls)
            && |l.pending.pc| == |AllRecs(calls)| % ChunkSize(chunkRecs)
  {
    hide After;
    LogHolds(chunkRecs, calls);
    if calls != [] {
      var pre, a := calls[..|calls| - 1], calls[|calls| - 1];
      LogCounts(chunkRecs, pre);
      LogHolds(chunkRecs, pre);
      var l := AfterAll(chunkRecs, pre);
      CallCounts(l, chunkRecs, a);
      NextInChunk(|AllRecs(pre)|, ChunkSize(chunkRecs));
    }
  }

  lemma CallCounts(l: Log, chunkRecs: Word32, a: Call)
    requires l.open && WellMade(l.chunks) && l.pending.Aligned()
    ensures var l' := After(l, chunkRecs, a);
            && WellMade(l'.chunks) && l'.pending.Aligned()
            && ExceptionsIn(l'.chunks) + l'.pending.Exceptions()
               == ExceptionsIn(l.chunks) + l.pending.Exceptions()
                  + (match a
                     case AddException(cause, epc, badv) => [ExcRec(Wrap32(|l.pending.pc|), cause, epc, badv)]
                     case _ => [])
            && |l'.pending.pc| == if !a.Add? then |l.pending.pc|
                                  else if |l.pending.pc| + 1 >= chunkRecs then 0 else |l.pending.pc| + 1
  {
    hide ExceptionsIn;
    match a {
      case Add(r) =>
        var l1 := l.(pending := WithRec(l.pending, r));
        SnocIn(l.chunks, l1.pending);
        assert l1.pending.Exceptions() == l.pending.Exceptions() && EMPTY.Exceptions() == [];
      case AddStore(s) =>
        assert WithStore(l.pending, s).Exceptions() == l.pending.Exceptions();
      case AddException(cause, epc, badv) =>
        assert WithException(l.pending, cause, epc, badv).Exceptions()
            == l.pending.Exceptions() + [ExcRec(Wrap32(|l.pending.pc|), cause, epc, badv)];
    }
  }

  lemma NextInChunk(r: nat, n: nat)
    requires n >= 1
    ensures (r + 1) % n == if r % n + 1 >= n then 0 else r % n + 1
  {
    var q, m := r / n, r % n;
    assert r == q * n + m;
    if m + 1 >= n {
      assert r + 1 == (q + 1) * n + 0 by { assert (q + 1) * n == q * n + n; }
      ModUnique(r + 1, q + 1, 0, n);
    } else {
      ModUnique(r + 1, q, m + 1, n);
    }
  }

  /** The chunks are those of the calls up to the flush point, where nothing was pending. */
  lemma {:induction false} ChunksAtFlush(chunkRecs: Word32, calls: seq<Call>)
    ensures var l, l0 := AfterAll(chunkRecs, calls), AfterAll(chunkRecs, calls[..FlushPoint(chunkRecs, calls)]);
            l.chunks == l0.chunks && l0.pending == EMPTY
  {
    var n := FlushPoint(chunkRecs, calls);
    if calls == [] {
    } else {
      var pre, a := calls[..|calls| - 1], calls[|calls| - 1];
      LogHolds(chunkRecs, pre);
      LogCounts(chunkRecs, pre);
      NextInChunk(|AllRecs(pre)|, ChunkSize(chunkRecs));
      hide Holds, WellMade, AllExceptions, ExceptionsIn, AllStores;
      if n == |calls| {
        assert calls[..n] == calls;
      } else {
        ChunksAtFlush(chunkRecs, pre);
        assert calls[..n] == pre[..n];
      }
    }
  }

  /** After close the chunks hold exactly the stores and the exceptions of the kept calls, in order. */
  lemma ClosedKeeps(chunkRecs: Word32, calls: seq<Call>)
    ensures var l := Closed(AfterAll(chunkRecs, calls));
            && WellMade(l.chunks) && StoresIn(l.chunks) == AllStores(Kept(chunkRecs, calls))
            && ExceptionsIn(l.chunks) == AllExceptions(chunkRecs, Kept(chunkRecs, calls))
  {
    hide StoresIn, AllStores, ExceptionsIn, AllExceptions, AllRecs, FlushPoint, AfterAll;
    var l := AfterAll(chunkRecs, calls);
    LogHolds(chunkRecs, calls);
    LogCounts(chunkRecs, calls);
    ClosedHolds(chunkRecs, calls);
    if l.pending.pc != [] {
      SnocIn(l.chunks, l.pending);
    } else {
      var kept := calls[..FlushPoint(chunkRecs, calls)];
      ChunksAtFlush(chunkRecs, calls);
      LogHolds(chunkRecs, kept);
      LogCounts(chunkRecs, kept);
      assert EMPTY.Stores() == [] && StoresIn(l.chunks) + [] == StoresIn(l.chunks);
      assert EMPTY.Exceptions() == [] && ExceptionsIn(l.chunks) + [] == ExceptionsIn(l.chunks);
    }
  }
}
