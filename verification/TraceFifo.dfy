/**
 The trace beat FIFO: two one-write-one-read banks split by the low bit of a record sequence
 number, up to two pushes and one pop per clock. It is proved to be one 64-entry queue.
 */
module TraceFifo {
  import opened Bits

  /** A 128-bit beat, bit 0 first. */
  type Beat128 = b: seq<bool> | |b| == 128 witness Zeros(128)

  const FIFO_N := 64
  const BANK_N := 32
  const SEQ_N := 128

  // ---- the queue it is meant to be ----

  /** As many of the new beats as there is room for. */
  function Kept(q: seq<Beat128>, beats: seq<Beat128>): (k: seq<Beat128>)
    requires |q| <= FIFO_N
  {
    if |q| + |beats| <= FIFO_N then beats else beats[..FIFO_N - |q|]
  }

  /** One clock: the beats that fit enter at the back, the front leaves on a pop. */
  function Moved(q: seq<Beat128>, beats: seq<Beat128>, pop: bool): (q': seq<Beat128>)
    requires |q| <= FIFO_N && (pop ==> q != [])
    ensures |q'| <= FIFO_N
  {
    q[if pop then 1 else 0..] + Kept(q, beats)
  }

  // ---- sequence numbers ----

  /** A 7-bit sequence number some records later. */
  function Later(s: nat, k: nat): (t: nat)
    requires s < SEQ_N && k <= FIFO_N
    ensures t < SEQ_N
  {
    if s + k < SEQ_N then s + k else s + k - SEQ_N
  }

  /** The number of records between two sequence numbers, in 7 bits. */
  function Count(wr: nat, rd: nat): (n: nat)
    requires wr < SEQ_N && rd < SEQ_N
    ensures n < SEQ_N
  {
    if wr >= rd then wr - rd else wr + SEQ_N - rd
  }

  function Slot(s: nat): (k: nat)
    requires s < SEQ_N
    ensures k < BANK_N
  {
    s / 2 % BANK_N
  }

  /** What the two banks hold for a sequence number. */
  function Cell(even: seq<Beat128>, odd: seq<Beat128>, s: nat): Beat128
    requires |even| == |odd| == BANK_N && s < SEQ_N
  {
    if s % 2 == 1 then odd[Slot(s)] else even[Slot(s)]
  }

  /** The records from rd, n of them. */
  function Window(even: seq<Beat128>, odd: seq<Beat128>, rd: nat, n: nat): (q: seq<Beat128>)
    requires |even| == |odd| == BANK_N && rd < SEQ_N && n <= FIFO_N
    ensures |q| == n
  {
    seq(n, i requires 0 <= i < n => Cell(even, odd, Later(rd, i)))
  }

  /** Two records less than 64 apart never share a bank and a slot. */
  lemma CellsApart(s: nat, i: nat, j: nat)
    requires s < SEQ_N && i < FIFO_N && j < FIFO_N && i != j
    ensures Later(s, i) % 2 != Later(s, j) % 2 || Slot(Later(s, i)) != Slot(Later(s, j))
  {
    var a, b := Later(s, i), Later(s, j);
    assert a == 2 * (a / 2) + a % 2 && b == 2 * (b / 2) + b % 2;
    assert Slot(a) == if a < 64 then a / 2 else a / 2 - 32;
    assert Slot(b) == if b < 64 then b / 2 else b / 2 - 32;
  }

  /** A write to the record after the last one extends the window by it. */
  lemma WindowWrite(even: seq<Beat128>, odd: seq<Beat128>, even': seq<Beat128>, odd': seq<Beat128>, rd: nat, n: nat,
                    b: Beat128)
    requires |even| == |odd| == |even'| == |odd'| == BANK_N && rd < SEQ_N && n < FIFO_N
    requires var s := Later(rd, n);
             if s % 2 == 1 then even' == even && odd' == odd[Slot(s) := b]
             else odd' == odd && even' == even[Slot(s) := b]
    ensures Window(even', odd', rd, n + 1) == Window(even, odd, rd, n) + [b]
  {
    var s := Later(rd, n);
    var w, w' := Window(even, odd, rd, n), Window(even', odd', rd, n + 1);
    forall i | 0 <= i < n
      ensures w'[i] == w[i]
    {
      CellsApart(rd, i, n);
    }
    assert w'[n] == b;
  }

  /** A pop drops the first record of the window. */
  lemma WindowPop(even: seq<Beat128>, odd: seq<Beat128>, rd: nat, n: nat)
    requires |even| == |odd| == BANK_N && rd < SEQ_N && 1 <= n <= FIFO_N
    ensures Window(even, odd, Later(rd, 1), n - 1) == Window(even, odd, rd, n)[1..]
  {
    var w, v := Window(even, odd, rd, n)[1..], Window(even, odd, Later(rd, 1), n - 1);
    forall i | 0 <= i < n - 1
      ensures v[i] == w[i]
    {
      assert Later(Later(rd, 1), i) == Later(rd, i + 1);
    }
  }

  function Entering(wA: bool, wB: bool, a: Beat128, b: Beat128): (e: seq<Beat128>)
    ensures |e| == (if wA then 1 else 0) + (if wB then 1 else 0)
  {
    (if wA then [a] else []) + (if wB then [b] else [])
  }

  /** The two write enables take exactly the beats that fit. */
  lemma KeptBeats(q: seq<Beat128>, n: nat, wA: bool, wB: bool, a: Beat128, b: Beat128)
    requires |q| <= FIFO_N && n <= 2
    requires wA == (n >= 1 && FIFO_N - |q| >= 1) && wB == (n == 2 && FIFO_N - |q| >= 2)
    ensures Kept(q, [a, b][..n]) == Entering(wA, wB, a, b)
  {
  }

  /** The banks and their pointers. */
  class BankedFifo {
    const fifo0: array<Beat128>
    const fifo1: array<Beat128>
    var wr: nat
    var rd: nat

    ghost predicate Valid()
      reads this
    {
      fifo0.Length == fifo1.Length == BANK_N && fifo0 != fifo1 && wr < SEQ_N && rd < SEQ_N && Count(wr, rd) <= FIFO_N
    }

    /** The queue the banks stand for. */
    ghost function Contents(): (q: seq<Beat128>)
      requires Valid()
      reads this, fifo0, fifo1
      ensures |q| == Count(wr, rd) <= FIFO_N
    {
      Window(fifo0[..], fifo1[..], rd, Count(wr, rd))
    }

    constructor ()
      ensures Valid() && fresh(fifo0) && fresh(fifo1) && Contents() == []
    {
      var zero: Beat128 := Zeros(128);
      fifo0, fifo1 := new Beat128[BANK_N](_ => zero), new Beat128[BANK_N](_ => zero);
      wr, rd := 0, 0;
    }

    /** The beat the drain offers. */
    method Head() returns (b: Beat128)
      requires Valid() && Contents() != []
      ensures b == Contents()[0]
    {
      b := if rd % 2 == 1 then fifo1[Slot(rd)] else fifo0[Slot(rd)];
    }

    /** The write side: each bank is written at most once. */
    method Push(n: nat, beatA: Beat128, beatB: Beat128) returns (drop: bool)
      requires Valid() && n <= 2
      modifies this`wr, fifo0, fifo1
      ensures Valid()
      ensures Contents() == old(Contents()) + Kept(old(Contents()), [beatA, beatB][..n])
      ensures drop <==> |old(Contents())| + n > FIFO_N
    {
      hide Window, Slot, Kept, Entering;
      ghost var even, odd, q := fifo0[..], fifo1[..], Contents();
      var room := FIFO_N - Count(wr, rd);
      var wA, wB := n >= 1 && room >= 1, n == 2 && room >= 2;
      drop := (n >= 1 && room < 1) || (n == 2 && room < 2);
      var seqA, seqB := wr, Later(wr, 1);
      if (wA && seqA % 2 == 0) || (wB && seqB % 2 == 0) {
        var first := wA && seqA % 2 == 0;
        fifo0[if first then Slot(seqA) else Slot(seqB)] := if first then beatA else beatB;
      }
      if (wA && seqA % 2 == 1) || (wB && seqB % 2 == 1) {
        var first := wA && seqA % 2 == 1;
        fifo1[if first then Slot(seqA) else Slot(seqB)] := if first then beatA else beatB;
      }
      PushMeans(even, odd, fifo0[..], fifo1[..], rd, wr, wA, wB, beatA, beatB);
      KeptBeats(q, n, wA, wB, beatA, beatB);
      wr := Later(wr, (if wA then 1 else 0) + if wB then 1 else 0);
    }

    /** The read side. */
    method Pop()
      requires Valid() && Contents() != []
      modifies this`rd
      ensures Valid() && Contents() == old(Contents())[1..]
    {
      WindowPop(fifo0[..], fifo1[..], rd, Count(wr, rd));
      rd := Later(rd, 1);
    }

    /** One clock edge with n new beats. The pop was decided on the queue before the push. */
    method Clock(n: nat, beatA: Beat128, beatB: Beat128, pop: bool) returns (drop: bool)
      requires Valid() && n <= 2 && (pop ==> Contents() != [])
      modifies this, fifo0, fifo1
      ensures Valid()
      ensures Contents() == Moved(old(Contents()), [beatA, beatB][..n], pop)
      ensures drop <==> |old(Contents())| + n > FIFO_N
    {
      drop := Push(n, beatA, beatB);
      if pop { Pop(); }
    }
  }

  /** The banks after the writes of one clock hold the window and its new records. */
  lemma PushMeans(even: seq<Beat128>, odd: seq<Beat128>, even': seq<Beat128>, odd': seq<Beat128>, rd: nat, wr: nat,
                  wA: bool, wB: bool, a: Beat128, b: Beat128)
    requires |even| == |odd| == |even'| == |odd'| == BANK_N && rd < SEQ_N && wr < SEQ_N
    requires Count(wr, rd) + (if wA then 1 else 0) + (if wB then 1 else 0) <= FIFO_N && (wB ==> wA)
    requires var evenA := wr % 2 == 0;
             && even' == (if wA && evenA then even[Slot(wr) := a]
                          else if wB && !evenA then even[Slot(Later(wr, 1)) := b] else even)
             && odd' == (if wA && !evenA then odd[Slot(wr) := a]
                         else if wB && evenA then odd[Slot(Later(wr, 1)) := b] else odd)
    ensures var n := Count(wr, rd);
            var more := Entering(wA, wB, a, b);
            Window(even', odd', rd, n + |more|) == Window(even, odd, rd, n) + more
  {
    var n, s := Count(wr, rd), wr;
    if wA {
      assert Later(rd, n) == wr;
      var even1 := if wr % 2 == 0 then even[Slot(wr) := a] else even;
      var odd1 := if wr % 2 == 1 then odd[Slot(wr) := a] else odd;
      WindowWrite(even, odd, even1, odd1, rd, n, a);
      if wB {
        assert Later(rd, n + 1) == Later(wr, 1);
        WindowWrite(even1, odd1, even', odd', rd, n + 1, b);
      }
    }
  }
}
