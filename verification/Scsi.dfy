/**
 The SCSI service's chunked transfers: a command's data moves in as many descriptor chains as the
 guest programs, each ended by a PAUSE or the final COMPLETE, and a doorbell in between resumes.
 */
module Scsi {
  import opened Prelude

  const BLOCK := 512

  /** What the service decodes from a new command: its status, and for a success the buffer (the
      data for a read, room for a write), the direction and the first block. */
  datatype Command = Command(ok: bool, buf: seq<Byte>, toDev: bool, lba: nat)

  /** A posted completion of one chain: PAUSE with bytes left, COMPLETE with none; or the answer to
      a command that moves no data. */
  datatype Post = Pause | Complete | NoData

  /** The transfer statics, what is staged for a read's chain, the disk, and what has been posted.
      History, per command: the ranges of the buffer the chains moved, the bytes they carried, the
      blocks written, and the disk before it. */
  datatype State = State(buf: seq<Byte>, toDev: bool, lba: nat, pos: nat, total: nat, active: bool, waits: bool,
                         staged: seq<Byte>, disk: map<nat, seq<Byte>>, posts: seq<Post>, h: Hist)
  {
    predicate Ok() { pos <= total == |buf| }
  }

  datatype Hist = Hist(ranges: seq<(nat, nat)>, carried: seq<Byte>, written: nat, before: map<nat, seq<Byte>>)

  function NewCommand(disk: map<nat, seq<Byte>>): Hist { Hist([], [], 0, disk) }

  /** One completed chain: its byte count, and for a write what the engine gathered. */
  datatype Chain = Chain(bytes: nat, data: seq<Byte>)

  // ---- steps ----

  /** A doorbell: a resume while bytes remain, else a new command. A read's remaining bytes are staged. */
  function Doorbell(s: State, c: Command): (s': State)
    requires s.Ok()
    ensures s'.Ok()
  {
    if s.active && s.pos < s.total then
      s.(waits := true, staged := if s.toDev then s.staged else s.buf[s.pos..])
    else
      var active := c.ok && c.buf != [];
      State(c.buf, c.toDev, c.lba, 0, |c.buf|, active, active || s.waits,
            if active && !c.toDev then c.buf else s.staged, s.disk,
            if active then s.posts else s.posts + [NoData], NewCommand(s.disk))
  }

  /** The bytes that count: no more than remain. */
  function Moved(s: State, c: Chain): (n: nat)
    requires s.Ok()
    ensures s.pos + n <= s.total && n <= c.bytes
  {
    if c.bytes > s.total - s.pos then s.total - s.pos else c.bytes
  }

  /** A buffer with some bytes replaced. */
  function Overwritten(buf: seq<Byte>, pos: nat, data: seq<Byte>): (b: seq<Byte>)
    requires pos + |data| <= |buf|
    ensures |b| == |buf|
  {
    buf[..pos] + data + buf[pos + |data|..]
  }

  /** n blocks from the buffer at pos onto the disk from block first. */
  function Stored(disk: map<nat, seq<Byte>>, first: nat, buf: seq<Byte>, pos: nat, n: nat): (d: map<nat, seq<Byte>>)
    requires pos + BLOCK * n <= |buf|
  {
    if n == 0 then disk
    else Stored(disk, first, buf, pos, n - 1)[first + n - 1 := buf[pos + BLOCK * (n - 1)..pos + BLOCK * n]]
  }

  /** The buffer after a chain: a write's bytes are gathered into it. */
  function BufAfter(s: State, c: Chain): (b: seq<Byte>)
    requires s.Ok() && |c.data| == c.bytes
    ensures |b| == |s.buf|
  {
    if s.toDev then Overwritten(s.buf, s.pos, c.data[..Moved(s, c)]) else s.buf
  }

  /** What a chain carries: for a write what was gathered, for a read the front of what was staged. */
  function Carries(s: State, c: Chain): (b: seq<Byte>)
    requires s.Ok() && |c.data| == c.bytes
    ensures |b| <= Moved(s, c)
  {
    var n := Moved(s, c);
    if s.toDev then c.data[..n] else if n <= |s.staged| then s.staged[..n] else s.staged
  }

  function ChainDone(s: State, c: Chain): (s': State)
    requires s.Ok() && |c.data| == c.bytes
    ensures s'.Ok()
  {
    if !s.waits then s
    else
      var n := Moved(s, c);
      var buf := BufAfter(s, c);
      var disk := if s.toDev then Stored(s.disk, s.lba + s.pos / BLOCK, buf, s.pos, n / BLOCK) else s.disk;
      var more := s.pos + n < s.total;
      s.(buf := buf, disk := disk, pos := s.pos + n, waits := false, active := s.active && more,
         posts := s.posts + [if more then Pause else Complete],
         h := Hist(s.h.ranges + [(s.pos, s.pos + n)], s.h.carried + Carries(s, c),
                   s.h.written + (if s.toDev then n / BLOCK else 0), s.h.before))
  }

  datatype Event = Bell(cmd: Command) | Done(chain: Chain)

  ghost predicate Proper(v: Event) { v.Done? ==> |v.chain.data| == v.chain.bytes }

  function Step(s: State, v: Event): (s': State)
    requires s.Ok() && Proper(v)
    ensures s'.Ok()
  {
    match v
    case Bell(c) => Doorbell(s, c)
    case Done(c) => ChainDone(s, c)
  }

  function Init(disk: map<nat, seq<Byte>>): State
  {
    State([], false, 0, 0, 0, false, false, [], disk, [], NewCommand(disk))
  }

  function Run(disk: map<nat, seq<Byte>>, vs: seq<Event>): (s: State)
    requires forall i :: 0 <= i < |vs| ==> Proper(vs[i])
    ensures s.Ok()
  {
    if vs == [] then Init(disk) else Step(Run(disk, vs[..|vs| - 1]), vs[|vs| - 1])
  }

  // ---- the service object ----

  class Service {
    var buf: seq<Byte>
    var toDev: bool
    var lba: nat
    var pos: nat
    var total: nat
    var active: bool
    var waits: bool
    var staged: seq<Byte>
    var disk: map<nat, seq<Byte>>
    var posts: seq<Post>
    ghost var h: Hist

    ghost function Value(): State
      reads this
    {
      State(buf, toDev, lba, pos, total, active, waits, staged, disk, posts, h)
    }

    constructor (disk: map<nat, seq<Byte>>)
      ensures Value() == Init(disk)
    {
      buf, toDev, lba, pos, total, active, waits := [], false, 0, 0, 0, false, false;
      this.disk, staged, posts, h := disk, [], [], NewCommand(disk);
    }

    method Bell(c: Command)
      requires Value().Ok()
      modifies this
      ensures Value() == Doorbell(old(Value()), c)
    {
      var resume := active && pos < total;
      if !resume {
        buf, toDev, lba := c.buf, c.toDev, c.lba;
        total, pos := |buf|, 0;
        active := c.ok && buf != [];
        h := NewCommand(disk);
      }
      if active {
        if !toDev { staged := buf[pos..]; }
        waits := true;
      } else {
        posts := posts + [NoData];
      }
    }

    /** The block loop of a write. */
    method WriteBlocks(n: nat)
      requires pos + BLOCK * n <= |buf|
      modifies `disk
      ensures disk == Stored(old(disk), lba + pos / BLOCK, buf, pos, n)
    {
      var b := 0;
      while b < n
        invariant 0 <= b <= n
        invariant disk == Stored(old(disk), lba + pos / BLOCK, buf, pos, b)
      {
        disk := disk[lba + pos / BLOCK + b := buf[pos + b * BLOCK..pos + b * BLOCK + BLOCK]];
        b := b + 1;
      }
    }

    method Completed(c: Chain)
      requires Value().Ok() && |c.data| == c.bytes
      modifies this
      ensures Value() == ChainDone(old(Value()), c)
    {
      hide Stored, Carries;
      if !waits { return; }
      ghost var carried := Carries(Value(), c);
      waits := false;
      var moved := c.bytes;
      if moved > total - pos { moved := total - pos; }
      if toDev {
        buf := buf[..pos] + c.data[..moved] + buf[pos + moved..];
        WriteBlocks(moved / BLOCK);
      }
      h := Hist(h.ranges + [(pos, pos + moved)], h.carried + carried,
                h.written + (if toDev then moved / BLOCK else 0), h.before);
      pos := pos + moved;
      if pos < total {
        posts := posts + [Pause];
      } else {
        posts := posts + [Complete];
        active := false;
      }
    }
  }

  // ---- conservation ----

  /** The ranges lie end to end from 0 to the position. */
  ghost predicate Tiles(r: seq<(nat, nat)>, pos: nat)
  {
    && (if r == [] then pos == 0 else r[0].0 == 0 && r[|r| - 1].1 == pos)
    && (forall i :: 0 <= i < |r| ==> r[i].0 <= r[i].1)
    && (forall i, j :: 0 <= i && j == i + 1 && j < |r| ==> r[i].1 == r[j].0)
  }

  /** Every chain moved whole blocks. */
  ghost predicate WholeBlocks(r: seq<(nat, nat)>) { forall i :: 0 <= i < |r| ==> (r[i].1 - r[i].0) % BLOCK == 0 }

  /** The first n bytes of a buffer are on the disk from a block on. */
  ghost predicate OnDisk(disk: map<nat, seq<Byte>>, lba: nat, buf: seq<Byte>, n: nat)
    requires n <= |buf|
  {
    forall b :: 0 <= b && BLOCK * (b + 1) <= n ==> BlockOnDisk(disk, lba, buf, b)
  }

  ghost predicate BlockOnDisk(disk: map<nat, seq<Byte>>, lba: nat, buf: seq<Byte>, b: nat)
    requires BLOCK * (b + 1) <= |buf|
  {
    lba + b in disk && disk[lba + b] == buf[BLOCK * b..BLOCK * (b + 1)]
  }

  /** The posts of the current command: a PAUSE for every chain but the one that finished it. */
  ghost predicate PostsRight(s: State)
  {
    var k := |s.h.ranges|;
    && k <= |s.posts|
    && (forall i :: 0 <= i < k ==> s.posts[|s.posts| - k + i] == if s.h.ranges[i].1 < s.total then Pause else Complete)
  }

  /** The chains so far cover the buffer up to the position, which only the last may bring to the end. */
  ghost predicate Progress(s: State)
    requires s.Ok()
  {
    && Tiles(s.h.ranges, s.pos) && (s.waits ==> s.active) && (s.active ==> s.pos < s.total)
    && (!s.active && s.h.ranges != [] ==> s.pos == s.total)
    && (forall i :: 0 <= i < |s.h.ranges| - 1 ==> s.h.ranges[i].1 < s.total)
  }

  /** For a write: the buffer is what was gathered, and it is on the disk if all chains moved whole
      blocks. */
  ghost predicate WriteRight(s: State)
    requires s.Ok()
  {
    s.toDev ==>
      && s.h.carried == s.buf[..s.pos]
      && (WholeBlocks(s.h.ranges) ==> s.pos % BLOCK == 0 && OnDisk(s.disk, s.lba, s.buf, s.pos))
  }

  /** Block b is as it was before: absent, or with the same bytes. */
  ghost predicate Same(disk: map<nat, seq<Byte>>, before: map<nat, seq<Byte>>, b: nat)
  {
    (b in disk <==> b in before) && (b in disk && b in before ==> disk[b] == before[b])
  }

  ghost function Changed(disk: map<nat, seq<Byte>>, before: map<nat, seq<Byte>>): set<nat>
  {
    set b | b in disk.Keys + before.Keys && !Same(disk, before, b)
  }

  /** For a write: as many blocks were written as the bytes moved make only if all chains moved
      whole blocks, and no more are new on the disk. */
  ghost predicate FewWritten(s: State)
    requires s.Ok()
  {
    s.toDev ==>
      && BLOCK * s.h.written <= s.pos && (BLOCK * s.h.written == s.pos <==> WholeBlocks(s.h.ranges))
      && |Changed(s.disk, s.h.before)| <= s.h.written
  }

  ghost predicate Inv(s: State)
    requires s.Ok()
  {
    Progress(s) && PostsRight(s) && WriteRight(s) && FewWritten(s)
  }

  lemma BellKeeps(s: State, c: Command)
    requires s.Ok() && Inv(s)
    ensures Inv(Doorbell(s, c))
  {
  }

  lemma {:induction false} StoredAt(disk: map<nat, seq<Byte>>, first: nat, buf: seq<Byte>, pos: nat, n: nat, b: nat)
    requires pos + BLOCK * n <= |buf|
    ensures var d := Stored(disk, first, buf, pos, n);
            && (b < first || first + n <= b ==> (b in d <==> b in disk) && (b in d ==> d[b] == disk[b]))
            && (first <= b < first + n ==>
                  b in d && d[b] == buf[pos + BLOCK * (b - first)..pos + BLOCK * (b - first + 1)])
  {
    if n > 0 { StoredAt(disk, first, buf, pos, n - 1, b); }
  }

  lemma RangesMore(s: State, n: nat)
    requires s.Ok() && Tiles(s.h.ranges, s.pos)
    ensures Tiles(s.h.ranges + [(s.pos, s.pos + n)], s.pos + n)
    ensures WholeBlocks(s.h.ranges + [(s.pos, s.pos + n)]) <==> WholeBlocks(s.h.ranges) && n % BLOCK == 0
  {
    var r, r' := s.h.ranges, s.h.ranges + [(s.pos, s.pos + n)];
    if WholeBlocks(r') {
      forall i | 0 <= i < |r| ensures (r[i].1 - r[i].0) % BLOCK == 0 { assert r'[i] == r[i]; }
      assert r'[|r|] == (s.pos, s.pos + n);
    }
  }

  /** Whole blocks after whole blocks. */
  lemma DiskMore(s: State, c: Chain)
    requires s.Ok() && |c.data| == c.bytes && s.toDev && s.waits
    requires s.pos % BLOCK == 0 && OnDisk(s.disk, s.lba, s.buf, s.pos) && Moved(s, c) % BLOCK == 0
    ensures var s' := ChainDone(s, c); s'.pos % BLOCK == 0 && OnDisk(s'.disk, s'.lba, s'.buf, s'.pos)
  {
    var s', n := ChainDone(s, c), Moved(s, c);
    var buf := BufAfter(s, c);
    forall b | 0 <= b && BLOCK * (b + 1) <= s'.pos
      ensures BlockOnDisk(s'.disk, s'.lba, s'.buf, b)
    {
      StoredAt(s.disk, s.lba + s.pos / BLOCK, buf, s.pos, n / BLOCK, s.lba + b);
      if BLOCK * (b + 1) <= s.pos {
        assert BlockOnDisk(s.disk, s.lba, s.buf, b);
        assert buf[BLOCK * b..BLOCK * (b + 1)] == s.buf[BLOCK * b..BLOCK * (b + 1)];
      }
    }
  }

  lemma ChainWrites(s: State, c: Chain)
    requires s.Ok() && Inv(s) && |c.data| == c.bytes && s.waits
    ensures WriteRight(ChainDone(s, c))
  {
    hide WholeBlocks, OnDisk, Stored, Tiles;
    var n := Moved(s, c);
    RangesMore(s, n);
    if s.toDev {
      if WholeBlocks(s.h.ranges) && n % BLOCK == 0 { DiskMore(s, c); }
      assert BufAfter(s, c)[..s.pos + n] == s.buf[..s.pos] + c.data[..n];
    }
  }

  lemma ChainCounts(s: State, c: Chain)
    requires s.Ok() && Progress(s) && FewWritten(s) && |c.data| == c.bytes && s.waits
    ensures FewWritten(ChainDone(s, c))
  {
    hide Changed, Stored;
    var n, buf := Moved(s, c), BufAfter(s, c);
    RangesMore(s, n);
    if s.toDev {
      CountMore(s.h.written, s.pos, n);
      StoredChanges(s.disk, s.lba + s.pos / BLOCK, buf, s.pos, n / BLOCK, s.h.before);
    }
    hide WholeBlocks, Stored, Tiles, BufAfter, Progress, Moved, Changed, ChainDone;
    if s.toDev { DoneIs(s, c); }
  }

  /** Whole blocks of one more chain. */
  lemma CountMore(written: nat, pos: nat, n: nat)
    requires BLOCK * written <= pos
    ensures BLOCK * (written + n / BLOCK) <= pos + n
    ensures BLOCK * (written + n / BLOCK) == pos + n <==> BLOCK * written == pos && n % BLOCK == 0
  {
  }

  lemma DoneIs(s: State, c: Chain)
    requires s.Ok() && |c.data| == c.bytes && s.waits && s.toDev
    ensures var s', n := ChainDone(s, c), Moved(s, c);
            && s'.toDev && s'.pos == s.pos + n && s'.h.ranges == s.h.ranges + [(s.pos, s.pos + n)]
            && s'.h.before == s.h.before
            && s'.h.written == s.h.written + n / BLOCK
            && s'.disk == Stored(s.disk, s.lba + s.pos / BLOCK, BufAfter(s, c), s.pos, n / BLOCK)
  {
    hide Stored, BufAfter;
  }

  lemma ChainProgresses(s: State, c: Chain)
    requires s.Ok() && Progress(s) && |c.data| == c.bytes && s.waits
    ensures Progress(ChainDone(s, c))
  {
    hide BufAfter, Stored, WholeBlocks;
    RangesMore(s, Moved(s, c));
  }

  lemma ChainPosts(s: State, c: Chain)
    requires s.Ok() && PostsRight(s) && |c.data| == c.bytes && s.waits
    ensures PostsRight(ChainDone(s, c))
  {
    hide BufAfter, Stored;
  }

  lemma ChainKeeps(s: State, c: Chain)
    requires s.Ok() && Inv(s) && |c.data| == c.bytes
    ensures Inv(ChainDone(s, c))
  {
    if s.waits {
      hide WriteRight, PostsRight, Progress, FewWritten, ChainDone;
      ChainCounts(s, c);
      ChainProgresses(s, c);
      ChainPosts(s, c);
      ChainWrites(s, c);
    }
  }

  lemma {:induction false} RunKeeps(disk: map<nat, seq<Byte>>, vs: seq<Event>)
    requires forall i :: 0 <= i < |vs| ==> Proper(vs[i])
    ensures Inv(Run(disk, vs))
  {
    if vs != [] {
      hide Inv;
      var v := vs[|vs| - 1];
      RunKeeps(disk, vs[..|vs| - 1]);
      assert Proper(v);
      match v {
        case Bell(c) => BellKeeps(Run(disk, vs[..|vs| - 1]), c);
        case Done(c) => ChainKeeps(Run(disk, vs[..|vs| - 1]), c);
      }
    }
  }

  // ---- results ----

  /** In every session, for the command in hand: the ranges its chains moved are consecutive from 0
      and reach the end of the buffer exactly when it is over; every chain before was answered with
      PAUSE, and only the one that reached the end with COMPLETE. */
  lemma TransfersConserved(disk: map<nat, seq<Byte>>, vs: seq<Event>)
    requires forall i :: 0 <= i < |vs| ==> Proper(vs[i])
    ensures var s := Run(disk, vs);
            var r, k := s.h.ranges, |s.h.ranges|;
            && Tiles(r, s.pos) && s.pos <= s.total && (r != [] ==> (s.active <==> s.pos < s.total))
            && k <= |s.posts| && s.posts[|s.posts| - k..] == Answers(k, s.pos == s.total)
  {
    hide Run, WriteRight;
    RunKeeps(disk, vs);
    var s := Run(disk, vs);
    var r, k := s.h.ranges, |s.h.ranges|;
    var p, a := s.posts[|s.posts| - k..], Answers(k, s.pos == s.total);
    forall i | 0 <= i < k
      ensures p[i] == a[i]
    {
      assert p[i] == if r[i].1 < s.total then Pause else Complete;
    }
  }

  /** k completions, the last of them COMPLETE if the transfer is over. */
  function Answers(k: nat, over: bool): (a: seq<Post>)
    ensures |a| == k
  {
    seq(k, i requires 0 <= i < k => if i == k - 1 && over then Complete else Pause)
  }

  /** A finished write whose chains all moved whole blocks leaves its gathered bytes on the disk,
      block by block from its first. */
  lemma WritesReachDisk(disk: map<nat, seq<Byte>>, vs: seq<Event>)
    requires forall i :: 0 <= i < |vs| ==> Proper(vs[i])
    requires var s := Run(disk, vs); s.toDev && s.pos == s.total && WholeBlocks(s.h.ranges)
    ensures var s := Run(disk, vs);
            |s.h.carried| == s.total && OnDisk(s.disk, s.lba, s.h.carried, s.total)
  {
    hide Run, WholeBlocks, Tiles, PostsRight;
    RunKeeps(disk, vs);
    var s := Run(disk, vs);
    assert s.buf[..s.pos] == s.buf;
  }

  // ---- exactly when a write reaches the disk ----

  /** Storing n blocks changes at most n. */
  lemma {:induction false} StoredChanges(disk: map<nat, seq<Byte>>, first: nat, buf: seq<Byte>, pos: nat, n: nat,
                                          before: map<nat, seq<Byte>>)
    requires pos + BLOCK * n <= |buf|
    ensures |Changed(Stored(disk, first, buf, pos, n), before)| <= |Changed(disk, before)| + n
  {
    hide Stored, Changed;
    if n == 0 {
      StoredNone(disk, first, buf, pos);
    } else {
      StoredChanges(disk, first, buf, pos, n - 1, before);
      StoredLast(disk, first, buf, pos, n);
      OneKey(Stored(disk, first, buf, pos, n - 1), first + n - 1, buf[pos + BLOCK * (n - 1)..pos + BLOCK * n], before);
    }
  }

  lemma StoredNone(disk: map<nat, seq<Byte>>, first: nat, buf: seq<Byte>, pos: nat)
    requires pos <= |buf|
    ensures Stored(disk, first, buf, pos, 0) == disk
  {
  }

  lemma StoredLast(disk: map<nat, seq<Byte>>, first: nat, buf: seq<Byte>, pos: nat, n: nat)
    requires n > 0 && pos + BLOCK * n <= |buf|
    ensures Stored(disk, first, buf, pos, n)
            == Stored(disk, first, buf, pos, n - 1)[first + n - 1 := buf[pos + BLOCK * (n - 1)..pos + BLOCK * n]]
  {
  }

  lemma OneKey(d: map<nat, seq<Byte>>, b: nat, v: seq<Byte>, before: map<nat, seq<Byte>>)
    ensures |Changed(d[b := v], before)| <= |Changed(d, before)| + 1
  {
    var was := Changed(d, before);
    forall x | x in Changed(d[b := v], before)
      ensures x in was + {b}
    {
      if x != b { assert !Same(d, before, x); }
    }
    FewerKeys(Changed(d[b := v], before), was + {b});
  }

  lemma {:induction false} FewerKeys(a: set<nat>, b: set<nat>)
    requires a <= b
    ensures |a| <= |b|
  {
    if a != {} {
      var x :| x in a;
      FewerKeys(a - {x}, b - {x});
    }
  }

  /** The blocks of a transfer. */
  function Blocks(lba: nat, n: nat): (s: set<nat>)
    ensures |s| == n && forall b :: b in s <==> lba <= b < lba + n
  {
    if n == 0 then {} else Blocks(lba, n - 1) + {lba + n - 1}
  }

  /** A finished write of a multiple of 512 bytes in chains that are not all whole blocks: some
      block of its range is as it was before the command, whatever was there. */
  lemma SomeBlockKept(disk: map<nat, seq<Byte>>, vs: seq<Event>) returns (b: nat)
    requires forall i :: 0 <= i < |vs| ==> Proper(vs[i])
    requires var s := Run(disk, vs);
             s.toDev && s.pos == s.total && s.total % BLOCK == 0 && !WholeBlocks(s.h.ranges)
    ensures var s := Run(disk, vs);
            s.lba <= b < s.lba + s.total / BLOCK && Same(s.disk, s.h.before, b)
  {
    hide Run, WholeBlocks, Tiles, PostsRight, WriteRight, Changed;
    RunKeeps(disk, vs);
    var s := Run(disk, vs);
    b := LeftAlone(s.disk, s.h.before, s.lba, s.total / BLOCK);
  }

  /** Fewer changes than blocks leave one alone. */
  lemma LeftAlone(disk: map<nat, seq<Byte>>, before: map<nat, seq<Byte>>, lba: nat, n: nat) returns (b: nat)
    requires |Changed(disk, before)| < n
    ensures lba <= b < lba + n && Same(disk, before, b)
  {
    var mine := Blocks(lba, n);
    if mine <= Changed(disk, before) {
      FewerKeys(mine, Changed(disk, before));
      b := lba;
    } else {
      b :| b in mine && b !in Changed(disk, before);
    }
  }

  /** Block b of the range holds what the write brings, already before the command. */
  predicate HadIt(before: map<nat, seq<Byte>>, lba: nat, buf: seq<Byte>, b: nat)
  {
    BLOCK * (b + 1) <= |buf| && lba + b in before && before[lba + b] == buf[BLOCK * b..BLOCK * (b + 1)]
  }

  lemma GatheredAll(disk: map<nat, seq<Byte>>, vs: seq<Event>)
    requires forall i :: 0 <= i < |vs| ==> Proper(vs[i])
    requires var s := Run(disk, vs); s.toDev && s.pos == s.total
    ensures var s := Run(disk, vs); |s.h.carried| == s.total
  {
    hide Run, PostsRight, FewWritten;
    RunKeeps(disk, vs);
  }

  /** A finished write of a multiple of 512 bytes, none of its blocks already in place: its bytes are
      on the disk, each block in its place, if and only if every chain moved whole blocks. */
  lemma ReachesDiskIff(disk: map<nat, seq<Byte>>, vs: seq<Event>)
    requires forall i :: 0 <= i < |vs| ==> Proper(vs[i])
    requires var s := Run(disk, vs);
             && s.toDev && s.pos == s.total && s.total % BLOCK == 0
             && forall b :: 0 <= b < s.total / BLOCK ==> !HadIt(s.h.before, s.lba, s.h.carried, b)
    ensures var s := Run(disk, vs);
            && |s.h.carried| == s.total
            && (OnDisk(s.disk, s.lba, s.h.carried, s.total) <==> WholeBlocks(s.h.ranges))
  {
    hide Run, WholeBlocks, OnDisk, HadIt, Same;
    GatheredAll(disk, vs);
    if WholeBlocks(Run(disk, vs).h.ranges) {
      WritesReachDisk(disk, vs);
    } else {
      var b := SomeBlockKept(disk, vs);
      var s := Run(disk, vs);
      NotThere(s.disk, s.h.before, s.lba, s.h.carried, s.total, b);
    }
  }

  /** A block that was not in place and is as it was is not on the disk. */
  lemma NotThere(disk: map<nat, seq<Byte>>, before: map<nat, seq<Byte>>, lba: nat, buf: seq<Byte>, n: nat, b: nat)
    requires n == |buf| && n % BLOCK == 0 && lba <= b < lba + n / BLOCK
    requires Same(disk, before, b) && !HadIt(before, lba, buf, b - lba)
    ensures !OnDisk(disk, lba, buf, n)
  {
    var k := b - lba;
    assert 0 <= k && BLOCK * (k + 1) <= n;
    assert !BlockOnDisk(disk, lba, buf, k);
  }

  // ---- a write that does not ----

  /** n bytes of one value. */
  function Bytes(n: nat, v: Byte): (b: seq<Byte>)
    ensures |b| == n && forall i :: 0 <= i < n ==> b[i] == v
  {
    seq(n, i => v)
  }

  /** A 1024-byte write to block 0 in chains of 100 and 924 bytes, the guest resuming in between. */
  function UnalignedWrite(data: seq<Byte>): (vs: seq<Event>)
    requires |data| == 1024
    ensures forall i :: 0 <= i < |vs| ==> Proper(vs[i])
  {
    [Bell(Command(true, Bytes(1024, 0), true, 0)), Done(Chain(100, data[..100])),
     Bell(Command(true, [], true, 0)), Done(Chain(924, data[100..]))]
  }

  /** It is answered COMPLETE, with bytes 100 .. 611 in block 0 and nothing in block 1. */
  lemma UnalignedWriteMisplaces(data: seq<Byte>)
    requires |data| == 1024
    ensures var s := Run(map[], UnalignedWrite(data));
            && s.posts == [Pause, Complete] && s.pos == s.total == 1024 && s.h.carried == data
            && s.disk == map[0 := data[100..612]]
  {
    var vs := UnalignedWrite(data);
    var s0 := Init(map[]);
    var s1, s2 := Step(s0, vs[0]), Step(Step(s0, vs[0]), vs[1]);
    var s3 := Step(s2, vs[2]);
    assert s1 == State(Bytes(1024, 0), true, 0, 0, 1024, true, true, [], map[], [], NewCommand(map[]));
    FirstChain(s1, data);
    SecondChain(s3, data);
    RunFour(map[], vs);
  }

  lemma RunFour(disk: map<nat, seq<Byte>>, vs: seq<Event>)
    requires |vs| == 4 && forall i :: 0 <= i < |vs| ==> Proper(vs[i])
    ensures Run(disk, vs) == Step(Step(Step(Step(Init(disk), vs[0]), vs[1]), vs[2]), vs[3])
  {
    hide Step, Init;
    var a, b, c := vs[..3], vs[..2], vs[..1];
    assert a[..2] == b && b[..1] == c && c[..0] == [];
    assert Run(disk, c) == Step(Run(disk, []), vs[0]);
    assert Run(disk, b) == Step(Run(disk, c), vs[1]);
    assert Run(disk, a) == Step(Run(disk, b), vs[2]);
  }

  lemma FirstChain(s: State, data: seq<Byte>)
    requires |data| == 1024
    requires s == State(Bytes(1024, 0), true, 0, 0, 1024, true, true, [], map[], [], NewCommand(map[]))
    ensures ChainDone(s, Chain(100, data[..100]))
            == State(data[..100] + Bytes(924, 0), true, 0, 100, 1024, true, false, [], map[], [Pause],
              Hist([(0, 100)], data[..100], 0, map[]))
  {
    var c := Chain(100, data[..100]);
    assert Stored(map[], 0, BufAfter(s, c), 0, 0) == map[];
    assert c.data[..100] == data[..100];
    assert BufAfter(s, c) == data[..100] + Bytes(924, 0);
    assert [] + [(0, 100)] == [(0, 100)] && [] + data[..100] == data[..100] && [] + [Pause] == [Pause];
  }

  lemma SecondChain(s: State, data: seq<Byte>)
    requires |data| == 1024
    requires s == State(data[..100] + Bytes(924, 0), true, 0, 100, 1024, true, true, [], map[], [Pause],
             Hist([(0, 100)], data[..100], 0, map[]))
    ensures var s' := ChainDone(s, Chain(924, data[100..]));
            && s'.posts == [Pause, Complete] && s'.pos == s'.total == 1024 && s'.h.carried == data
            && s'.disk == map[0 := data[100..612]]
  {
    var c := Chain(924, data[100..]);
    assert c.data[..924] == data[100..];
    var buf := BufAfter(s, c);
    assert buf == data[..100] + data[100..] + [] == data;
    assert data[..100] + data[100..] == data;
    assert Stored(map[], 0, buf, 100, 0) == map[];
    assert Stored(map[], 0, buf, 100, 1) == map[0 := buf[100..612]];
  }
}
