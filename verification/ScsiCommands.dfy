/**
 A SCSI command from the doorbell that begins it to its COMPLETE, told from the doorbells and chains
 alone: a doorbell in between resumes it whatever its direction and whatever it decodes to.
 */
module ScsiCommands {
  import opened Prelude
  import opened Scsi

  /** After a command's first doorbell: a chain is awaited exactly when the last event was a doorbell. */
  predicate Awaited(more: seq<Event>) { more == [] || more[|more| - 1].Bell? }

  function Cut(b: seq<Byte>, n: nat): (r: seq<Byte>)
    ensures |r| <= n
  {
    if |b| <= n then b else b[..n]
  }

  /** The bytes that the chains after a command's first doorbell bring, each awaited, up to its total. */
  function Brought(more: seq<Event>, total: nat): (b: seq<Byte>)
    ensures |b| <= total
  {
    if more == [] then []
    else
      var before, v := more[..|more| - 1], more[|more| - 1];
      var b := Brought(before, total);
      if v.Done? && Awaited(before) then b + Cut(v.chain.data, total - |b|) else b
  }

  /** The command is not over before the last of these events. */
  predicate Lasts(more: seq<Event>, total: nat)
  {
    more != [] ==> |Brought(more[..|more| - 1], total)| < total
  }

  /** Where a command stands after more events since its first doorbell; disk and posts are from before. */
  ghost predicate Stands(s: State, c: Command, more: seq<Event>, disk: map<nat, seq<Byte>>, posts: seq<Post>)
    requires s.Ok()
  {
    var b := Brought(more, |c.buf|);
    && s.toDev == c.toDev && s.lba == c.lba && s.total == |c.buf| && s.pos == |b|
    && s.active == (s.pos < s.total) && s.waits == (s.active && Awaited(more))
    && Tiles(s.h.ranges, s.pos) && s.h.before == disk
    && s.posts == posts + Answers(|s.h.ranges|, s.pos == s.total)
    && (c.toDev ==> s.h.carried == b && s.buf == b + c.buf[s.pos..])
    && (!c.toDev ==> s.h.carried == c.buf[..s.pos] && s.buf == c.buf && s.disk == disk)
    && (!c.toDev && s.waits ==> s.staged == c.buf[s.pos..])
    && (forall b: nat :: b < c.lba || c.lba + s.total / BLOCK <= b ==> Same(s.disk, disk, b))
  }

  /** A doorbell with bytes left, in either direction, changes nothing but that a chain is awaited, for
      which a read has the rest staged. */
  lemma BellResumes(s: State, c: Command)
    requires s.Ok() && s.active && s.pos < s.total
    ensures var s' := Step(s, Bell(c));
            && s'.buf == s.buf && s'.toDev == s.toDev && s'.lba == s.lba && s'.pos == s.pos && s'.total == s.total
            && s'.active && s'.disk == s.disk && s'.posts == s.posts && s'.h == s.h
            && s'.waits && (!s.toDev ==> s'.staged == s.buf[s.pos..])
  {
  }

  /** Any other doorbell begins its own command at 0, awaiting a chain if there are bytes to move and
      answered at once if not. */
  lemma BellBegins(s: State, c: Command)
    requires s.Ok() && Inv(s) && !s.active
    ensures var s' := Step(s, Bell(c));
            && s'.buf == c.buf && s'.toDev == c.toDev && s'.lba == c.lba && s'.pos == 0 && s'.total == |c.buf|
            && s'.disk == s.disk && s'.h == Hist([], [], 0, s.disk)
            && (s'.active <==> c.ok && c.buf != []) && s'.waits == s'.active
            && s'.posts == (if s'.active then s.posts else s.posts + [NoData])
            && (s'.active && !c.toDev ==> s'.staged == c.buf)
  {
  }

  lemma StandsFirst(s: State, c: Command)
    requires s.Ok() && Inv(s) && !s.active && c.ok && c.buf != []
    ensures Stands(Step(s, Bell(c)), c, [], s.disk, s.posts)
  {
    BellBegins(s, c);
    hide Step;
    var s' := Step(s, Bell(c));
    assert c.buf[s'.pos..] == c.buf && [] + c.buf[0..] == c.buf;
    assert s.posts + Answers(0, false) == s.posts;
  }

  lemma StandsBell(s: State, c: Command, more: seq<Event>, v: Event, disk: map<nat, seq<Byte>>, posts: seq<Post>)
    requires s.Ok() && Stands(s, c, more, disk, posts) && s.pos < s.total && v.Bell?
    ensures Stands(Step(s, v), c, more + [v], disk, posts)
  {
    BellResumes(s, v.cmd);
    assert (more + [v])[..|more|] == more;
  }

  lemma AnswersMore(k: nat, over: bool)
    ensures Answers(k, false) + [if over then Complete else Pause] == Answers(k + 1, over)
  {
  }

  lemma BroughtMore(more: seq<Event>, v: Event, total: nat)
    requires v.Done?
    ensures var b := Brought(more, total);
            Brought(more + [v], total) == if Awaited(more) then b + Cut(v.chain.data, total - |b|) else b
  {
    assert (more + [v])[..|more|] == more;
  }

  lemma ChainMoves(s: State, c: Chain)
    requires s.Ok() && |c.data| == c.bytes && s.waits
    ensures var s', n := ChainDone(s, c), Moved(s, c);
            && s'.toDev == s.toDev && s'.lba == s.lba && s'.total == s.total && s'.pos == s.pos + n
            && s'.active == (s.active && s.pos + n < s.total) && !s'.waits
            && s'.posts == s.posts + [if s.pos + n == s.total then Complete else Pause]
            && s'.h.ranges == s.h.ranges + [(s.pos, s.pos + n)] && s'.h.before == s.h.before
            && n == |Cut(c.data, s.total - s.pos)|
            && s'.h.carried == s.h.carried + Carries(s, c) && s'.buf == BufAfter(s, c)
            && (!s.toDev ==> s'.buf == s.buf && s'.disk == s.disk)
  {
    hide Stored, Carries, Overwritten;
  }

  /** A chain touches no block outside the command's range. */
  lemma OutsideKept(s: State, c: Chain, disk: map<nat, seq<Byte>>)
    requires s.Ok() && |c.data| == c.bytes && s.waits
    requires forall b: nat :: b < s.lba || s.lba + s.total / BLOCK <= b ==> Same(s.disk, disk, b)
    ensures forall b: nat :: b < s.lba || s.lba + s.total / BLOCK <= b ==> Same(ChainDone(s, c).disk, disk, b)
  {
    hide Stored;
    if s.toDev {
      var n, buf := Moved(s, c), BufAfter(s, c);
      forall b: nat | b < s.lba || s.lba + s.total / BLOCK <= b
        ensures Same(ChainDone(s, c).disk, disk, b)
      {
        assert Same(s.disk, disk, b);
        StoredAt(s.disk, s.lba + s.pos / BLOCK, buf, s.pos, n / BLOCK, b);
      }
    }
  }

  lemma WriteTakes(s: State, c: Chain, room: seq<Byte>, b: seq<Byte>)
    requires s.Ok() && |c.data| == c.bytes && s.toDev && s.pos == |b| && s.total == |room|
    requires s.buf == b + room[s.pos..]
    ensures var d := Cut(c.data, s.total - s.pos);
            Carries(s, c) == d && BufAfter(s, c) == (b + d) + room[s.pos + |d|..]
  {
  }

  lemma ReadTakes(s: State, c: Chain, room: seq<Byte>)
    requires s.Ok() && |c.data| == c.bytes && !s.toDev && s.total == |room| && s.staged == room[s.pos..]
    ensures room[..s.pos] + Carries(s, c) == room[..s.pos + Moved(s, c)]
  {
  }

  lemma StandsDone(s: State, c: Command, more: seq<Event>, v: Event, disk: map<nat, seq<Byte>>, posts: seq<Post>)
    requires s.Ok() && Stands(s, c, more, disk, posts) && s.pos < s.total && v.Done? && Proper(v)
    ensures Stands(Step(s, v), c, more + [v], disk, posts)
  {
    hide Stored, Tiles, Same, Answers, Brought;
    BroughtMore(more, v, |c.buf|);
    if s.waits {
      var n := Moved(s, v.chain);
      ChainMoves(s, v.chain);
      RangesMore(s, n);
      AnswersMore(|s.h.ranges|, s.pos + n == s.total);
      OutsideKept(s, v.chain, disk);
      if c.toDev { WriteTakes(s, v.chain, c.buf, Brought(more, |c.buf|)); } else { ReadTakes(s, v.chain, c.buf); }
      hide ChainDone, Moved, BufAfter, Overwritten, Carries;
    }
  }

  lemma NextStands(s: State, c: Command, more: seq<Event>, v: Event, disk: map<nat, seq<Byte>>, posts: seq<Post>)
    requires s.Ok() && Stands(s, c, more, disk, posts) && |Brought(more, |c.buf|)| < |c.buf| && Proper(v)
    ensures Stands(Step(s, v), c, more + [v], disk, posts)
  {
    hide Step;
    if v.Bell? { StandsBell(s, c, more, v, disk, posts); } else { StandsDone(s, c, more, v, disk, posts); }
  }

  lemma RunSnoc(disk: map<nat, seq<Byte>>, vs: seq<Event>, v: Event)
    requires Proper(v) && forall i :: 0 <= i < |vs| ==> Proper(vs[i])
    ensures Run(disk, vs + [v]) == Step(Run(disk, vs), v)
  {
    hide Step;
    assert (vs + [v])[..|vs|] == vs;
  }

  /** The bytes brought only grow. */
  lemma ShorterLasts(more: seq<Event>, total: nat)
    requires more != [] && Lasts(more, total)
    ensures Lasts(more[..|more| - 1], total)
  {
  }

  /** In every session a command that finds none under way keeps its direction, place, total and, for a
      read, its buffer through every doorbell until its COMPLETE. Its position is the number of bytes
      the chains brought; every chain but the last is answered PAUSE, the one that reaches the total
      COMPLETE. A read has delivered the front of its buffer and left the disk alone; a write has
      gathered what the chains brought and touched no block outside its range. */
  lemma {:induction false} CommandRuns(disk: map<nat, seq<Byte>>, vs: seq<Event>, c: Command, more: seq<Event>)
    requires forall i :: 0 <= i < |vs| ==> Proper(vs[i])
    requires forall i :: 0 <= i < |more| ==> Proper(more[i])
    requires !Run(disk, vs).active && c.ok && c.buf != [] && Lasts(more, |c.buf|)
    ensures var s := Run(disk, vs);
            Stands(Run(disk, vs + [Bell(c)] + more), c, more, s.disk, s.posts)
    decreases |more|
  {
    hide Stands, Inv, Step, Run, Brought;
    var all, s := vs + [Bell(c)], Run(disk, vs);
    if more == [] {
      RunKeeps(disk, vs);
      assert all + more == all;
      RunSnoc(disk, vs, Bell(c));
      StandsFirst(s, c);
    } else {
      var before, v := more[..|more| - 1], more[|more| - 1];
      assert (all + before) + [v] == all + more && before + [v] == more;
      ShorterLasts(more, |c.buf|);
      CommandRuns(disk, vs, c, before);
      RunSnoc(disk, all + before, v);
      NextStands(Run(disk, all + before), c, before, v, s.disk, s.posts);
    }
  }
}
