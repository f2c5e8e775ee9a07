/** What may happen between the agent's steps, and how recovery, an applied batch's end and the number
of the next event stand it. */
module LaneOutside {
  import opened Maps
  import opened SpoolEvents
  import opened MainStore
  import opened Compaction
  import opened ReadBack
  import opened LaneNames
  import opened SpoolWorld
  import opened SpoolSafety
  import opened SpoolOrder

  // ---------------------------------------------------------------- what goes on outside the agent

  /** From w to w' only files were spooled, under rising clocks or any, requests arrived, and chunks staged for
      a committed compaction were lost. */
  ghost predicate Outside(rising: bool, w: World, w': World) {
    var d, d' := w.disk, w'.disk;
    && d' == d.(lane := d'.lane, staging := d'.staging) && StagingShrinks(w, w')
    && w'.sent == w.sent && w'.swap == w.swap && w'.fits == w.fits
    && w.top <= w'.top && w.used <= w'.used && w.log <= w'.log
    && (forall x | x in d.lane :: x in d'.lane && d'.lane[x] == d.lane[x])
    && (forall x | x in d'.lane && x !in d.lane :: Came(rising, w, x))
    && (d.inflight.None? || Applied(w, d.inflight.v) ==> w'.log == w.log)
  }

  /** Staged chunks were lost, once one was committed, or none was. */
  predicate StagingShrinks(w: World, w': World) {
    var s, s' := w.disk.staging, w'.disk.staging;
    && (s.Some? <==> s'.Some?) && (s.Some? ==> forall x | x in s'.v :: x in s.v && s'.v[x] == s.v[x])
    && w'.roll.seen == w.roll.seen && w.roll.lost <= w'.roll.lost && w'.roll.short == w.roll.short
    && w.roll.losses <= w'.roll.losses && (NoneLost(w, w') ==> s' == s && w'.roll == w.roll)
    && (w.disk.manifest.None? ==> NoneLost(w, w'))
  }

  predicate NoneLost(w: World, w': World) {
    w'.roll.losses == w.roll.losses
  }

  /** A file spooled after w. */
  predicate Came(rising: bool, w: World, x: Name) {
    x.gen == 0 && Unused(w, x) && (rising ==> x.clock > w.top)
  }

  lemma {:induction false} OutsideTwice(rising: bool, a: World, b: World, c: World)
    requires Outside(rising, a, b) && Outside(rising, b, c)
    ensures Outside(rising, a, c)
  {
  }

  lemma {:induction false} OutsideStep(rising: bool, w: World, a: Action)
    requires Inv(w) && Enabled(w, a) && (a.Arrive? || a.Deliver? || a.LoseChunk?) && (rising ==> InOrder(w, a))
    ensures Outside(rising, w, Do(w, a))
  {
    if a.Deliver? {
      InflightKeptDeliver(w, a.req);
    }
  }

  lemma {:induction false} RunGrows(ws: seq<World>, w: World, a: Action)
    requires Run(ws) && ws[|ws| - 1] == w && Enabled(w, a)
    ensures Run(ws + [Do(w, a)])
  {
    var vs := ws + [Do(w, a)];
    assert Took(w, a, Do(w, a));
    forall i | 0 <= i < |vs| - 1 ensures StepAt(vs, i) {
      if i < |ws| - 1 {
        assert StepAt(ws, i);
      }
    }
  }

  lemma {:induction false} OrderedGrows(ws: seq<World>, w: World, a: Action)
    requires OrderedRun(ws) && ws[|ws| - 1] == w && Enabled(w, a) && InOrder(w, a)
    ensures OrderedRun(ws + [Do(w, a)])
  {
    var vs := ws + [Do(w, a)];
    RunGrows(ws, w, a);
    assert Took(w, a, Do(w, a));
    forall i | 0 <= i < |vs| - 1 ensures OrderedAt(vs, i) {
      if i < |ws| - 1 {
        assert OrderedAt(ws, i);
      }
    }
  }

  // ---------------------------------------------------------------- recovery seen as a whole

  function Recovered(w: World): World {
    w.(disk := Recover(w.disk), roll := Forgotten(w.roll))
  }

  lemma {:induction false} RecoveredLane(d: Disk, x: Name)
    ensures At(Recover(d).lane, x) ==
            if d.manifest.Some? && AllChunks(d, d.manifest.v) then RecoveredFile(d, d.manifest.v, x) else At(d.lane, x)
  {
    if d.manifest.Some? && AllChunks(d, d.manifest.v) {
      RecoversFiles(d, d.manifest.v);
    }
  }

  /** What is spooled while recovery runs is spooled beside what recovery makes. */
  lemma {:induction false} RecoveredOutside(rising: bool, w: World, w': World)
    requires SwapOk(w) && Outside(rising, w, w') && NoneLost(w, w')
    ensures Outside(rising, Recovered(w), Recovered(w'))
  {
    var d, d' := w.disk, w'.disk;
    SameEnd(rising, w, w');
    forall x ensures x in Recover(d).lane ==> x in Recover(d').lane && Recover(d').lane[x] == Recover(d).lane[x]
      ensures x in Recover(d').lane && x !in Recover(d).lane ==> Came(rising, Recovered(w), x)
    {
      RecoveredLane(d, x);
      RecoveredLane(d', x);
    }
  }

  lemma {:induction false} SameEnd(rising: bool, w: World, w': World)
    requires SwapOk(w) && Outside(rising, w, w') && NoneLost(w, w')
    ensures var d, d' := w.disk, w'.disk;
            && Recover(d') == Recover(d).(lane := Recover(d').lane)
            && (d.manifest.Some? ==> (AllChunks(d, d.manifest.v) <==> AllChunks(d', d.manifest.v)))
  {
    var d, d' := w.disk, w'.disk;
    if d.manifest.Some? {
      var m := d.manifest.v;
      assert forall x | x in m.staged || x in m.replaced :: x in d'.lane <==> x in d.lane;
    }
  }

  /** Nothing lost since w0, what is to be recovered is still what it was, with what came meanwhile. */
  ghost predicate OnCourse(rising: bool, w0: World, w: World) {
    && w0.roll.losses <= w.roll.losses
    && (NoneLost(w0, w) ==> w.roll.lost == {} && Outside(rising, Recovered(w0), Recovered(w)))
  }

  lemma {:induction false} RecoveryGoesOn(rising: bool, w0: World, w: World, a: Action, w': World)
    requires Inv(w) && Enabled(w, a) && Recovers(w.disk, a) && Outside(rising, Do(w, a), w')
    requires OnCourse(rising, w0, w)
    ensures OnCourse(rising, w0, w')
  {
    assert Do(w, a).roll.losses == w.roll.losses;
    if NoneLost(w0, w') {
      StepKeeps(w, a);
      RecoveryResumes(w, a);
      assert Recovered(Do(w, a)) == Recovered(w).(swap := Do(w, a).swap);
      RecoveredOutside(rising, Do(w, a), w');
      OutsideTwice(rising, Recovered(w0), Recovered(w), Recovered(w'));
    }
  }

  /** A roll forward only gets on: files gone stay gone, and chunks found or moved stay so. */
  predicate GetsOn(w: World, w': World) {
    w.disk.manifest.Some? && w'.disk.manifest == w.disk.manifest ==>
      var m := w.disk.manifest.v;
      && (forall x | x in m.replaced && x !in w.disk.lane :: x !in w'.disk.lane)
      && (forall x | x in m.replaced && x in w.disk.lane && x !in w'.disk.lane :: AllSeen(w, m))
      && (forall x | x in m.staged && !Staged(w.disk, x) :: !Staged(w'.disk, x))
  }

  lemma {:induction false} RecoveryGetsOn(rising: bool, w: World, a: Action, w': World)
    requires SwapOk(w) && Enabled(w, a) && Recovers(w.disk, a) && Outside(rising, Do(w, a), w')
    ensures GetsOn(w, w')
    ensures a.RemoveReplaced? ==> a.name !in w'.disk.lane
    ensures a.MoveChunk? ==> !Staged(w'.disk, a.name)
    ensures w'.disk.manifest == Do(w, a).disk.manifest && w'.roll.seen == Do(w, a).roll.seen
  {
    if w.disk.manifest.Some? && w'.disk.manifest == w.disk.manifest {
      var m := w.disk.manifest.v;
      forall x | x in m.replaced && (x !in w.disk.lane || a == RemoveReplaced(x)) ensures x !in w'.disk.lane {
        assert x in NameSet(m.replaced);
      }
    }
  }

  // ---------------------------------------------------------------- an applied batch's end

  function Finished(w: World, f: Inflight): World {
    w.(disk := w.disk.(lane := w.disk.lane - NameSet(f.files), inflight := None))
  }

  lemma {:induction false} FinishingGoesOn(rising: bool, w0: World, w: World, f: Inflight, a: Action, w': World)
    requires Inv(w) && w.disk.inflight == Some(f) && Applied(w, f) && Enabled(w, a)
             && (a.RemoveSent? || a.DropInflight?)
    requires Outside(rising, Do(w, a), w') && Outside(rising, w0, Finished(w, f))
    ensures Outside(rising, w0, Finished(w', f))
    ensures forall x | x in f.files && x !in w.disk.lane :: x !in w'.disk.lane
    ensures a.RemoveSent? ==> a.name !in w'.disk.lane
  {
    assert forall x | x in f.files :: x in InflightNames(w.disk);
    FinishedSame(w, f, a);
    FinishedOutside(rising, Do(w, a), w', f);
    OutsideTwice(rising, w0, Finished(w, f), Finished(w', f));
  }

  lemma {:induction false} FinishedSame(w: World, f: Inflight, a: Action)
    requires w.disk.inflight == Some(f) && Enabled(w, a) && (a.RemoveSent? || a.DropInflight?)
    ensures Finished(Do(w, a), f) == Finished(w, f)
  {
    assert forall x | x in f.files :: x in NameSet(f.files);
    assert Do(w, a).disk.lane - NameSet(f.files) == w.disk.lane - NameSet(f.files);
  }

  lemma {:induction false} FinishedOutside(rising: bool, w: World, w': World, f: Inflight)
    requires Outside(rising, w, w') && (w.disk.inflight.None? || (w.disk.inflight == Some(f) && Applied(w, f)))
    ensures Outside(rising, Finished(w, f), Finished(w', f))
  {
  }

  lemma {:induction false} AllGone(w: World, f: Inflight)
    requires w.disk.inflight.None? && forall x | x in f.files :: x !in w.disk.lane
    ensures Finished(w, f) == w
  {
    assert w.disk.lane - NameSet(f.files) == w.disk.lane;
  }

  // ---------------------------------------------------------------- the next event's number

  /** next is the number the agent takes the next event to have: the one after MAIN's log, unless a
      batch is in flight, whose first it may be (all its files there), applied or not. */
  predicate NextOk(w: World, next: nat) {
    match w.disk.inflight
    case None => next == |w.log| + 1
    case Some(f) =>
      || (next == f.first && NameSet(f.files) <= w.disk.lane.Keys)
      || (Applied(w, f) && next == f.first + f.count)
  }

  /** From w to w' the batch in flight stayed and MAIN at most applied it. */
  predicate Settled(w: World, w': World) {
    && w'.disk.inflight == w.disk.inflight
    && |w.log| <= |w'.log|
    && (w.disk.inflight.None? || Applied(w, w.disk.inflight.v) ==> w'.log == w.log)
    && forall x | x in InflightNames(w.disk) && x in w.disk.lane :: x in w'.disk.lane
  }

  lemma {:induction false} NextStays(w: World, w': World, next: nat)
    requires NextOk(w, next) && Settled(w, w')
    ensures NextOk(w', next)
  {
  }

  lemma {:induction false} OutsideSettles(rising: bool, w: World, w': World)
    requires Outside(rising, w, w')
    ensures Settled(w, w')
  {
  }

  lemma {:induction false} RecoverySettles(rising: bool, w: World, w': World)
    requires SwapOk(w) && Outside(rising, Recovered(w), w')
    ensures Settled(w, w')
  {
    forall x | x in InflightNames(w.disk) && x in w.disk.lane ensures x in w'.disk.lane {
      RecoveredLane(w.disk, x);
      if w.disk.manifest.Some? {
        assert x !in NameSet(w.disk.manifest.v.replaced);
      }
      assert At(Recover(w.disk).lane, x).Some?;
    }
  }

  /** next is the next event's number, or 0 while it is not known; cursor is what the last greeting told
      of MAIN's cursor, or -1. */
  predicate NumbersOk(w: World, next: nat, cursor: int) {
    && cursor >= -1
    && (next > 0 ==> NextOk(w, next))
    && (next == 0 && cursor >= 0 ==> NextOk(w, cursor + 1))
  }

  lemma {:induction false} NumbersStay(rising: bool, w: World, w': World, next: nat, cursor: int)
    requires NumbersOk(w, next, cursor) && Outside(rising, w, w')
    ensures NumbersOk(w', next, cursor)
  {
    OutsideSettles(rising, w, w');
    if next > 0 {
      NextStays(w, w', next);
    } else if cursor >= 0 {
      NextStays(w, w', cursor + 1);
    }
  }

  /** A greeting tells MAIN's cursor. */
  lemma {:induction false} CursorIsNext(w: World)
    requires InflightOk(w)
    ensures NextOk(w, |w.log| + 1)
  {
  }

  // ---------------------------------------------------------------- a tail being compacted

  lemma {:induction false} JoinMore(files: seq<seq<Event>>, last: seq<Event>)
    ensures Join(files + [last]) == Join(files) + last
  {
    if files == [] {
      assert [last][1..] == [];
    } else {
      assert (files + [last])[1..] == files[1..] + [last];
      JoinMore(files[1..], last);
    }
  }

  function Join(files: seq<seq<Event>>): seq<Event> {
    if files == [] then [] else files[0] + Join(files[1..])
  }

  lemma {:induction false} ContentIsJoin(files: Files, names: seq<Name>, evs: seq<seq<Event>>)
    requires |names| == |evs| && forall i | 0 <= i < |names| :: At(files, names[i]) == Some(evs[i])
    ensures Content(files, names) == Join(evs)
  {
    if names != [] {
      assert At(files, names[0]) == Some(evs[0]);
      forall i | 0 <= i < |names[1..]| ensures At(files, names[1..][i]) == Some(evs[1..][i]) {
        assert At(files, names[i + 1]) == Some(evs[i + 1]);
      }
      ContentIsJoin(files, names[1..], evs[1..]);
    }
  }

  /** The tail as it was listed and read, gen being no compaction's yet. */
  ghost predicate TailListed(rising: bool, w: World, tail: seq<Name>, files: seq<seq<Event>>, gen: nat) {
    var d := w.disk;
    && d.manifest.None? && tail != [] && Ordered(tail) && NameSet(tail) <= Behind(d) && |files| == |tail|
    && (forall i | 0 <= i < |tail| :: At(d.lane, tail[i]) == Some(files[i]))
    && gen > 0 && (forall x | x in d.lane || x in InflightNames(d) :: x.gen != gen)
    && (rising ==> OldestFirst(w, tail))
  }

  /** The tail is the oldest of the files behind the batch. */
  ghost predicate OldestFirst(w: World, tail: seq<Name>)
    requires tail != []
  {
    && tail <= Listing(Behind(w.disk)) && tail[0].clock <= w.top
    && forall y | y in Behind(w.disk) && y !in tail :: tail[0].clock < y.clock
  }

  lemma {:induction false} TailStays(
      rising: bool, w: World, w': World, tail: seq<Name>, files: seq<seq<Event>>, gen: nat)
    requires TailListed(rising, w, tail, files, gen) && Outside(rising, w, w') && (rising ==> OrderOk(w))
    ensures TailListed(rising, w', tail, files, gen)
  {
    forall i | 0 <= i < |tail| ensures At(w'.disk.lane, tail[i]) == Some(files[i]) {
      assert At(w.disk.lane, tail[i]) == Some(files[i]);
    }
    if rising {
      OldestStays(w, w', tail);
    }
  }

  lemma {:induction false} OldestStays(w: World, w': World, tail: seq<Name>)
    requires tail != [] && OldestFirst(w, tail) && OrderOk(w) && Outside(true, w, w')
    ensures OldestFirst(w', tail)
  {
    forall x, y | x in Behind(w.disk) && y in Behind(w'.disk) - Behind(w.disk) ensures Before(x, y) {
      assert x.clock <= w.top < y.clock;
    }
    ListingGrows(Behind(w.disk), Behind(w'.disk));
  }

  lemma {:induction false} TailBegins(rising: bool, w: World, tail: seq<Name>, files: seq<seq<Event>>, gen: nat)
    requires w.disk.manifest.None? && tail == Listing(Behind(w.disk)) && tail != [] && (rising ==> OrderOk(w))
    requires |files| == |tail| && forall i | 0 <= i < |tail| :: At(w.disk.lane, tail[i]) == Some(files[i])
    requires gen > 0 && forall x | x in w.disk.lane || x in InflightNames(w.disk) :: x.gen != gen
    ensures TailListed(rising, w, tail, files, gen)
  {
    ListingIs(Behind(w.disk));
    assert tail[0] in NameSet(tail);
    forall y | y in Behind(w.disk) ensures y in tail {
      assert y in NameSet(tail);
    }
  }

  /** A generation later than those of all the names. */
  predicate GenAbove(names: set<Name>, g: nat) {
    g > 0 && forall x | x in names :: x.gen < g
  }

  lemma {:induction false} GenExists(names: set<Name>)
    ensures exists g: nat :: GenAbove(names, g)
  {
    if names == {} {
      assert GenAbove(names, 1);
    } else {
      var y :| y in names;
      GenExists(names - {y});
      var g: nat :| GenAbove(names - {y}, g);
      var m := if y.gen < g then g else y.gen + 1;
      assert GenAbove(names, m) by {
        assert forall x | x in names :: x == y || x in names - {y};
      }
    }
  }

  /** The chunks' names: where the oldest file of the tail was. */
  function ChunkNames(clock: nat, gen: nat, n: nat): (r: seq<Name>)
    ensures |r| == n && forall i | 0 <= i < n :: r[i] == Name(clock, gen, i)
  {
    seq(n, i requires 0 <= i => Name(clock, gen, i))
  }

  /** The first i chunks are staged, and nothing else. */
  ghost predicate StagedUpTo(d: Disk, names: seq<Name>, chunks: seq<seq<Event>>, i: nat)
    requires i <= |names| == |chunks|
  {
    && d.staging.Some? && d.staging.v.Keys == NameSet(names[..i])
    && forall j | 0 <= j < i :: At(d.staging.v, names[j]) == Some(chunks[j])
  }

  lemma {:induction false} StagedNext(w: World, clock: nat, gen: nat, chunks: seq<seq<Event>>, i: nat)
    requires var names := ChunkNames(clock, gen, |chunks|); i < |chunks| && StagedUpTo(w.disk, names, chunks, i)
    ensures var names := ChunkNames(clock, gen, |chunks|); StagedUpTo(Do(w, WriteChunk(names[i], chunks[i])).disk,
            names, chunks, i + 1)
  {
    var names := ChunkNames(clock, gen, |chunks|);
    var d' := Do(w, WriteChunk(names[i], chunks[i])).disk;
    assert names[..i + 1] == names[..i] + [names[i]];
    forall j | 0 <= j < i + 1 ensures At(d'.staging.v, names[j]) == Some(chunks[j]) {
      assert j < i ==> At(w.disk.staging.v, names[j]) == Some(chunks[j]);
    }
    assert d'.staging.v.Keys == NameSet(names[..i + 1]);
  }

  /** Staged chunks that are, as they are read, the tail's compaction may be committed. */
  lemma {:induction false} MayCommit(
      rising: bool, w: World, tail: seq<Name>, files: seq<seq<Event>>, gen: nat, chunks: seq<seq<Event>>)
    requires TailListed(rising, w, tail, files, gen) && Join(chunks) == CompactRead(Join(files), w.fits)
    requires StagedUpTo(w.disk, ChunkNames(tail[0].clock, gen, |chunks|), chunks, |chunks|)
    ensures var m := Manifest(tail, ChunkNames(tail[0].clock, gen, |chunks|));
            Enabled(w, Commit(m)) && (rising ==> InOrder(w, Commit(m)))
  {
    var names := ChunkNames(tail[0].clock, gen, |chunks|);
    var d, m := w.disk, Manifest(tail, names);
    assert names[..|names|] == names;
    ContentIsJoin(d.staging.v, names, chunks);
    ContentIsJoin(d.lane, tail, files);
    assert forall y | y in Newer(d, m) :: y !in tail by {
      assert forall y | y in tail :: y in NameSet(tail);
    }
  }

  /** In the place of a tail with those events are its chunks, all of them, and nothing of the tail; where
      files come in order, they are before every file that is not in flight. */
  ghost predicate SwappedIn(rising: bool, w: World, tail: seq<Name>, chunks: seq<Name>, evs: seq<Event>) {
    var d := w.disk;
    && d.manifest.None? && d.staging.None? && Ordered(chunks) && NameSet(chunks) <= d.lane.Keys
    && Content(d.lane, chunks) == CompactRead(evs, w.fits)
    && (forall x | x in tail :: x !in d.lane)
    && (rising ==> forall x, y | x in chunks && y in Behind(d) && y !in chunks :: Before(x, y))
  }

  /** Committed and rolled forward, with whatever was spooled meanwhile. */
  lemma {:induction false} SwapDone(
      rising: bool, w0: World, m: Manifest, files: seq<seq<Event>>, gen: nat, w1: World, w2: World)
    requires Inv(w0) && TailListed(rising, w0, m.replaced, files, gen) && Enabled(w0, Commit(m))
    requires rising ==> InOrder(w0, Commit(m))
    requires Outside(rising, Do(w0, Commit(m)), w1) && NoneLost(w0, w1) && Outside(rising, Recovered(w1), w2)
    ensures SwappedIn(rising, w2, m.replaced, m.staged, Join(files))
  {
    ChunksAll(rising, w0, m, w1);
    RecoversFiles(w1.disk, m);
    SwapFiles(rising, w0, m, w1, w2);
    ChunksMean(w0, m, files, w2.disk.lane);
    if rising {
      ChunksFirst(w0, m, w2.disk);
    }
  }

  lemma {:induction false} ChunksAll(rising: bool, w0: World, m: Manifest, w1: World)
    requires w0.disk.staging.Some? && w0.disk.staging.v.Keys == NameSet(m.staged)
    requires Outside(rising, Do(w0, Commit(m)), w1) && NoneLost(w0, w1)
    ensures w1.disk.manifest == Some(m) && AllChunks(w1.disk, m)
  {
    assert w1.disk.staging == w0.disk.staging;
    forall x | x in m.staged ensures Staged(w1.disk, x) {
      assert x in NameSet(m.staged);
    }
  }

  lemma {:induction false} ChunksMean(w0: World, m: Manifest, files: seq<seq<Event>>, lane: Files)
    requires Enabled(w0, Commit(m))
    requires |files| == |m.replaced| && forall i | 0 <= i < |m.replaced| ::
             At(w0.disk.lane, m.replaced[i]) == Some(files[i])
    requires forall x | x in m.staged :: x in w0.disk.staging.v && x in lane && lane[x] == w0.disk.staging.v[x]
    ensures Content(lane, m.staged) == CompactRead(Join(files), w0.fits)
  {
    ContentSame(w0.disk.staging.v, lane, m.staged);
    ContentIsJoin(w0.disk.lane, m.replaced, files);
  }

  lemma {:induction false} ChunksFirst(w0: World, m: Manifest, d: Disk)
    requires m.replaced != [] && OldestFirst(w0, m.replaced) && InOrder(w0, Commit(m)) && d.inflight == w0.disk.inflight
    requires forall y | y in d.lane && y !in m.staged :: (y in w0.disk.lane && y !in m.replaced) || y.clock > w0.top
    ensures forall x, y | x in m.staged && y in Behind(d) && y !in m.staged :: Before(x, y)
  {
    forall x, y | x in m.staged && y in Behind(d) && y !in m.staged ensures Before(x, y) {
      assert m.replaced[0].clock < y.clock by {
        assert y in w0.disk.lane && y !in m.replaced ==> y in Behind(w0.disk);
      }
    }
  }

  /** What recovery makes of the lane after a commit: a chunk's file, or one not of the tail, or one come since. */
  lemma {:induction false} SwapFiles(rising: bool, w0: World, m: Manifest, w1: World, w2: World)
    requires UsedOk(w0) && Enabled(w0, Commit(m))
    requires Outside(rising, Do(w0, Commit(m)), w1) && NoneLost(w0, w1) && Outside(rising, Recovered(w1), w2)
    requires w1.disk.manifest == Some(m) && AllChunks(w1.disk, m)
    requires forall x :: At(Recover(w1.disk).lane, x) == RecoveredFile(w1.disk, m, x)
    ensures w2.disk.manifest.None? && w2.disk.staging.None? && w2.disk.inflight == w0.disk.inflight
    ensures forall x | x in m.staged ::
              x in w0.disk.staging.v && x in w2.disk.lane && w2.disk.lane[x] == w0.disk.staging.v[x]
    ensures forall x | x in m.replaced :: x !in w2.disk.lane
    ensures rising ==>
              forall y | y in w2.disk.lane && y !in m.staged :: (y in w0.disk.lane && y !in m.replaced)
                  || y.clock > w0.top
  {
    assert w1.disk.staging == w0.disk.staging;
    forall x | x in m.staged ensures x in w0.disk.staging.v && x in w2.disk.lane
        && w2.disk.lane[x] == w0.disk.staging.v[x] {
      assert x in NameSet(m.staged);
      assert At(Recover(w1.disk).lane, x) == RecoveredFile(w1.disk, m, x);
    }
    forall x | x in m.replaced ensures x !in w2.disk.lane {
      TailNamesUsed(w0, m, x);
      assert At(Recover(w1.disk).lane, x) == RecoveredFile(w1.disk, m, x);
    }
    forall y | rising && y in w2.disk.lane && y !in m.staged
      ensures (y in w0.disk.lane && y !in m.replaced) || y.clock > w0.top
    {
      assert At(Recover(w1.disk).lane, y) == RecoveredFile(w1.disk, m, y);
    }
  }

  lemma {:induction false} TailNamesUsed(w: World, m: Manifest, x: Name)
    requires UsedOk(w) && Enabled(w, Commit(m)) && x in m.replaced
    ensures x in w.disk.lane && x !in m.staged && (x.gen == 0 ==> x in w.used)
  {
    assert x in NameSet(m.replaced);
  }
}
