/** The agent's side of the P0 lane as the source runs it (compact.go, events.go): `laneSpool` with its
methods, every file operation a step of the machine in SpoolWorld. After each step the world may go on
by itself: files are spooled, and requests sent earlier arrive. `trace` keeps every world passed
through, so a crash is a trace cut off anywhere, and a start takes up from any world of any run. */
module LaneAgent {
  import opened Maps
  import opened SpoolEvents
  import opened MainStore
  import opened Compaction
  import opened ReadBack
  import opened LaneNames
  import opened SpoolWorld
  import opened SpoolSafety
  import opened SpoolOrder
  import opened LaneOutside
  import Stage
  import StageRead

  /** A batch's limits, and the bytes a file of some events has. */
  datatype Batching = Batching(maxEvents: nat, maxBytes: nat, size: seq<Event> -> nat)

  function FilesSize(lim: Batching, files: Files, names: seq<Name>): nat {
    if names == [] then 0
    else FilesSize(lim, files, names[..|names| - 1]) + FileSize(lim, files, names[|names| - 1])
  }

  function FileSize(lim: Batching, files: Files, x: Name): nat {
    lim.size(if x in files then files[x] else [])
  }

  predicate Fits(lim: Batching, files: Files, names: seq<Name>) {
    |Content(files, names)| <= lim.maxEvents && FilesSize(lim, files, names) <= lim.maxBytes
  }

  /** The batch is the first of the files, one at least, and as many as fit. */
  predicate Batched(lim: Batching, files: Files, batch: seq<Name>, all: seq<Name>) {
    && batch <= all
    && (batch == [] ==> all == [])
    && (|batch| <= 1 || Fits(lim, files, batch))
    && (|batch| < |all| ==> !Fits(lim, files, batch + [all[|batch|]]))
  }

  lemma {:induction false} BatchGrows(lim: Batching, files: Files, names: seq<Name>, x: Name)
    requires x in files
    ensures |Content(files, names + [x])| == |Content(files, names)| + |files[x]|
    ensures FilesSize(lim, files, names + [x]) == FilesSize(lim, files, names) + lim.size(files[x])
  {
    ContentJoin(files, names, [x]);
    assert Content(files, [x]) == files[x] + Content(files, []);
    assert (names + [x])[..|names|] == names;
  }

  /** The batch so far, after the first i entries. */
  predicate Collecting(lim: Batching, lane: Files, entries: seq<Name>, i: nat, files: seq<Name>, count: nat, size: nat)
    requires i <= |entries|
  {
    && files == NonEmpty(lane, entries[..i])
    && (forall x | x in files :: x in lane && lane[x] != [])
    && count == |Content(lane, files)| && size == FilesSize(lim, lane, files)
    && (files != [] ==> count > 0)
    && (|files| <= 1 || Fits(lim, lane, files))
  }

  predicate NoRoom(lim: Batching, files: seq<Name>, count: nat, size: nat, evs: seq<Event>) {
    files != [] && (count + |evs| > lim.maxEvents || size + lim.size(evs) > lim.maxBytes)
  }

  lemma {:induction false} CollectSkips(
      lim: Batching, lane: Files, entries: seq<Name>, i: nat, files: seq<Name>, count: nat, size: nat)
    requires i < |entries| && entries[i] in lane && lane[entries[i]] == []
    requires Collecting(lim, lane, entries, i, files, count, size)
    ensures Collecting(lim, lane, entries, i + 1, files, count, size)
  {
    NonEmptyNext(lane, entries, i);
  }

  lemma {:induction false} CollectTakes(
      lim: Batching, lane: Files, entries: seq<Name>, i: nat, files: seq<Name>, count: nat, size: nat)
    requires i < |entries| && entries[i] in lane && lane[entries[i]] != []
    requires Collecting(lim, lane, entries, i, files, count, size)
    requires !NoRoom(lim, files, count, size, lane[entries[i]])
    ensures var evs := lane[entries[i]];
            Collecting(lim, lane, entries, i + 1, files + [entries[i]], count + |evs|, size + lim.size(evs))
  {
    var x := entries[i];
    NonEmptyNext(lane, entries, i);
    BatchGrows(lim, lane, files, x);
    BatchFits(lim, lane, files, x, count, size);
    assert forall y | y in files + [x] :: y in files || y == x;
  }

  lemma {:induction false} BatchFits(lim: Batching, lane: Files, files: seq<Name>, x: Name, count: nat, size: nat)
    requires x in lane && count == |Content(lane, files)| && size == FilesSize(lim, lane, files)
    requires files != [] ==> !NoRoom(lim, files, count, size, lane[x])
    ensures |files + [x]| <= 1 || Fits(lim, lane, files + [x])
  {
    BatchGrows(lim, lane, files, x);
  }

  lemma {:induction false} CollectStops(
      lim: Batching, lane: Files, entries: seq<Name>, i: nat, files: seq<Name>, count: nat, size: nat)
    requires i < |entries| && entries[i] in lane && lane[entries[i]] != []
    requires Collecting(lim, lane, entries, i, files, count, size)
    requires NoRoom(lim, files, count, size, lane[entries[i]])
    ensures Batched(lim, lane, files, NonEmpty(lane, entries))
  {
    NonEmptyNext(lane, entries, i);
    BatchGrows(lim, lane, files, entries[i]);
    var rest := NonEmpty(lane, entries[i + 1..]);
    assert NonEmpty(lane, entries) == files + [entries[i]] + rest by {
      assert entries == entries[..i + 1] + entries[i + 1..];
      NonEmptyJoin(lane, entries[..i + 1], entries[i + 1..]);
    }
  }

  lemma {:induction false} CollectNext(
      lim: Batching, lane: Files, entries: seq<Name>, i: nat, files: seq<Name>, count: nat, size: nat)
    requires i < |entries| && entries[i] in lane && Collecting(lim, lane, entries, i, files, count, size)
    ensures var evs := lane[entries[i]];
            if evs == [] then Collecting(lim, lane, entries, i + 1, files, count, size)
            else if NoRoom(lim, files, count, size, evs) then Batched(lim, lane, files, NonEmpty(lane, entries))
            else Collecting(lim, lane, entries, i + 1, files + [entries[i]], count + |evs|, size + lim.size(evs))
  {
    if lane[entries[i]] == [] {
      CollectSkips(lim, lane, entries, i, files, count, size);
    } else if !NoRoom(lim, files, count, size, lane[entries[i]]) {
      CollectTakes(lim, lane, entries, i, files, count, size);
    } else {
      CollectStops(lim, lane, entries, i, files, count, size);
    }
  }

  lemma {:induction false} CollectEnds(
      lim: Batching, lane: Files, entries: seq<Name>, i: nat, files: seq<Name>, count: nat, size: nat)
    requires i <= |entries| && Collecting(lim, lane, entries, i, files, count, size)
    ensures i == |entries| ==> Batched(lim, lane, files, NonEmpty(lane, entries))
    ensures (files != [] ==> count > 0) && count == |Content(lane, files)| && forall x | x in files ::
            x in lane && lane[x] != []
  {
    assert entries[..|entries|] == entries;
  }

  /** The files still to be collected, and those collected, are as they were; where files come in order,
      they are the oldest. */
  ghost predicate AsListed(rising: bool, lane: Files, now: Files, files: seq<Name>, rest: seq<Name>) {
    && Ordered(files + rest) && (rising ==> files + rest <= Listing(now.Keys))
    && forall x | x in files + rest :: x in lane && At(now, x) == At(lane, x)
  }

  // ---------------------------------------------------------------- files and their lines

  /** Every line is read. */
  predicate AllTaken(ls: seq<Stage.Line>, maxBytes: nat) {
    forall i | 0 <= i < |ls| :: Stage.Takes(ls[i], maxBytes)
  }

  function Contents(files: seq<seq<Stage.Line>>, maxBytes: nat): (r: seq<seq<Event>>)
    ensures |r| == |files| && forall i | 0 <= i < |files| :: r[i] == StageRead.ReadFile(files[i], maxBytes)
  {
    seq(|files|, i requires 0 <= i < |files| => StageRead.ReadFile(files[i], maxBytes))
  }

  lemma {:induction false} AllRead(ls: seq<Stage.Line>, maxBytes: nat)
    requires AllTaken(ls, maxBytes)
    ensures StageRead.ReadFile(ls, maxBytes) == Stage.EventsOf(ls)
  {
    TakesAll(ls, maxBytes);
  }

  lemma {:induction false} TakesAll(ls: seq<Stage.Line>, maxBytes: nat)
    requires AllTaken(ls, maxBytes)
    ensures StageRead.TakeLines(ls, maxBytes) == ls
  {
    if ls != [] {
      TakesAll(ls[..|ls| - 1], maxBytes);
      assert ls == ls[..|ls| - 1] + [ls[|ls| - 1]];
    }
  }

  lemma {:induction false} ReadIsReadable(ls: seq<Stage.Line>, maxBytes: nat)
    ensures AllReadable(StageRead.ReadFile(ls, maxBytes))
  {
    if ls != [] {
      var l := |ls| - 1;
      ReadIsReadable(ls[..l], maxBytes);
      assert ls == ls[..l] + [ls[l]];
      StageRead.ReadFileConcat(ls[..l], [ls[l]], maxBytes);
      StageRead.OneRead(ls[l], maxBytes);
    } else {
      assert StageRead.ReadFile(ls, maxBytes) == [];
    }
  }

  /** Files read one after the other. */
  lemma {:induction false} FilesRead(files: seq<seq<Stage.Line>>, maxBytes: nat)
    ensures Join(Contents(files, maxBytes)) == StageRead.ReadFile(Stage.Flat(files), maxBytes)
  {
    if files == [] {
      assert StageRead.ReadFile([], maxBytes) == [];
    } else {
      var l := |files| - 1;
      FilesRead(files[..l], maxBytes);
      assert Contents(files, maxBytes) == Contents(files[..l], maxBytes) + [StageRead.ReadFile(files[l], maxBytes)];
      JoinMore(Contents(files[..l], maxBytes), StageRead.ReadFile(files[l], maxBytes));
      StageRead.ReadFileConcat(Stage.Flat(files[..l]), files[l], maxBytes);
    }
  }

  /** What is read of the chunks `stage` writes is the tail's compaction, as it is read. */
  lemma {:induction false} StagedIsRead(tail: seq<seq<Stage.Line>>, lim: Stage.Limits, chunks: seq<seq<Stage.Line>>)
    requires var ts := Stage.TakenOf(tail, lim.maxBytes); Stage.Flat(chunks) == Stage.LinesOut(ts, lim, |ts|)
    ensures Join(Contents(chunks, lim.maxBytes)) == CompactRead(Join(Contents(tail, lim.maxBytes)), StageRead.Room(lim))
  {
    StageRead.ChunksReadAs(tail, lim, chunks);
    StageRead.ReadsFlat(tail, lim.maxBytes);
    StageRead.ReadsFlat(chunks, lim.maxBytes);
    FilesRead(tail, lim.maxBytes);
    FilesRead(chunks, lim.maxBytes);
  }

  function Max(a: nat, b: nat): nat {
    if a > b then a else b
  }

  datatype Reply = Lost | Served(useq: nat) | Gap(expected: nat)

  class LaneSpool {
    const batch: Batching
    const lim: Stage.Limits
    /** Files are spooled under rising clocks. */
    const rising: bool
    var w: World
    ghost var trace: seq<World>

    ghost predicate Valid()
      reads this
    {
      && Run(trace) && trace[|trace| - 1] == w && w.fits == StageRead.Room(lim)
      && (rising ==> OrderedRun(trace))
    }

    lemma Sound()
      requires Valid()
      ensures Inv(w) && (rising ==> OrderOk(w))
    {
      RunKeeps(trace, |trace| - 1);
      if rising {
        OrderThroughout(trace, |trace| - 1);
      }
    }

    constructor (batch: Batching, lim: Stage.Limits, rising: bool, ghost past: seq<World>, w: World)
      requires Run(past) && past[|past| - 1] == w && w.fits == StageRead.Room(lim) && (rising ==> OrderedRun(past))
      ensures Valid() && this.w == w && this.batch == batch && this.lim == lim && this.rising == rising
    {
      this.batch, this.lim, this.rising, this.w, trace := batch, lim, rising, w, past;
    }

    method Act(a: Action)
      requires Valid() && Enabled(w, a) && (rising ==> InOrder(w, a))
      modifies this
      ensures Valid() && w == Do(old(w), a) && trace == old(trace) + [w]
    {
      RunGrows(trace, w, a);
      if rising {
        OrderedGrows(trace, w, a);
      }
      SameFits(w, a);
      w := Do(w, a);
      trace := trace + [w];
    }

    method Interfere()
      requires Valid()
      modifies this
      ensures Valid() && Outside(rising, old(w), w)
    {
      var n: nat :| n >= 0;
      for i := 0 to n
        invariant Valid() && Outside(rising, old(w), w)
      {
        ghost var before := w;
        Happen();
        OutsideTwice(rising, old(w), before, w);
      }
    }

    method Happen()
      requires Valid()
      modifies this
      ensures Valid() && Outside(rising, old(w), w)
    {
      if * {
        var x: Name, evs: seq<Event> := *, *;
        if x.gen == 0 && Unused(w, x) && AllReadable(evs) && (rising ==> x.clock > w.top) {
          Sound();
          OutsideStep(rising, w, Arrive(x, evs));
          Act(Arrive(x, evs));
        }
      } else if * {
        var x: Name := *;
        if w.disk.manifest.Some? && Staged(w.disk, x) {
          Sound();
          OutsideStep(rising, w, LoseChunk(x));
          Act(LoseChunk(x));
        }
      } else if w.sent != {} {
        var r :| r in w.sent;
        Sound();
        OutsideStep(rising, w, Deliver(r));
        Act(Deliver(r));
      }
    }

    /** One file operation or request, and whatever happens by itself until the next. */
    method Take(a: Action)
      requires Valid() && Enabled(w, a) && (rising ==> InOrder(w, a))
      modifies this
      ensures Valid() && Outside(rising, Do(old(w), a), w)
    {
      Act(a);
      Interfere();
    }

    // -------------------------------------------------------------- recovery

    method TakeRecovering(a: Action, ghost w0: World)
      requires Valid() && Enabled(w, a) && Recovers(w.disk, a) && OnCourse(rising, w0, w) && Settled(w0, w)
      modifies this
      ensures Valid() && Outside(rising, Do(old(w), a), w) && OnCourse(rising, w0, w) && Settled(w0, w)
      ensures GetsOn(old(w), w) && w.disk.manifest == Do(old(w), a).disk.manifest
              && w.roll.seen == Do(old(w), a).roll.seen
      ensures a.RemoveReplaced? ==> a.name !in w.disk.lane
      ensures a.MoveChunk? ==> !Staged(w.disk, a.name)
    {
      Sound();
      Take(a);
      RecoveryGetsOn(rising, old(w), a, w);
      RecoveryGoesOn(rising, w0, old(w), a, w);
      RecoveringSettles(rising, old(w), a, w);
      SettledTwice(w0, old(w), w);
    }

    /** The roll forward under way has found the first i chunks, and what they replace is as it was. */
    ghost predicate LookedAt(m: Manifest, i: nat, w0: World)
      reads this
    {
      && Valid() && w.disk.manifest == Some(m) && OnCourse(rising, w0, w) && Settled(w0, w)
      && i <= |m.staged| && w.roll.seen == NameSet(m.staged[..i])
      && forall x | x in m.replaced :: At(w.disk.lane, x) == At(w0.disk.lane, x)
    }

    /** Begins with nothing found. */
    method Begin(m: Manifest)
      requires Valid() && w.disk.manifest == Some(m)
      modifies this
      ensures LookedAt(m, 0, old(w))
    {
      Sound();
      Take(Stop);
      CourseBegins(rising, old(w), w);
      OutsideSettles(rising, Do(old(w), Stop), w);
      ReplacedStay(rising, Do(old(w), Stop), w, m);
      assert m.staged[..0] == [];
    }

    /** The next chunk is found. */
    method LookAt(m: Manifest, i: nat, ghost w0: World)
      requires LookedAt(m, i, w0) && i < |m.staged| && !Missing(w.disk, m.staged[i])
      modifies this
      ensures LookedAt(m, i + 1, w0)
    {
      TakeRecovering(Look(m.staged[i]), w0);
      ReplacedStay(rising, Do(old(w), Look(m.staged[i])), w, m);
      assert m.staged[..i + 1] == m.staged[..i] + [m.staged[i]];
    }

    /** Rolls a committed compaction forward, or gives it up; false if it stays unfinished. */
    method RollForward(m: Manifest) returns (ok: bool, given: bool)
      requires Valid() && w.disk.manifest == Some(m)
      modifies this
      ensures Valid() && Settled(old(w), w) && old(w).roll.losses <= w.roll.losses
      ensures ok <==> w.disk.manifest.None?
      ensures (forall x | x in m.replaced :: x in old(w).disk.lane) ==> ok
      ensures given ==> ok && forall x | x in m.replaced :: At(w.disk.lane, x) == At(old(w).disk.lane, x)
      ensures NoneLost(old(w), w) ==> Outside(rising, Recovered(old(w)), w)
      ensures NoneLost(old(w), w) && AllChunks(old(w).disk, m) ==> ok && !given
    {
      Begin(m);
      var found := LookAll(m, old(w));
      given := found < |m.staged|;
      if given {
        ok := Abandon(m, old(w));
        given := ok;
      } else {
        assert m.staged[..found] == m.staged;
        GoOn(m, old(w));
        ok := true;
      }
    }

    /** Looks at the chunks in turn, up to one that is missing. */
    method LookAll(m: Manifest, ghost w0: World) returns (found: nat)
      requires LookedAt(m, 0, w0) && w0.disk.manifest == Some(m)
      modifies this
      ensures LookedAt(m, found, w0)
      ensures found < |m.staged| ==> Missing(w.disk, m.staged[found]) && m.staged[found] !in w.roll.seen
      ensures found < |m.staged| && NoneLost(w0, w) ==> !AllChunks(w0.disk, m)
    {
      found := 0;
      while found < |m.staged|
        invariant LookedAt(m, found, w0)
      {
        if Missing(w.disk, m.staged[found]) {
          Sound();
          NotYet(m.staged, found);
          MissingBefore(rising, w0, w, m, m.staged[found]);
          return;
        }
        LookAt(m, found, w0);
        found := found + 1;
      }
    }

    /** Every chunk was found, and recovery goes on as it was. */
    ghost predicate Rolling(m: Manifest, w0: World)
      reads this
    {
      Valid() && w.disk.manifest == Some(m) && AllSeen(w, m) && OnCourse(rising, w0, w) && Settled(w0, w)
    }

    /** What the chunks replace goes, they come in, and the manifest goes. */
    method GoOn(m: Manifest, ghost w0: World)
      requires Rolling(m, w0)
      modifies this
      ensures Valid() && w.disk.manifest.None? && Settled(w0, w) && w0.roll.losses <= w.roll.losses
      ensures NoneLost(w0, w) ==> Outside(rising, Recovered(w0), w)
    {
      RemoveTheReplaced(m, w0);
      MoveTheChunksIn(m, w0);
      TakeRecovering(ClearStaging, w0);
      TakeRecovering(DropManifest, w0);
      Sound();
      RecoveredNow(w);
    }

    method RemoveTheReplaced(m: Manifest, ghost w0: World)
      requires Rolling(m, w0)
      modifies this
      ensures Rolling(m, w0) && ReplacedGone(w.disk, m)
    {
      for i := 0 to |m.replaced|
        invariant Rolling(m, w0)
        invariant forall j | 0 <= j < i :: m.replaced[j] !in w.disk.lane
      {
        RemoveOne(m, m.replaced[i], w0);
      }
    }

    method RemoveOne(m: Manifest, x: Name, ghost w0: World)
      requires Rolling(m, w0) && x in m.replaced
      modifies this
      ensures Rolling(m, w0)
      ensures x !in w.disk.lane && forall y | y in m.replaced && y !in old(w).disk.lane :: y !in w.disk.lane
    {
      TakeRecovering(RemoveReplaced(x), w0);
    }

    /** The replaced files are gone, and of the first i chunks none is still staged. */
    ghost predicate MovedIn(m: Manifest, i: nat, w0: World)
      reads this
    {
      && Rolling(m, w0) && ReplacedGone(w.disk, m)
      && forall j | 0 <= j < i && j < |m.staged| :: !Staged(w.disk, m.staged[j])
    }

    method MoveTheChunksIn(m: Manifest, ghost w0: World)
      requires MovedIn(m, 0, w0)
      modifies this
      ensures MovedIn(m, |m.staged|, w0)
    {
      for i := 0 to |m.staged|
        invariant MovedIn(m, i, w0)
      {
        MoveOne(m, i, w0);
      }
    }

    /** A chunk that is not in staging is taken for one moved in. */
    method MoveOne(m: Manifest, i: nat, ghost w0: World)
      requires i < |m.staged| && MovedIn(m, i, w0)
      modifies this
      ensures MovedIn(m, i + 1, w0)
    {
      if Staged(w.disk, m.staged[i]) {
        TakeRecovering(MoveChunk(m.staged[i]), w0);
      }
    }

    /** Gives a committed compaction up while nothing of the tail is gone. */
    method Abandon(m: Manifest, ghost w0: World) returns (ok: bool)
      requires Valid() && w.disk.manifest == Some(m) && OnCourse(rising, w0, w) && Settled(w0, w)
      requires exists x | x in m.staged :: Missing(w.disk, x) && x !in w.roll.seen
      requires forall x | x in m.replaced :: At(w.disk.lane, x) == At(w0.disk.lane, x)
      modifies this
      ensures Valid() && Settled(w0, w) && w0.roll.losses <= old(w).roll.losses <= w.roll.losses
      ensures ok <==> w.disk.manifest.None?
      ensures ok <==> forall x | x in m.replaced :: x in w0.disk.lane
      ensures ok ==> forall x | x in m.replaced :: At(w.disk.lane, x) == At(w0.disk.lane, x)
      ensures NoneLost(w0, w) ==> Outside(rising, Recovered(w0), w)
    {
      for i := 0 to |m.replaced|
        invariant Valid() && w == old(w)
        invariant forall j | 0 <= j < i :: m.replaced[j] in w.disk.lane
      {
        if m.replaced[i] !in w.disk.lane {
          assert At(w.disk.lane, m.replaced[i]) == At(w0.disk.lane, m.replaced[i]);
          TakeRecovering(Stop, w0);
          Sound();
          StillTorn(rising, old(w), w);
          return false;
        }
      }
      forall x | x in m.replaced ensures x in w0.disk.lane {
        assert At(w.disk.lane, x) == At(w0.disk.lane, x);
      }
      GiveUp(m, w0);
      ok := true;
    }

    method GiveUp(m: Manifest, ghost w0: World)
      requires Valid() && w.disk.manifest == Some(m) && OnCourse(rising, w0, w) && Settled(w0, w)
      requires Enabled(w, SpoolWorld.Abandon)
      modifies this
      ensures Valid() && w.disk.manifest.None? && Settled(w0, w) && old(w).roll.losses <= w.roll.losses
      ensures forall x | x in m.replaced :: At(w.disk.lane, x) == At(old(w).disk.lane, x)
      ensures NoneLost(w0, w) ==> Outside(rising, Recovered(w0), w)
    {
      TakeRecovering(SpoolWorld.Abandon, w0);
      ghost var w1 := w;
      TakeRecovering(ClearStaging, w0);
      Sound();
      RecoveredNow(w);
    }

    /** Finishes a compaction a crash interrupted, or discards one that was not committed. */
    method RecoverCompaction() returns (ok: bool)
      requires Valid()
      modifies this
      ensures Valid() && Settled(old(w), w)
      ensures ok <==> w.disk.manifest.None?
      ensures NoneLost(old(w), w) ==> Outside(rising, Recovered(old(w)), w) && (ok <==> !Torn(old(w).disk))
    {
      Sound();
      if w.disk.manifest.None? {
        if w.disk.staging.Some? {
          Take(ClearStaging);
          OutsideSettles(rising, Do(old(w), ClearStaging), w);
        }
        return true;
      }
      var given;
      ok, given := RollForward(w.disk.manifest.v);
    }

    // -------------------------------------------------------------- delivery

    /** Deletes an applied batch's files, then its record. */
    method Finish(f: Inflight)
      requires Valid() && w.disk.inflight == Some(f) && Applied(w, f)
      modifies this
      ensures Valid() && Outside(rising, Finished(old(w), f), w)
    {
      for i := 0 to |f.files|
        invariant Valid() && w.disk.inflight == Some(f) && Applied(w, f)
        invariant Outside(rising, Finished(old(w), f), Finished(w, f))
        invariant forall j | 0 <= j < i :: f.files[j] !in w.disk.lane
      {
        RemoveOneSent(f, f.files[i], old(w));
      }
      Sound();
      ghost var before := w;
      Take(DropInflight);
      FinishingGoesOn(rising, Finished(old(w), f), before, f, DropInflight, w);
      AllGone(w, f);
    }

    method RemoveOneSent(f: Inflight, x: Name, ghost w0: World)
      requires Valid() && w.disk.inflight == Some(f) && Applied(w, f) && x in f.files
      requires Outside(rising, Finished(w0, f), Finished(w, f))
      modifies this
      ensures Valid() && w.disk.inflight == Some(f) && Applied(w, f)
      ensures Outside(rising, Finished(w0, f), Finished(w, f))
      ensures x !in w.disk.lane && forall y | y in f.files && y !in old(w).disk.lane :: y !in w.disk.lane
    {
      Sound();
      Take(RemoveSent(x));
      FinishingGoesOn(rising, Finished(w0, f), old(w), f, RemoveSent(x), w);
    }

    predicate Idle()
      reads this
    {
      w.disk.manifest.None? && w.disk.inflight.None?
    }

    method RemoveUnusable(x: Name, ghost before: seq<Name>, ghost after: seq<Name>)
      requires Valid() && Idle() && Ordered(before + [x] + after) && At(w.disk.lane, x) == Some([])
      requires rising ==> before + [x] + after <= Listing(w.disk.lane.Keys)
      modifies this
      ensures Valid() && Idle() && w.log == old(w).log
      ensures rising ==> before + after <= Listing(w.disk.lane.Keys)
      ensures forall y | y in before + after && y in old(w).disk.lane :: At(w.disk.lane, y) == At(old(w).disk.lane, y)
    {
      Sound();
      OrderedWithout(before, x, after);
      if rising {
        ListingWithout(w.disk.lane.Keys, before, x, after);
      }
      Take(RemoveEmpty(x));
      forall y | y in before + after && y in old(w).disk.lane ensures At(w.disk.lane, y) == At(old(w).disk.lane, y) {
        assert y in NameSet(before + after);
      }
      if rising {
        ListingGrows(old(w).disk.lane.Keys - {x}, w.disk.lane.Keys);
      }
    }

    /** The next entry goes into the batch, or away with nothing in it, or the batch is full. */
    method CollectOne(ghost lane: Files, entries: seq<Name>, i: nat, files: seq<Name>, count: nat, size: nat)
      returns (full: bool, files': seq<Name>, count': nat, size': nat)
      requires Valid() && Idle() && i < |entries|
      requires AsListed(rising, lane, w.disk.lane, files, entries[i..])
               && Collecting(batch, lane, entries, i, files, count, size)
      modifies this
      ensures Valid() && Idle() && w.log == old(w).log
      ensures full ==> AsListed(rising, lane, w.disk.lane, files', entries[i..])
      ensures full ==> Batched(batch, lane, files', NonEmpty(lane, entries))
      ensures full ==> files' == files != [] && count' == count && size' == size
      ensures !full ==> AsListed(rising, lane, w.disk.lane, files', entries[i + 1..])
      ensures !full ==> Collecting(batch, lane, entries, i + 1, files', count', size')
    {
      full, files', count', size' := false, files, count, size;
      var x := entries[i];
      EntryAsListed(rising, lane, w.disk.lane, files, entries, i);
      CollectNext(batch, lane, entries, i, files, count, size);
      var evs := w.disk.lane[x];
      if evs == [] {
        RemoveUnusable(x, files, entries[i + 1..]);
        RestAsListed(rising, lane, old(w).disk.lane, w.disk.lane, files, entries, i);
      } else if NoRoom(batch, files, count, size, evs) {
        full := true;
      } else {
        files', count', size' := files + [x], count + |evs|, size + batch.size(evs);
      }
    }

    /** Takes the oldest files up to a batch's limits, one at least; files with nothing in them go. */
    method Collect() returns (files: seq<Name>, count: nat)
      requires Valid() && Idle()
      modifies this
      ensures Valid() && Idle() && w.log == old(w).log
      ensures Ordered(files) && NameSet(files) <= w.disk.lane.Keys && count == |Content(w.disk.lane, files)|
      ensures rising ==> files <= Listing(w.disk.lane.Keys)
      ensures forall x | x in files :: x in w.disk.lane && w.disk.lane[x] != []
      ensures files != [] ==> count > 0
      ensures Batched(batch, old(w).disk.lane, files, NonEmpty(old(w).disk.lane, Listing(old(w).disk.lane.Keys)))
    {
      ghost var lane := w.disk.lane;
      var entries := Spooled(w.disk.lane.Keys);
      BeginsAsListed(rising, lane, entries);
      files, count := [], 0;
      var size: nat, full, i := 0, false, 0;
      while i < |entries| && !full
        invariant i <= |entries|
        invariant Valid() && Idle() && w.log == old(w).log
        invariant AsListed(rising, lane, w.disk.lane, files, entries[i..])
        invariant Collecting(batch, lane, entries, i, files, count, size)
        invariant full ==> Batched(batch, lane, files, NonEmpty(lane, entries))
        decreases |entries| - i, !full
      {
        full, files, count, size := CollectOne(lane, entries, i, files, count, size);
        i := if full then i else i + 1;
      }
      CollectEnds(batch, lane, entries, i, files, count, size);
      Collected(rising, lane, w.disk.lane, files, entries[i..]);
    }

    // -------------------------------------------------------------- compaction

    /** A file's lines as they are read, each as long as it happens to be, though no longer than a batch. */
    method ReadLines(evs: seq<Event>) returns (ls: seq<Stage.Line>)
      requires AllReadable(evs)
      ensures AllTaken(ls, lim.maxBytes) && Stage.EventsOf(ls) == evs
    {
      ls := [];
      for i := 0 to |evs|
        invariant |ls| == i && AllTaken(ls, lim.maxBytes) && forall j | 0 <= j < i :: ls[j].e == evs[j]
      {
        var size: nat :| size <= lim.maxBytes;
        assert Readable(evs[i]);
        ls := ls + [Stage.Line(evs[i], size)];
      }
    }

    method ReadFiles(tail: seq<Name>) returns (files: seq<seq<Stage.Line>>)
      requires NameSet(tail) <= w.disk.lane.Keys && ReadableOk(w.disk)
      ensures |files| == |tail|
      ensures forall i | 0 <= i < |tail| :: At(w.disk.lane, tail[i]) == Some(Contents(files, lim.maxBytes)[i])
    {
      files := [];
      for i := 0 to |tail|
        invariant |files| == i
        invariant forall j | 0 <= j < i :: At(w.disk.lane, tail[j]) == Some(StageRead.ReadFile(files[j], lim.maxBytes))
      {
        assert tail[i] in NameSet(tail);
        var ls := ReadLines(w.disk.lane[tail[i]]);
        AllRead(ls, lim.maxBytes);
        files := files + [ls];
      }
    }

    /** An operation on the staging directory. */
    method Staging(a: Action, ghost tail: seq<Name>, ghost files: seq<seq<Event>>, ghost gen: nat)
      requires Valid() && Enabled(w, a) && (a.ClearStaging? || a.MakeStaging? || a.WriteChunk?)
      requires TailListed(rising, w, tail, files, gen)
      modifies this
      ensures Valid() && Settled(old(w), w) && NoneLost(old(w), w) && w.disk.staging == Do(old(w), a).disk.staging
      ensures TailListed(rising, w, tail, files, gen)
    {
      Sound();
      Act(a);
      ghost var w1 := w;
      assert TailListed(rising, w, tail, files, gen);
      Sound();
      Interfere();
      TailStays(rising, w1, w, tail, files, gen);
      OutsideSettles(rising, w1, w);
    }

    method WriteChunks(chunks: seq<seq<Event>>, tail: seq<Name>, ghost files: seq<seq<Event>>, gen: nat)
      requires Valid() && TailListed(rising, w, tail, files, gen)
      requires forall i | 0 <= i < |chunks| :: AllReadable(chunks[i])
      modifies this
      ensures Valid() && Settled(old(w), w) && NoneLost(old(w), w) && TailListed(rising, w, tail, files, gen)
      ensures StagedUpTo(w.disk, ChunkNames(tail[0].clock, gen, |chunks|), chunks, |chunks|)
    {
      var names := ChunkNames(tail[0].clock, gen, |chunks|);
      Staging(ClearStaging, tail, files, gen);
      Staging(MakeStaging, tail, files, gen);
      for i := 0 to |chunks|
        invariant Valid() && Settled(old(w), w) && NoneLost(old(w), w) && TailListed(rising, w, tail, files, gen)
        invariant StagedUpTo(w.disk, names, chunks, i)
      {
        StagedNext(w, tail[0].clock, gen, chunks, i);
        Staging(WriteChunk(names[i], chunks[i]), tail, files, gen);
      }
    }

    /** Compacts the tail, that is the files behind the batch in flight: done, its chunks are in its place,
        none of them having been lost; or all of its files are as they were. */
    method CompactTail() returns (done: bool, ghost chunkNames: seq<Name>)
      requires Valid() && w.disk.manifest.None?
      modifies this
      ensures Valid() && Settled(old(w), w) && w.disk.manifest.None?
      ensures var d := old(w).disk;
              var tail := Listing(Behind(d));
              && (done && NoneLost(old(w), w) ==> SwappedIn(rising, w, tail, chunkNames, Content(d.lane, tail)))
              && (!done ==> forall x | x in tail :: At(w.disk.lane, x) == At(d.lane, x))
    {
      done, chunkNames := false, [];
      Sound();
      var tail := Spooled(w.disk.lane.Keys - InflightNames(w.disk));
      ListingIs(Behind(w.disk));
      var due: bool := *;
      if tail == [] || !due {
        return;
      }
      var lines := ReadFiles(tail);
      ghost var files := Contents(lines, lim.maxBytes);
      var staged, folded, size := Stage.StageTail(lines, lim);
      StagedIsRead(lines, lim, staged);
      var chunks := Contents(staged, lim.maxBytes);
      forall i | 0 <= i < |chunks| ensures AllReadable(chunks[i]) {
        ReadIsReadable(staged[i], lim.maxBytes);
      }
      var gen := NewGen(w.disk.lane.Keys + InflightNames(w.disk));
      TailBegins(rising, w, tail, files, gen);
      ContentIsJoin(w.disk.lane, tail, files);
      done, chunkNames := Replace(chunks, tail, files, gen);
      if !done {
        StillListed(old(w), w, tail, files);
      }
    }

    method NewGen(there: set<Name>) returns (gen: nat)
      ensures GenAbove(there, gen)
    {
      GenExists(there);
      gen :| GenAbove(there, gen);
    }

    /** Stages the chunks, and commits and swaps them in, unless staging or the commit fails, or the compaction
        is given up: then the tail is as it was. */
    method Replace(chunks: seq<seq<Event>>, tail: seq<Name>, ghost files: seq<seq<Event>>, gen: nat)
      returns (done: bool, ghost chunkNames: seq<Name>)
      requires Valid() && TailListed(rising, w, tail, files, gen) && Join(chunks) == CompactRead(Join(files), w.fits)
      requires forall i | 0 <= i < |chunks| :: AllReadable(chunks[i])
      modifies this
      ensures Valid() && Settled(old(w), w) && w.disk.manifest.None?
      ensures done && NoneLost(old(w), w) ==> SwappedIn(rising, w, tail, chunkNames, Join(files))
      ensures !done ==> forall i | 0 <= i < |tail| :: At(w.disk.lane, tail[i]) == Some(files[i])
    {
      done, chunkNames := false, ChunkNames(tail[0].clock, gen, |chunks|);
      WriteChunks(chunks, tail, files, gen);
      if * {
        // The staging or the commit failed before the manifest was in.
        Staging(ClearStaging, tail, files, gen);
        return;
      }
      MayCommit(rising, w, tail, files, gen, chunks);
      ghost var w1 := w;
      var given := CommitAndSwap(Manifest(tail, ChunkNames(tail[0].clock, gen, |chunks|)), files, gen);
      SettledTwice(old(w), w1, w);
      done := !given;
    }

    method CommitIt(m: Manifest)
      requires Valid() && Enabled(w, Commit(m)) && (rising ==> InOrder(w, Commit(m)))
      modifies this
      ensures Valid() && w.disk.manifest == Some(m) && Settled(old(w), w) && old(w).roll.losses <= w.roll.losses
      ensures Outside(rising, Do(old(w), Commit(m)), w) && (NoneLost(old(w), w) ==> NoneLost(Do(old(w), Commit(m)), w))
      ensures forall x | x in m.replaced :: At(w.disk.lane, x) == At(old(w).disk.lane, x)
    {
      Take(Commit(m));
      OutsideSettles(rising, Do(old(w), Commit(m)), w);
      ReplacedStay(rising, Do(old(w), Commit(m)), w, m);
    }

    /** Commits the chunks, and rolls them forward; given up, the tail is as it was. */
    method CommitAndSwap(m: Manifest, ghost files: seq<seq<Event>>, ghost gen: nat) returns (given: bool)
      requires Valid() && TailListed(rising, w, m.replaced, files, gen)
      requires Enabled(w, Commit(m)) && (rising ==> InOrder(w, Commit(m)))
      modifies this
      ensures Valid() && Settled(old(w), w) && w.disk.manifest.None?
      ensures NoneLost(old(w), w) ==> !given && SwappedIn(rising, w, m.replaced, m.staged, Join(files))
      ensures given ==> forall i | 0 <= i < |m.replaced| :: At(w.disk.lane, m.replaced[i]) == Some(files[i])
    {
      Sound();
      CommitIt(m);
      ghost var w1 := w;
      var ok;
      ok, given := RollForward(m);
      SettledTwice(old(w), w1, w);
      TailIsThere(rising, old(w), m.replaced, files, gen);
      assert ok;
      if NoneLost(old(w), w) {
        ChunksAll(rising, old(w), m, w1);
        SwapDone(rising, old(w), m, files, gen, w1, w);
      }
    }

    /** Finishes an interrupted compaction, false if it cannot, and begins one when it is time. */
    method Housekeep() returns (ok: bool)
      requires Valid()
      modifies this
      ensures Valid() && Settled(old(w), w)
      ensures ok <==> w.disk.manifest.None?
    {
      ok := RecoverCompaction();
      var due: bool := *;
      if ok && due {
        ghost var w1 := w;
        var done, chunkNames := CompactTail();
        SettledTwice(old(w), w1, w);
      }
    }

    /** Keeps the batch in hand before it is sent. */
    method SaveInflight(f: Inflight)
      requires Valid() && Idle() && Enabled(w, SpoolWorld.SaveInflight(f))
      requires rising ==> InOrder(w, SpoolWorld.SaveInflight(f))
      modifies this
      ensures Valid() && w.disk.inflight == Some(f) && NextOk(w, f.first)
    {
      Sound();
      ListingIs(w.disk.lane.Keys);
      assert forall x | x in f.files :: x in NameSet(Listing(w.disk.lane.Keys));
      Take(SpoolWorld.SaveInflight(f));
    }

    /** Sends the batch in flight. MAIN may get it or not, and its reply may be lost. */
    method Post(f: Inflight) returns (reply: Reply)
      requires Valid() && w.disk.inflight == Some(f) && NameSet(f.files) <= w.disk.lane.Keys
      modifies this
      ensures Valid() && Settled(old(w), w)
      ensures NameSet(f.files) <= w.disk.lane.Keys && Batch(w.disk, f) == Batch(old(w).disk, f)
      ensures !reply.Gap?
      ensures reply.Served? ==> Applied(w, f) && reply.useq == |w.log|
    {
      SendOut(f);
      if * {
        return Lost;
      }
      reply := GetThrough(f);
      if * {
        reply := Lost;
      }
    }

    method SendOut(f: Inflight)
      requires Valid() && w.disk.inflight == Some(f) && NameSet(f.files) <= w.disk.lane.Keys
      modifies this
      ensures Valid() && Settled(old(w), w) && Batch(w.disk, f) in w.sent
      ensures NameSet(f.files) <= w.disk.lane.Keys && Batch(w.disk, f) == Batch(old(w).disk, f)
    {
      Take(Send);
      OutsideSettles(rising, Do(old(w), Send), w);
      ResendsTheSame(rising, old(w), w);
    }

    /** MAIN gets the batch and answers: it never tells of a gap. */
    method GetThrough(f: Inflight) returns (reply: Reply)
      requires Valid() && w.disk.inflight == Some(f) && Batch(w.disk, f) in w.sent
               && NameSet(f.files) <= w.disk.lane.Keys
      modifies this
      ensures Valid() && Settled(old(w), w)
      ensures NameSet(f.files) <= w.disk.lane.Keys && Batch(w.disk, f) == Batch(old(w).disk, f)
      ensures reply.Served? && Applied(w, f) && reply.useq == |w.log|
    {
      var r, cursor := Batch(w.disk, f), |w.log|;
      Sound();
      OutsideStep(rising, w, Deliver(r));
      OutsideSettles(rising, w, Do(w, Deliver(r)));
      AppliedNow(w, f);
      Act(Deliver(r));
      if r.first > cursor + 1 {
        assert false;
      }
      reply := Served(|w.log|);
      ghost var w1 := w;
      Interfere();
      OutsideSettles(rising, w1, w);
      StaysThere(rising, w1, w, f);
    }

    /** Sends at most one batch, one in flight before any other; the number the next event has. */
    method ShipOnce(next: nat) returns (next': nat, served: bool)
      requires Valid() && NextOk(w, next)
      modifies this
      ensures Valid() && NextOk(w, next')
      ensures served ==> w.disk.inflight.None? && next' == |w.log| + 1
    {
      next', served := next, false;
      var ok := Housekeep();
      NextStays(old(w), w, next);
      Sound();
      if !ok {
        return;
      }
      var f;
      match w.disk.inflight {
        case None =>
          var files, count := Collect();
          if count == 0 {
            return;
          }
          f := Inflight(next, count, files);
          SaveInflight(f);
        case Some(fl) =>
          f := fl;
          if fl.first + fl.count - 1 < next {
            AllApplied(w, fl, next);
            Finish(fl);
            return;
          } else if fl.first != next {
            assert false;
          }
      }
      next', served := Ship(f);
    }

    /** Sends the batch in flight, and ends it if it was applied. */
    method Ship(f: Inflight) returns (next': nat, served: bool)
      requires Valid() && w.disk.inflight == Some(f) && NextOk(w, f.first)
      modifies this
      ensures Valid() && NextOk(w, next')
      ensures served ==> w.disk.inflight.None? && next' == |w.log| + 1
      ensures served ==> InLog(w.log, Request(f.first, Content(old(w).disk.lane, f.files)))
    {
      next', served := f.first, false;
      Sound();
      FirstMeansThere(w, f);
      var events := Content(w.disk.lane, f.files);
      if |events| != f.count {
        assert false;
      }
      var reply := Post(f);
      NextStays(old(w), w, f.first);
      if reply.Served? {
        Sound();
        Finish(f);
        next' := Max(f.first + f.count, reply.useq + 1);
        served := true;
      }
    }

    /** The lane's loop: nothing is sent before MAIN's cursor is known, which a greeting may tell at any
        time. */
    method RunEvents(passes: nat)
      requires Valid()
      modifies this
      ensures Valid()
    {
      var next: nat, cursor: int := 0, -1;
      for i := 0 to passes
        invariant Valid() && NumbersOk(w, next, cursor)
      {
        ghost var before := w;
        Interfere();
        NumbersStay(rising, before, w, next, cursor);
        var greeted: bool := *;
        if next == 0 && greeted {
          Sound();
          CursorIsNext(w);
          cursor := |w.log|;
        }
        next := Pass(next, cursor);
      }
    }

    method Pass(next: nat, cursor: int) returns (next': nat)
      requires Valid() && NumbersOk(w, next, cursor)
      modifies this
      ensures Valid() && NumbersOk(w, next', cursor)
    {
      next' := next;
      if next == 0 && cursor < 0 {
        var ok := Housekeep();
      } else {
        var served;
        next', served := ShipOnce(if next == 0 then cursor + 1 else next);
        Sound();
      }
    }
  }

  lemma {:induction false} TailIsThere(rising: bool, w: World, tail: seq<Name>, files: seq<seq<Event>>, gen: nat)
    requires TailListed(rising, w, tail, files, gen)
    ensures forall x | x in tail :: x in w.disk.lane
    ensures forall i | 0 <= i < |tail| :: At(w.disk.lane, tail[i]) == Some(files[i])
  {
    assert forall x | x in tail :: x in NameSet(tail);
  }

  lemma {:induction false} CourseBegins(rising: bool, w: World, w': World)
    requires Inv(w) && Outside(rising, Do(w, Stop), w')
    ensures OnCourse(rising, w, w')
  {
    StepKeeps(w, Stop);
    if NoneLost(w, w') {
      RecoveredOutside(rising, Do(w, Stop), w');
      assert Recovered(Do(w, Stop)) == Recovered(w);
    }
  }

  lemma {:induction false} RecoveredNow(w: World)
    requires RollOk(w) && w.disk.manifest.None? && w.disk.staging.None?
    ensures Recovered(w) == w
  {
  }

  lemma {:induction false} ReplacedStay(rising: bool, w: World, w': World, m: Manifest)
    requires w.disk.manifest == Some(m) && Outside(rising, w, w')
    ensures forall x | x in m.replaced :: At(w'.disk.lane, x) == At(w.disk.lane, x)
  {
  }

  lemma {:induction false} RecoveringSettles(rising: bool, w: World, a: Action, w': World)
    requires SwapOk(w) && Enabled(w, a) && Recovers(w.disk, a) && Outside(rising, Do(w, a), w')
    ensures Settled(w, w')
  {
    OutsideSettles(rising, Do(w, a), w');
    if a.RemoveReplaced? {
      assert a.name in NameSet(w.disk.manifest.v.replaced);
    }
  }

  lemma {:induction false} SettledTwice(a: World, b: World, c: World)
    requires Settled(a, b) && Settled(b, c)
    ensures Settled(a, c)
  {
  }

  lemma {:induction false} NotYet(names: seq<Name>, i: nat)
    requires Ordered(names) && i < |names|
    ensures names[i] !in NameSet(names[..i])
  {
  }

  /** A chunk missing with none lost since was missing at first. */
  lemma {:induction false} MissingBefore(rising: bool, w0: World, w: World, m: Manifest, x: Name)
    requires OnCourse(rising, w0, w) && w0.disk.manifest == w.disk.manifest == Some(m) && x in m.staged
    requires Missing(w.disk, x) && forall y | y in m.replaced :: At(w.disk.lane, y) == At(w0.disk.lane, y)
    ensures NoneLost(w0, w) ==> !AllChunks(w0.disk, m)
  {
    if NoneLost(w0, w) && AllChunks(w0.disk, m) {
      RecoversFiles(w0.disk, m);
      assert false;
    }
  }

  lemma {:induction false} StillTorn(rising: bool, w: World, w': World)
    requires Torn(w.disk) && Outside(rising, Do(w, Stop), w')
    ensures NoneLost(w, w') ==> Recovered(w') == w'
  {
  }

  lemma {:induction false} StillListed(w: World, w': World, tail: seq<Name>, files: seq<seq<Event>>)
    requires |files| == |tail| && forall i | 0 <= i < |tail| :: At(w.disk.lane, tail[i]) == Some(files[i])
    requires forall i | 0 <= i < |tail| :: At(w'.disk.lane, tail[i]) == Some(files[i])
    ensures forall x | x in tail :: At(w'.disk.lane, x) == At(w.disk.lane, x)
  {
    forall x | x in tail ensures At(w'.disk.lane, x) == At(w.disk.lane, x) {
      var i :| 0 <= i < |tail| && tail[i] == x;
      assert At(w.disk.lane, tail[i]) == Some(files[i]);
    }
  }

  /** A number past the batch in flight says that it was applied. */
  lemma {:induction false} AllApplied(w: World, f: Inflight, next: nat)
    requires InflightOk(w) && w.disk.inflight == Some(f) && NextOk(w, next) && f.first + f.count - 1 < next
    ensures Applied(w, f) && next == |w.log| + 1
  {
  }

  lemma {:induction false} FirstMeansThere(w: World, f: Inflight)
    requires InflightOk(w) && w.disk.inflight == Some(f) && NextOk(w, f.first)
    ensures NameSet(f.files) <= w.disk.lane.Keys && |Content(w.disk.lane, f.files)| == f.count
  {
  }

  lemma {:induction false} StaysThere(rising: bool, w: World, w': World, f: Inflight)
    requires NameSet(f.files) <= w.disk.lane.Keys && Outside(rising, w, w')
    ensures NameSet(f.files) <= w'.disk.lane.Keys && Batch(w'.disk, f) == Batch(w.disk, f)
  {
    assert forall x | x in f.files :: x in NameSet(f.files);
    ContentSame(w'.disk.lane, w.disk.lane, f.files);
  }

  lemma {:induction false} ResendsTheSame(rising: bool, w: World, w': World)
    requires w.disk.inflight.Some? && NameSet(w.disk.inflight.v.files) <= w.disk.lane.Keys
             && Outside(rising, Do(w, Send), w')
    ensures Batch(w'.disk, w.disk.inflight.v) == Batch(w.disk, w.disk.inflight.v)
    ensures Batch(w.disk, w.disk.inflight.v) in w'.sent
  {
    var files := w.disk.inflight.v.files;
    assert forall x | x in files :: x in NameSet(files);
    ContentSame(w'.disk.lane, w.disk.lane, files);
  }

  /** MAIN having got the batch in flight, it has applied it. */
  lemma {:induction false} AppliedNow(w: World, f: Inflight)
    requires InflightOk(w) && SentOk(w) && w.disk.inflight == Some(f) && Batch(w.disk, f) in w.sent
    requires NameSet(f.files) <= w.disk.lane.Keys
    ensures Applied(Do(w, Deliver(Batch(w.disk, f))), f)
  {
  }

  lemma {:induction false} BeginsAsListed(rising: bool, lane: Files, entries: seq<Name>)
    requires entries == Listing(lane.Keys)
    ensures AsListed(rising, lane, lane, [], entries[0..])
  {
    ListingIs(lane.Keys);
    assert [] + entries[0..] == entries;
    assert forall x | x in entries :: x in NameSet(entries);
  }

  lemma {:induction false} EntryAsListed(
      rising: bool, lane: Files, now: Files, files: seq<Name>, entries: seq<Name>, i: nat)
    requires i < |entries| && AsListed(rising, lane, now, files, entries[i..])
    ensures entries[i] in lane && At(now, entries[i]) == At(lane, entries[i])
    ensures files + [entries[i]] + entries[i + 1..] == files + entries[i..]
  {
    assert entries[i] in files + entries[i..] by {
      assert (files + entries[i..])[|files|] == entries[i];
    }
  }

  lemma {:induction false} RestAsListed(
      rising: bool, lane: Files, was: Files, now: Files, files: seq<Name>, entries: seq<Name>, i: nat)
    requires i < |entries| && AsListed(rising, lane, was, files, entries[i..])
    requires rising ==> files + entries[i + 1..] <= Listing(now.Keys)
    requires forall y | y in files + entries[i + 1..] && y in was :: At(now, y) == At(was, y)
    ensures AsListed(rising, lane, now, files, entries[i + 1..])
  {
    EntryAsListed(rising, lane, was, files, entries, i);
    OrderedWithout(files, entries[i], entries[i + 1..]);
    forall x | x in files + entries[i + 1..] ensures x in lane && At(now, x) == At(lane, x) {
      assert x in files + entries[i..] by {
        EntryAsListed(rising, lane, was, files, entries, i);
      }
      assert At(was, x) == At(lane, x);
    }
  }

  lemma {:induction false} Collected(rising: bool, lane: Files, now: Files, files: seq<Name>, rest: seq<Name>)
    requires AsListed(rising, lane, now, files, rest)
    ensures Ordered(files) && (rising ==> files <= Listing(now.Keys)) && Content(now, files) == Content(lane, files)
    ensures forall x | x in files :: x in now && now[x] == lane[x]
  {
    assert forall x | x in files :: x in files + rest;
    forall i, j | 0 <= i < j < |files| ensures Before(files[i], files[j]) {
      assert (files + rest)[i] == files[i] && (files + rest)[j] == files[j];
    }
    forall x | x in files ensures x in now && x in lane && now[x] == lane[x] {
      assert At(now, x) == At(lane, x);
    }
    ContentSame(now, lane, files);
  }
}
