/** A run in which a merged event that fits no batch is lost for good: everything spooled is compacted and
sent, and MAIN's store is not what the events make. */
module SpoolLoss {
  import opened Maps
  import opened SpoolEvents
  import opened MainStore
  import opened Compaction
  import opened ReadBack
  import opened LaneNames
  import opened SpoolWorld
  import opened SpoolSafety
  import opened SpoolOrder
  import opened LaneOutside
  import MergedTooLong

  const FILE := Name(1, 0, 0)
  const CHUNK := Name(1, 1, 0)
  const SWAPPED := Manifest([FILE], [CHUNK])

  /** The world with a disk, its log empty and some events spooled. */
  function Resting(disk: Disk, fits: Event -> bool, evs: seq<Event>, used: set<Name>, swap: Swap): World {
    World(disk, [], {}, fits, evs, used, if used == {} then 0 else 1, swap, Roll({}, {}, false, 0))
  }

  lemma {:induction false} OnlyOne(x: Name)
    ensures NameSet([x]) == {x} && Ordered([x]) && Listing({x}) == [x]
  {
    assert NameSet([x]) == {x};
    ListingUnique([x]);
  }

  lemma {:induction false} OneContent(files: Files, x: Name)
    requires x in files
    ensures Content(files, [x]) == files[x]
  {
    assert [x][1..] == [];
  }

  /** The step from w to w', in order. */
  lemma {:induction false} Next(ws: seq<World>, a: Action, w': World) returns (ws': seq<World>)
    requires OrderedRun(ws) && Enabled(ws[|ws| - 1], a) && InOrder(ws[|ws| - 1], a) && w' == Do(ws[|ws| - 1], a)
    ensures OrderedRun(ws') && ws' == ws + [w']
  {
    OrderedGrows(ws, ws[|ws| - 1], a);
    ws' := ws + [w'];
  }

  /** The world with the roll forward having found the chunk. */
  function Found(disk: Disk, fits: Event -> bool, evs: seq<Event>, swap: Swap, lost: set<Name>, losses: nat): World {
    World(disk, [], {}, fits, evs, {FILE}, 1, swap, Roll({CHUNK}, lost, false, losses))
  }

  /** Up to the chunk being staged. */
  lemma {:induction false} Staging(evs: seq<Event>, fits: Event -> bool, chunk: seq<Event>) returns (ws: seq<World>)
    requires AllReadable(evs) && AllReadable(chunk)
    ensures OrderedRun(ws)
    ensures ws[|ws| - 1] ==
            Resting(
              Disk(map[FILE := evs], Some(map[CHUNK := chunk]), None, None), fits, evs, {FILE}, Swap(map[], map[]))
  {
    var none := Swap(map[], map[]);
    var w0 := Resting(Disk(map[], None, None, None), fits, [], {}, none);
    var w1 := Resting(Disk(map[FILE := evs], None, None, None), fits, evs, {FILE}, none);
    var w2 := Resting(Disk(map[FILE := evs], Some(map[]), None, None), fits, evs, {FILE}, none);
    ws := [w0];
    assert [] + evs == evs && {} + {FILE} == {FILE};
    ws := Next(ws, Arrive(FILE, evs), w1);
    ws := Next(ws, MakeStaging, w2);
    ws := Next(ws, WriteChunk(CHUNK, chunk),
        Resting(Disk(map[FILE := evs], Some(map[CHUNK := chunk]), None, None), fits, evs, {FILE}, none));
  }

  lemma {:induction false} MayCommitIt(w: World, evs: seq<Event>, chunk: seq<Event>)
    requires w.disk == Disk(map[FILE := evs], Some(map[CHUNK := chunk]), None, None)
    requires CompactRead(evs, w.fits) == chunk
    ensures Enabled(w, Commit(SWAPPED)) && InOrder(w, Commit(SWAPPED))
  {
    OnlyOne(FILE);
    OnlyOne(CHUNK);
    OneContent(w.disk.lane, FILE);
    OneContent(w.disk.staging.v, CHUNK);
    assert Behind(w.disk) == {FILE};
    assert w.disk.staging.v.Keys == {CHUNK};
    assert Newer(w.disk, SWAPPED) == {};
  }

  lemma {:induction false} Committing(w: World, evs: seq<Event>, chunk: seq<Event>)
    requires w.disk == Disk(map[FILE := evs], Some(map[CHUNK := chunk]), None, None)
    ensures Do(w, Commit(SWAPPED)) ==
            w.(disk := w.disk.(manifest := Some(SWAPPED)), swap := Swap(map[FILE := evs], map[CHUNK := chunk]),
               roll := Forgotten(w.roll))
  {
    assert (map x | x in w.disk.lane && x in [FILE] :: w.disk.lane[x]) == map[FILE := evs];
    assert (map x | x in w.disk.staging.v && x in [CHUNK] :: w.disk.staging.v[x]) == map[CHUNK := chunk];
  }

  /** Up to the chunk being found by the roll forward. */
  lemma {:induction false} Finding(evs: seq<Event>, fits: Event -> bool, chunk: seq<Event>) returns (ws: seq<World>)
    requires AllReadable(evs) && AllReadable(chunk) && CompactRead(evs, fits) == chunk
    ensures OrderedRun(ws)
    ensures var was, now := map[FILE := evs], map[CHUNK := chunk];
            ws[|ws| - 1] == Found(Disk(was, Some(now), Some(SWAPPED), None), fits, evs, Swap(was, now), {}, 0)
  {
    ws := Staging(evs, fits, chunk);
    var was, now := map[FILE := evs], map[CHUNK := chunk];
    var disk, swap := Disk(was, Some(now), Some(SWAPPED), None), Swap(was, now);
    MayCommitIt(ws[|ws| - 1], evs, chunk);
    Committing(ws[|ws| - 1], evs, chunk);
    ws := Next(ws, Commit(SWAPPED), Resting(disk, fits, evs, {FILE}, swap));
    assert {} + {CHUNK} == {CHUNK};
    ws := Next(ws, Look(CHUNK), Found(disk, fits, evs, swap, {}, 0));
  }

  /** A tail of which nothing is read back is gone once it is compacted, and MAIN never had it. */
  lemma {:induction false} LostForGood(evs: seq<Event>, fits: Event -> bool) returns (ws: seq<World>)
    requires AllReadable(evs) && CompactRead(evs, fits) == []
    ensures OrderedRun(ws)
    ensures var w := ws[|ws| - 1]; AllSent(w.disk) && w.log == [] && w.spooled == evs && w.roll.losses == 0
  {
    ws := Finding(evs, fits, []);
    var now := map[CHUNK := []];
    var swap := Swap(map[FILE := evs], now);
    OnlyOne(CHUNK);
    assert map[FILE := evs] - {FILE} == map[];
    ws := Next(ws, RemoveReplaced(FILE), Found(Disk(map[], Some(now), Some(SWAPPED), None), fits, evs, swap, {}, 0));
    assert now - {CHUNK} == map[];
    ws := Next(ws, MoveChunk(CHUNK), Found(Disk(now, Some(map[]), Some(SWAPPED), None), fits, evs, swap, {}, 0));
    ws := Next(ws, ClearStaging, Found(Disk(now, None, Some(SWAPPED), None), fits, evs, swap, {}, 0));
    ws := Next(ws, DropManifest, Resting(Disk(now, None, None, None), fits, evs, {FILE}, swap));
    ws := Next(ws, RemoveEmpty(CHUNK), Resting(Disk(map[], None, None, None), fits, evs, {FILE}, swap));
  }

  /** A chunk lost after the roll forward found it takes its events with it: what it replaces is removed all
      the same, nothing holds the lane, and MAIN never has them. */
  lemma {:induction false} MissedForGood(evs: seq<Event>, fits: Event -> bool) returns (ws: seq<World>)
    requires AllReadable(evs) && AllReadable(CompactRead(evs, fits))
    ensures OrderedRun(ws)
    ensures var w := ws[|ws| - 1]; AllSent(w.disk) && w.log == [] && w.spooled == evs && w.roll.short
  {
    var chunk := CompactRead(evs, fits);
    ws := Finding(evs, fits, chunk);
    var was, now := map[FILE := evs], map[CHUNK := chunk];
    var swap := Swap(was, now);
    OnlyOne(CHUNK);
    assert now - {CHUNK} == map[];
    assert {} + {CHUNK} == {CHUNK};
    ws := Next(ws, LoseChunk(CHUNK),
        Found(Disk(was, Some(map[]), Some(SWAPPED), None), fits, evs, swap, {CHUNK}, 1));
    assert was - {FILE} == map[];
    ws := Next(ws, RemoveReplaced(FILE),
        Found(Disk(map[], Some(map[]), Some(SWAPPED), None), fits, evs, swap, {CHUNK}, 1));
    ws := Next(ws, ClearStaging, Found(Disk(map[], None, Some(SWAPPED), None), fits, evs, swap, {CHUNK}, 1));
    assert CHUNK in {CHUNK};
    ws := Next(ws, DropManifest,
        Found(Disk(map[], None, None, None), fits, evs, swap, {}, 1).(roll := Roll({}, {}, true, 1)));
  }

  /** An event of a kind compaction does not know. */
  const OTHER := Event("x", Json.Null, map[])

  lemma {:induction false} MissedHappens(fits: Event -> bool) returns (ws: seq<World>)
    ensures OrderedRun(ws)
    ensures var w := ws[|ws| - 1]; AllSent(w.disk) && w.roll.short && NeverFolds(OTHER) && Excess(w, OTHER) == -1
  {
    var evs := [OTHER];
    FittingAreRead(evs, fits);
    assert Items(evs)[0].c.Keep?;
    assert CompactEvents(evs) == evs by {
      assert Outs(Items(evs), 1) == Outs(Items(evs), 0) + Listed(Out(Items(evs), 0));
    }
    ws := MissedForGood(evs, fits);
    AllSentPlan(ws[|ws| - 1]);
  }

  /** Two states of a node whose merge fits no batch: they are spooled, compacted and sent, in order, and
      MAIN has no row of the node. */
  lemma {:induction false} LossHappens(a: string, b: string, fits: Event -> bool) returns (ws: seq<World>)
    requires a != b && !fits(MergedTooLong.Both(a, b))
    ensures OrderedRun(ws)
    ensures var w := ws[|ws| - 1]; AllSent(w.disk) && Meaning(EMPTY, w.log) != Meaning(EMPTY, w.spooled)
  {
    var evs := [MergedTooLong.State(a), MergedTooLong.State(b)];
    MergedTooLong.NothingRead(a, b, fits);
    MergedTooLong.BothMerged(a, b);
    LosesARow(evs, fits, 1);
    ws := LostForGood(evs, fits);
  }
}
