/** The P0 lane with its compaction and its delivery as one machine: what is on the node's disk, what
MAIN has applied, and every request ever sent to it (which may still arrive, again and at any time).
A file may be spooled under any name not used yet: one whose clock was read before another's may come
after it, even inside a tail being compacted. `InOrder` marks the steps of a run in which it does not.

Each action is one file operation, one look at a file, one request, or one arrival. Of what the agent keeps
in memory only the chunks a roll forward has found are part of the machine, and a crash (`Stop`) forgets
them: what holds in every reachable world holds after a crash at any point (compact.go, `commit`,
`rollForward`, `abandon`, `recoverCompaction`; events.go, `shipOnce`, `collect`, `finish`). A staged chunk may
be lost at any time after the commit. */
module SpoolWorld {
  import opened Maps
  import opened SpoolEvents
  import opened MainStore
  import opened Compaction
  import opened ReadBack
  import opened LaneNames

  datatype Manifest = Manifest(replaced: seq<Name>, staged: seq<Name>)

  datatype Inflight = Inflight(first: nat, count: nat, files: seq<Name>)

  datatype Disk = Disk(lane: Files, staging: Opt<Files>, manifest: Opt<Manifest>, inflight: Opt<Inflight>)

  /** A batch as sent: the number of its first event, and its events. */
  datatype Request = Request(first: nat, events: seq<Event>)

  /** The files a committed compaction replaces, and its chunks, as they were at the commit. */
  datatype Swap = Swap(was: Files, now: Files)

  /** seen are the chunks the roll forward under way has found, and lost those of them gone since; short says
      that a roll forward ended with some lost, and losses counts the chunks ever lost. */
  datatype Roll = Roll(seen: set<Name>, lost: set<Name>, short: bool, losses: nat)

  /** log is what MAIN applied, its cursor being |log|; fits tells the events a batch has room for, encoded
      anew; spooled is every event ever spooled, as they came, and used the names they came under; top bounds
      the clocks of all file names so far. spooled, used, top and swap only serve to state, and of roll all
      but seen. */
  datatype World = World(
    disk: Disk, log: seq<Event>, sent: set<Request>, fits: Event -> bool,
    spooled: seq<Event>, used: set<Name>, top: nat, swap: Swap, roll: Roll)

  datatype Action =
    | Arrive(name: Name, events: seq<Event>)
    | Deliver(req: Request)
    | RemoveEmpty(name: Name)
    | SaveInflight(fl: Inflight)
    | Send
    | RemoveSent(name: Name)
    | DropInflight
    | ClearStaging
    | RemoveStaged(name: Name)
    | MakeStaging
    | WriteChunk(name: Name, events: seq<Event>)
    | Commit(m: Manifest)
    | Look(name: Name)
    | Stop
    | RemoveReplaced(name: Name)
    | MoveChunk(name: Name)
    | DropManifest
    | Abandon
    | LoseChunk(name: Name)

  // ---------------------------------------------------------------- MAIN

  /** MAIN's contract for a batch: numbers at or below its cursor are never applied again, the rest is
      applied together with the cursor, and a gap changes nothing. */
  function Receive(log: seq<Event>, r: Request): seq<Event> {
    if r.first < 1 || r.first > |log| + 1 then log
    else
      var known := |log| + 1 - r.first;
      if known >= |r.events| then log else log + r.events[known..]
  }

  // ---------------------------------------------------------------- what the disk says

  function InflightNames(d: Disk): set<Name> {
    if d.inflight.Some? then NameSet(d.inflight.v.files) else {}
  }

  /** MAIN's cursor covers the batch. */
  predicate Applied(w: World, f: Inflight) {
    |w.log| + 1 >= f.first + f.count
  }

  function Batch(d: Disk, f: Inflight): Request {
    Request(f.first, Content(d.lane, f.files))
  }

  predicate Staged(d: Disk, x: Name) {
    d.staging.Some? && x in d.staging.v
  }

  /** Every chunk is in staging or moved in. */
  predicate AllChunks(d: Disk, m: Manifest) {
    forall x | x in m.staged :: Staged(d, x) || x in d.lane
  }

  predicate ReplacedGone(d: Disk, m: Manifest) {
    forall x | x in m.replaced :: x !in d.lane
  }

  predicate ChunksIn(d: Disk, m: Manifest) {
    forall x | x in m.staged :: x in d.lane
  }

  /** The lane's files behind the in-flight batch. */
  function Behind(d: Disk): set<Name> {
    d.lane.Keys - InflightNames(d)
  }

  /** The files that came since a committed compaction listed its tail. */
  function Newer(d: Disk, m: Manifest): set<Name> {
    Behind(d) - NameSet(m.replaced) - NameSet(m.staged)
  }

  // ---------------------------------------------------------------- the actions

  /** The roll forward has found every chunk. */
  predicate AllSeen(w: World, m: Manifest) {
    NameSet(m.staged) <= w.roll.seen
  }

  predicate NoneStaged(d: Disk, m: Manifest) {
    forall x | x in m.staged :: !Staged(d, x)
  }

  /** The chunk is neither in staging nor moved in. */
  predicate Missing(d: Disk, x: Name) {
    !Staged(d, x) && x !in d.lane
  }

  predicate StagingFree(w: World) {
    w.disk.manifest.Some? ==>
      var m := w.disk.manifest.v; AllSeen(w, m) && ReplacedGone(w.disk, m) && NoneStaged(w.disk, m)
  }

  predicate AllReadable(evs: seq<Event>) {
    forall i | 0 <= i < |evs| :: Readable(evs[i])
  }

  /** No file was ever spooled under the name, none has it, and no record on the disk names it. */
  predicate Unused(w: World, x: Name) {
    && x !in w.used && x !in w.disk.lane && x !in InflightNames(w.disk)
    && (w.disk.manifest.Some? ==> x !in w.disk.manifest.v.replaced && x !in w.disk.manifest.v.staged)
  }

  /** The staged chunks are, as they will be read, the compaction of files behind the batch. */
  ghost predicate CanCommit(d: Disk, m: Manifest, fits: Event -> bool) {
    && d.manifest.None? && d.staging.Some? && d.staging.v.Keys == NameSet(m.staged)
    && m.replaced != [] && Ordered(m.replaced) && NameSet(m.replaced) <= Behind(d)
    && Ordered(m.staged) && (forall x | x in m.staged :: x.gen > 0 && x !in d.lane && x !in InflightNames(d))
    && Content(d.staging.v, m.staged) == CompactRead(Content(d.lane, m.replaced), fits)
  }

  ghost predicate Enabled(w: World, a: Action) {
    var d := w.disk;
    match a
    case Arrive(x, evs) => x.gen == 0 && Unused(w, x) && AllReadable(evs)
    case Deliver(r) => r in w.sent
    case RemoveEmpty(x) => d.manifest.None? && d.inflight.None? && x in d.lane && d.lane[x] == []
    case SaveInflight(f) =>
      && d.manifest.None? && d.inflight.None?
      && Ordered(f.files) && NameSet(f.files) <= d.lane.Keys
      && (forall x | x in f.files && x in d.lane :: d.lane[x] != [])
      && f.first == |w.log| + 1 && f.count == |Content(d.lane, f.files)| > 0
    case Send => d.inflight.Some? && NameSet(d.inflight.v.files) <= d.lane.Keys
    case RemoveSent(x) => d.inflight.Some? && Applied(w, d.inflight.v) && x in d.inflight.v.files
    case DropInflight =>
      && d.inflight.Some? && Applied(w, d.inflight.v)
      && forall x | x in d.inflight.v.files :: x !in d.lane
    case ClearStaging => StagingFree(w)
    case RemoveStaged(_) => StagingFree(w)
    case MakeStaging => d.manifest.None? && d.staging.None?
    case WriteChunk(_, evs) => d.manifest.None? && d.staging.Some? && AllReadable(evs)
    case Commit(m) => CanCommit(d, m, w.fits)
    case Look(x) => d.manifest.Some? && x in d.manifest.v.staged && !Missing(d, x)
    case Stop => true
    case RemoveReplaced(x) => d.manifest.Some? && AllSeen(w, d.manifest.v) && x in d.manifest.v.replaced
    case MoveChunk(x) =>
      && d.manifest.Some? && AllSeen(w, d.manifest.v) && ReplacedGone(d, d.manifest.v)
      && Staged(d, x) && x in d.manifest.v.staged
    case DropManifest => d.manifest.Some? && StagingFree(w)
    case Abandon =>
      && d.manifest.Some? && (exists x | x in d.manifest.v.staged :: Missing(d, x) && x !in w.roll.seen)
      && forall x | x in d.manifest.v.replaced :: x in d.lane
    case LoseChunk(x) => d.manifest.Some? && Staged(d, x)
  }

  /** The world after an action. */
  function Do(w: World, a: Action): World {
    var d := w.disk;
    match a
    case Arrive(x, evs) =>
      w.(disk := d.(lane := d.lane[x := evs]), spooled := w.spooled + evs, used := w.used + {x},
         top := if x.clock > w.top then x.clock else w.top)
    case Deliver(r) => w.(log := Receive(w.log, r))
    case RemoveEmpty(x) => w.(disk := d.(lane := d.lane - {x}))
    case SaveInflight(f) => w.(disk := d.(inflight := Some(f)))
    case Send => if d.inflight.Some? then w.(sent := w.sent + {Batch(d, d.inflight.v)}) else w
    case RemoveSent(x) => w.(disk := d.(lane := d.lane - {x}))
    case DropInflight => w.(disk := d.(inflight := None))
    case ClearStaging => w.(disk := d.(staging := None))
    case RemoveStaged(x) => if d.staging.Some? then w.(disk := d.(staging := Some(d.staging.v - {x}))) else w
    case MakeStaging => w.(disk := d.(staging := Some(map[])))
    case WriteChunk(x, evs) => if d.staging.Some? then w.(disk := d.(staging := Some(d.staging.v[x := evs]))) else w
    case Commit(m) =>
      w.(disk := d.(manifest := Some(m)), roll := Forgotten(w.roll),
         swap := Swap(map x | x in d.lane && x in m.replaced :: d.lane[x],
                      if d.staging.Some? then map x | x in d.staging.v && x in m.staged :: d.staging.v[x] else map[]))
    case Look(x) => w.(roll := w.roll.(seen := w.roll.seen + {x}))
    case Stop => w.(roll := Forgotten(w.roll))
    case RemoveReplaced(x) => w.(disk := d.(lane := d.lane - {x}))
    case MoveChunk(x) =>
      if Staged(d, x) then w.(disk := d.(lane := d.lane[x := d.staging.v[x]], staging := Some(d.staging.v - {x})))
          else w
    case DropManifest =>
      w.(disk := d.(manifest := None), roll := Forgotten(w.roll).(short := w.roll.short || w.roll.lost != {}))
    case Abandon => w.(disk := d.(manifest := None), roll := Forgotten(w.roll))
    case LoseChunk(x) =>
      if d.staging.Some? then
        w.(disk := d.(staging := Some(d.staging.v - {x})),
           roll := w.roll.(lost := if x in w.roll.seen && x !in d.lane then w.roll.lost + {x} else w.roll.lost,
                           losses := w.roll.losses + 1))
      else w
  }

  /** A roll forward begins with nothing found. */
  function Forgotten(r: Roll): Roll {
    r.(seen := {}, lost := {})
  }

  /** The step keeps the order files were spooled in: each is spooled under a later clock than all before
      it, and the oldest files are sent, and compacted, first. */
  ghost predicate InOrder(w: World, a: Action) {
    var d := w.disk;
    match a
    case Arrive(x, _) => x.clock > w.top
    case SaveInflight(f) => f.files <= Listing(d.lane.Keys)
    case Commit(m) =>
      && m.replaced != [] && m.replaced <= Listing(Behind(d))
      && forall x | x in m.staged :: x.clock == m.replaced[0].clock && forall y | y in Newer(d, m) :: x.clock < y.clock
    case _ => true
  }

  ghost predicate Took(w: World, a: Action, w': World) {
    Enabled(w, a) && w' == Do(w, a)
  }

  ghost predicate Step(w: World, w': World) {
    exists a :: Took(w, a, w')
  }

  // ---------------------------------------------------------------- what every reachable world keeps

  /** The events still to be applied of the in-flight batch. */
  function Unapplied(w: World): seq<Event> {
    if w.disk.inflight.Some? && !Applied(w, w.disk.inflight.v) then Content(w.disk.lane, w.disk.inflight.v.files)
        else []
  }

  /** The events behind the in-flight batch; a committed compaction counts as done. */
  ghost function Tail(w: World): seq<Event> {
    var d := w.disk;
    match d.manifest
    case None => Content(d.lane, Listing(Behind(d)))
    case Some(m) => Content(w.swap.now, m.staged) + Content(d.lane, Listing(Newer(d, m)))
  }

  /** Everything MAIN has applied or will. */
  ghost function Plan(w: World): seq<Event> {
    w.log + Unapplied(w) + Tail(w)
  }

  predicate InLog(log: seq<Event>, r: Request) {
    1 <= r.first && r.first - 1 + |r.events| <= |log| && log[r.first - 1..r.first - 1 + |r.events|] == r.events
  }

  ghost predicate InflightOk(w: World) {
    w.disk.inflight.Some? ==>
      var f := w.disk.inflight.v;
      && f.first >= 1 && f.count >= 1
      && (forall x | x in f.files && x in w.disk.lane :: w.disk.lane[x] != [])
      && (if Applied(w, f) then
            && |w.log| + 1 == f.first + f.count
            && (NameSet(f.files) <= w.disk.lane.Keys ==>
                  InLog(w.log, Batch(w.disk, f)) && f.count == |Content(w.disk.lane, f.files)|)
          else
            && f.first == |w.log| + 1
            && NameSet(f.files) <= w.disk.lane.Keys
            && f.count == |Content(w.disk.lane, f.files)|)
  }

  predicate SentOk(w: World) {
    forall r | r in w.sent ::
      InLog(w.log, r)
      || (w.disk.inflight.Some? && !Applied(w, w.disk.inflight.v) && r == Batch(w.disk, w.disk.inflight.v))
  }

  ghost predicate SwapOk(w: World) {
    var d := w.disk;
    d.manifest.Some? ==>
      var m := d.manifest.v;
      && w.swap.was.Keys == NameSet(m.replaced) && w.swap.now.Keys == NameSet(m.staged)
      && m.replaced != [] && Ordered(m.replaced) && Ordered(m.staged)
      && (forall x | x in m.staged :: x.gen > 0)
      && NameSet(m.replaced) !! NameSet(m.staged)
      && InflightNames(d) !! NameSet(m.replaced) && InflightNames(d) !! NameSet(m.staged)
      && (d.staging.Some? ==> d.staging.v.Keys <= NameSet(m.staged))
      && (forall x | x in m.staged && Staged(d, x) :: d.staging.v[x] == w.swap.now[x])
      && (forall x | x in m.staged && x in d.lane :: d.lane[x] == w.swap.now[x] && ReplacedGone(d, m))
      && (forall x | x in m.replaced && x in d.lane :: d.lane[x] == w.swap.was[x])
  }

  /** What is read is events. */
  predicate ReadableOk(d: Disk) {
    && (forall x | x in d.lane :: AllReadable(d.lane[x]))
    && (d.staging.Some? ==> forall x | x in d.staging.v :: AllReadable(d.staging.v[x]))
  }

  /** The chunks are, as they are read, what they replace compacted. */
  ghost predicate SwapIsRead(w: World) {
    w.disk.manifest.Some? ==>
      var m := w.disk.manifest.v;
      Content(w.swap.now, m.staged) == CompactRead(Content(w.swap.was, m.replaced), w.fits)
  }

  /** Every name but a chunk's was spooled under. */
  ghost predicate UsedOk(w: World) {
    && (forall x | (x in w.disk.lane || x in InflightNames(w.disk)) && x.gen == 0 :: x in w.used)
    && (w.disk.manifest.Some? ==> forall x | x in w.disk.manifest.v.replaced && x.gen == 0 :: x in w.used)
  }

  /** Of the chunks found, those lost since are missing, and the others are not. */
  predicate RollOk(w: World) {
    match w.disk.manifest
    case None => w.roll.seen == {} && w.roll.lost == {}
    case Some(m) =>
      && w.roll.lost <= w.roll.seen <= NameSet(m.staged)
      && forall x | x in w.roll.seen :: x in w.roll.lost <==> Missing(w.disk, x)
  }

  ghost predicate Inv(w: World) {
    InflightOk(w) && SentOk(w) && SwapOk(w) && SwapIsRead(w) && ReadableOk(w.disk) && UsedOk(w) && RollOk(w)
  }
}
