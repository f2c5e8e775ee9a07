/** The invariant of the lane's machine, and what follows for every run, whatever order files come in. */
module SpoolSafety {
  import opened Maps
  import opened SpoolEvents
  import opened MainStore
  import opened Compaction
  import opened ReadBack
  import opened LaneNames
  import opened SpoolWorld

  // ---------------------------------------------------------------- delivery

  /** A batch in the log already, or the next one in line, is applied whole or not at all. */
  lemma {:induction false} ReceiveWhole(log: seq<Event>, r: Request)
    requires InLog(log, r) || (r.first == |log| + 1 && r.events != [])
    ensures Receive(log, r) == if InLog(log, r) then log else log + r.events
  {
  }

  lemma {:induction false} InLogGrows(log: seq<Event>, more: seq<Event>, r: Request)
    requires InLog(log, r)
    ensures InLog(log + more, r)
  {
    assert (log + more)[r.first - 1..r.first - 1 + |r.events|] == log[r.first - 1..r.first - 1 + |r.events|];
  }

  lemma {:induction false} AppendedIsInLog(log: seq<Event>, r: Request)
    requires r.first == |log| + 1
    ensures InLog(log + r.events, r)
  {
  }

  /** The actions that change the in-flight record or its files, or MAIN. */
  predicate OnBatch(a: Action) {
    a.RemoveSent? || a.SaveInflight? || a.DropInflight? || a.Deliver?
  }

  predicate SameFiles(f: Files, g: Files, s: set<Name>) {
    forall x | x in s :: (x in f <==> x in g) && (x in f ==> f[x] == g[x])
  }

  lemma {:induction false} BatchUntouched(w: World, a: Action)
    requires SwapOk(w) && Enabled(w, a) && !OnBatch(a)
    ensures var w' := Do(w, a);
            && w'.disk.inflight == w.disk.inflight && w'.log == w.log
            && SameFiles(w.disk.lane, w'.disk.lane, InflightNames(w.disk))
  {
  }

  lemma {:induction false} SameBatch(d: Disk, d': Disk)
    requires d.inflight.Some? && d'.inflight == d.inflight && SameFiles(d.lane, d'.lane, InflightNames(d))
    ensures Content(d'.lane, d.inflight.v.files) == Content(d.lane, d.inflight.v.files)
    ensures NameSet(d.inflight.v.files) <= d.lane.Keys <==> NameSet(d.inflight.v.files) <= d'.lane.Keys
  {
    var files := d.inflight.v.files;
    assert forall x | x in files :: x in NameSet(files);
    ContentSame(d.lane, d'.lane, files);
    assert forall x | x in NameSet(files) :: x in d.lane <==> x in d'.lane;
  }

  lemma {:induction false} InflightKeptOff(w: World, a: Action)
    requires InflightOk(w) && SwapOk(w) && Enabled(w, a) && !OnBatch(a)
    ensures InflightOk(Do(w, a))
  {
    var w' := Do(w, a);
    BatchUntouched(w, a);
    if w.disk.inflight.Some? {
      var f := w.disk.inflight.v;
      SameBatch(w.disk, w'.disk);
      assert forall x | x in f.files :: x in InflightNames(w.disk);
    }
  }

  lemma {:induction false} InflightKeptDeliver(w: World, r: Request)
    requires InflightOk(w) && SentOk(w) && Enabled(w, Deliver(r))
    ensures InflightOk(Do(w, Deliver(r)))
    ensures var w' := Do(w, Deliver(r));
            || w' == w
            || (w.disk.inflight.Some? && !Applied(w, w.disk.inflight.v) && Applied(w', w.disk.inflight.v)
                && w'.log == w.log + Unapplied(w) && r == Batch(w.disk, w.disk.inflight.v))
  {
    var w' := Do(w, Deliver(r));
    if InLog(w.log, r) {
      ReceiveWhole(w.log, r);
    } else {
      var f := w.disk.inflight.v;
      assert r == Batch(w.disk, f);
      ReceiveWhole(w.log, r);
      AppendedIsInLog(w.log, r);
    }
  }

  lemma {:induction false} InflightKeptOn(w: World, a: Action)
    requires InflightOk(w) && Enabled(w, a) && (a.RemoveSent? || a.SaveInflight? || a.DropInflight?)
    ensures InflightOk(Do(w, a))
  {
    if a.RemoveSent? {
      assert a.name in NameSet(w.disk.inflight.v.files);
    }
  }

  lemma {:induction false} SentKept(w: World, a: Action)
    requires InflightOk(w) && SentOk(w) && SwapOk(w) && Enabled(w, a)
    ensures SentOk(Do(w, a))
  {
    var w' := Do(w, a);
    if a.Deliver? {
      InflightKeptDeliver(w, a.req);
      if w' != w {
        forall r | r in w'.sent ensures InLog(w'.log, r) {
          if InLog(w.log, r) {
            InLogGrows(w.log, Unapplied(w), r);
          } else {
            AppendedIsInLog(w.log, r);
          }
        }
      }
    } else if !OnBatch(a) {
      BatchUntouched(w, a);
      if w.disk.inflight.Some? {
        SameBatch(w.disk, w'.disk);
      }
    } else if a.SaveInflight? {
      assert forall r | r in w.sent :: InLog(w.log, r);
    } else {
      assert forall r | r in w.sent :: InLog(w.log, r);
    }
  }

  // ---------------------------------------------------------------- the swap

  lemma {:induction false} Committed(w: World, m: Manifest)
    requires Enabled(w, Commit(m))
    ensures SwapOk(Do(w, Commit(m))) && SwapIsRead(Do(w, Commit(m)))
    ensures var swap := Do(w, Commit(m)).swap;
            && Content(swap.was, m.replaced) == Content(w.disk.lane, m.replaced)
            && Content(swap.now, m.staged) == CompactRead(Content(w.disk.lane, m.replaced), w.fits)
  {
    var d, w' := w.disk, Do(w, Commit(m));
    assert forall x | x in m.replaced :: x in NameSet(m.replaced);
    assert forall x | x in m.staged :: x in NameSet(m.staged);
    CommittedFiles(w, m);
    ContentSame(d.staging.v, w'.swap.now, m.staged);
    ContentSame(d.lane, w'.swap.was, m.replaced);
  }

  lemma {:induction false} CommittedFiles(w: World, m: Manifest)
    requires Enabled(w, Commit(m))
    ensures var d, swap := w.disk, Do(w, Commit(m)).swap;
            && swap.was.Keys == NameSet(m.replaced) && swap.now.Keys == NameSet(m.staged)
            && (forall x | x in m.replaced :: x in d.lane && x in swap.was && swap.was[x] == d.lane[x])
            && (forall x | x in m.staged :: x in d.staging.v && x in swap.now && swap.now[x] == d.staging.v[x])
  {
    assert forall x | x in m.replaced :: x in NameSet(m.replaced);
    assert forall x | x in m.staged :: x in NameSet(m.staged);
  }

  /** The actions that neither begin nor end a committed compaction. */
  predicate OffManifest(a: Action) {
    !a.Commit? && !a.DropManifest? && !a.Abandon?
  }

  lemma {:induction false} SwapKeptOff(w: World, a: Action)
    requires SwapOk(w) && Enabled(w, a) && OffManifest(a)
    ensures SwapOk(Do(w, a))
    ensures w.disk.manifest.Some? ==> Do(w, a).swap == w.swap && Do(w, a).disk.manifest == w.disk.manifest
  {
  }

  lemma {:induction false} NewerKept(w: World, a: Action)
    requires InflightOk(w) && SwapOk(w) && Enabled(w, a) && OffManifest(a) && w.disk.manifest.Some?
    ensures var m, d' := w.disk.manifest.v, Do(w, a).disk;
            && Newer(d', m) == Newer(w.disk, m) + (if a.Arrive? then {a.name} else {})
            && forall x | x in Newer(w.disk, m) :: d'.lane[x] == w.disk.lane[x]
  {
    if a.RemoveSent? || a.DropInflight? {
      NewerOfSent(w, a);
    } else if a.MoveChunk? || a.RemoveReplaced? {
      NewerOfSwap(w, a);
    } else {
      NewerElsewhere(w, a);
    }
  }

  lemma {:induction false} NewerElsewhere(w: World, a: Action)
    requires SwapOk(w) && Enabled(w, a) && OffManifest(a) && w.disk.manifest.Some?
    requires !a.RemoveSent? && !a.DropInflight? && !a.MoveChunk? && !a.RemoveReplaced?
    ensures var m, d' := w.disk.manifest.v, Do(w, a).disk;
            && Newer(d', m) == Newer(w.disk, m) + (if a.Arrive? then {a.name} else {})
            && forall x | x in Newer(w.disk, m) :: d'.lane[x] == w.disk.lane[x]
  {
    var m := w.disk.manifest.v;
    assert forall x | x in NameSet(m.staged) :: x in m.staged;
    assert forall x | x in NameSet(m.replaced) :: x in m.replaced;
  }

  lemma {:induction false} NewerOfSent(w: World, a: Action)
    requires InflightOk(w) && SwapOk(w) && Enabled(w, a) && (a.RemoveSent? || a.DropInflight?) && w.disk.manifest.Some?
    ensures var m, d' := w.disk.manifest.v, Do(w, a).disk;
            Newer(d', m) == Newer(w.disk, m) && forall x | x in Newer(w.disk, m) :: d'.lane[x] == w.disk.lane[x]
  {
    assert forall x | x in w.disk.inflight.v.files :: x in InflightNames(w.disk);
  }

  lemma {:induction false} NewerOfSwap(w: World, a: Action)
    requires SwapOk(w) && Enabled(w, a) && (a.MoveChunk? || a.RemoveReplaced?)
    ensures var m, d' := w.disk.manifest.v, Do(w, a).disk;
            Newer(d', m) == Newer(w.disk, m) && forall x | x in Newer(w.disk, m) :: d'.lane[x] == w.disk.lane[x]
  {
    var m := w.disk.manifest.v;
    assert a.MoveChunk? ==> a.name in NameSet(m.staged);
    assert a.RemoveReplaced? ==> a.name in NameSet(m.replaced);
  }

  /** The actions that look at the chunks, change where they are, or begin or end a roll forward. */
  predicate OnChunks(a: Action) {
    a.Look? || a.Stop? || a.MoveChunk? || a.LoseChunk? || a.Commit? || a.DropManifest? || a.Abandon?
  }

  lemma {:induction false} ChunksElsewhere(w: World, a: Action)
    requires InflightOk(w) && SwapOk(w) && Enabled(w, a) && !OnChunks(a) && w.disk.manifest.Some?
    ensures var w' := Do(w, a);
            && w'.roll == w.roll && w'.disk.manifest == w.disk.manifest
            && forall x | x in w.disk.manifest.v.staged :: Missing(w'.disk, x) <==> Missing(w.disk, x)
  {
    var m := w.disk.manifest.v;
    assert forall x | x in m.staged :: x in NameSet(m.staged);
    if a.RemoveReplaced? {
      assert a.name in NameSet(m.replaced);
    } else if a.RemoveSent? {
      assert a.name in InflightNames(w.disk);
    }
  }

  lemma {:induction false} RollCarries(w: World, w': World)
    requires RollOk(w) && w'.roll == w.roll && w'.disk.manifest == w.disk.manifest
    requires w.disk.manifest.Some? ==>
               forall x | x in w.disk.manifest.v.staged :: Missing(w'.disk, x) <==> Missing(w.disk, x)
    ensures RollOk(w')
  {
    if w.disk.manifest.Some? {
      assert forall x | x in NameSet(w.disk.manifest.v.staged) :: x in w.disk.manifest.v.staged;
    }
  }

  lemma {:induction false} RollOn(w: World, a: Action)
    requires RollOk(w) && Enabled(w, a) && OnChunks(a)
    ensures RollOk(Do(w, a))
  {
  }

  lemma {:induction false} RollKept(w: World, a: Action)
    requires InflightOk(w) && SwapOk(w) && RollOk(w) && Enabled(w, a)
    ensures RollOk(Do(w, a))
  {
    if OnChunks(a) {
      RollOn(w, a);
    } else {
      if w.disk.manifest.Some? {
        ChunksElsewhere(w, a);
      }
      RollCarries(w, Do(w, a));
    }
  }

  /** With every chunk found and none of them lost, they are all there. */
  lemma {:induction false} SeenAreThere(w: World)
    requires RollOk(w) && w.disk.manifest.Some? && AllSeen(w, w.disk.manifest.v) && w.roll.lost == {}
    ensures AllChunks(w.disk, w.disk.manifest.v)
    ensures NoneStaged(w.disk, w.disk.manifest.v) ==> ChunksIn(w.disk, w.disk.manifest.v)
  {
    var m := w.disk.manifest.v;
    forall x | x in m.staged ensures !Missing(w.disk, x) {
      assert x in NameSet(m.staged);
    }
  }

  lemma {:induction false} ReadableKept(w: World, a: Action)
    requires ReadableOk(w.disk) && Enabled(w, a)
    ensures ReadableOk(Do(w, a).disk)
  {
  }

  lemma {:induction false} UsedKept(w: World, a: Action)
    requires SwapOk(w) && UsedOk(w) && Enabled(w, a)
    ensures UsedOk(Do(w, a))
  {
    if a.Commit? {
      forall x | x in a.m.replaced ensures x in w.disk.lane {
        assert x in NameSet(a.m.replaced);
      }
    }
  }

  // ---------------------------------------------------------------- every run

  lemma {:induction false} InflightKept(w: World, a: Action)
    requires InflightOk(w) && SentOk(w) && SwapOk(w) && Enabled(w, a)
    ensures InflightOk(Do(w, a))
  {
    if a.Deliver? {
      InflightKeptDeliver(w, a.req);
    } else if OnBatch(a) {
      InflightKeptOn(w, a);
    } else {
      InflightKeptOff(w, a);
    }
  }

  lemma {:induction false} SwapKept(w: World, a: Action)
    requires SwapOk(w) && SwapIsRead(w) && Enabled(w, a)
    ensures SwapOk(Do(w, a)) && SwapIsRead(Do(w, a))
  {
    if a.Commit? {
      Committed(w, a.m);
    } else if OffManifest(a) {
      SwapKeptOff(w, a);
    }
  }

  lemma {:induction false} StepKeeps(w: World, a: Action)
    requires Inv(w) && Enabled(w, a)
    ensures Inv(Do(w, a))
  {
    InflightKept(w, a);
    SentKept(w, a);
    SwapKept(w, a);
    ReadableKept(w, a);
    UsedKept(w, a);
    RollKept(w, a);
  }

  /** The run's step from its world i to the next. */
  ghost predicate StepAt(ws: seq<World>, i: nat)
    requires i + 1 < |ws|
  {
    Step(ws[i], ws[i + 1])
  }

  /** A run: worlds, each made from the one before by an action. */
  ghost predicate Run(ws: seq<World>) {
    && ws != [] && Initial(ws[0])
    && forall i | 0 <= i < |ws| - 1 :: StepAt(ws, i)
  }

  /** An empty spool; MAIN may have applied anything before. */
  predicate Initial(w: World) {
    && w.disk == Disk(map[], None, None, None) && w.sent == {} && w.spooled == w.log
    && w.roll == Roll({}, {}, false, 0)
  }

  lemma {:induction false} InitialInv(w: World)
    requires Initial(w)
    ensures Inv(w)
  {
  }

  /** Every world of every run, so every world a crash can leave, keeps the invariant. */
  lemma {:induction false} RunKeeps(ws: seq<World>, k: nat)
    requires Run(ws) && k < |ws|
    ensures Inv(ws[k])
  {
    if k == 0 {
      InitialInv(ws[0]);
    } else {
      RunKeeps(ws, k - 1);
      assert StepAt(ws, k - 1);
      var a :| Took(ws[k - 1], a, ws[k]);
      StepKeeps(ws[k - 1], a);
    }
  }

  lemma {:induction false} LogStepGrows(w: World, w': World)
    requires Step(w, w')
    ensures w.log <= w'.log
  {
  }

  /** What MAIN has applied is never taken back, and always begins the plan. */
  lemma {:induction false} LogOnlyGrows(ws: seq<World>, i: nat, j: nat)
    requires Run(ws) && i <= j < |ws|
    ensures ws[i].log <= ws[j].log <= Plan(ws[j])
  {
    if i < j {
      LogOnlyGrows(ws, i, j - 1);
      assert StepAt(ws, j - 1);
      LogStepGrows(ws[j - 1], ws[j]);
    }
  }

  // ---------------------------------------------------------------- nothing is lost, nothing repeated

  /** Whether the action rewrites the tail. */
  predicate Rewrites(a: Action) {
    a.Commit? || a.Abandon?
  }

  lemma {:induction false} DoneKept(w: World, a: Action)
    requires InflightOk(w) && SentOk(w) && SwapOk(w) && Enabled(w, a) && !a.SaveInflight?
    ensures Do(w, a).log + Unapplied(Do(w, a)) == w.log + Unapplied(w)
  {
    if a.Deliver? {
      InflightKeptDeliver(w, a.req);
    } else if !OnBatch(a) {
      BatchUntouched(w, a);
      if w.disk.inflight.Some? {
        SameBatch(w.disk, Do(w, a).disk);
      }
    }
  }

  lemma {:induction false} SameBag(f: Files, f': Files, s: set<Name>)
    requires SameFiles(f, f', s)
    ensures Content(f', Listing(s)) == Content(f, Listing(s))
  {
    ListingIs(s);
    assert forall y | y in Listing(s) :: y in NameSet(Listing(s));
    ContentSame(f, f', Listing(s));
  }

  lemma {:induction false} BagArrived(f: Files, f': Files, s: set<Name>, x: Name)
    requires x !in s && SameFiles(f, f', s) && x in f'
    ensures multiset(Content(f', Listing(s + {x}))) == multiset(Content(f, Listing(s))) + multiset(f'[x])
  {
    BagWith(f', s, x);
    SameBag(f, f', s);
  }

  lemma {:induction false} TailOfUncommitted(w: World)
    requires w.disk.manifest.None?
    ensures Tail(w) == Content(w.disk.lane, Listing(Behind(w.disk)))
  {
  }

  function Arrived(a: Action): seq<Event> {
    if a.Arrive? then a.events else []
  }

  lemma {:induction false} BagWithManifest(w: World, a: Action)
    requires InflightOk(w) && SwapOk(w) && Enabled(w, a) && OffManifest(a) && w.disk.manifest.Some?
    ensures multiset(Tail(Do(w, a))) == multiset(Tail(w)) + multiset(Arrived(a))
  {
    SwapKeptOff(w, a);
    NewerKept(w, a);
    if a.Arrive? {
      TailWithOneMore(w, Do(w, a), a.name);
    } else {
      TailWithTheSame(w, Do(w, a));
    }
  }

  lemma {:induction false} TailWithOneMore(w: World, w': World, x: Name)
    requires w.disk.manifest.Some? && w'.disk.manifest == w.disk.manifest && w'.swap == w.swap && x in w'.disk.lane
    requires var m := w.disk.manifest.v;
             && x !in Newer(w.disk, m) && Newer(w'.disk, m) == Newer(w.disk, m) + {x}
             && forall y | y in Newer(w.disk, m) :: w'.disk.lane[y] == w.disk.lane[y]
    ensures multiset(Tail(w')) == multiset(Tail(w)) + multiset(w'.disk.lane[x])
  {
    BagArrived(w.disk.lane, w'.disk.lane, Newer(w.disk, w.disk.manifest.v), x);
  }

  lemma {:induction false} TailWithTheSame(w: World, w': World)
    requires w.disk.manifest.Some? && w'.disk.manifest == w.disk.manifest && w'.swap == w.swap
    requires var m := w.disk.manifest.v;
             && Newer(w'.disk, m) == Newer(w.disk, m)
             && forall y | y in Newer(w.disk, m) :: w'.disk.lane[y] == w.disk.lane[y]
    ensures multiset(Tail(w')) == multiset(Tail(w))
  {
    SameBag(w.disk.lane, w'.disk.lane, Newer(w.disk, w.disk.manifest.v));
  }

  /** What an action outside a committed compaction makes of the files behind the batch. */
  lemma {:induction false} BehindAfter(w: World, a: Action)
    requires InflightOk(w) && Enabled(w, a) && OffManifest(a) && w.disk.manifest.None? && !a.SaveInflight?
    ensures var d, d' := w.disk, Do(w, a).disk;
            var s := if a.RemoveEmpty? then Behind(d) - {a.name} else Behind(d);
            && d'.manifest.None? && SameFiles(d.lane, d'.lane, s)
            && (if a.Arrive? then a.name !in s && Behind(d') == s + {a.name} && At(d'.lane, a.name) == Some(a.events)
                else Behind(d') == s)
  {
    if a.RemoveSent? || a.DropInflight? {
      assert forall x | x in w.disk.inflight.v.files :: x in InflightNames(w.disk);
    }
  }

  lemma {:induction false} BagWithout(w: World, a: Action)
    requires InflightOk(w) && Enabled(w, a) && OffManifest(a) && w.disk.manifest.None? && !a.SaveInflight?
    ensures multiset(Tail(Do(w, a))) == multiset(Tail(w)) + multiset(Arrived(a))
  {
    var d, d' := w.disk, Do(w, a).disk;
    BehindAfter(w, a);
    TailOfUncommitted(w);
    TailOfUncommitted(Do(w, a));
    if a.Arrive? {
      BagArrived(d.lane, d'.lane, Behind(d), a.name);
    } else if a.RemoveEmpty? {
      EmptyFile(d.lane, Behind(d), a.name);
      SameBag(d.lane, d'.lane, Behind(d) - {a.name});
    } else {
      SameBag(d.lane, d'.lane, Behind(d));
    }
  }

  lemma {:induction false} BagOfInflight(w: World, f: Inflight)
    requires Enabled(w, SaveInflight(f))
    ensures multiset(Plan(Do(w, SaveInflight(f)))) == multiset(Plan(w))
  {
    var s := w.disk.lane.Keys - NameSet(f.files);
    assert NameSet(f.files) + s == w.disk.lane.Keys;
    BagUnion(w.disk.lane, f.files, s);
    PlansOfInflight(w, f);
  }

  lemma {:induction false} PlansOfInflight(w: World, f: Inflight)
    requires Enabled(w, SaveInflight(f))
    ensures Plan(w) == w.log + Content(w.disk.lane, Listing(w.disk.lane.Keys))
    ensures Plan(Do(w, SaveInflight(f))) ==
            w.log + Content(w.disk.lane, f.files) + Content(w.disk.lane, Listing(w.disk.lane.Keys - NameSet(f.files)))
  {
    var w' := Do(w, SaveInflight(f));
    TailOfUncommitted(w);
    TailOfUncommitted(w');
    assert Behind(w.disk) == w.disk.lane.Keys && Behind(w'.disk) == w.disk.lane.Keys - NameSet(f.files);
    assert Unapplied(w) == [] && Unapplied(w') == Content(w.disk.lane, f.files);
  }

  lemma {:induction false} BagOfDropped(w: World)
    requires SwapOk(w) && RollOk(w) && Enabled(w, DropManifest) && w.roll.lost == {}
    ensures multiset(Tail(Do(w, DropManifest))) == multiset(Tail(w))
  {
    var d, m := w.disk, w.disk.manifest.v;
    SeenAreThere(w);
    assert forall x | x in m.staged :: x in NameSet(m.staged);
    assert forall x | x in m.replaced :: x in NameSet(m.replaced);
    assert Behind(d) == NameSet(m.staged) + Newer(d, m);
    BagUnion(d.lane, m.staged, Newer(d, m));
    ContentSame(d.lane, w.swap.now, m.staged);
    TailOfUncommitted(Do(w, DropManifest));
    assert Behind(Do(w, DropManifest).disk) == Behind(d);
  }

  lemma {:induction false} BagOfAbandoned(w: World)
    requires SwapOk(w) && Enabled(w, Abandon)
    ensures var m := w.disk.manifest.v;
            multiset(Tail(Do(w, Abandon))) ==
            multiset(Content(w.swap.was, m.replaced)) + multiset(Content(w.disk.lane, Listing(Newer(w.disk, m))))
  {
    var d, m := w.disk, w.disk.manifest.v;
    NoChunkYet(w);
    assert Behind(d) == NameSet(m.replaced) + Newer(d, m);
    BagUnion(d.lane, m.replaced, Newer(d, m));
    ContentSame(d.lane, w.swap.was, m.replaced);
    TailOfUncommitted(Do(w, Abandon));
    assert Behind(Do(w, Abandon).disk) == Behind(d);
  }

  /** While what a compaction replaces is there, none of its chunks is. */
  lemma {:induction false} NoChunkYet(w: World)
    requires SwapOk(w) && Enabled(w, Abandon)
    ensures var d, m := w.disk, w.disk.manifest.v;
            && (forall x | x in m.staged :: x !in d.lane)
            && Behind(d) == NameSet(m.replaced) + Newer(d, m)
            && (forall x | x in m.replaced :: x in d.lane && x in w.swap.was && d.lane[x] == w.swap.was[x])
  {
    var m := w.disk.manifest.v;
    assert m.replaced[0] in m.replaced;
    assert forall x | x in m.staged :: x in NameSet(m.staged);
    assert forall x | x in m.replaced :: x in NameSet(m.replaced);
  }

  lemma {:induction false} BagOfCommitted(w: World, m: Manifest)
    requires Enabled(w, Commit(m))
    ensures var evs, newer := Content(w.disk.lane, m.replaced), Content(w.disk.lane, Listing(Newer(w.disk, m)));
            && multiset(Tail(w)) == multiset(evs) + multiset(newer)
            && multiset(Tail(Do(w, Commit(m)))) == multiset(CompactRead(evs, w.fits)) + multiset(newer)
  {
    var d, w' := w.disk, Do(w, Commit(m));
    Committed(w, m);
    assert Newer(w'.disk, m) == Newer(d, m);
    assert forall x | x in NameSet(m.staged) :: x in m.staged;
    assert Behind(d) == NameSet(m.replaced) + Newer(d, m);
    BagUnion(d.lane, m.replaced, Newer(d, m));
    TailOfUncommitted(w);
  }

  /** A rewrite of the tail neither loses nor repeats an event that never folds. */
  lemma {:induction false} RewriteCounts(w: World, a: Action, e: Event)
    requires SwapOk(w) && SwapIsRead(w) && Enabled(w, a) && Rewrites(a) && NeverFolds(e)
    ensures multiset(Tail(Do(w, a)))[e] == multiset(Tail(w))[e]
  {
    if a.Commit? {
      BagOfCommitted(w, a.m);
      ReadKeepsCounts(Content(w.disk.lane, a.m.replaced), w.fits, e);
    } else {
      BagOfAbandoned(w);
      ReadKeepsCounts(Content(w.swap.was, w.disk.manifest.v.replaced), w.fits, e);
    }
  }

  /** The step does not end a roll forward that has lost a chunk it had found. */
  predicate Unlost(w: World, a: Action) {
    a.DropManifest? ==> w.roll.lost == {}
  }

  lemma {:induction false} PlainBag(w: World, a: Action)
    requires InflightOk(w) && SentOk(w) && SwapOk(w) && RollOk(w) && Enabled(w, a) && !Rewrites(a) && Unlost(w, a)
    ensures multiset(Plan(Do(w, a))) == multiset(Plan(w)) + multiset(Arrived(a))
  {
    if a.SaveInflight? {
      BagOfInflight(w, a.fl);
    } else {
      DoneKept(w, a);
      if a.DropManifest? {
        BagOfDropped(w);
      } else if w.disk.manifest.Some? {
        BagWithManifest(w, a);
      } else {
        BagWithout(w, a);
      }
    }
  }

  lemma {:induction false} SpooledGrows(w: World, a: Action)
    requires Enabled(w, a)
    ensures Do(w, a).spooled == w.spooled + Arrived(a)
  {
  }

  /** How much more often the event is in what MAIN applied or will than it was spooled. */
  ghost function Excess(w: World, e: Event): int {
    var done: int, spooled: int := multiset(Plan(w))[e], multiset(w.spooled)[e];
    done - spooled
  }

  lemma {:induction false} StepCounts(w: World, a: Action, e: Event)
    requires Inv(w) && Enabled(w, a) && Unlost(w, a) && (Rewrites(a) ==> NeverFolds(e)) && Excess(w, e) == 0
    ensures Excess(Do(w, a), e) == 0
  {
    SpooledGrows(w, a);
    if Rewrites(a) {
      RewriteExcess(w, a, e);
    } else {
      PlainBag(w, a);
    }
  }

  lemma {:induction false} RewriteExcess(w: World, a: Action, e: Event)
    requires Inv(w) && Enabled(w, a) && Rewrites(a) && NeverFolds(e)
    ensures multiset(Plan(Do(w, a)))[e] == multiset(Plan(w))[e]
  {
    DoneKept(w, a);
    RewriteCounts(w, a, e);
  }

  lemma {:induction false} InitialPlan(w: World)
    requires Initial(w)
    ensures Plan(w) == w.spooled
  {
    assert Behind(w.disk) == {};
  }

  /** A step that neither commits nor gives up a compaction. */
  ghost predicate PlainStep(w: World, w': World) {
    exists a :: Took(w, a, w') && !Rewrites(a)
  }

  ghost predicate PlainAt(ws: seq<World>, i: nat)
    requires i + 1 < |ws|
  {
    PlainStep(ws[i], ws[i + 1])
  }

  ghost predicate Plain(ws: seq<World>) {
    forall i | 0 <= i < |ws| - 1 :: PlainAt(ws, i)
  }

  lemma {:induction false} InitialCounted(w: World, e: Event)
    requires Initial(w)
    ensures Excess(w, e) == 0
  {
    InitialPlan(w);
  }

  lemma {:induction false} ShortStays(ws: seq<World>, i: nat, j: nat)
    requires Run(ws) && i <= j < |ws| && ws[i].roll.short
    ensures ws[j].roll.short
  {
    if i < j {
      ShortStays(ws, i, j - 1);
      assert StepAt(ws, j - 1);
    }
  }

  /** No roll forward up to world k ended with a chunk lost that it had found. */
  lemma {:induction false} NeverShort(ws: seq<World>, k: nat)
    requires Run(ws) && k < |ws| && !ws[k].roll.short
    ensures forall i | 0 <= i <= k :: !ws[i].roll.short
  {
    forall i | 0 <= i <= k ensures !ws[i].roll.short {
      if ws[i].roll.short {
        ShortStays(ws, i, k);
      }
    }
  }

  lemma {:induction false} CountedNext(ws: seq<World>, i: nat, e: Event)
    requires Run(ws) && i + 1 < |ws| && !ws[i + 1].roll.short && NeverFolds(e) && Excess(ws[i], e) == 0
    ensures Excess(ws[i + 1], e) == 0
  {
    RunKeeps(ws, i);
    assert StepAt(ws, i);
    var a :| Took(ws[i], a, ws[i + 1]);
    StepCounts(ws[i], a, e);
  }

  lemma {:induction false} CountedFirst(ws: seq<World>, e: Event)
    requires Run(ws)
    ensures Excess(ws[0], e) == 0
  {
    InitialCounted(ws[0], e);
  }

  /** No step changes the excess from none. */
  ghost predicate Carried(ws: seq<World>, excess: World -> int) {
    forall i, j | 0 <= i && j == i + 1 < |ws| && excess(ws[i]) == 0 :: excess(ws[j]) == 0
  }

  lemma {:induction false} StepsCount(ws: seq<World>, e: Event, excess: World -> int)
    requires Run(ws) && NeverFolds(e) && forall w :: excess(w) == Excess(w, e)
    requires forall i | 0 <= i < |ws| :: !ws[i].roll.short
    ensures Carried(ws, excess)
  {
    forall i, j | 0 <= i && j == i + 1 < |ws| && excess(ws[i]) == 0 ensures excess(ws[j]) == 0 {
      CountedNext(ws, i, e);
    }
  }

  lemma {:induction false} CountedThroughout(ws: seq<World>, k: nat, excess: World -> int)
    requires k < |ws| && excess(ws[0]) == 0 && Carried(ws, excess)
    ensures excess(ws[k]) == 0
  {
    if k > 0 {
      CountedThroughout(ws, k - 1, excess);
    }
  }

  /** Over every run, files coming in whatever order, with crashes, lost replies, repeated and late
      requests and compactions, in which no roll forward ended with a chunk lost that it had found: what MAIN
      applied, what is in flight and what waits are together what was spooled, every event that never folds as
      often as it was spooled. */
  lemma {:induction false} NoLossNoRepeat(ws: seq<World>, k: nat, e: Event)
    requires Run(ws) && k < |ws| && !ws[k].roll.short && NeverFolds(e)
    ensures Excess(ws[k], e) == 0
  {
    var vs := ws[..k + 1];
    RunBegins(ws, k);
    NeverShort(ws, k);
    ghost var excess := (w: World) => Excess(w, e);
    CountedFirst(vs, e);
    StepsCount(vs, e, excess);
    CountedThroughout(vs, k, excess);
  }

  lemma {:induction false} RunBegins(ws: seq<World>, k: nat)
    requires Run(ws) && k < |ws|
    ensures Run(ws[..k + 1])
  {
    var vs := ws[..k + 1];
    forall i | 0 <= i < |vs| - 1 ensures StepAt(vs, i) {
      assert StepAt(ws, i);
    }
  }

  lemma {:induction false} PlainStepBag(w: World, w': World)
    requires Inv(w) && w.disk.manifest.None? && PlainStep(w, w') && multiset(Plan(w)) == multiset(w.spooled)
    ensures w'.disk.manifest.None? && multiset(Plan(w')) == multiset(w'.spooled)
  {
    var a :| Took(w, a, w') && !Rewrites(a);
    SpooledGrows(w, a);
    PlainBag(w, a);
  }

  /** Without a compaction, every event is there as often as it was spooled. */
  lemma {:induction false} PlainNoLoss(ws: seq<World>, k: nat)
    requires Run(ws) && Plain(ws) && k < |ws|
    ensures ws[k].disk.manifest.None? && multiset(Plan(ws[k])) == multiset(ws[k].spooled)
  {
    if k == 0 {
      InitialPlan(ws[0]);
    } else {
      PlainNoLoss(ws, k - 1);
      RunKeeps(ws, k - 1);
      assert PlainAt(ws, k - 1);
      PlainStepBag(ws[k - 1], ws[k]);
    }
  }

  // ---------------------------------------------------------------- the batch in flight

  /** While MAIN has not applied the in-flight batch, its files are all there, unchanged in number: the
      agent never finds its batch changed on disk. */
  lemma {:induction false} BatchIntact(ws: seq<World>, k: nat)
    requires Run(ws) && k < |ws| && ws[k].disk.inflight.Some? && !Applied(ws[k], ws[k].disk.inflight.v)
    ensures var f := ws[k].disk.inflight.v;
            && NameSet(f.files) <= ws[k].disk.lane.Keys
            && |Content(ws[k].disk.lane, f.files)| == f.count
            && f.first == |ws[k].log| + 1
  {
    RunKeeps(ws, k);
  }

  lemma {:induction false} ReadsTheSame(w: World, a: Action)
    requires SwapOk(w) && Enabled(w, a) && w.disk.inflight.Some? && Do(w, a).disk.inflight == w.disk.inflight
    ensures BatchHeld(w, Do(w, a))
  {
    var w' := Do(w, a);
    if a.RemoveSent? {
      assert a.name in NameSet(w.disk.inflight.v.files);
    } else if !OnBatch(a) {
      BatchUntouched(w, a);
      SameBatch(w.disk, w'.disk);
    }
  }

  /** The in-flight record stays, and its files, if they are all there still, read as before. */
  predicate BatchHeld(w: World, w': World) {
    w.disk.inflight.Some? && w'.disk.inflight == w.disk.inflight
    && var f := w.disk.inflight.v;
       NameSet(f.files) <= w'.disk.lane.Keys ==>
         NameSet(f.files) <= w.disk.lane.Keys && Batch(w'.disk, f) == Batch(w.disk, f)
  }

  lemma {:induction false} EveryStepHoldsBatch(ws: seq<World>, k: nat)
    requires Run(ws) && k + 1 < |ws| && ws[k].disk.inflight.Some? && ws[k + 1].disk.inflight == ws[k].disk.inflight
    ensures BatchHeld(ws[k], ws[k + 1])
  {
    RunKeeps(ws, k);
    assert StepAt(ws, k);
    var a :| Took(ws[k], a, ws[k + 1]);
    ReadsTheSame(ws[k], a);
  }

  lemma {:induction false} HeldThroughout(ws: seq<World>, i: nat, j: nat)
    requires i <= j < |ws| && ws[i].disk.inflight.Some?
    requires forall k, l | i <= k && l == k + 1 <= j :: BatchHeld(ws[k], ws[l])
    ensures BatchHeld(ws[i], ws[j])
  {
    if i < j {
      HeldThroughout(ws, i, j - 1);
      assert BatchHeld(ws[j - 1], ws[j]);
    }
  }

  /** A resend is the same batch: whatever is done meanwhile (a compaction among it), an in-flight
      batch whose files are all there reads as it did. */
  lemma {:induction false} ResendIsTheSame(ws: seq<World>, i: nat, j: nat)
    requires Run(ws) && i <= j < |ws|
    requires forall k | i <= k <= j :: ws[k].disk.inflight == ws[i].disk.inflight && ws[k].disk.inflight.Some?
    requires NameSet(ws[i].disk.inflight.v.files) <= ws[j].disk.lane.Keys
    ensures NameSet(ws[i].disk.inflight.v.files) <= ws[i].disk.lane.Keys
    ensures Batch(ws[j].disk, ws[i].disk.inflight.v) == Batch(ws[i].disk, ws[i].disk.inflight.v)
  {
    forall k, l | i <= k && l == k + 1 <= j ensures BatchHeld(ws[k], ws[l]) {
      EveryStepHoldsBatch(ws, k);
    }
    HeldThroughout(ws, i, j);
  }

  // ---------------------------------------------------------------- the swap, over every run

  /** The tail is exactly the old files: each as it was, and no chunk. */
  predicate ExactlyOld(d: Disk, m: Manifest, swap: Swap) {
    && (forall x | x in m.replaced :: At(d.lane, x) == At(swap.was, x) && x in d.lane)
    && (forall x | x in m.staged :: x !in d.lane)
  }

  /** The tail is exactly the chunks: each as it was committed, and none of the files replaced. */
  predicate ExactlyChunks(d: Disk, m: Manifest, swap: Swap) {
    && (forall x | x in m.staged :: At(d.lane, x) == At(swap.now, x) && x in d.lane)
    && (forall x | x in m.replaced :: x !in d.lane)
  }

  /** The roll forward had found every chunk, and one of them was lost since. */
  predicate Missed(w: World) {
    w.disk.manifest.Some? && AllSeen(w, w.disk.manifest.v) && w.roll.lost != {}
  }

  /** What a step may do to a committed compaction: nothing, or end it, at one of its two ends exactly when no
      chunk was missed. */
  predicate HoldsOrEnds(w: World, w': World) {
    w.disk.manifest.Some? ==>
      if w'.disk.manifest.Some?
      then w'.disk.manifest == w.disk.manifest && w'.swap == w.swap
      else
        var m := w.disk.manifest.v;
        ExactlyOld(w'.disk, m, w.swap) || ExactlyChunks(w'.disk, m, w.swap) <==> !Missed(w)
  }

  lemma {:induction false} ManifestEnds(w: World, a: Action)
    requires SwapOk(w) && InflightOk(w) && RollOk(w) && Enabled(w, a)
    ensures HoldsOrEnds(w, Do(w, a))
  {
    if w.disk.manifest.Some? {
      if OffManifest(a) {
        SwapKeptOff(w, a);
      } else if a.Abandon? {
        AbandonEnds(w);
      } else if a.DropManifest? {
        DropEnds(w);
      }
    }
  }

  lemma {:induction false} AbandonEnds(w: World)
    requires SwapOk(w) && RollOk(w) && Enabled(w, Abandon)
    ensures ExactlyOld(Do(w, Abandon).disk, w.disk.manifest.v, w.swap) && !Missed(w)
  {
    NoChunkYet(w);
    var m := w.disk.manifest.v;
    var x :| x in m.staged && Missing(w.disk, x) && x !in w.roll.seen;
    assert x in NameSet(m.staged);
  }

  lemma {:induction false} DropEnds(w: World)
    requires SwapOk(w) && RollOk(w) && Enabled(w, DropManifest)
    ensures var d, m := Do(w, DropManifest).disk, w.disk.manifest.v;
            ExactlyOld(d, m, w.swap) || ExactlyChunks(d, m, w.swap) <==> !Missed(w)
  {
    var m := w.disk.manifest.v;
    assert forall x | x in m.staged :: x in NameSet(m.staged);
    assert m.replaced[0] in m.replaced;
    if w.roll.lost == {} {
      SeenAreThere(w);
    } else {
      var x :| x in w.roll.lost;
      assert x in m.staged && x !in w.disk.lane;
    }
  }

  lemma {:induction false} EveryStepHoldsOrEnds(ws: seq<World>, k: nat)
    requires Run(ws) && k + 1 < |ws|
    ensures HoldsOrEnds(ws[k], ws[k + 1])
  {
    RunKeeps(ws, k);
    assert StepAt(ws, k);
    var a :| Took(ws[k], a, ws[k + 1]);
    ManifestEnds(ws[k], a);
  }

  ghost predicate AllHoldOrEnd(ws: seq<World>) {
    forall k, l | 0 <= k && l == k + 1 < |ws| :: HoldsOrEnds(ws[k], ws[l])
  }

  lemma {:induction false} StaysCommitted(ws: seq<World>, i: nat, j: nat)
    requires AllHoldOrEnd(ws) && i <= j < |ws|
    requires forall k | i <= k <= j :: ws[k].disk.manifest.Some?
    ensures ws[j].disk.manifest == ws[i].disk.manifest && ws[j].swap == ws[i].swap
  {
    if i < j {
      StaysCommitted(ws, i, j - 1);
      assert HoldsOrEnds(ws[j - 1], ws[j]);
    }
  }

  /** From a compaction's commit to the first world in which the lane may be collected again, however often
      the agent crashed and began anew: then the tail is exactly the old files or exactly all the chunks, never
      both and never a part, if and only if the roll forward that ended it lost no chunk it had found. */
  lemma {:induction false} SwapIsAtomicIff(ws: seq<World>, i: nat, j: nat)
    requires Run(ws) && i < j < |ws|
    requires forall k | i <= k < j :: ws[k].disk.manifest.Some?
    ensures ws[j].disk.manifest.None? ==>
              var m := ws[i].disk.manifest.v;
              ExactlyOld(ws[j].disk, m, ws[i].swap) || ExactlyChunks(ws[j].disk, m, ws[i].swap)
              <==> !Missed(ws[j - 1])
  {
    assert AllHoldOrEnd(ws) by {
      forall k, l | 0 <= k && l == k + 1 < |ws| ensures HoldsOrEnds(ws[k], ws[l]) {
        EveryStepHoldsOrEnds(ws, k);
      }
    }
    StaysCommitted(ws, i, j - 1);
    EveryStepHoldsOrEnds(ws, j - 1);
  }

  /** A chunk is lost, and some of what it replaces is gone. */
  predicate Torn(d: Disk) {
    d.manifest.Some? && !AllChunks(d, d.manifest.v) && !forall x | x in d.manifest.v.replaced :: x in d.lane
  }

  /** Besides, the roll forward under way, if one is, has yet to find it. */
  predicate TornFor(w: World) {
    && w.disk.manifest.Some? && (exists x | x in w.disk.manifest.v.staged :: Missing(w.disk, x) && x !in w.roll.seen)
    && !forall x | x in w.disk.manifest.v.replaced :: x in w.disk.lane
  }

  /** A crash leaves a torn lane torn for good. */
  lemma {:induction false} StoppedTorn(w: World)
    requires Torn(w.disk)
    ensures TornFor(Do(w, Stop))
  {
    var x :| x in w.disk.manifest.v.staged && Missing(w.disk, x);
    assert x !in Do(w, Stop).roll.seen;
  }

  lemma {:induction false} StaysTorn(w: World, a: Action)
    requires SwapOk(w) && InflightOk(w) && Enabled(w, a) && TornFor(w)
    ensures TornFor(Do(w, a))
  {
    var w', m := Do(w, a), w.disk.manifest.v;
    var c :| c in m.staged && Missing(w.disk, c) && c !in w.roll.seen;
    var r :| r in m.replaced && r !in w.disk.lane;
    assert c in NameSet(m.staged) && r in NameSet(m.replaced);
    assert Missing(w'.disk, c) && c !in w'.roll.seen;
    assert r !in w'.disk.lane;
  }

  /** A lane torn, its lost chunk not found before it was, is held for good: no batch is ever made of it. */
  lemma {:induction false} TornHolds(ws: seq<World>, i: nat, j: nat)
    requires Run(ws) && i <= j < |ws| && TornFor(ws[i])
    ensures TornFor(ws[j])
    ensures forall f :: !Enabled(ws[j], SaveInflight(f))
  {
    forall k, l | 0 <= k && l == k + 1 < |ws| ensures TornFor(ws[k]) ==> TornFor(ws[l]) {
      if TornFor(ws[k]) {
        TornStep(ws, k);
      }
    }
    TornThroughout(ws, i, j);
  }

  lemma {:induction false} TornThroughout(ws: seq<World>, i: nat, j: nat)
    requires i <= j < |ws| && TornFor(ws[i])
    requires forall k, l | 0 <= k && l == k + 1 < |ws| :: TornFor(ws[k]) ==> TornFor(ws[l])
    ensures TornFor(ws[j])
  {
    if i < j {
      TornThroughout(ws, i, j - 1);
    }
  }

  lemma {:induction false} TornStep(ws: seq<World>, k: nat)
    requires Run(ws) && k + 1 < |ws| && TornFor(ws[k])
    ensures TornFor(ws[k + 1])
  {
    RunKeeps(ws, k);
    assert StepAt(ws, k);
    var a :| Took(ws[k], a, ws[k + 1]);
    StaysTorn(ws[k], a);
  }

  // ---------------------------------------------------------------- recovery

  /** What `recoverCompaction` leaves when it runs to its end. */
  function Recover(d: Disk): Disk {
    match d.manifest
    case None => d.(staging := None)
    case Some(m) =>
      if AllChunks(d, m) then
        var moved := if d.staging.Some? then map x | x in d.staging.v && x in m.staged :: d.staging.v[x] else map[];
        d.(lane := d.lane - NameSet(m.replaced) + moved, staging := None, manifest := None)
      else if forall x | x in m.replaced :: x in d.lane then d.(staging := None, manifest := None)
      else d
  }

  /** The operations recovery is made of. */
  predicate Recovers(d: Disk, a: Action) {
    match a
    case Look(_) => true
    case Stop => true
    case ClearStaging => true
    case RemoveStaged(_) => true
    case RemoveReplaced(_) => true
    case MoveChunk(_) => true
    case DropManifest => d.staging.None?
    case Abandon => true
    case _ => false
  }

  /** What a file of the lane is once recovery has moved the chunks in. */
  function RecoveredFile(d: Disk, m: Manifest, x: Name): Opt<seq<Event>> {
    if x in m.staged && Staged(d, x) then Some(d.staging.v[x])
    else if x in m.replaced then None
    else At(d.lane, x)
  }

  lemma {:induction false} RecoversFiles(d: Disk, m: Manifest)
    requires d.manifest == Some(m) && AllChunks(d, m)
    ensures var r := Recover(d);
            && r == d.(lane := r.lane, staging := None, manifest := None)
            && forall x :: At(r.lane, x) == RecoveredFile(d, m, x)
  {
    forall x ensures At(Recover(d).lane, x) == RecoveredFile(d, m, x) {
    }
  }

  lemma {:induction false} ResumesFiles(w: World, a: Action, x: Name)
    requires SwapOk(w) && Enabled(w, a) && Recovers(w.disk, a)
    requires w.disk.manifest.Some? && AllChunks(w.disk, w.disk.manifest.v) && !a.DropManifest?
    ensures var d', m := Do(w, a).disk, w.disk.manifest.v;
            && d' == w.disk.(lane := d'.lane, staging := d'.staging) && AllChunks(d', m)
            && RecoveredFile(d', m, x) == RecoveredFile(w.disk, m, x)
  {
    var m := w.disk.manifest.v;
    assert forall y | y in m.staged :: y in NameSet(m.staged);
    assert forall y | y in m.replaced :: y in NameSet(m.replaced);
  }

  /** However far recovery got before a crash, running it again ends where it would have ended, no chunk it had
      found being lost. */
  lemma {:induction false} RecoveryResumes(w: World, a: Action)
    requires SwapOk(w) && RollOk(w) && Enabled(w, a) && Recovers(w.disk, a) && w.roll.lost == {}
    ensures Recover(Do(w, a).disk) == Recover(w.disk)
  {
    if w.disk.manifest.Some? {
      if AllChunks(w.disk, w.disk.manifest.v) {
        ChunksResume(w, a);
      } else {
        GivenUpResumes(w, a);
      }
    }
  }

  lemma {:induction false} ChunksResume(w: World, a: Action)
    requires SwapOk(w) && Enabled(w, a) && Recovers(w.disk, a)
    requires w.disk.manifest.Some? && AllChunks(w.disk, w.disk.manifest.v)
    ensures Recover(Do(w, a).disk) == Recover(w.disk)
  {
    var d, d', m := w.disk, Do(w, a).disk, w.disk.manifest.v;
    RecoversFiles(d, m);
    if a.DropManifest? {
      forall x ensures At(Recover(d').lane, x) == At(Recover(d).lane, x) {
      }
    } else {
      ResumesFiles(w, a, Name(0, 0, 0));
      RecoversFiles(d', m);
      forall x ensures At(Recover(d').lane, x) == At(Recover(d).lane, x) {
        ResumesFiles(w, a, x);
      }
    }
    SameLane(Recover(d'), Recover(d));
  }

  lemma {:induction false} SameLane(d: Disk, e: Disk)
    requires d == e.(lane := d.lane) && forall x :: At(d.lane, x) == At(e.lane, x)
    ensures d == e
  {
    MapsEqual(d.lane, e.lane);
  }

  lemma {:induction false} GivenUpResumes(w: World, a: Action)
    requires SwapOk(w) && RollOk(w) && Enabled(w, a) && Recovers(w.disk, a) && w.roll.lost == {}
    requires w.disk.manifest.Some? && !AllChunks(w.disk, w.disk.manifest.v)
    ensures Recover(Do(w, a).disk) == Recover(w.disk)
  {
    if AllSeen(w, w.disk.manifest.v) {
      SeenAreThere(w);
    }
  }

  lemma {:induction false} RecoverTwice(d: Disk)
    ensures Recover(Recover(d)) == Recover(d)
  {
  }
}
