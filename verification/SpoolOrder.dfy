/** Runs in which files are spooled under rising clocks, and the oldest are sent and compacted first: the
events are applied in the order they were spooled, and compactions whose merged events fit a batch change
nothing of what they mean. */
module SpoolOrder {
  import opened Maps
  import opened SpoolEvents
  import opened MainStore
  import opened Compaction
  import opened ReadBack
  import opened LaneNames
  import opened SpoolWorld
  import opened SpoolSafety

  ghost predicate OrderOk(w: World) {
    var d := w.disk;
    && (forall x | x in d.lane || x in InflightNames(d) :: x.clock <= w.top)
    && (d.manifest.Some? ==>
          var m := d.manifest.v;
          && (forall x | x in m.staged :: x.clock <= w.top && forall y | y in Newer(d, m) :: Before(x, y))
          && (forall x | x in m.replaced :: x.clock <= w.top && forall y | y in Newer(d, m) :: Before(x, y)))
  }

  /** What a committed compaction replaces merges into events that fit. */
  ghost predicate SwapFits(w: World) {
    w.disk.manifest.Some? ==> AllFit(Content(w.swap.was, w.disk.manifest.v.replaced), w.fits)
  }

  ghost predicate SameMeaning(a: seq<Event>, b: seq<Event>) {
    forall st :: Meaning(st, a) == Meaning(st, b)
  }

  ghost predicate CommitFits(w: World, a: Action) {
    a.Commit? ==> AllFit(Content(w.disk.lane, a.m.replaced), w.fits)
  }

  // ---------------------------------------------------------------- a commit in order

  lemma {:induction false} ListedBefore(a: seq<Name>, b: seq<Name>)
    requires Ordered(a + b)
    ensures forall x, y | x in a && y in b :: Before(x, y)
  {
    forall x, y | x in a && y in b ensures Before(x, y) {
      var i :| 0 <= i < |a| && a[i] == x;
      var k :| 0 <= k < |b| && b[k] == y;
      assert (a + b)[i] == x && (a + b)[|a| + k] == y;
    }
  }

  lemma {:induction false} CommitSplits(w: World, m: Manifest) returns (rest: seq<Name>)
    requires Enabled(w, Commit(m)) && InOrder(w, Commit(m))
    ensures Listing(Behind(w.disk)) == m.replaced + rest && Ordered(rest)
    ensures NameSet(m.replaced) !! NameSet(rest)
    ensures NameSet(m.staged) !! Behind(w.disk)
    ensures Newer(w.disk, m) == NameSet(rest) && Listing(Newer(w.disk, m)) == rest
    ensures forall x, y | x in m.replaced && y in rest :: Before(x, y)
  {
    var d, l := w.disk, Listing(Behind(w.disk));
    rest := l[|m.replaced|..];
    assert l == m.replaced + rest;
    ListingRest(Behind(d), m.replaced, rest);
    ListingIs(Behind(d));
    ListedBefore(m.replaced, rest);
    assert forall x | x in NameSet(m.staged) :: x in m.staged;
    assert Newer(d, m) == NameSet(rest);
  }

  lemma {:induction false} TailCommitted(w: World, m: Manifest)
    requires Enabled(w, Commit(m)) && InOrder(w, Commit(m))
    ensures var evs, newer := Content(w.disk.lane, m.replaced), Content(w.disk.lane, Listing(Newer(w.disk, m)));
            && Tail(w) == evs + newer
            && Tail(Do(w, Commit(m))) == CompactRead(evs, w.fits) + newer
  {
    var d, w' := w.disk, Do(w, Commit(m));
    var rest := CommitSplits(w, m);
    ContentJoin(d.lane, m.replaced, rest);
    TailOfUncommitted(w);
    Committed(w, m);
    assert Newer(w'.disk, m) == Newer(d, m);
  }

  lemma {:induction false} CommitClocks(w: World, m: Manifest)
    requires OrderOk(w) && Enabled(w, Commit(m)) && InOrder(w, Commit(m))
    ensures forall x | x in m.staged || x in m.replaced :: x.clock <= w.top
    ensures forall x, y | (x in m.staged || x in m.replaced) && y in Newer(w.disk, m) :: Before(x, y)
  {
    var rest := CommitSplits(w, m);
    assert m.replaced[0] in NameSet(m.replaced);
    assert forall x | x in m.replaced :: x in NameSet(m.replaced);
    forall x, y | x in m.staged && y in Newer(w.disk, m) ensures Before(x, y) {
      assert x.clock < y.clock;
    }
    forall x, y | x in m.replaced && y in Newer(w.disk, m) ensures Before(x, y) {
      assert y in rest;
    }
  }

  lemma {:induction false} OrderKeptCommit(w: World, m: Manifest)
    requires OrderOk(w) && Enabled(w, Commit(m)) && InOrder(w, Commit(m))
    ensures OrderOk(Do(w, Commit(m)))
  {
    CommitClocks(w, m);
    assert Newer(Do(w, Commit(m)).disk, m) == Newer(w.disk, m);
  }

  lemma {:induction false} OrderKept(w: World, a: Action)
    requires Inv(w) && OrderOk(w) && Enabled(w, a) && InOrder(w, a)
    ensures OrderOk(Do(w, a))
  {
    if a.Commit? {
      OrderKeptCommit(w, a.m);
    } else {
      ClocksKept(w, a);
      if w.disk.manifest.Some? && OffManifest(a) {
        NewerKept(w, a);
        SwapKeptOff(w, a);
        OrderCarries(w, Do(w, a), a);
      }
    }
  }

  lemma {:induction false} OrderCarries(w: World, w': World, a: Action)
    requires OrderOk(w) && w.disk.manifest.Some? && w'.disk.manifest == w.disk.manifest && w.top <= w'.top
    requires forall x | x in w'.disk.lane || x in InflightNames(w'.disk) :: x.clock <= w'.top
    requires Newer(w'.disk, w.disk.manifest.v) == Newer(w.disk, w.disk.manifest.v) + if a.Arrive? then {a.name} else {}
    requires a.Arrive? ==> a.name.clock > w.top
    ensures OrderOk(w')
  {
  }

  lemma {:induction false} ClocksKept(w: World, a: Action)
    requires OrderOk(w) && Enabled(w, a) && InOrder(w, a) && !a.Commit?
    ensures var w' := Do(w, a); forall x | x in w'.disk.lane || x in InflightNames(w'.disk) :: x.clock <= w'.top
  {
    if a.MoveChunk? {
      assert a.name in w.disk.manifest.v.staged;
    }
  }

  // ---------------------------------------------------------------- the plan, in order

  lemma {:induction false} ListingWith(s: set<Name>, x: Name)
    requires forall y | y in s :: Before(y, x)
    ensures Listing(s + {x}) == Listing(s) + [x]
  {
    ListingJoin(s, {x});
    ListingUnique([x]);
    assert NameSet([x]) == {x};
  }

  /** The lane's files listed with one more that comes after them. */
  lemma {:induction false} ContentWith(f: Files, f': Files, s: set<Name>, x: Name, evs: seq<Event>)
    requires (forall y | y in s :: Before(y, x)) && SameFiles(f, f', s) && x in f' && f'[x] == evs
    ensures Content(f', Listing(s + {x})) == Content(f, Listing(s)) + evs
  {
    ListingWith(s, x);
    ListingIs(s);
    assert forall y | y in Listing(s) :: y in NameSet(Listing(s));
    ContentSame(f, f', Listing(s));
    ContentJoin(f', Listing(s), [x]);
    assert Content(f', [x]) == evs + Content(f', []);
  }

  lemma {:induction false} TailWithManifest(w: World, a: Action)
    requires Inv(w) && OrderOk(w) && Enabled(w, a) && InOrder(w, a) && OffManifest(a) && w.disk.manifest.Some?
    ensures Tail(Do(w, a)) == Tail(w) + Arrived(a)
  {
    SwapKeptOff(w, a);
    NewerKept(w, a);
    NewerContent(w, Do(w, a), a);
  }

  lemma {:induction false} NewerContent(w: World, w': World, a: Action)
    requires w.disk.manifest.Some? && w'.disk.manifest == w.disk.manifest && w'.swap == w.swap
    requires var m := w.disk.manifest.v;
             && Newer(w'.disk, m) == Newer(w.disk, m) + (if a.Arrive? then {a.name} else {})
             && (forall x | x in Newer(w.disk, m) :: x in w'.disk.lane && w'.disk.lane[x] == w.disk.lane[x])
             && (a.Arrive? ==> At(w'.disk.lane, a.name) == Some(a.events) && forall y | y in Newer(w.disk, m) ::
                 Before(y, a.name))
    ensures Tail(w') == Tail(w) + Arrived(a)
  {
    var s := Newer(w.disk, w.disk.manifest.v);
    if a.Arrive? {
      ContentWith(w.disk.lane, w'.disk.lane, s, a.name, a.events);
    } else {
      SameBag(w.disk.lane, w'.disk.lane, s);
      assert Newer(w'.disk, w.disk.manifest.v) == s;
    }
  }

  lemma {:induction false} TailWithout(w: World, a: Action)
    requires Inv(w) && OrderOk(w) && Enabled(w, a) && InOrder(w, a) && OffManifest(a)
    requires w.disk.manifest.None? && !a.SaveInflight?
    ensures Tail(Do(w, a)) == Tail(w) + Arrived(a)
  {
    var d, d' := w.disk, Do(w, a).disk;
    BehindAfter(w, a);
    TailOfUncommitted(w);
    TailOfUncommitted(Do(w, a));
    if a.Arrive? {
      ContentWith(d.lane, d'.lane, Behind(d), a.name, a.events);
    } else if a.RemoveEmpty? {
      EmptyFile(d.lane, Behind(d), a.name);
      SameBag(d.lane, d'.lane, Behind(d) - {a.name});
    } else {
      SameBag(d.lane, d'.lane, Behind(d));
    }
  }

  lemma {:induction false} PlanOfInflight(w: World, f: Inflight)
    requires Enabled(w, SaveInflight(f)) && InOrder(w, SaveInflight(f))
    ensures Plan(Do(w, SaveInflight(f))) == Plan(w)
  {
    ContentSplit(w.disk.lane, w.disk.lane.Keys, f.files);
    PlansOfInflight(w, f);
  }

  lemma {:induction false} TailOfDropped(w: World)
    requires SwapOk(w) && RollOk(w) && OrderOk(w) && Enabled(w, DropManifest) && w.roll.lost == {}
    ensures Tail(Do(w, DropManifest)) == Tail(w)
  {
    var d, m := w.disk, w.disk.manifest.v;
    SeenAreThere(w);
    assert forall x | x in m.staged :: x in NameSet(m.staged);
    assert forall x | x in m.replaced :: x in NameSet(m.replaced);
    assert Behind(d) == NameSet(m.staged) + Newer(d, m);
    ListingJoin(NameSet(m.staged), Newer(d, m));
    ListingUnique(m.staged);
    ContentJoin(d.lane, m.staged, Listing(Newer(d, m)));
    ContentSame(d.lane, w.swap.now, m.staged);
    TailOfUncommitted(Do(w, DropManifest));
    assert Behind(Do(w, DropManifest).disk) == Behind(d);
  }

  lemma {:induction false} TailOfAbandoned(w: World)
    requires SwapOk(w) && OrderOk(w) && Enabled(w, Abandon)
    ensures var d, m := w.disk, w.disk.manifest.v;
            Tail(Do(w, Abandon)) == Content(w.swap.was, m.replaced) + Content(d.lane, Listing(Newer(d, m)))
  {
    var d, m := w.disk, w.disk.manifest.v;
    NoChunkYet(w);
    ListingJoin(NameSet(m.replaced), Newer(d, m));
    ListingUnique(m.replaced);
    ContentJoin(d.lane, m.replaced, Listing(Newer(d, m)));
    ContentSame(d.lane, w.swap.was, m.replaced);
    TailOfUncommitted(Do(w, Abandon));
    assert Behind(Do(w, Abandon).disk) == Behind(d);
  }

  /** But for a compaction, and the end of one with a chunk lost, the plan only ever grows, and by what is
      spooled. */
  lemma {:induction false} PlanAdvances(w: World, a: Action)
    requires Inv(w) && OrderOk(w) && Enabled(w, a) && InOrder(w, a) && !Rewrites(a) && Unlost(w, a)
    ensures Plan(Do(w, a)) == Plan(w) + Arrived(a)
  {
    if a.SaveInflight? {
      PlanOfInflight(w, a.fl);
    } else {
      DoneKept(w, a);
      if a.DropManifest? {
        TailOfDropped(w);
      } else if w.disk.manifest.Some? {
        TailWithManifest(w, a);
      } else {
        TailWithout(w, a);
      }
    }
  }

  // ---------------------------------------------------------------- what the plan means

  /** Replacing events by their compaction anywhere in a sequence changes nothing of its meaning. */
  lemma {:induction false} MeaningOfSwap(st: Store, before: seq<Event>, evs: seq<Event>, after: seq<Event>)
    ensures Meaning(st, before + (CompactEvents(evs) + after)) == Meaning(st, before + (evs + after))
  {
    MeaningConcat(st, before, CompactEvents(evs) + after);
    MeaningConcat(st, before, evs + after);
    var mid := Meaning(st, before);
    MeaningConcat(mid, CompactEvents(evs), after);
    MeaningConcat(mid, evs, after);
    CompactEventsPreserveMeaning(mid, evs);
  }

  /** A compaction's commit replaces events behind the in-flight batch by their compaction; giving
      one up puts them back. */
  lemma {:induction false} PlanRewritten(w: World, a: Action) returns (evs: seq<Event>, after: seq<Event>)
    requires Inv(w) && OrderOk(w) && SwapFits(w) && Enabled(w, a) && InOrder(w, a) && Rewrites(a) && CommitFits(w, a)
    ensures var done := w.log + Unapplied(w);
            && Plan(w) == done + ((if a.Commit? then evs else CompactEvents(evs)) + after)
            && Plan(Do(w, a)) == done + ((if a.Commit? then CompactEvents(evs) else evs) + after)
  {
    DoneKept(w, a);
    var d := w.disk;
    if a.Commit? {
      TailCommitted(w, a.m);
      evs, after := Content(d.lane, a.m.replaced), Content(d.lane, Listing(Newer(d, a.m)));
    } else {
      TailOfAbandoned(w);
      var m := d.manifest.v;
      evs, after := Content(w.swap.was, m.replaced), Content(d.lane, Listing(Newer(d, m)));
    }
    FittingAreRead(evs, w.fits);
  }

  lemma {:induction false} SameThenMore(a: seq<Event>, b: seq<Event>, more: seq<Event>)
    requires SameMeaning(a, b)
    ensures SameMeaning(a + more, b + more)
  {
    forall st ensures Meaning(st, a + more) == Meaning(st, b + more) {
      MeaningConcat(st, a, more);
      MeaningConcat(st, b, more);
      assert Meaning(st, a) == Meaning(st, b);
    }
  }

  lemma {:induction false} SameRewritten(
      before: seq<Event>, evs: seq<Event>, after: seq<Event>, all: seq<Event>, there: bool)
    requires SameMeaning(before + ((if there then evs else CompactEvents(evs)) + after), all)
    ensures SameMeaning(before + ((if there then CompactEvents(evs) else evs) + after), all)
  {
    var was := before + ((if there then evs else CompactEvents(evs)) + after);
    var now := before + ((if there then CompactEvents(evs) else evs) + after);
    forall st ensures Meaning(st, now) == Meaning(st, all) {
      MeaningOfSwap(st, before, evs, after);
      assert Meaning(st, was) == Meaning(st, all);
    }
  }

  lemma {:induction false} PlanKept(w: World, a: Action)
    requires Inv(w) && OrderOk(w) && SwapFits(w) && Enabled(w, a) && InOrder(w, a) && CommitFits(w, a) && Unlost(w, a)
    requires SameMeaning(Plan(w), w.spooled)
    ensures SameMeaning(Plan(Do(w, a)), Do(w, a).spooled)
  {
    SpooledGrows(w, a);
    if Rewrites(a) {
      var evs, after := PlanRewritten(w, a);
      SameRewritten(w.log + Unapplied(w), evs, after, w.spooled, a.Commit?);
      assert w.spooled + [] == w.spooled;
    } else {
      PlanAdvances(w, a);
      SameThenMore(Plan(w), w.spooled, Arrived(a));
    }
  }

  lemma {:induction false} FitsKept(w: World, a: Action)
    requires Inv(w) && SwapFits(w) && Enabled(w, a) && CommitFits(w, a)
    ensures SwapFits(Do(w, a))
  {
    if a.Commit? {
      Committed(w, a.m);
    } else if OffManifest(a) {
      SwapKeptOff(w, a);
      SameFits(w, a);
    }
  }

  lemma {:induction false} SameFits(w: World, a: Action)
    ensures Do(w, a).fits == w.fits
  {
  }

  // ---------------------------------------------------------------- every run in order

  ghost predicate OrderedStep(w: World, w': World) {
    exists a :: Took(w, a, w') && InOrder(w, a)
  }

  /** In order, and the merged events of a compaction committed fit. */
  ghost predicate FittingStep(w: World, w': World) {
    exists a :: Took(w, a, w') && InOrder(w, a) && CommitFits(w, a)
  }

  /** In order, and neither the commit nor the end of a compaction given up. */
  ghost predicate OrderedPlainStep(w: World, w': World) {
    exists a :: Took(w, a, w') && InOrder(w, a) && !Rewrites(a)
  }

  ghost predicate OrderedAt(ws: seq<World>, i: nat)
    requires i + 1 < |ws|
  {
    OrderedStep(ws[i], ws[i + 1])
  }

  ghost predicate FittingAt(ws: seq<World>, i: nat)
    requires i + 1 < |ws|
  {
    FittingStep(ws[i], ws[i + 1])
  }

  ghost predicate OrderedPlainAt(ws: seq<World>, i: nat)
    requires i + 1 < |ws|
  {
    OrderedPlainStep(ws[i], ws[i + 1])
  }

  ghost predicate OrderedRun(ws: seq<World>) {
    Run(ws) && forall i | 0 <= i < |ws| - 1 :: OrderedAt(ws, i)
  }

  /** In order, every committed compaction's merged events fitting a batch. */
  ghost predicate FittingRun(ws: seq<World>) {
    Run(ws) && forall i | 0 <= i < |ws| - 1 :: FittingAt(ws, i)
  }

  /** In order, without a compaction. */
  ghost predicate OrderedPlainRun(ws: seq<World>) {
    Run(ws) && forall i | 0 <= i < |ws| - 1 :: OrderedPlainAt(ws, i)
  }

  lemma {:induction false} InitialOrder(w: World)
    requires Initial(w)
    ensures OrderOk(w)
  {
  }

  lemma {:induction false} OrderNext(w: World, w': World)
    requires Inv(w) && OrderOk(w) && OrderedStep(w, w')
    ensures OrderOk(w')
  {
    var a :| Took(w, a, w') && InOrder(w, a);
    OrderKept(w, a);
  }

  lemma {:induction false} OrderThroughout(ws: seq<World>, k: nat)
    requires OrderedRun(ws) && k < |ws|
    ensures OrderOk(ws[k])
  {
    if k == 0 {
      InitialOrder(ws[0]);
    } else {
      OrderThroughout(ws, k - 1);
      RunKeeps(ws, k - 1);
      assert OrderedAt(ws, k - 1);
      OrderNext(ws[k - 1], ws[k]);
    }
  }

  /** What a run in order keeps. */
  ghost predicate Meant(w: World) {
    OrderOk(w) && SwapFits(w) && SameMeaning(Plan(w), w.spooled)
  }

  lemma {:induction false} MeantNext(w: World, w': World)
    requires Inv(w) && Meant(w) && FittingStep(w, w') && !w'.roll.short
    ensures Meant(w')
  {
    var a :| Took(w, a, w') && InOrder(w, a) && CommitFits(w, a);
    OrderKept(w, a);
    FitsKept(w, a);
    PlanKept(w, a);
  }

  lemma {:induction false} InitialMeant(w: World)
    requires Initial(w)
    ensures Meant(w)
  {
    InitialPlan(w);
  }

  lemma {:induction false} MeantThroughout(ws: seq<World>, k: nat)
    requires FittingRun(ws) && k < |ws| && !ws[k].roll.short
    ensures Meant(ws[k])
  {
    NeverShort(ws, k);
    if k == 0 {
      InitialMeant(ws[0]);
    } else {
      MeantThroughout(ws, k - 1);
      RunKeeps(ws, k - 1);
      assert FittingAt(ws, k - 1);
      MeantNext(ws[k - 1], ws[k]);
    }
  }

  /** Nothing waits to be sent. */
  predicate AllSent(d: Disk) {
    d.manifest.None? && d.inflight.None? && d.lane == map[]
  }

  lemma {:induction false} AllSentPlan(w: World)
    requires AllSent(w.disk)
    ensures Plan(w) == w.log
  {
    assert Behind(w.disk) == {};
  }

  /** Over every run in order, with crashes, lost replies, repeated and late requests, and compactions
      whose merged events fit, no roll forward having ended with a chunk lost that it had found: once the lane
      is empty, MAIN's store is what applying every spooled event once and in order makes. */
  lemma {:induction false} DeliveredOnceAndForAll(ws: seq<World>, k: nat, st: Store)
    requires FittingRun(ws) && k < |ws| && !ws[k].roll.short && AllSent(ws[k].disk)
    ensures Meaning(st, ws[k].log) == Meaning(st, ws[k].spooled)
  {
    MeantThroughout(ws, k);
    AllSentPlan(ws[k]);
  }

  /** Whether its merged events fit decides it for each compaction: the chunks committed mean what they
      replace, whatever MAIN holds, if and only if they do. */
  lemma {:induction false} CommitMeansTheSameIff(w: World, m: Manifest)
    requires Enabled(w, Commit(m))
    ensures var evs, swap := Content(w.disk.lane, m.replaced), Do(w, Commit(m)).swap;
            AllFit(evs, w.fits) <==> forall st :: Meaning(st, Content(swap.now, m.staged)) == Meaning(st, evs)
  {
    Committed(w, m);
    ReadMeansTheSameIff(Content(w.disk.lane, m.replaced), w.fits);
  }

  // ---------------------------------------------------------------- exactly once, in order

  lemma {:induction false} PlainNext(w: World, w': World)
    requires Inv(w) && OrderOk(w) && w.disk.manifest.None? && OrderedPlainStep(w, w') && Plan(w) == w.spooled
    ensures OrderOk(w') && w'.disk.manifest.None? && Plan(w') == w'.spooled
  {
    var a :| Took(w, a, w') && InOrder(w, a) && !Rewrites(a);
    OrderKept(w, a);
    PlanAdvances(w, a);
    SpooledGrows(w, a);
  }

  /** Exactly once and in order: without compactions, what MAIN applied, what is in flight and what
      waits are together the spooled events, so its log is a prefix of them. */
  lemma {:induction false} ExactlyOnce(ws: seq<World>, k: nat)
    requires OrderedPlainRun(ws) && k < |ws|
    ensures OrderOk(ws[k]) && ws[k].disk.manifest.None? && Plan(ws[k]) == ws[k].spooled
    ensures ws[k].log <= ws[k].spooled
  {
    if k == 0 {
      InitialMeant(ws[0]);
      InitialPlan(ws[0]);
    } else {
      ExactlyOnce(ws, k - 1);
      RunKeeps(ws, k - 1);
      assert OrderedPlainAt(ws, k - 1);
      PlainNext(ws[k - 1], ws[k]);
    }
    BeginsThePlan(ws[k]);
  }

  lemma {:induction false} BeginsThePlan(w: World)
    ensures w.log <= Plan(w)
  {
    assert Plan(w)[..|w.log|] == w.log;
  }
}
