/** What is read back of a compaction. The reader skips a line longer than a batch (compact.go,
`eachLine`), and a merged event, encoded anew, can be longer than any it was merged from: it is written
and never read again. What is read back means what the tail meant exactly when every merged event fits. */
module ReadBack {
  import opened Maps
  import opened SpoolEvents
  import opened MainStore
  import opened Compaction

  /** The event written for item i is its key's events merged, and encoded anew. */
  predicate Merges(its: seq<Item>, i: nat)
    requires i < |its|
  {
    its[i].c.Slot? && IsLastOfKey(its, i) && CountOf(its, its[i].c.key) > 1 && its[i].c.part != ""
  }

  function MergedEvent(its: seq<Item>, i: nat): Event
    requires i < |its| && its[i].c.Slot?
  {
    WithPart(its[i], Merged(its, its[i].c.key)).e
  }

  /** What is read back of the event written for item i. */
  function Back(its: seq<Item>, i: nat, fits: Event -> bool): Opt<Item>
    requires i < |its|
  {
    if Merges(its, i) && !fits(MergedEvent(its, i)) then None else Out(its, i)
  }

  function Backs(its: seq<Item>, n: nat, fits: Event -> bool): seq<Item>
    requires n <= |its|
  {
    if n == 0 then [] else Backs(its, n - 1, fits) + Listed(Back(its, n - 1, fits))
  }

  function CompactRead(evs: seq<Event>, fits: Event -> bool): seq<Event> {
    Events(Backs(Items(evs), |evs|, fits))
  }

  /** Every merged event fits a batch. */
  ghost predicate AllFit(evs: seq<Event>, fits: Event -> bool) {
    forall i | 0 <= i < |evs| && Merges(Items(evs), i) :: fits(MergedEvent(Items(evs), i))
  }

  lemma {:induction false} FittingBacks(evs: seq<Event>, fits: Event -> bool, n: nat)
    requires n <= |evs| && AllFit(evs, fits)
    ensures Backs(Items(evs), n, fits) == Outs(Items(evs), n)
  {
    if n > 0 {
      FittingBacks(evs, fits, n - 1);
    }
  }

  lemma {:induction false} FittingAreRead(evs: seq<Event>, fits: Event -> bool)
    requires AllFit(evs, fits)
    ensures CompactRead(evs, fits) == CompactEvents(evs)
  {
    FittingBacks(evs, fits, |evs|);
  }

  lemma {:induction false} BacksReclassify(evs: seq<Event>, n: nat, fits: Event -> bool)
    requires n <= |evs|
    ensures AllClassified(Backs(Items(evs), n, fits))
  {
    if n > 0 {
      BacksReclassify(evs, n - 1, fits);
      OutReclassifies(evs, n - 1);
    }
  }

  lemma {:induction false} ReadItems(evs: seq<Event>, fits: Event -> bool)
    ensures Items(CompactRead(evs, fits)) == Backs(Items(evs), |evs|, fits)
  {
    BacksReclassify(evs, |evs|, fits);
    ItemsOfEvents(Backs(Items(evs), |evs|, fits));
  }

  // ---------------------------------------------------------------- a merged event lost

  const EMPTY := Store(map[], map[], {}, [])

  /** From an empty store a key has a row exactly when some event says something of it. */
  lemma {:induction false} RowIffSaid(its: seq<Item>, k: string)
    ensures k in Replay(EMPTY, its).rows <==> exists i | 0 <= i < |its| :: OfSlot(its[i], k)
  {
    if its != [] {
      var n := |its| - 1;
      RowIffSaid(its[..n], k);
      if OfSlot(its[n], k) {
        assert k in Replay(EMPTY, its).rows;
      } else if exists i | 0 <= i < |its| :: OfSlot(its[i], k) {
        var i :| 0 <= i < |its| && OfSlot(its[i], k);
        assert OfSlot(its[..n][i], k);
      }
    }
  }

  /** No item says anything of key k. */
  ghost predicate Silent(its: seq<Item>, k: string) {
    forall i | 0 <= i < |its| :: !OfSlot(its[i], k)
  }

  lemma {:induction false} OnlyOneWritten(its: seq<Item>, i: nat, j: nat)
    requires i < |its| && j < |its| && i != j && its[i].c.Slot? && IsLastOfKey(its, i) && OfSlot(its[j], its[i].c.key)
    ensures Out(its, j).None?
  {
    if j < i {
      assert OfSlot(its[i], its[j].c.key);
    }
  }

  /** Of a key whose merged event is lost nothing is read back. */
  lemma {:induction false} OneIsSilent(its: seq<Item>, i: nat, j: nat, fits: Event -> bool)
    requires i < |its| && j < |its| && Merges(its, i) && !fits(MergedEvent(its, i))
    ensures Silent(Listed(Back(its, j, fits)), its[i].c.key)
  {
    if j != i && OfSlot(its[j], its[i].c.key) {
      OnlyOneWritten(its, i, j);
    }
  }

  lemma {:induction false} LostIsSilent(its: seq<Item>, i: nat, n: nat, fits: Event -> bool)
    requires i < |its| && n <= |its| && Merges(its, i) && !fits(MergedEvent(its, i))
    ensures Silent(Backs(its, n, fits), its[i].c.key)
  {
    if n > 0 {
      LostIsSilent(its, i, n - 1, fits);
      OneIsSilent(its, i, n - 1, fits);
    }
  }

  lemma {:induction false} LosesARow(evs: seq<Event>, fits: Event -> bool, i: nat)
    requires i < |evs| && Merges(Items(evs), i) && !fits(MergedEvent(Items(evs), i))
    ensures Items(evs)[i].c.key !in Meaning(EMPTY, CompactRead(evs, fits)).rows
    ensures Items(evs)[i].c.key in Meaning(EMPTY, evs).rows
  {
    var its := Items(evs);
    var k := its[i].c.key;
    ReadItems(evs, fits);
    LostIsSilent(its, i, |evs|, fits);
    RowIffSaid(Backs(its, |evs|, fits), k);
    RowIffSaid(its, k);
    assert OfSlot(its[i], k);
  }

  /** What is read back of a compaction means what the events meant, whatever MAIN held, if and only if
      every merged event fits a batch. */
  lemma {:induction false} ReadMeansTheSameIff(evs: seq<Event>, fits: Event -> bool)
    ensures AllFit(evs, fits) <==> forall st :: Meaning(st, CompactRead(evs, fits)) == Meaning(st, evs)
  {
    if AllFit(evs, fits) {
      FittingAreRead(evs, fits);
      forall st ensures Meaning(st, CompactRead(evs, fits)) == Meaning(st, evs) {
        CompactEventsPreserveMeaning(st, evs);
      }
    } else {
      var i :| 0 <= i < |evs| && Merges(Items(evs), i) && !fits(MergedEvent(Items(evs), i));
      LosesARow(evs, fits, i);
    }
  }

  // ---------------------------------------------------------------- what never folds

  /** An event that no compaction folds: anything but a slot's and an upsert. */
  predicate NeverFolds(e: Event) {
    Stays(Classified(e))
  }

  lemma {:induction false} ListedCounts(its: seq<Item>, i: nat, fits: Event -> bool, e: Event)
    requires i < |its| && NeverFolds(e) && its[i] == Classified(its[i].e)
    requires Back(its, i, fits).Some? ==> Back(its, i, fits).v == Classified(Back(its, i, fits).v.e)
    ensures multiset(Events(Listed(Back(its, i, fits))))[e] == multiset{its[i].e}[e]
  {
    OutStays(its, i);
    if Back(its, i, fits).Some? {
      assert Events(Listed(Back(its, i, fits))) == [Back(its, i, fits).v.e];
    } else {
      assert Events(Listed(Back(its, i, fits))) == [];
    }
  }

  lemma {:induction false} OneCounts(evs: seq<Event>, i: nat, fits: Event -> bool, e: Event)
    requires i < |evs| && NeverFolds(e)
    ensures multiset(Events(Listed(Back(Items(evs), i, fits))))[e] == multiset{evs[i]}[e]
  {
    OutReclassifies(evs, i);
    ListedCounts(Items(evs), i, fits, e);
  }

  lemma {:induction false} EventsJoin(a: seq<Item>, b: seq<Item>)
    ensures Events(a + b) == Events(a) + Events(b)
  {
  }

  lemma {:induction false} CountsJoin(a: seq<Event>, b: seq<Event>, c: seq<Event>, last: Event, e: Event)
    requires multiset(a)[e] == multiset(c)[e] && multiset(b)[e] == multiset{last}[e]
    ensures multiset(a + b)[e] == multiset(c + [last])[e]
  {
  }

  function BackEvents(evs: seq<Event>, n: nat, fits: Event -> bool): seq<Event>
    requires n <= |evs|
  {
    Events(Backs(Items(evs), n, fits))
  }

  function OneBack(evs: seq<Event>, i: nat, fits: Event -> bool): seq<Event>
    requires i < |evs|
  {
    Events(Listed(Back(Items(evs), i, fits)))
  }

  lemma {:induction false} BackNext(evs: seq<Event>, n: nat, fits: Event -> bool)
    requires n < |evs|
    ensures BackEvents(evs, n + 1, fits) == BackEvents(evs, n, fits) + OneBack(evs, n, fits)
  {
    EventsJoin(Backs(Items(evs), n, fits), Listed(Back(Items(evs), n, fits)));
  }

  lemma {:induction false} BacksCount(evs: seq<Event>, n: nat, fits: Event -> bool, e: Event)
    requires n <= |evs| && NeverFolds(e)
    ensures multiset(BackEvents(evs, n, fits))[e] == multiset(evs[..n])[e]
  {
    if n > 0 {
      var m := n - 1;
      BacksCount(evs, m, fits, e);
      OneCounts(evs, m, fits, e);
      BackNext(evs, m, fits);
      assert evs[..n] == evs[..m] + [evs[m]];
      CountsJoin(BackEvents(evs, m, fits), OneBack(evs, m, fits), evs[..m], evs[m], e);
    }
  }

  /** Whatever merged events are lost, an event that never folds is read back as often as it was. */
  lemma {:induction false} ReadKeepsCounts(evs: seq<Event>, fits: Event -> bool, e: Event)
    requires NeverFolds(e)
    ensures multiset(CompactRead(evs, fits))[e] == multiset(evs)[e]
  {
    BacksCount(evs, |evs|, fits, e);
    assert evs[..|evs|] == evs;
  }
}
