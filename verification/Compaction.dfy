/** P0 compaction as a transformation of an event sequence (compact.go, `stage`), and the proof
that it preserves what MAIN makes of the sequence.

`Out(its, i)` is what compaction writes in the place of event i, said without the algorithm's
bookkeeping: only in terms of which later event of the same key or viewer there is. */
module Compaction {
  import opened Maps
  import opened SpoolEvents
  import opened MainStore

  /** Every item is as `classify` makes them. */
  ghost predicate AllProper(its: seq<Item>) {
    forall i | 0 <= i < |its| :: Proper(its[i])
  }

  // ---------------------------------------------------------------- slots

  predicate IsLastOfKey(its: seq<Item>, i: nat)
    requires i < |its| && its[i].c.Slot?
  {
    forall j | i < j < |its| :: !OfSlot(its[j], its[i].c.key)
  }

  function CountOf(its: seq<Item>, k: string): nat {
    if its == [] then 0
    else CountOf(its[..|its| - 1], k) + if OfSlot(its[|its| - 1], k) then 1 else 0
  }

  /** The parts of a key's events merged, each field as its last event has it. */
  function Merged(its: seq<Item>, k: string): Fields {
    if its == [] then map[]
    else
      var m := Merged(its[..|its| - 1], k);
      var e := its[|its| - 1];
      if OfSlot(e, k) then m + PartOf(e) else m
  }

  function SlotOut(its: seq<Item>, i: nat): Opt<Item>
    requires i < |its| && its[i].c.Slot?
  {
    var c := its[i].c;
    if !IsLastOfKey(its, i) then None
    else if CountOf(its, c.key) > 1 && c.part != "" then Some(WithPart(its[i], Merged(its, c.key)))
    else Some(its[i])
  }

  // ---------------------------------------------------------------- viewers' runs

  /** The first event about viewer u at or after i; |its| if there is none. */
  function NextOf(its: seq<Item>, u: string, i: nat): (j: nat)
    requires i <= |its|
    ensures i <= j <= |its|
    ensures j < |its| ==> About(its[j], u)
    decreases |its| - i
  {
    if i == |its| || About(its[i], u) then i else NextOf(its, u, i + 1)
  }

  /** The last event about viewer u before n; -1 if there is none. */
  function LastOf(its: seq<Item>, u: string, n: nat): (j: int)
    requires n <= |its|
    ensures -1 <= j < n
    ensures j >= 0 ==> About(its[j], u)
  {
    if n == 0 then -1 else if About(its[n - 1], u) then n - 1 else LastOf(its, u, n - 1)
  }

  lemma {:induction false} NoneAfterLast(its: seq<Item>, u: string, n: nat, k: nat)
    requires n <= |its| && LastOf(its, u, n) < k < n
    ensures !About(its[k], u)
  {
    if k < n - 1 {
      NoneAfterLast(its, u, n - 1, k);
    }
  }

  lemma {:induction false} NextIsFirst(its: seq<Item>, u: string, i: nat, n: nat)
    requires i <= n < |its| && About(its[n], u) && LastOf(its, u, n) < i
    ensures NextOf(its, u, i) == n
    decreases n - i
  {
    if i < n {
      NoneAfterLast(its, u, n, i);
      NextIsFirst(its, u, i + 1, n);
    }
  }

  /** The event after a viewer's last one is this one. */
  lemma {:induction false} EndIsNext(its: seq<Item>, n: nat, u: string)
    requires n < |its| && About(its[n], u)
    ensures var j := LastOf(its, u, n); j >= 0 ==> NextOf(its, u, j + 1) == n
  {
    var j := LastOf(its, u, n);
    if j >= 0 {
      NextIsFirst(its, u, j + 1, n);
    }
  }

  /** From anywhere up to a viewer's next event, that is its next event. */
  lemma {:induction false} NextOfSkips(its: seq<Item>, u: string, i: nat, n: nat)
    requires i <= n <= |its| && NextOf(its, u, i) >= n
    ensures NextOf(its, u, i) == NextOf(its, u, n)
    decreases n - i
  {
    if i < n {
      NextOfSkips(its, u, i + 1, n);
    }
  }

  /** Past a viewer's last event before n, its next one is not before n. */
  lemma {:induction false} NextNotBefore(its: seq<Item>, u: string, i: nat, n: nat)
    requires i <= n <= |its| && LastOf(its, u, n) < i
    ensures NextOf(its, u, i) >= n
    decreases n - i
  {
    if i < n {
      NoneAfterLast(its, u, n, i);
      NextNotBefore(its, u, i + 1, n);
    }
  }

  /** Upsert i is followed, as the viewer's next event, by one with the same mark. */
  predicate GoesOn(its: seq<Item>, i: nat)
    requires i < |its| && its[i].c.Upsert?
  {
    var j := NextOf(its, its[i].c.uuid, i + 1);
    j < |its| && SameRun(its[j], its[i])
  }

  /** Upsert i belongs to the run of the viewer's event before it. */
  predicate Joined(its: seq<Item>, i: nat)
    requires i < |its| && its[i].c.Upsert?
  {
    var j := LastOf(its, its[i].c.uuid, i);
    j >= 0 && SameRun(its[j], its[i])
  }

  /** The last event of the run upsert i is in. */
  function RunEnd(its: seq<Item>, i: nat): (j: nat)
    requires i < |its| && its[i].c.Upsert?
    ensures i <= j < |its| && SameRun(its[j], its[i])
    ensures !GoesOn(its, j)
    decreases |its| - i
  {
    if GoesOn(its, i) then RunEnd(its, NextOf(its, its[i].c.uuid, i + 1)) else i
  }

  // ---------------------------------------------------------------- the compacted sequence

  /** What the compaction has in the place of event i. */
  function Out(its: seq<Item>, i: nat): Opt<Item>
    requires i < |its|
  {
    match its[i].c
    case Slot(_, _, _) => SlotOut(its, i)
    case Upsert(_, _) => if Joined(its, i) then None else Some(its[RunEnd(its, i)])
    case _ => Some(its[i])
  }

  function Listed(o: Opt<Item>): seq<Item> {
    if o.Some? then [o.v] else []
  }

  /** The compacted events placed before n. */
  function Outs(its: seq<Item>, n: nat): seq<Item>
    requires n <= |its|
  {
    if n == 0 then [] else Outs(its, n - 1) + Listed(Out(its, n - 1))
  }

  function Compact(its: seq<Item>): seq<Item> {
    Outs(its, |its|)
  }

  // ---------------------------------------------------------------- rows

  /** The row of key k after the first n events. */
  function RowAt(st: Store, its: seq<Item>, n: nat, k: string): Opt<Row>
    requires n <= |its|
  {
    At(Replay(st, its[..n]).rows, k)
  }

  lemma ReplayNext(st: Store, its: seq<Item>, n: nat)
    requires n < |its|
    ensures Replay(st, its[..n + 1]) == Apply(Replay(st, its[..n]), its[n])
  {
    assert its[..n + 1][..n] == its[..n];
  }

  lemma CountZero(its: seq<Item>, k: string)
    requires forall j | 0 <= j < |its| :: !OfSlot(its[j], k)
    ensures CountOf(its, k) == 0 && Merged(its, k) == map[]
  {
    if its != [] {
      CountZero(its[..|its| - 1], k);
    }
  }

  /** Events past n that are not of key k change neither its count nor its merge. */
  lemma NothingAfter(its: seq<Item>, n: nat, k: string)
    requires n <= |its|
    requires forall j | n <= j < |its| :: !OfSlot(its[j], k)
    ensures CountOf(its, k) == CountOf(its[..n], k) && Merged(its, k) == Merged(its[..n], k)
    decreases |its| - n
  {
    if n == |its| {
      assert its[..n] == its;
    } else {
      assert its[..|its| - 1][..n] == its[..n];
      NothingAfter(its[..|its| - 1], n, k);
    }
  }

  /** What the store holds of a merging key: its starting fields overwritten by the merge. */
  lemma {:induction false} RowMerges(st: Store, its: seq<Item>, k: string)
    requires forall j | 0 <= j < |its| && OfSlot(its[j], k) :: its[j].c.part != ""
    ensures var r := At(Replay(st, its).rows, k);
      var base := if k in st.rows then st.rows[k].merged else map[];
      (CountOf(its, k) == 0 ==> r == At(st.rows, k) && Merged(its, k) == map[]) &&
      (CountOf(its, k) > 0 ==> r.Some? && r.v.merged == base + Merged(its, k))
  {
    if its != [] {
      var l := |its| - 1;
      RowMerges(st, its[..l], k);
      if OfSlot(its[l], k) {
        RowMergesOne(Replay(st, its[..l]), its[l], k);
        Over(if k in st.rows then st.rows[k].merged else map[], Merged(its[..l], k), PartOf(its[l]));
        if CountOf(its[..l], k) == 0 {
          NoneMerged(its[..l], k);
        }
      }
    }
  }

  lemma {:induction false} Replaced(d: Fields, k: string, v: Json)
    ensures d[k := v] - {k} == d - {k}
  {
  }

  lemma {:induction false} Over(a: Fields, b: Fields, c: Fields)
    ensures (a + b) + c == a + (b + c)
    ensures a + map[] == a && map[] + a == a
  {
  }

  /** One event more of the key: what is merged in goes over what was there. */
  lemma {:induction false} RowMergesOne(st: Store, it: Item, k: string)
    requires OfSlot(it, k) && it.c.part != ""
    ensures var r := At(Apply(st, it).rows, k);
            r.Some? && r.v.merged == (if k in st.rows then st.rows[k].merged else map[]) + PartOf(it)
  {
  }

  lemma {:induction false} NoneMerged(its: seq<Item>, k: string)
    requires CountOf(its, k) == 0
    ensures Merged(its, k) == map[]
  {
    if its != [] {
      NoneMerged(its[..|its| - 1], k);
    }
  }

  /** The row that compaction's one event of a key makes is the row all the key's events make. */
  lemma SlotOutMakesTheRow(st: Store, its: seq<Item>, i: nat)
    requires i < |its| && AllProper(its) && its[i].c.Slot? && IsLastOfKey(its, i)
    ensures SlotOut(its, i).Some? && OfSlot(SlotOut(its, i).v, its[i].c.key)
    ensures var k := its[i].c.key;
      RowAt(st, its, i + 1, k) == Some(RowAfter(At(st.rows, k), SlotOut(its, i).v))
  {
    var e, c := its[i], its[i].c;
    var k := c.key;
    ReplayNext(st, its, i);
    if c.part != "" {
      forall j | 0 <= j < i && OfSlot(its[j], k) ensures its[j].c.part != "" {
      }
      RowMerges(st, its[..i], k);
      NothingAfter(its, i + 1, k);
      assert its[..i + 1][..i] == its[..i];
      if CountOf(its, k) > 1 {
        Replaced(c.d, c.part, Obj(Merged(its, k)));
        Over(if k in st.rows then st.rows[k].merged else map[], Merged(its[..i], k), PartOf(e));
      }
    }
  }

  // ---------------------------------------------------------------- the correspondence

  /** At n, viewer u is inside a run: its last upsert is followed by more of the run. */
  predicate Within(its: seq<Item>, n: nat, u: string)
    requires n <= |its|
  {
    var j := LastOf(its, u, n);
    j >= 0 && its[j].c.Upsert? && GoesOn(its, j)
  }

  /** The slot events of key k are all before n. */
  predicate Done(its: seq<Item>, n: nat, k: string)
    requires n <= |its|
  {
    forall j | n <= j < |its| :: !OfSlot(its[j], k)
  }

  /** How the store made by the compacted events placed before n (o) and the one made by the first
      n events (a) agree, both from st. */
  ghost predicate Agree(st: Store, its: seq<Item>, n: nat, o: Store, a: Store)
    requires n <= |its|
  {
    && RowsAgree(st, its, n, o, a)
    && ConnsAgree(its, n, o, a)
    && o.released == a.released
    && o.history == a.history
  }

  ghost predicate RowsAgree(st: Store, its: seq<Item>, n: nat, o: Store, a: Store)
    requires n <= |its|
  {
    forall k :: RowAgrees(st, its, n, o, a, k)
  }

  predicate RowAgrees(st: Store, its: seq<Item>, n: nat, o: Store, a: Store, k: string)
    requires n <= |its|
  {
    At(o.rows, k) == if Done(its, n, k) then At(a.rows, k) else At(st.rows, k)
  }

  ghost predicate ConnsAgree(its: seq<Item>, n: nat, o: Store, a: Store)
    requires n <= |its|
  {
    forall u :: ConnAgrees(its, n, o, a, u)
  }

  /** Inside a run the compacted store already has the run's last record; elsewhere they are equal. */
  predicate ConnAgrees(its: seq<Item>, n: nat, o: Store, a: Store, u: string)
    requires n <= |its|
  {
    var j := LastOf(its, u, n);
    && (j >= 0 && its[j].c.Upsert? ==> At(a.conns, u) == Some(its[j].c.conn) && u in a.released)
    && At(o.conns, u) == if Within(its, n, u) then Some(its[RunEnd(its, j)].c.conn) else At(a.conns, u)
  }

  /** Agreeing stores show the same viewers, but for hls_last_read. */
  lemma AgreeViews(its: seq<Item>, n: nat, o: Store, a: Store)
    requires n <= |its| && ConnsAgree(its, n, o, a)
    ensures Views(o.conns) == Views(a.conns)
  {
    forall u ensures (u in o.conns <==> u in a.conns) && (u in o.conns ==> MarkOf(o.conns[u]) == MarkOf(a.conns[u])) {
      assert ConnAgrees(its, n, o, a, u);
      if Within(its, n, u) {
        assert SameRun(its[RunEnd(its, LastOf(its, u, n))], its[LastOf(its, u, n)]);
      }
    }
  }

  lemma RowsElsewhere(st: Store, its: seq<Item>, n: nat, o: Store, a: Store, o': Store, a': Store)
    requires n < |its| && !its[n].c.Slot? && RowsAgree(st, its, n, o, a)
    requires o'.rows == o.rows && a'.rows == a.rows
    ensures RowsAgree(st, its, n + 1, o', a')
  {
    var m := n + 1;
    forall k ensures RowAgrees(st, its, m, o', a', k) {
      assert RowAgrees(st, its, n, o, a, k);
      assert Done(its, n + 1, k) <==> Done(its, n, k);
    }
  }

  lemma ConnElsewhere(its: seq<Item>, n: nat, o: Store, a: Store, o': Store, a': Store, u: string)
    requires n < |its| && !About(its[n], u) && ConnAgrees(its, n, o, a, u)
    requires At(o'.conns, u) == At(o.conns, u) && At(a'.conns, u) == At(a.conns, u) && a.released <= a'.released
    ensures ConnAgrees(its, n + 1, o', a', u)
  {
  }

  lemma StepKeep(st: Store, its: seq<Item>, n: nat, o: Store, a: Store)
    requires n < |its| && its[n].c.Keep? && Agree(st, its, n, o, a)
    ensures Agree(st, its, n + 1, Apply(o, its[n]), Apply(a, its[n]))
  {
    AgreeViews(its, n, o, a);
    var o', a' := Apply(o, its[n]), Apply(a, its[n]);
    RowsElsewhere(st, its, n, o, a, o', a');
    var m' := n + 1;
    forall u ensures ConnAgrees(its, m', o', a', u) {
      assert ConnAgrees(its, n, o, a, u);
      ConnElsewhere(its, n, o, a, o', a', u);
    }
  }

  lemma StepSlot(st: Store, its: seq<Item>, n: nat, o: Store, a: Store)
    requires n < |its| && AllProper(its) && its[n].c.Slot? && a == Replay(st, its[..n]) && Agree(st, its, n, o, a)
    ensures var o' := if SlotOut(its, n).Some? then Apply(o, SlotOut(its, n).v) else o;
            Agree(st, its, n + 1, o', Apply(a, its[n]))
  {
    var key := its[n].c.key;
    var a' := Apply(a, its[n]);
    var o' := if SlotOut(its, n).Some? then Apply(o, SlotOut(its, n).v) else o;
    if IsLastOfKey(its, n) {
      SlotOutMakesTheRow(st, its, n);
      ReplayNext(st, its, n);
    }
    var m := n + 1;
    forall k ensures RowAgrees(st, its, m, o', a', k) {
      assert RowAgrees(st, its, n, o, a, k);
      if k == key {
        assert OfSlot(its[n], key);
        assert Done(its, n + 1, k) <==> IsLastOfKey(its, n);
      } else {
        assert Done(its, n + 1, k) <==> Done(its, n, k);
      }
    }
    var m' := n + 1;
    forall u ensures ConnAgrees(its, m', o', a', u) {
      assert ConnAgrees(its, n, o, a, u);
      ConnElsewhere(its, n, o, a, o', a', u);
    }
  }

  lemma StepConnEnd(st: Store, its: seq<Item>, n: nat, o: Store, a: Store)
    requires n < |its| && its[n].c.ConnEnd? && Agree(st, its, n, o, a)
    ensures Agree(st, its, n + 1, Apply(o, its[n]), Apply(a, its[n]))
  {
    AgreeViews(its, n, o, a);
    var v := its[n].c.viewer;
    EndIsNext(its, n, v);
    var o', a' := Apply(o, its[n]), Apply(a, its[n]);
    assert ConnAgrees(its, n, o, a, v);
    RowsElsewhere(st, its, n, o, a, o', a');
    var m' := n + 1;
    forall u ensures ConnAgrees(its, m', o', a', u) {
      assert ConnAgrees(its, n, o, a, u);
      if u != v {
        ConnElsewhere(its, n, o, a, o', a', u);
      }
    }
  }

  /** What compaction makes of the store in the place of upsert n. */
  function AfterUpsert(its: seq<Item>, n: nat, o: Store): (o': Store)
    requires n < |its| && its[n].c.Upsert?
  {
    if Joined(its, n) then o else Apply(o, its[RunEnd(its, n)])
  }

  lemma StepUpsert(st: Store, its: seq<Item>, n: nat, o: Store, a: Store)
    requires n < |its| && its[n].c.Upsert? && Agree(st, its, n, o, a)
    ensures Agree(st, its, n + 1, AfterUpsert(its, n, o), Apply(a, its[n]))
  {
    RowsElsewhere(st, its, n, o, a, AfterUpsert(its, n, o), Apply(a, its[n]));
    var m := n + 1;
    forall u ensures ConnAgrees(its, m, AfterUpsert(its, n, o), Apply(a, its[n]), u) {
      assert ConnAgrees(its, n, o, a, u);
      UpsertsViewers(its, n, o, a, u);
    }
    assert ConnAgrees(its, n, o, a, its[n].c.uuid);
    Released(its, n, o, a);
  }

  lemma Released(its: seq<Item>, n: nat, o: Store, a: Store)
    requires n < |its| && its[n].c.Upsert? && ConnAgrees(its, n, o, a, its[n].c.uuid)
    requires o.released == a.released
    ensures AfterUpsert(its, n, o).released == Apply(a, its[n]).released
  {
    RunStep(its, n);
  }

  lemma UpsertsViewers(its: seq<Item>, n: nat, o: Store, a: Store, u: string)
    requires n < |its| && its[n].c.Upsert? && ConnAgrees(its, n, o, a, u)
    ensures ConnAgrees(its, n + 1, AfterUpsert(its, n, o), Apply(a, its[n]), u)
  {
    if u == its[n].c.uuid {
      RunStep(its, n);
    } else {
      ConnElsewhere(its, n, o, a, AfterUpsert(its, n, o), Apply(a, its[n]), u);
    }
  }

  /** An upsert joins a run exactly when its viewer is inside one, which then ends where it does. */
  lemma RunStep(its: seq<Item>, n: nat)
    requires n < |its| && its[n].c.Upsert?
    ensures var v := its[n].c.uuid;
            && (Joined(its, n) <==> Within(its, n, v))
            && (Joined(its, n) ==> RunEnd(its, LastOf(its, v, n)) == RunEnd(its, n))
            && LastOf(its, v, n + 1) == n
            && (Within(its, n + 1, v) <==> GoesOn(its, n))
            && (!GoesOn(its, n) ==> RunEnd(its, n) == n)
  {
    EndIsNext(its, n, its[n].c.uuid);
  }

  lemma {:induction false} AgreeThroughout(st: Store, its: seq<Item>, n: nat)
    requires n <= |its| && AllProper(its)
    ensures Agree(st, its, n, Replay(st, Outs(its, n)), Replay(st, its[..n]))
  {
    if n > 0 {
      var m := n - 1;
      AgreeThroughout(st, its, m);
      var o, a := Replay(st, Outs(its, m)), Replay(st, its[..m]);
      ReplayNext(st, its, m);
      var out := Out(its, m);
      if out.Some? {
        ReplayOne(st, Outs(its, m), out.v);
      } else {
        assert Outs(its, n) == Outs(its, m);
      }
      match its[m].c
      case Keep => StepKeep(st, its, m, o, a);
      case Slot(_, _, _) => StepSlot(st, its, m, o, a);
      case Upsert(_, _) => StepUpsert(st, its, m, o, a);
      case ConnEnd(_) => StepConnEnd(st, its, m, o, a);
    }
  }

  // ---------------------------------------------------------------- the theorems

  /** Compaction preserves meaning: from any store, the compacted events leave the store the events
      leave, every row, connection and reservation, and every kept event, remove and close saw the
      same viewers on the way. */
  lemma CompactionPreservesMeaning(st: Store, its: seq<Item>)
    requires AllProper(its)
    ensures Replay(st, Compact(its)) == Replay(st, its)
  {
    AgreeThroughout(st, its, |its|);
    assert its[..|its|] == its;
    var o, a := Replay(st, Compact(its)), Replay(st, its);
    forall k ensures At(o.rows, k) == At(a.rows, k) {
      assert RowAgrees(st, its, |its|, o, a, k);
    }
    MapsEqual(o.rows, a.rows);
    forall u ensures At(o.conns, u) == At(a.conns, u) {
      assert ConnAgrees(its, |its|, o, a, u);
      NextNotBefore(its, u, LastOf(its, u, |its|) + 1, |its|);
    }
    MapsEqual(o.conns, a.conns);
  }

  /** At every moment in between, the viewers are the same but for hls_last_read: open or ended
      alike, under the same owners, with the same reservations released, and the same history. */
  lemma CompactionPreservesEveryMoment(st: Store, its: seq<Item>, n: nat)
    requires n <= |its| && AllProper(its)
    ensures var o, a := Replay(st, Outs(its, n)), Replay(st, its[..n]);
      Views(o.conns) == Views(a.conns) && o.released == a.released && o.history == a.history
  {
    AgreeThroughout(st, its, n);
    AgreeViews(its, n, Replay(st, Outs(its, n)), Replay(st, its[..n]));
  }

  predicate Stays(e: Item) {
    e.c.Keep? || e.c.ConnEnd?
  }

  function Staying(its: seq<Item>): seq<Item> {
    if its == [] then []
    else Staying(its[..|its| - 1]) + if Stays(its[|its| - 1]) then [its[|its| - 1]] else []
  }

  lemma StayingOne(its: seq<Item>, e: Item)
    ensures Staying(its + [e]) == Staying(its) + if Stays(e) then [e] else []
  {
    assert (its + [e])[..|its|] == its;
  }

  lemma OutStays(its: seq<Item>, i: nat)
    requires i < |its|
    ensures if Stays(its[i]) then Out(its, i) == Some(its[i]) else Out(its, i).Some? ==> !Stays(Out(its, i).v)
  {
  }

  /** Every event that does not fold, and every remove and close, survives unchanged and in order. */
  lemma {:induction false} StayingSurvive(its: seq<Item>, n: nat)
    requires n <= |its|
    ensures Staying(Outs(its, n)) == Staying(its[..n])
  {
    if n > 0 {
      StayingSurvive(its, n - 1);
      assert its[..n] == its[..n - 1] + [its[n - 1]];
      StayingOne(its[..n - 1], its[n - 1]);
      OutStays(its, n - 1);
      var out := Out(its, n - 1);
      if out.Some? {
        StayingOne(Outs(its, n - 1), out.v);
      } else {
        assert Outs(its, n) == Outs(its, n - 1);
      }
    }
  }

  /** A compaction never adds an event. */
  lemma {:induction false} CompactNotLonger(its: seq<Item>, n: nat)
    requires n <= |its|
    ensures |Outs(its, n)| <= n
  {
    if n > 0 {
      CompactNotLonger(its, n - 1);
    }
  }

  // ---------------------------------------------------------------- over events as spooled

  function CompactEvents(evs: seq<Event>): seq<Event> {
    Events(Compact(Items(evs)))
  }

  lemma ItemsProper(evs: seq<Event>)
    ensures AllProper(Items(evs))
  {
    forall i | 0 <= i < |evs| ensures Proper(Items(evs)[i]) {
      ClassifyProper(evs[i]);
    }
  }

  lemma OutReclassifies(evs: seq<Event>, i: nat)
    requires i < |evs|
    ensures var o := Out(Items(evs), i); o.Some? ==> o.v == Classified(o.v.e)
  {
    var its := Items(evs);
    if its[i].c.Slot? && its[i].c.part != "" {
      WithPartClassifies(evs[i], Merged(its, its[i].c.key));
    }
  }

  ghost predicate AllClassified(its: seq<Item>) {
    forall i | 0 <= i < |its| :: its[i] == Classified(its[i].e)
  }

  lemma {:induction false} OutsReclassify(evs: seq<Event>, n: nat)
    requires n <= |evs|
    ensures AllClassified(Outs(Items(evs), n))
  {
    if n > 0 {
      OutsReclassify(evs, n - 1);
      OutReclassifies(evs, n - 1);
    }
  }

  lemma ItemsOfEvents(its: seq<Item>)
    requires AllClassified(its)
    ensures Items(Events(its)) == its
  {
    forall i | 0 <= i < |its| ensures Items(Events(its))[i] == its[i] {
      assert its[i] == Classified(its[i].e);
    }
  }

  /** What MAIN makes of events, taking each for what `classify` says it is. */
  function Meaning(st: Store, evs: seq<Event>): Store {
    Replay(st, Items(evs))
  }

  lemma ItemsConcat(a: seq<Event>, b: seq<Event>)
    ensures Items(a + b) == Items(a) + Items(b)
  {
  }

  lemma MeaningConcat(st: Store, a: seq<Event>, b: seq<Event>)
    ensures Meaning(st, a + b) == Meaning(Meaning(st, a), b)
  {
    ItemsConcat(a, b);
    ReplayConcat(st, Items(a), Items(b));
  }

  /** The compacted events are read back as compaction wrote them, and mean the same to MAIN. */
  lemma CompactEventsPreserveMeaning(st: Store, evs: seq<Event>)
    ensures Items(CompactEvents(evs)) == Compact(Items(evs))
    ensures Meaning(st, CompactEvents(evs)) == Meaning(st, evs)
  {
    OutsReclassify(evs, |evs|);
    ItemsOfEvents(Compact(Items(evs)));
    ItemsProper(evs);
    CompactionPreservesMeaning(st, Items(evs));
  }
}
