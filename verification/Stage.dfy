/** compact.go's `stage` as the source runs it: a first pass over the tail that notes the last event
of every key and the viewers' runs, a second one that writes what stays into chunk files. Both are
proved against `Compaction.Compact`. */
module Stage {
  import opened Maps
  import opened SpoolEvents
  import opened MainStore
  import opened Compaction

  /** A non-blank spool line, trimmed: what it says and its length in bytes. */
  datatype Line = Line(e: Event, size: nat)

  /** Where a line is: the tail's file, and which of its lines. */
  datatype LineAt = LineAt(file: nat, line: nat)

  /** A line taken, with what `classify` made of it. */
  datatype Taken = Taken(at: LineAt, line: Line, it: Item)

  /** A batch's limits, and the length a re-encoded event has (json.Marshal in `withPart`). */
  datatype Limits = Limits(maxEvents: nat, maxBytes: nat, encoded: Event -> nat)

  /** readSpoolFile takes the line: not longer than a batch, and an event. */
  predicate Takes(l: Line, maxBytes: nat) {
    l.size <= maxBytes && Readable(l.e)
  }

  function EventsOf(ls: seq<Line>): (r: seq<Event>)
    ensures |r| == |ls| && forall i | 0 <= i < |ls| :: r[i] == ls[i].e
  {
    seq(|ls|, i requires 0 <= i < |ls| => ls[i].e)
  }

  function Its(ts: seq<Taken>): (r: seq<Item>)
    ensures |r| == |ts| && forall i | 0 <= i < |ts| :: r[i] == ts[i].it
  {
    seq(|ts|, i requires 0 <= i < |ts| => ts[i].it)
  }

  function Ats(ts: seq<Taken>): (r: seq<LineAt>)
    ensures |r| == |ts| && forall i | 0 <= i < |ts| :: r[i] == ts[i].at
  {
    seq(|ts|, i requires 0 <= i < |ts| => ts[i].at)
  }

  // ---------------------------------------------------------------- reading the tail

  function TakeAt(fi: nat, li: nat, l: Line): Taken {
    Taken(LineAt(fi, li), l, Classified(l.e))
  }

  /** The lines taken from the first li lines of file fi and the files before it. */
  function TakenBefore(tail: seq<seq<Line>>, maxBytes: nat, fi: nat, li: nat): seq<Taken>
    requires (fi < |tail| && li <= |tail[fi]|) || (fi == |tail| && li == 0)
    decreases fi, li
  {
    if li > 0 then
      var l := tail[fi][li - 1];
      TakenBefore(tail, maxBytes, fi, li - 1) + if Takes(l, maxBytes) then [TakeAt(fi, li - 1, l)] else []
    else if fi > 0 then TakenBefore(tail, maxBytes, fi - 1, |tail[fi - 1]|)
    else []
  }

  function TakenOf(tail: seq<seq<Line>>, maxBytes: nat): seq<Taken> {
    TakenBefore(tail, maxBytes, |tail|, 0)
  }

  predicate Located(tail: seq<seq<Line>>, t: Taken, maxBytes: nat) {
    && t.at.file < |tail| && t.at.line < |tail[t.at.file]|
    && t == TakeAt(t.at.file, t.at.line, tail[t.at.file][t.at.line])
    && Takes(t.line, maxBytes)
  }

  method ReadTail(tail: seq<seq<Line>>, maxBytes: nat) returns (ts: seq<Taken>)
    ensures ts == TakenOf(tail, maxBytes)
    ensures forall i | 0 <= i < |ts| :: Located(tail, ts[i], maxBytes)
  {
    ts := [];
    for fi := 0 to |tail|
      invariant ts == TakenBefore(tail, maxBytes, fi, 0)
      invariant forall i | 0 <= i < |ts| :: Located(tail, ts[i], maxBytes)
    {
      for li := 0 to |tail[fi]|
        invariant ts == TakenBefore(tail, maxBytes, fi, li)
        invariant forall i | 0 <= i < |ts| :: Located(tail, ts[i], maxBytes)
      {
        if Takes(tail[fi][li], maxBytes) {
          ts := ts + [TakeAt(fi, li, tail[fi][li])];
        }
      }
    }
  }

  // ---------------------------------------------------------------- what is written

  /** The line written in the place of line i: as spooled, unless a merged part replaces its own. */
  function LineOut(ts: seq<Taken>, lim: Limits, i: nat): Opt<Line>
    requires i < |ts|
  {
    var its := Its(ts);
    match its[i].c
    case Slot(k, part, _) =>
      if !IsLastOfKey(its, i) then None
      else if CountOf(its, k) > 1 && part != "" then
        var e := WithPart(its[i], Merged(its, k)).e;
        Some(Line(e, lim.encoded(e)))
      else Some(ts[i].line)
    case Upsert(_, _) => if Joined(its, i) then None else Some(ts[RunEnd(its, i)].line)
    case _ => Some(ts[i].line)
  }

  function OneLine(o: Opt<Line>): seq<Line> {
    if o.Some? then [o.v] else []
  }

  function LinesOut(ts: seq<Taken>, lim: Limits, n: nat): seq<Line>
    requires n <= |ts|
  {
    if n == 0 then [] else LinesOut(ts, lim, n - 1) + OneLine(LineOut(ts, lim, n - 1))
  }

  /** Each line's item holds the line's event. */
  ghost predicate SameEvents(ts: seq<Taken>) {
    forall i | 0 <= i < |ts| :: ts[i].it.e == ts[i].line.e
  }

  lemma {:induction false} SayMore(a: seq<Line>, b: seq<Item>, l: seq<Line>, o: seq<Item>)
    requires EventsOf(a) == Events(b) && EventsOf(l) == Events(o)
    ensures EventsOf(a + l) == Events(b + o)
  {
    assert |b| == |a| && |o| == |l|;
    forall i | 0 <= i < |a + l| ensures EventsOf(a + l)[i] == Events(b + o)[i] {
      if i < |a| {
        assert EventsOf(a)[i] == Events(b)[i];
      } else {
        assert EventsOf(l)[i - |a|] == Events(o)[i - |a|];
      }
    }
  }

  lemma {:induction false} LineOutSays(ts: seq<Taken>, lim: Limits, i: nat)
    requires i < |ts| && SameEvents(ts)
    ensures EventsOf(OneLine(LineOut(ts, lim, i))) == Events(Listed(Out(Its(ts), i)))
  {
  }

  lemma {:induction false} LinesOutSay(ts: seq<Taken>, lim: Limits, n: nat)
    requires n <= |ts| && SameEvents(ts)
    ensures EventsOf(LinesOut(ts, lim, n)) == Events(Outs(Its(ts), n))
  {
    if n > 0 {
      LinesOutSay(ts, lim, n - 1);
      LineOutSays(ts, lim, n - 1);
      SayMore(LinesOut(ts, lim, n - 1), Outs(Its(ts), n - 1), OneLine(LineOut(ts, lim, n - 1)),
          Listed(Out(Its(ts), n - 1)));
    }
  }

  // ---------------------------------------------------------------- the viewers' runs

  datatype SlotState = SlotState(last: int, count: nat, part: Fields)

  datatype ConnRun = ConnRun(first: nat, last: nat, mark: Mark, at: LineAt)

  /** The run that begins with upsert s. */
  function TheRun(its: seq<Item>, ats: seq<LineAt>, s: nat): ConnRun
    requires s < |its| == |ats| && its[s].c.Upsert?
  {
    var e := RunEnd(its, s);
    ConnRun(s, e, MarkOf(its[s].c.conn), ats[e])
  }

  function RunIfMany(its: seq<Item>, ats: seq<LineAt>, s: nat): seq<ConnRun>
    requires s < |its| == |ats| && its[s].c.Upsert?
  {
    if RunEnd(its, s) > s then [TheRun(its, ats, s)] else []
  }

  /** Viewer u's runs of more than one upsert from i on, i not being inside one. */
  function RunsFrom(its: seq<Item>, ats: seq<LineAt>, u: string, i: nat): (rs: seq<ConnRun>)
    requires i <= |its| == |ats|
    ensures rs != [] ==> rs[0].first >= i
    decreases |its| - i
  {
    var j := NextOf(its, u, i);
    if j == |its| then []
    else if its[j].c.Upsert? then RunIfMany(its, ats, j) + RunsFrom(its, ats, u, RunEnd(its, j) + 1)
    else RunsFrom(its, ats, u, j + 1)
  }

  /** The first upsert of the run upsert j is in. */
  function StartOf(its: seq<Item>, j: nat): (s: nat)
    requires j < |its| && its[j].c.Upsert?
    ensures s <= j && SameRun(its[s], its[j]) && RunEnd(its, s) == RunEnd(its, j)
  {
    if Joined(its, j) then
      var p := LastOf(its, its[j].c.uuid, j);
      EndIsNext(its, j, its[j].c.uuid);
      StartOf(its, p)
    else j
  }

  /** Before n, viewer u's last event is an upsert. */
  predicate IsOpen(its: seq<Item>, u: string, n: nat)
    requires n <= |its|
  {
    var j := LastOf(its, u, n);
    j >= 0 && its[j].c.Upsert?
  }

  /** The runs of u the first pass has yet to record before item n. */
  function Unrecorded(its: seq<Item>, ats: seq<LineAt>, u: string, n: nat): seq<ConnRun>
    requires n <= |its| == |ats|
  {
    if IsOpen(its, u, n) then
      var s := StartOf(its, LastOf(its, u, n));
      RunIfMany(its, ats, s) + RunsFrom(its, ats, u, RunEnd(its, s) + 1)
    else RunsFrom(its, ats, u, n)
  }

  /** The runs of u the second pass has not written whole before item n. */
  function Queue(its: seq<Item>, ats: seq<LineAt>, u: string, n: nat): seq<ConnRun>
    requires n <= |its| == |ats|
  {
    if Within(its, n, u) then
      var s := StartOf(its, LastOf(its, u, n));
      [TheRun(its, ats, s)] + RunsFrom(its, ats, u, RunEnd(its, s) + 1)
    else RunsFrom(its, ats, u, n)
  }

  lemma {:induction false} RunsFromSkips(its: seq<Item>, ats: seq<LineAt>, u: string, i: nat, n: nat)
    requires i <= n <= |its| == |ats| && NextOf(its, u, i) >= n
    ensures RunsFrom(its, ats, u, i) == RunsFrom(its, ats, u, n)
  {
    NextOfSkips(its, u, i, n);
  }

  lemma {:induction false} UnrecordedElsewhere(its: seq<Item>, ats: seq<LineAt>, n: nat, u: string)
    requires n < |its| == |ats| && !About(its[n], u)
    ensures LastOf(its, u, n + 1) == LastOf(its, u, n)
    ensures Unrecorded(its, ats, u, n + 1) == Unrecorded(its, ats, u, n)
  {
    RunsFromSkips(its, ats, u, n, n + 1);
  }

  /** Where viewer u's next event does not go on with the open run, the run is as it stands. */
  lemma {:induction false} UnrecordedEnds(its: seq<Item>, ats: seq<LineAt>, n: nat, u: string)
    requires n <= |its| == |ats| && IsOpen(its, u, n) && !Within(its, n, u)
    ensures var j := LastOf(its, u, n);
            var s := StartOf(its, j);
            && RunEnd(its, s) == j
            && Unrecorded(its, ats, u, n) == (if s < j then [TheRun(its, ats, s)] else []) + RunsFrom(its, ats, u, n)
  {
    var j := LastOf(its, u, n);
    NextNotBefore(its, u, j + 1, n);
    RunsFromSkips(its, ats, u, j + 1, n);
  }

  lemma {:induction false} UnrecordedUpsert(its: seq<Item>, ats: seq<LineAt>, n: nat)
    requires n < |its| == |ats| && its[n].c.Upsert?
    ensures var u := its[n].c.uuid;
            && LastOf(its, u, n + 1) == n
            && (Joined(its, n) ==>
                  && Unrecorded(its, ats, u, n + 1) == Unrecorded(its, ats, u, n)
                  && StartOf(its, n) == StartOf(its, LastOf(its, u, n)))
            && (!Joined(its, n) ==>
                  && StartOf(its, n) == n && !Within(its, n, u)
                  && Unrecorded(its, ats, u, n + 1) == RunsFrom(its, ats, u, n))
  {
    RunStep(its, n);
    if !Joined(its, n) {
      UnrecordedNew(its, ats, n);
    } else {
      UnrecordedOn(its, ats, n);
    }
  }

  lemma {:induction false} UnrecordedNew(its: seq<Item>, ats: seq<LineAt>, n: nat)
    requires n < |its| == |ats| && its[n].c.Upsert? && !Joined(its, n)
    ensures var u := its[n].c.uuid;
            && LastOf(its, u, n + 1) == n && StartOf(its, n) == n
            && Unrecorded(its, ats, u, n + 1) == RunsFrom(its, ats, u, n)
  {
  }

  lemma {:induction false} UnrecordedOn(its: seq<Item>, ats: seq<LineAt>, n: nat)
    requires n < |its| == |ats| && its[n].c.Upsert? && Joined(its, n)
    ensures var u := its[n].c.uuid;
            && StartOf(its, n) == StartOf(its, LastOf(its, u, n))
            && Unrecorded(its, ats, u, n + 1) == Unrecorded(its, ats, u, n)
  {
    RunStep(its, n);
  }

  lemma {:induction false} UnrecordedEnd(its: seq<Item>, ats: seq<LineAt>, n: nat)
    requires n < |its| == |ats| && its[n].c.ConnEnd?
    ensures var u := its[n].c.viewer;
            && LastOf(its, u, n + 1) == n && !Within(its, n, u)
            && Unrecorded(its, ats, u, n + 1) == RunsFrom(its, ats, u, n)
  {
    EndIsNext(its, n, its[n].c.viewer);
  }

  // ---------------------------------------------------------------- the first pass

  function Runs(m: map<string, seq<ConnRun>>, u: string): seq<ConnRun> {
    if u in m then m[u] else []
  }

  /** The slot s kept for key k is what the first n items make it. */
  predicate SlotNoted(s: Opt<SlotState>, its: seq<Item>, n: nat, k: string)
    requires n <= |its|
  {
    match s
    case None => CountOf(its[..n], k) == 0
    case Some(v) =>
      && v.count == CountOf(its[..n], k) > 0
      && v.part == Merged(its[..n], k)
      && 0 <= v.last < n && OfSlot(its[v.last], k)
      && forall j | v.last < j < n :: !OfSlot(its[j], k)
  }

  /** Viewer u's current run and its recorded ones are what the first n items make them. */
  predicate ViewerNoted(open: Opt<ConnRun>, runs: seq<ConnRun>, its: seq<Item>, ats: seq<LineAt>, n: nat, u: string)
    requires n <= |its| == |ats|
  {
    && (open.Some? <==> IsOpen(its, u, n))
    && (open.Some? ==>
          var j := LastOf(its, u, n);
          open.v == ConnRun(StartOf(its, j), j, MarkOf(its[j].c.conn), ats[j]))
    && runs + Unrecorded(its, ats, u, n) == RunsFrom(its, ats, u, 0)
  }

  /** endRun: the runs recorded once the current one ends. */
  function Recorded(open: Opt<ConnRun>, runs: seq<ConnRun>): seq<ConnRun> {
    if open.Some? && open.v.last > open.v.first then runs + [open.v] else runs
  }

  lemma {:induction false} SlotGrows(s: Opt<SlotState>, its: seq<Item>, n: nat, k: string)
    requires n < |its| && SlotNoted(s, its, n, k)
    ensures OfSlot(its[n], k) ==>
              var was := if s.Some? then s.v else SlotState(-1, 0, map[]);
              SlotNoted(Some(SlotState(n, was.count + 1, was.part + PartOf(its[n]))), its, n + 1, k)
    ensures !OfSlot(its[n], k) ==> SlotNoted(s, its, n + 1, k)
  {
    assert its[..n + 1][..n] == its[..n];
    if s.None? {
      NoneMerged(its[..n], k);
    }
  }

  lemma {:induction false} ViewerElsewhere(
      open: Opt<ConnRun>, runs: seq<ConnRun>, its: seq<Item>, ats: seq<LineAt>, n: nat, u: string)
    requires n < |its| == |ats| && !About(its[n], u) && ViewerNoted(open, runs, its, ats, n, u)
    ensures ViewerNoted(open, runs, its, ats, n + 1, u)
  {
    UnrecordedElsewhere(its, ats, n, u);
  }

  /** A run that does not go on is recorded as it stands. */
  lemma {:induction false} RecordedAll(
      open: Opt<ConnRun>, runs: seq<ConnRun>, its: seq<Item>, ats: seq<LineAt>, n: nat, u: string)
    requires n <= |its| == |ats| && ViewerNoted(open, runs, its, ats, n, u) && !Within(its, n, u)
    ensures Recorded(open, runs) + RunsFrom(its, ats, u, n) == RunsFrom(its, ats, u, 0)
  {
    if open.Some? {
      UnrecordedEnds(its, ats, n, u);
      RecordsTheRest(open.v, runs, TheRun(its, ats, open.v.first), Unrecorded(its, ats, u, n),
          RunsFrom(its, ats, u, n));
    }
  }

  lemma {:induction false} RecordsTheRest(
      open: ConnRun, runs: seq<ConnRun>, r: ConnRun, rest: seq<ConnRun>, later: seq<ConnRun>)
    requires open.last > open.first ==> r == open
    requires rest == (if open.first < open.last then [r] else []) + later
    ensures Recorded(Some(open), runs) + later == runs + rest
  {
  }

  lemma {:induction false} ViewerUpserts(
      open: Opt<ConnRun>, runs: seq<ConnRun>, its: seq<Item>, ats: seq<LineAt>, n: nat)
    requires n < |its| == |ats| && its[n].c.Upsert? && ViewerNoted(open, runs, its, ats, n, its[n].c.uuid)
    ensures var u, mark := its[n].c.uuid, MarkOf(its[n].c.conn);
            if open.Some? && open.v.mark == mark
            then ViewerNoted(Some(open.v.(last := n, at := ats[n])), runs, its, ats, n + 1, u)
            else ViewerNoted(Some(ConnRun(n, n, mark, ats[n])), Recorded(open, runs), its, ats, n + 1, u)
  {
    UnrecordedUpsert(its, ats, n);
    if !Joined(its, n) {
      RecordedAll(open, runs, its, ats, n, its[n].c.uuid);
    }
  }

  lemma {:induction false} ViewerEnds(open: Opt<ConnRun>, runs: seq<ConnRun>, its: seq<Item>, ats: seq<LineAt>, n: nat)
    requires n < |its| == |ats| && its[n].c.ConnEnd? && ViewerNoted(open, runs, its, ats, n, its[n].c.viewer)
    ensures ViewerNoted(None, Recorded(open, runs), its, ats, n + 1, its[n].c.viewer)
  {
    UnrecordedEnd(its, ats, n);
    RecordedAll(open, runs, its, ats, n, its[n].c.viewer);
  }

  lemma {:induction false} KeptApart(
      open: map<string, ConnRun>, runs: map<string, seq<ConnRun>>, its: seq<Item>, ats: seq<LineAt>, n: nat)
    requires n < |its| == |ats| && (its[n].c.Keep? || its[n].c.Slot?)
    requires forall u :: ViewerNoted(At(open, u), Runs(runs, u), its, ats, n, u)
    ensures var m := n + 1; forall u :: ViewerNoted(At(open, u), Runs(runs, u), its, ats, m, u)
  {
    var m := n + 1;
    forall u ensures ViewerNoted(At(open, u), Runs(runs, u), its, ats, m, u) {
      ViewerElsewhere(At(open, u), Runs(runs, u), its, ats, n, u);
    }
  }

  lemma {:induction false} SlotsApart(slots: map<string, SlotState>, its: seq<Item>, n: nat)
    requires n < |its| && !its[n].c.Slot?
    requires forall k :: SlotNoted(At(slots, k), its, n, k)
    ensures var m := n + 1; forall k :: SlotNoted(At(slots, k), its, m, k)
  {
    var m := n + 1;
    forall k ensures SlotNoted(At(slots, k), its, m, k) {
      SlotGrows(At(slots, k), its, n, k);
    }
  }

  /** What the first pass keeps: a slot per key, the viewers' current runs and their longer ones. */
  class Notes {
    var slots: map<string, SlotState>
    var open: map<string, ConnRun>
    var runs: map<string, seq<ConnRun>>

    constructor ()
      ensures slots == map[] && open == map[] && runs == map[]
    {
      slots, open, runs := map[], map[], map[];
    }

    ghost predicate SlotsNoted(its: seq<Item>, n: nat)
      requires n <= |its|
      reads this
    {
      forall k :: SlotNoted(At(slots, k), its, n, k)
    }

    ghost predicate RunsNoted(its: seq<Item>, ats: seq<LineAt>, n: nat)
      requires n <= |its| == |ats|
      reads this
    {
      forall u :: ViewerNoted(At(open, u), Runs(runs, u), its, ats, n, u)
    }

    method EndRun(u: string)
      modifies this
      ensures slots == old(slots) && open == old(open) - {u}
      ensures Runs(runs, u) == Recorded(At(old(open), u), Runs(old(runs), u))
      ensures forall v | v != u :: Runs(runs, v) == Runs(old(runs), v)
    {
      if u in open && open[u].last > open[u].first {
        runs := runs[u := Runs(runs, u) + [open[u]]];
      }
      open := open - {u};
    }

    method NoteSlot(n: nat, it: Item, ghost its: seq<Item>)
      requires n < |its| && it == its[n] && it.c.Slot? && SlotsNoted(its, n)
      modifies this
      ensures open == old(open) && runs == old(runs) && SlotsNoted(its, n + 1)
    {
      var k := it.c.key;
      var s := if k in slots then slots[k] else SlotState(-1, 0, map[]);
      if it.c.part != "" {
        s := s.(part := s.part + PartOf(it));
      } else {
        assert s.part + PartOf(it) == s.part;
      }
      ghost var was, m := slots, n + 1;
      slots := slots[k := s.(last := n, count := s.count + 1)];
      forall k' ensures SlotNoted(At(slots, k'), its, m, k') {
        SlotGrows(At(was, k'), its, n, k');
      }
    }

    method NoteUpsert(n: nat, it: Item, at: LineAt, ghost its: seq<Item>, ghost ats: seq<LineAt>)
      requires n < |its| == |ats| && it == its[n] && at == ats[n] && it.c.Upsert? && RunsNoted(its, ats, n)
      modifies this
      ensures slots == old(slots) && RunsNoted(its, ats, n + 1)
    {
      var u, mark := it.c.uuid, MarkOf(it.c.conn);
      ghost var o, r, m := open, runs, n + 1;
      if u in open && open[u].mark == mark {
        open := open[u := open[u].(last := n, at := at)];
      } else {
        EndRun(u);
        open := open[u := ConnRun(n, n, mark, at)];
      }
      forall v ensures ViewerNoted(At(open, v), Runs(runs, v), its, ats, m, v) {
        assert ViewerNoted(At(o, v), Runs(r, v), its, ats, n, v);
        if v == u {
          ViewerUpserts(At(o, u), Runs(r, u), its, ats, n);
        } else {
          ViewerElsewhere(At(o, v), Runs(r, v), its, ats, n, v);
        }
      }
    }

    method NoteEnd(n: nat, it: Item, ghost its: seq<Item>, ghost ats: seq<LineAt>)
      requires n < |its| == |ats| && it == its[n] && it.c.ConnEnd? && RunsNoted(its, ats, n)
      modifies this
      ensures slots == old(slots) && RunsNoted(its, ats, n + 1)
    {
      ghost var u, o, r, m := it.c.viewer, open, runs, n + 1;
      EndRun(it.c.viewer);
      forall v ensures ViewerNoted(At(open, v), Runs(runs, v), its, ats, m, v) {
        assert ViewerNoted(At(o, v), Runs(r, v), its, ats, n, v);
        if v == u {
          ViewerEnds(At(o, u), Runs(r, u), its, ats, n);
        } else {
          ViewerElsewhere(At(o, v), Runs(r, v), its, ats, n, v);
        }
      }
    }

    method Note(n: nat, t: Taken, ghost its: seq<Item>, ghost ats: seq<LineAt>)
      requires n < |its| == |ats| && t.it == its[n] && t.at == ats[n]
      requires SlotsNoted(its, n) && RunsNoted(its, ats, n)
      modifies this
      ensures SlotsNoted(its, n + 1) && RunsNoted(its, ats, n + 1)
    {
      if !t.it.c.Slot? {
        SlotsApart(slots, its, n);
      }
      match t.it.c {
        case Slot(_, _, _) =>
          KeptApart(open, runs, its, ats, n);
          NoteSlot(n, t.it, its);
        case Upsert(_, _) => NoteUpsert(n, t.it, t.at, its, ats);
        case ConnEnd(_) => NoteEnd(n, t.it, its, ats);
        case Keep => KeptApart(open, runs, its, ats, n);
      }
    }

    /** The tail is over: every viewer's current run ends. */
    method EndAll()
      modifies this
      ensures slots == old(slots)
      ensures forall u :: Runs(runs, u) == Recorded(At(old(open), u), Runs(old(runs), u))
    {
      while open.Keys != {}
        invariant slots == old(slots)
        invariant forall u :: Recorded(At(open, u), Runs(runs, u)) == Recorded(At(old(open), u), Runs(old(runs), u))
        decreases open.Keys
      {
        var u :| u in open.Keys;
        EndRun(u);
      }
    }
  }

  lemma {:induction false} AllRecorded(
      open: Opt<ConnRun>, runs: seq<ConnRun>, its: seq<Item>, ats: seq<LineAt>, u: string)
    requires |its| == |ats| && ViewerNoted(open, runs, its, ats, |its|, u)
    ensures Recorded(open, runs) == RunsFrom(its, ats, u, 0)
  {
    NextNotBefore(its, u, LastOf(its, u, |its|) + 1, |its|);
    RecordedAll(open, runs, its, ats, |its|, u);
  }

  lemma NothingNoted(its: seq<Item>, ats: seq<LineAt>)
    requires |its| == |ats|
    ensures forall k :: SlotNoted(At<string, SlotState>(map[], k), its, 0, k)
    ensures forall u :: ViewerNoted(At<string, ConnRun>(map[], u), Runs(map[], u), its, ats, 0, u)
  {
  }

  /** The first pass: the last event of every key, and the viewers' longer runs. */
  method NoteAll(ts: seq<Taken>) returns (slots: map<string, SlotState>, runs: map<string, seq<ConnRun>>)
    ensures forall k :: SlotNoted(At(slots, k), Its(ts), |ts|, k)
    ensures forall u :: Runs(runs, u) == RunsFrom(Its(ts), Ats(ts), u, 0)
  {
    ghost var its, ats := Its(ts), Ats(ts);
    var notes := new Notes();
    NothingNoted(its, ats);
    for n := 0 to |ts|
      invariant notes.SlotsNoted(its, n) && notes.RunsNoted(its, ats, n)
    {
      notes.Note(n, ts[n], its, ats);
    }
    forall u ensures Recorded(At(notes.open, u), Runs(notes.runs, u)) == RunsFrom(its, ats, u, 0) {
      AllRecorded(At(notes.open, u), Runs(notes.runs, u), its, ats, u);
    }
    notes.EndAll();
    slots, runs := notes.slots, notes.runs;
  }

  // ---------------------------------------------------------------- the second pass

  lemma {:induction false} QueueElsewhere(its: seq<Item>, ats: seq<LineAt>, n: nat, u: string)
    requires n < |its| == |ats| && (!About(its[n], u) || its[n].c.ConnEnd?)
    ensures Queue(its, ats, u, n + 1) == Queue(its, ats, u, n)
  {
    if About(its[n], u) {
      UnrecordedEnd(its, ats, n);
    } else {
      UnrecordedElsewhere(its, ats, n, u);
      if !Within(its, n, u) {
        RunsFromSkips(its, ats, u, n, n + 1);
      }
    }
  }

  /** What the head of a viewer's queue tells of its upsert. */
  lemma {:induction false} QueueAtUpsert(its: seq<Item>, ats: seq<LineAt>, n: nat)
    requires n < |its| == |ats| && its[n].c.Upsert?
    ensures var q, q' := Queue(its, ats, its[n].c.uuid, n), Queue(its, ats, its[n].c.uuid, n + 1);
            if q == [] || n < q[0].first then !Joined(its, n) && RunEnd(its, n) == n && q' == q
            else
              && q[0].at == ats[RunEnd(its, n)]
              && (n == q[0].first <==> !Joined(its, n))
              && q' == if n == q[0].last then q[1..] else q
  {
    var u := its[n].c.uuid;
    RunStep(its, n);
    UnrecordedUpsert(its, ats, n);
    if Joined(its, n) {
      var s := StartOf(its, n);
      assert s < n;
      if !GoesOn(its, n) {
        assert RunEnd(its, s) == n;
      }
    }
  }

  // ---------------------------------------------------------------- the chunk files

  function Flat(chunks: seq<seq<Line>>): seq<Line> {
    if chunks == [] then [] else Flat(chunks[..|chunks| - 1]) + chunks[|chunks| - 1]
  }

  /** A file's size: its lines and their newlines. */
  function Bytes(ls: seq<Line>): nat {
    if ls == [] then 0 else Bytes(ls[..|ls| - 1]) + ls[|ls| - 1].size + 1
  }

  lemma {:induction false} FlatGrows(chunks: seq<seq<Line>>, l: Line)
    ensures Flat(chunks + [[l]]) == Flat(chunks) + [l]
    ensures chunks != [] ==>
              var k := |chunks| - 1;
              Flat(chunks[..k] + [chunks[k] + [l]]) == Flat(chunks) + [l]
  {
    assert (chunks + [[l]])[..|chunks|] == chunks;
    if chunks != [] {
      var k := |chunks| - 1;
      assert (chunks[..k] + [chunks[k] + [l]])[..k] == chunks[..k];
    }
  }

  lemma BytesGrow(ls: seq<Line>, l: Line)
    ensures Bytes(ls + [l]) == Bytes(ls) + l.size + 1
  {
    assert (ls + [l])[..|ls|] == ls;
  }

  /** A chunk fits a batch, or is one line that would fit none. */
  predicate Fits(c: seq<Line>, lim: Limits) {
    |c| == 1 || (c != [] && |c| <= lim.maxEvents && Bytes(c) <= lim.maxBytes)
  }

  /** Chunk c was ended for want of room for line l. */
  predicate NoRoomFor(c: seq<Line>, l: Line, lim: Limits) {
    |c| + 1 > lim.maxEvents || Bytes(c) + l.size + 1 > lim.maxBytes
  }

  /** Chunk i was ended for want of room for the line that begins the next. */
  predicate EndedFull(chunks: seq<seq<Line>>, i: nat, lim: Limits)
    requires i + 1 < |chunks|
  {
    chunks[i + 1] != [] && NoRoomFor(chunks[i], chunks[i + 1][0], lim)
  }

  predicate Packed(chunks: seq<seq<Line>>, lim: Limits) {
    && (forall i | 0 <= i < |chunks| :: Fits(chunks[i], lim))
    && (forall i | 0 <= i < |chunks| - 1 :: EndedFull(chunks, i, lim))
  }

  /** The chunks with line l written to the last one, or to a new one if it has no room. */
  function WithLine(chunks: seq<seq<Line>>, l: Line, lim: Limits): seq<seq<Line>> {
    var k := |chunks| - 1;
    if chunks == [] || NoRoomFor(chunks[k], l, lim) then chunks + [[l]] else chunks[..k] + [chunks[k] + [l]]
  }

  lemma {:induction false} WithLineKeeps(chunks: seq<seq<Line>>, l: Line, lim: Limits)
    requires Packed(chunks, lim)
    ensures Packed(WithLine(chunks, l, lim), lim)
    ensures Flat(WithLine(chunks, l, lim)) == Flat(chunks) + [l]
    ensures |Flat(WithLine(chunks, l, lim))| == |Flat(chunks)| + 1
    ensures Bytes(Flat(WithLine(chunks, l, lim))) == Bytes(Flat(chunks)) + l.size + 1
  {
    FlatGrows(chunks, l);
    BytesGrow(Flat(chunks), l);
    AllStillFit(chunks, l, lim);
    AllStillEnded(chunks, l, lim);
  }

  lemma {:induction false} AllStillFit(chunks: seq<seq<Line>>, l: Line, lim: Limits)
    requires Packed(chunks, lim)
    ensures var w := WithLine(chunks, l, lim); forall i | 0 <= i < |w| :: Fits(w[i], lim)
  {
    var w, k := WithLine(chunks, l, lim), |chunks| - 1;
    if chunks != [] {
      BytesGrow(chunks[k], l);
    }
    forall i | 0 <= i < |w| ensures Fits(w[i], lim) {
      if i < k {
        assert w[i] == chunks[i];
      }
    }
  }

  lemma {:induction false} AllStillEnded(chunks: seq<seq<Line>>, l: Line, lim: Limits)
    requires Packed(chunks, lim)
    ensures var w := WithLine(chunks, l, lim); forall i | 0 <= i < |w| - 1 :: EndedFull(w, i, lim)
  {
    var w, k := WithLine(chunks, l, lim), |chunks| - 1;
    forall i | 0 <= i < |w| - 1 ensures EndedFull(w, i, lim) {
      if i + 1 <= k {
        assert EndedFull(chunks, i, lim);
      }
    }
  }

  /** The open chunk's events and bytes, and those of all chunks. */
  datatype Tally = Tally(n: nat, bytes: nat, events: nat, total: nat)

  ghost predicate Tallied(chunks: seq<seq<Line>>, lim: Limits, open: bool, t: Tally) {
    && (open <==> chunks != [])
    && (open ==> t.n == |chunks[|chunks| - 1]| && t.bytes == Bytes(chunks[|chunks| - 1]))
    && Packed(chunks, lim)
    && t.events == |Flat(chunks)| && t.total == Bytes(Flat(chunks))
  }

  lemma {:induction false} RoomTold(chunks: seq<seq<Line>>, lim: Limits, open: bool, t: Tally, l: Line)
    requires Tallied(chunks, lim, open, t)
    ensures open <==> chunks != []
    ensures open ==> (NoRoomFor(chunks[|chunks| - 1], l, lim) <==>
            t.n + 1 > lim.maxEvents || t.bytes + l.size + 1 > lim.maxBytes)
  {
  }

  /** A line written to the last chunk, once there is room in it or an empty one was opened. */
  lemma {:induction false} WriteTallied(
      was: seq<seq<Line>>, ready: seq<seq<Line>>, lim: Limits, t: Tally, t': Tally, l: Line)
    requires Tallied(was, lim, was != [], t) && t'.events == t.events && t'.total == t.total
    requires if was == [] || NoRoomFor(was[|was| - 1], l, lim) then ready == was + [[]] && t'.n == t'.bytes == 0
             else ready == was && t'.n == t.n && t'.bytes == t.bytes
    ensures var k := |ready| - 1;
            var chunks := ready[..k] + [ready[k] + [l]];
            && chunks == WithLine(was, l, lim) && Flat(chunks) == Flat(was) + [l]
            && Tallied(chunks, lim, true, Tally(t'.n + 1, t'.bytes + l.size + 1, t'.events + 1, t'.total + l.size + 1))
  {
    var last, c := ready[|ready| - 1], WithLine(was, l, lim);
    WithLineKeeps(was, l, lim);
    WrittenTo(was, ready, l, lim);
    LastTallied(was, last, t, t', l, lim);
    Retallied(c, lim, last, t', l, |Flat(was)|, Bytes(Flat(was)));
  }

  lemma {:induction false} LastTallied(was: seq<seq<Line>>, last: seq<Line>, t: Tally, t': Tally, l: Line, lim: Limits)
    requires Tallied(was, lim, was != [], t)
    requires if was == [] || NoRoomFor(was[|was| - 1], l, lim) then last == [] && t'.n == t'.bytes == 0
             else last == was[|was| - 1] && t'.n == t.n && t'.bytes == t.bytes
    ensures t'.n == |last| && t'.bytes == Bytes(last)
  {
  }

  lemma {:induction false} Retallied(
      c: seq<seq<Line>>, lim: Limits, last: seq<Line>, t: Tally, l: Line, events: nat, total: nat)
    requires c != [] && c[|c| - 1] == last + [l] && Packed(c, lim) && t.n == |last| && t.bytes == Bytes(last)
    requires t.events == events && t.total == total && |Flat(c)| == events + 1 && Bytes(Flat(c)) == total + l.size + 1
    ensures Tallied(c, lim, true, Tally(t.n + 1, t.bytes + l.size + 1, t.events + 1, t.total + l.size + 1))
  {
    BytesGrow(last, l);
  }

  class ChunkWriter {
    const lim: Limits
    var open: bool
    var n: nat
    var bytes: nat
    var events: nat
    var total: nat
    var chunks: seq<seq<Line>>

    ghost predicate Valid()
      reads this
    {
      Tallied(chunks, lim, open, Tally(n, bytes, events, total))
    }

    constructor (lim: Limits)
      ensures Valid() && this.lim == lim && Flat(chunks) == []
    {
      this.lim := lim;
      open, n, bytes, events, total, chunks := false, 0, 0, 0, 0, [];
    }

    method Write(l: Line)
      requires Valid()
      modifies this
      ensures Valid() && chunks == WithLine(old(chunks), l, lim) && Flat(chunks) == old(Flat(chunks)) + [l]
    {
      ghost var was, t := chunks, Tally(n, bytes, events, total);
      MakeRoom(l);
      WriteTallied(was, chunks, lim, t, Tally(n, bytes, events, total), l);
      var k := |chunks| - 1;
      chunks := chunks[..k] + [chunks[k] + [l]];
      n, events, bytes, total := n + 1, events + 1, bytes + l.size + 1, total + l.size + 1;
    }

    /** Ends the chunk that has no room for the line, and opens the next when none is open. */
    method MakeRoom(l: Line)
      requires Valid()
      modifies this`open, this`n, this`bytes, this`chunks
      ensures open
      ensures if old(chunks) == [] || NoRoomFor(old(chunks)[|old(chunks)| - 1], l, lim)
              then chunks == old(chunks) + [[]] && n == bytes == 0
              else chunks == old(chunks) && n == old(n) && bytes == old(bytes)
    {
      RoomTold(chunks, lim, open, Tally(n, bytes, events, total), l);
      if open && (n + 1 > lim.maxEvents || bytes + l.size + 1 > lim.maxBytes) {
        open := false;
      }
      if !open {
        n, bytes, open := 0, 0, true;
        chunks := chunks + [[]];
      }
    }
  }

  /** Adding to the last chunk, or to an empty one put after it, is what WithLine does. */
  lemma {:induction false} WrittenTo(chunks: seq<seq<Line>>, ready: seq<seq<Line>>, l: Line, lim: Limits)
    requires ready == if chunks == [] || NoRoomFor(chunks[|chunks| - 1], l, lim) then chunks + [[]] else chunks
    ensures var k, c := |ready| - 1, WithLine(chunks, l, lim);
            ready[..k] + [ready[k] + [l]] == c && c != [] && c[|c| - 1] == ready[k] + [l]
  {
    var k := |ready| - 1;
    if ready != chunks {
      assert ready[..k] == chunks && ready[k] + [l] == [l];
    }
  }

  // ---------------------------------------------------------------- stage

  function LineIn(tail: seq<seq<Line>>, at: LineAt): Line
    requires at.file < |tail| && at.line < |tail[at.file]|
  {
    tail[at.file][at.line]
  }

  /** The second pass's decision on item n, from what the first pass kept, and the queue after it. */
  method Decide(
      tail: seq<seq<Line>>, lim: Limits, ts: seq<Taken>, n: nat, slots: map<string, SlotState>, q: seq<ConnRun>)
    returns (out: Opt<Line>, q': seq<ConnRun>)
    requires n < |ts| && forall i | 0 <= i < |ts| :: Located(tail, ts[i], lim.maxBytes)
    requires ts[n].it.c.Slot? ==> SlotNoted(At(slots, ts[n].it.c.key), Its(ts), |ts|, ts[n].it.c.key)
    requires ts[n].it.c.Upsert? ==> q == Queue(Its(ts), Ats(ts), ts[n].it.c.uuid, n)
    ensures out == LineOut(ts, lim, n)
    ensures ts[n].it.c.Upsert? ==> q' == Queue(Its(ts), Ats(ts), ts[n].it.c.uuid, n + 1)
    ensures !ts[n].it.c.Upsert? ==> q' == q
  {
    ghost var its := Its(ts);
    q' := q;
    var t := ts[n];
    match t.it.c {
      case Slot(k, part, _) =>
        out := DecideSlot(lim, ts, n, slots, k, part);
      case Upsert(_, _) =>
        QueueAtUpsert(its, Ats(ts), n);
        if q == [] || n < q[0].first {
          out := Some(t.line);
        } else {
          if n == q[0].last {
            q' := q[1..];
          }
          if n != q[0].first {
            out := None;
          } else {
            assert ts[RunEnd(its, n)].at == q[0].at;
            assert Located(tail, ts[RunEnd(its, n)], lim.maxBytes);
            out := Some(LineIn(tail, q[0].at));
          }
        }
      case _ =>
        out := Some(t.line);
    }
  }

  method DecideSlot(lim: Limits, ts: seq<Taken>, n: nat, slots: map<string, SlotState>, k: string, part: string)
    returns (out: Opt<Line>)
    requires n < |ts| && ts[n].it.c.Slot? && ts[n].it.c.key == k && ts[n].it.c.part == part
    requires SlotNoted(At(slots, k), Its(ts), |ts|, k)
    ensures out == LineOut(ts, lim, n)
  {
    ghost var its := Its(ts);
    assert its[..|ts|] == its;
    KeyIsNoted(its, n, k);
    var s := slots[k];
    assert s.last == n <==> IsLastOfKey(its, n);
    if s.last != n {
      return None;
    }
    if s.count > 1 && part != "" {
      var e := WithPart(ts[n].it, s.part).e;
      return Some(Line(e, lim.encoded(e)));
    }
    return Some(ts[n].line);
  }

  lemma {:induction false} KeyIsNoted(its: seq<Item>, n: nat, k: string)
    requires n < |its| && OfSlot(its[n], k)
    ensures CountOf(its, k) > 0
  {
    if n < |its| - 1 {
      KeyIsNoted(its[..|its| - 1], n, k);
    }
  }

  /** Every viewer's queue before item n. */
  ghost function Queues(its: seq<Item>, ats: seq<LineAt>, n: nat): imap<string, seq<ConnRun>>
    requires n <= |its| == |ats|
  {
    imap u: string :: Queue(its, ats, u, n)
  }

  ghost function RunsOfAll(left: map<string, seq<ConnRun>>): imap<string, seq<ConnRun>> {
    imap u: string :: Runs(left, u)
  }

  lemma {:induction false} QueuesGoOn(
      left: map<string, seq<ConnRun>>, left': map<string, seq<ConnRun>>, its: seq<Item>, ats: seq<LineAt>, n: nat)
    requires n < |its| == |ats| && RunsOfAll(left) == Queues(its, ats, n)
    requires if its[n].c.Upsert?
             then left' == left[its[n].c.uuid := Queue(its, ats, its[n].c.uuid, n + 1)]
             else left' == left
    ensures RunsOfAll(left') == Queues(its, ats, n + 1)
  {
    forall v ensures RunsOfAll(left')[v] == Queues(its, ats, n + 1)[v] {
      assert RunsOfAll(left)[v] == Queues(its, ats, n)[v];
      if !(its[n].c.Upsert? && v == its[n].c.uuid) {
        QueueElsewhere(its, ats, n, v);
      }
    }
  }

  lemma {:induction false} QueuesBegin(runs: map<string, seq<ConnRun>>, its: seq<Item>, ats: seq<LineAt>)
    requires |its| == |ats| && forall u :: Runs(runs, u) == RunsFrom(its, ats, u, 0)
    ensures RunsOfAll(runs) == Queues(its, ats, 0)
  {
    forall v ensures RunsOfAll(runs)[v] == Queues(its, ats, 0)[v] {
      assert Runs(runs, v) == RunsFrom(its, ats, v, 0);
    }
  }

  ghost predicate AllLocated(tail: seq<seq<Line>>, ts: seq<Taken>, maxBytes: nat) {
    forall i | 0 <= i < |ts| :: Located(tail, ts[i], maxBytes)
  }

  ghost predicate AllSlotsNoted(slots: map<string, SlotState>, its: seq<Item>) {
    forall k :: SlotNoted(At(slots, k), its, |its|, k)
  }

  method QueueAndDecide(
      tail: seq<seq<Line>>, lim: Limits, ts: seq<Taken>, n: nat, slots: map<string, SlotState>,
      left: map<string, seq<ConnRun>>)
    returns (out: Opt<Line>, left': map<string, seq<ConnRun>>)
    requires n < |ts| && AllLocated(tail, ts, lim.maxBytes) && AllSlotsNoted(slots, Its(ts))
    requires RunsOfAll(left) == Queues(Its(ts), Ats(ts), n)
    ensures out == LineOut(ts, lim, n)
    ensures RunsOfAll(left') == Queues(Its(ts), Ats(ts), n + 1)
  {
    left' := left;
    if ts[n].it.c.Upsert? {
      var u := ts[n].it.c.uuid;
      assert RunsOfAll(left)[u] == Queues(Its(ts), Ats(ts), n)[u];
      var q;
      out, q := Decide(tail, lim, ts, n, slots, Runs(left, u));
      left' := left[u := q];
    } else {
      var q;
      out, q := Decide(tail, lim, ts, n, slots, []);
    }
    QueuesGoOn(left, left', Its(ts), Ats(ts), n);
  }

  method WriteOut(cw: ChunkWriter, out: Opt<Line>)
    requires cw.Valid()
    modifies cw
    ensures cw.Valid() && Flat(cw.chunks) == old(Flat(cw.chunks)) + OneLine(out)
  {
    if out.Some? {
      cw.Write(out.v);
    }
  }

  /** The second pass: what stays is written, in order. */
  method WriteAll(
      tail: seq<seq<Line>>, lim: Limits, ts: seq<Taken>, slots: map<string, SlotState>,
      runs: map<string, seq<ConnRun>>)
    returns (cw: ChunkWriter)
    requires AllLocated(tail, ts, lim.maxBytes) && AllSlotsNoted(slots, Its(ts))
             && RunsOfAll(runs) == Queues(Its(ts), Ats(ts), 0)
    ensures fresh(cw) && cw.Valid() && cw.lim == lim && Flat(cw.chunks) == LinesOut(ts, lim, |ts|)
  {
    cw := new ChunkWriter(lim);
    var left := runs;
    for n := 0 to |ts|
      invariant fresh(cw) && cw.lim == lim && WrittenUpTo(cw, lim, ts, n, left)
    {
      left := WriteNext(cw, tail, lim, ts, n, slots, left);
    }
  }

  /** The first n items are written, and the viewers' queues are as they are then. */
  ghost predicate WrittenUpTo(cw: ChunkWriter, lim: Limits, ts: seq<Taken>, n: nat, left: map<string, seq<ConnRun>>)
    requires n <= |ts|
    reads cw
  {
    cw.Valid() && Flat(cw.chunks) == LinesOut(ts, lim, n) && RunsOfAll(left) == Queues(Its(ts), Ats(ts), n)
  }

  method WriteNext(
      cw: ChunkWriter, tail: seq<seq<Line>>, lim: Limits, ts: seq<Taken>, n: nat,
      slots: map<string, SlotState>, left: map<string, seq<ConnRun>>)
    returns (left': map<string, seq<ConnRun>>)
    requires n < |ts| && AllLocated(tail, ts, lim.maxBytes) && AllSlotsNoted(slots, Its(ts))
    requires WrittenUpTo(cw, lim, ts, n, left)
    modifies cw
    ensures WrittenUpTo(cw, lim, ts, n + 1, left')
  {
    var out;
    out, left' := QueueAndDecide(tail, lim, ts, n, slots, left);
    WriteOut(cw, out);
  }

  /** stage: the tail's compaction as chunk files, the events folded away, and the chunks' size. */
  method StageTail(tail: seq<seq<Line>>, lim: Limits) returns (chunks: seq<seq<Line>>, folded: int, size: nat)
    ensures var ts := TakenOf(tail, lim.maxBytes);
            && Flat(chunks) == LinesOut(ts, lim, |ts|)
            && EventsOf(Flat(chunks)) == CompactEvents(EventsTaken(tail, lim.maxBytes))
            && folded + |Flat(chunks)| == |ts|
    ensures Packed(chunks, lim) && size == Bytes(Flat(chunks))
  {
    var ts := ReadTail(tail, lim.maxBytes);
    var slots, runs := NoteAll(ts);
    QueuesBegin(runs, Its(ts), Ats(ts));
    var cw := WriteAll(tail, lim, ts, slots, runs);
    chunks, folded, size := cw.chunks, |ts| - cw.events, cw.total;
    TakenSay(tail, lim.maxBytes, |tail|, 0);
    LinesOutSay(ts, lim, |ts|);
  }

  function EventsTaken(tail: seq<seq<Line>>, maxBytes: nat): seq<Event> {
    Events(Its(TakenOf(tail, maxBytes)))
  }

  lemma {:induction false} TakenSay(tail: seq<seq<Line>>, maxBytes: nat, fi: nat, li: nat)
    requires (fi < |tail| && li <= |tail[fi]|) || (fi == |tail| && li == 0)
    ensures var ts := TakenBefore(tail, maxBytes, fi, li); SameEvents(ts) && Its(ts) == Items(Events(Its(ts)))
    decreases fi, li
  {
    if li > 0 {
      TakenSay(tail, maxBytes, fi, li - 1);
    } else if fi > 0 {
      TakenSay(tail, maxBytes, fi - 1, |tail[fi - 1]|);
    }
  }
}
