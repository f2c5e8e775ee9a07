/** What the lane reads back from the chunks `stage` writes: the tail compacted, but for the merged events
too long for a batch (ReadBack). */
module StageRead {
  import opened Maps
  import opened SpoolEvents
  import opened MainStore
  import opened Compaction
  import opened ReadBack
  import opened Stage
  import opened JsonLength

  /** A merged event, encoded anew, is no longer than a batch. */
  function Room(lim: Limits): Event -> bool {
    e => lim.encoded(e) <= lim.maxBytes
  }

  function TakeLines(ls: seq<Line>, maxBytes: nat): seq<Line> {
    if ls == [] then []
    else TakeLines(ls[..|ls| - 1], maxBytes) + if Takes(ls[|ls| - 1], maxBytes) then [ls[|ls| - 1]] else []
  }

  /** A file's events as they are read. */
  function ReadFile(ls: seq<Line>, maxBytes: nat): seq<Event> {
    EventsOf(TakeLines(ls, maxBytes))
  }

  lemma {:induction false} TakeLinesConcat(a: seq<Line>, b: seq<Line>, maxBytes: nat)
    ensures TakeLines(a + b, maxBytes) == TakeLines(a, maxBytes) + TakeLines(b, maxBytes)
  {
    if b == [] {
      assert a + b == a;
    } else {
      assert (a + b)[..|a + b| - 1] == a + b[..|b| - 1];
      TakeLinesConcat(a, b[..|b| - 1], maxBytes);
    }
  }

  lemma {:induction false} ReadFileConcat(a: seq<Line>, b: seq<Line>, maxBytes: nat)
    ensures ReadFile(a + b, maxBytes) == ReadFile(a, maxBytes) + ReadFile(b, maxBytes)
  {
    TakeLinesConcat(a, b, maxBytes);
  }

  function LinesBefore(tail: seq<seq<Line>>, fi: nat, li: nat): seq<Line>
    requires (fi < |tail| && li <= |tail[fi]|) || (fi == |tail| && li == 0)
  {
    Flat(tail[..fi]) + if fi < |tail| then tail[fi][..li] else []
  }

  lemma {:induction false} OneMoreLine(tail: seq<seq<Line>>, fi: nat, li: nat)
    requires fi < |tail| && 0 < li <= |tail[fi]|
    ensures LinesBefore(tail, fi, li) == LinesBefore(tail, fi, li - 1) + [tail[fi][li - 1]]
  {
    assert tail[fi][..li] == tail[fi][..li - 1] + [tail[fi][li - 1]];
  }

  lemma {:induction false} OneMoreFile(tail: seq<seq<Line>>, fi: nat)
    requires 0 < fi <= |tail|
    ensures LinesBefore(tail, fi, 0) == LinesBefore(tail, fi - 1, |tail[fi - 1]|)
  {
    assert tail[..fi][..fi - 1] == tail[..fi - 1];
    assert tail[fi - 1][..|tail[fi - 1]|] == tail[fi - 1];
  }

  /** Reading files in order is reading their lines in order. */
  lemma {:induction false} TakenAreTheLines(tail: seq<seq<Line>>, maxBytes: nat, fi: nat, li: nat)
    requires (fi < |tail| && li <= |tail[fi]|) || (fi == |tail| && li == 0)
    ensures Events(Its(TakenBefore(tail, maxBytes, fi, li))) == ReadFile(LinesBefore(tail, fi, li), maxBytes)
    decreases fi, li
  {
    if li > 0 {
      TakenAreTheLines(tail, maxBytes, fi, li - 1);
      OneMoreLine(tail, fi, li);
      var ls := LinesBefore(tail, fi, li - 1);
      assert (ls + [tail[fi][li - 1]])[..|ls|] == ls;
    } else if fi > 0 {
      TakenAreTheLines(tail, maxBytes, fi - 1, |tail[fi - 1]|);
      OneMoreFile(tail, fi);
    }
  }

  lemma {:induction false} ReadsFlat(tail: seq<seq<Line>>, maxBytes: nat)
    ensures EventsTaken(tail, maxBytes) == ReadFile(Flat(tail), maxBytes)
  {
    TakenAreTheLines(tail, maxBytes, |tail|, 0);
    assert tail[..|tail|] == tail;
    assert LinesBefore(tail, |tail|, 0) == Flat(tail);
  }

  /** What `ReadTail` makes of a tail: lines read, and classified as they are. */
  ghost predicate ReadAs(ts: seq<Taken>, maxBytes: nat) {
    forall i | 0 <= i < |ts| :: ts[i].it == Classified(ts[i].line.e) && Takes(ts[i].line, maxBytes)
  }

  lemma {:induction false} TakenReadAs(tail: seq<seq<Line>>, maxBytes: nat, fi: nat, li: nat)
    requires (fi < |tail| && li <= |tail[fi]|) || (fi == |tail| && li == 0)
    ensures ReadAs(TakenBefore(tail, maxBytes, fi, li), maxBytes)
    decreases fi, li
  {
    if li > 0 {
      TakenReadAs(tail, maxBytes, fi, li - 1);
    } else if fi > 0 {
      TakenReadAs(tail, maxBytes, fi - 1, |tail[fi - 1]|);
    }
  }

  /** What is written for line i is read back unless it is a merged event too long. */
  lemma {:induction false} LineReadIff(ts: seq<Taken>, lim: Limits, i: nat)
    requires i < |ts| && ReadAs(ts, lim.maxBytes) && LineOut(ts, lim, i).Some?
    ensures Takes(LineOut(ts, lim, i).v, lim.maxBytes) <==>
            !(Merges(Its(ts), i) && !Room(lim)(MergedEvent(Its(ts), i)))
  {
    assert ts[i].it.e == ts[i].line.e && Readable(ts[i].line.e);
    if ts[i].it.c.Upsert? {
      var j := RunEnd(Its(ts), i);
      assert Takes(ts[j].line, lim.maxBytes);
    }
  }

  lemma {:induction false} LineBack(ts: seq<Taken>, lim: Limits, i: nat, fits: Event -> bool)
    requires i < |ts| && ReadAs(ts, lim.maxBytes) && fits == Room(lim)
    ensures ReadFile(OneLine(LineOut(ts, lim, i)), lim.maxBytes) == Events(Listed(Back(Its(ts), i, fits)))
  {
    var o, out, back := LineOut(ts, lim, i), Out(Its(ts), i), Back(Its(ts), i, fits);
    assert SameEvents(ts);
    LineOutSays(ts, lim, i);
    assert |Events(Listed(out))| == |OneLine(o)|;
    if o.Some? {
      LineReadIff(ts, lim, i);
      OneRead(o.v, lim.maxBytes);
      assert EventsOf(OneLine(o)) == [o.v.e] && Events(Listed(out)) == [out.v.e];
      assert [out.v.e][0] == [o.v.e][0];
    }
  }

  lemma {:induction false} OneRead(l: Line, maxBytes: nat)
    ensures ReadFile([l], maxBytes) == if Takes(l, maxBytes) then [l.e] else []
  {
    var one := [l];
    assert one[..|one| - 1] == [];
    assert TakeLines(one, maxBytes) == TakeLines([], maxBytes) + if Takes(l, maxBytes) then [l] else [];
  }

  lemma {:induction false} LinesBack(ts: seq<Taken>, lim: Limits, n: nat)
    requires n <= |ts| && ReadAs(ts, lim.maxBytes)
    ensures ReadFile(LinesOut(ts, lim, n), lim.maxBytes) == Events(Backs(Its(ts), n, Room(lim)))
  {
    if n > 0 {
      LinesBack(ts, lim, n - 1);
      LineBack(ts, lim, n - 1, Room(lim));
      ReadFileConcat(LinesOut(ts, lim, n - 1), OneLine(LineOut(ts, lim, n - 1)), lim.maxBytes);
      EventsJoin(Backs(Its(ts), n - 1, Room(lim)), Listed(Back(Its(ts), n - 1, Room(lim))));
    }
  }

  /** The chunks, read as the lane reads them, are the tail's events compacted, but for the merged ones
      too long for a batch. */
  lemma {:induction false} ChunksReadAs(tail: seq<seq<Line>>, lim: Limits, chunks: seq<seq<Line>>)
    requires Flat(chunks) == LinesOut(TakenOf(tail, lim.maxBytes), lim, |TakenOf(tail, lim.maxBytes)|)
    ensures EventsTaken(chunks, lim.maxBytes) == CompactRead(EventsTaken(tail, lim.maxBytes), Room(lim))
  {
    var ts := TakenOf(tail, lim.maxBytes);
    TakenReadAs(tail, lim.maxBytes, |tail|, 0);
    TakenSay(tail, lim.maxBytes, |tail|, 0);
    ReadsFlat(chunks, lim.maxBytes);
    LinesBack(ts, lim, |ts|);
  }

  /** They mean what the tail meant, whatever MAIN held, if and only if every merged event fits a batch. */
  lemma {:induction false} ReadBackMeansTheSameIff(tail: seq<seq<Line>>, lim: Limits, chunks: seq<seq<Line>>)
    requires Flat(chunks) == LinesOut(TakenOf(tail, lim.maxBytes), lim, |TakenOf(tail, lim.maxBytes)|)
    ensures AllFit(EventsTaken(tail, lim.maxBytes), Room(lim)) <==>
            forall st :: Meaning(st, EventsTaken(chunks, lim.maxBytes)) == Meaning(st, EventsTaken(tail, lim.maxBytes))
  {
    ChunksReadAs(tail, lim, chunks);
    ReadMeansTheSameIff(EventsTaken(tail, lim.maxBytes), Room(lim));
  }
}
