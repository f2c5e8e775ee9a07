/** The three routes as the source runs them (commands.go, sealed.go, artefact.go), each beside the
others: between any two of its own steps the other routes may take any of theirs. `trace` keeps every
world passed through, so what CommandSafety proves of runs holds of it. */
module CommandAgent {
  import opened Maps
  import opened CommandWorld
  import opened CommandSafety

  datatype Side = LoopSide | DenialSide | WorkerSide | Elsewhere

  function SideOf(a: Action): Side {
    match a
    case LoopCheck(_, _) => LoopSide
    case LoopHold(_) => LoopSide
    case LoopAside => LoopSide
    case LoopRun => LoopSide
    case LoopRaise => LoopSide
    case DenialBegin(_) => DenialSide
    case DenialCheck => DenialSide
    case DenialRun => DenialSide
    case DenialRecord => DenialSide
    case Got(_) => WorkerSide
    case Fail(_) => WorkerSide
    case HandOver(_) => WorkerSide
    case Finish => WorkerSide
    case Drop(_) => WorkerSide
    case _ => Elsewhere
  }

  /** What a route may count on while the others go on. */
  predicate Counts(side: Side, w: World, w': World) {
    && w'.issued == w.issued && w'.crashed == w.crashed
    && match side
       case LoopSide => w'.loop == w.loop && w'.high == w.high && (RootHeld(w'.held) ==> RootHeld(w.held))
       case DenialSide => w'.denial == w.denial && RanBy(w'.log, Denial) == RanBy(w.log, Denial) && KeptOn(w, w')
       case WorkerSide => w'.worker == w.worker && w.held <= w'.held && w.high <= w'.high
           && NewAbove(w.held, w'.held, w.high)
       case Elsewhere => true
  }

  /** Time goes on, the high-water does not fall, and only what has expired is forgotten. */
  predicate KeptOn(w: World, w': World) {
    && w.now <= w'.now && w.high <= w'.high
    && forall id | id in w.kept && w.kept[id] > w'.now :: At(w'.kept, id) == Some(w.kept[id])
  }

  /** The denial's check would let the command through. */
  predicate LeftToRun(w: World, d: Wire) {
    Verified(w, d) && d.cmd.id !in w.kept
  }

  /** What is kept of a command is when it expires. */
  ghost predicate KeptExps(w: World) {
    forall c | c in w.issued && c.id in w.kept :: w.kept[c.id] == c.exp
  }

  lemma {:induction false} RanMore(log: seq<Exec>, e: Exec, r: Route)
    ensures RanBy(log + [e], r) == RanBy(log, r) + if e.route == r then [e.cmd] else []
  {
    assert (log + [e])[..|log|] == log;
  }

  lemma {:induction false} DenialCounts(w: World, a: Action)
    requires Enabled(w, a) && SideOf(a) != DenialSide && !a.Crash?
    ensures var w' := Do(w, a); w'.denial == w.denial && RanBy(w'.log, Denial) == RanBy(w.log, Denial) && KeptOn(w, w')
  {
    HighStep(w, a);
    if a.LoopRun? {
      RanMore(w.log, Exec(w.loop.v.cmd, Loop), Denial);
    } else if a.AsideRun? {
      RanMore(w.log, Exec(w.aside[0], Loop), Denial);
    } else if a.HandOver? {
      RanMore(w.log, Exec(w.held[IndexOf(w.held, a.id)].cmd, Loop), Denial);
    }
  }

  /** What the check would refuse, it refuses from then on. */
  lemma {:induction false} NotLeft(w: World, w': World, d: Wire)
    requires KeptExps(w) && KeptOn(w, w') && w'.issued == w.issued && !LeftToRun(w, d)
    ensures !LeftToRun(w', d)
  {
  }

  /** What is kept since comes above all that was. */
  predicate NewAbove(held: seq<HeldCmd>, held': seq<HeldCmd>, high: nat) {
    forall i | |held| <= i < |held'| :: held'[i].cmd.num > high
  }

  lemma {:induction false} CountsOn(side: Side, w: World, a: Action)
    requires Shape(w) && Enabled(w, a) && SideOf(a) != side && !a.Crash?
    ensures Counts(side, w, Do(w, a))
  {
    Unchanging(w, a);
    match side
    case LoopSide => LoopCounts(w, a);
    case DenialSide => DenialCounts(w, a);
    case WorkerSide => WorkerCounts(w, a);
    case Elsewhere =>
  }

  lemma {:induction false} WorkerCounts(w: World, a: Action)
    requires Shape(w) && Enabled(w, a) && SideOf(a) != WorkerSide && !a.Crash?
    ensures var w' := Do(w, a);
            && w'.worker == w.worker && w.held <= w'.held && w.high <= w'.high
            && NewAbove(w.held, w'.held, w.high)
  {
    if a.LoopHold? {
      InsertsLast(w.held, HeldCmd(w.loop.v.cmd, a.fetch, false, false));
    }
  }

  lemma {:induction false} LoopCounts(w: World, a: Action)
    requires Shape(w) && Enabled(w, a) && SideOf(a) != LoopSide && !a.Crash?
    ensures var w' := Do(w, a); w'.loop == w.loop && w'.high == w.high && (RootHeld(w'.held) ==> RootHeld(w.held))
  {
    if a.Got? || a.Fail? {
      MarksCount(w, a, IndexOf(w.held, a.id));
    } else if a.Finish? {
      var k :| 0 <= k < |w.held| && w.held[k].cmd == w.worker.v && !w.held[k].handed;
      IndexFound(w.held, k);
      MarksCount(w, a, IndexOf(w.held, w.worker.v.id));
    } else if a.Drop? {
      DropCounts(w, a.id);
    }
  }

  lemma {:induction false} DropCounts(w: World, id: string)
    requires Enabled(w, Drop(id))
    ensures RootHeld(Do(w, Drop(id)).held) ==> RootHeld(w.held)
  {
    var w', k := Do(w, Drop(id)), IndexOf(w.held, id);
    assert forall i | 0 <= i < |w'.held| :: w'.held[i] == w.held[if i < k then i else i + 1];
  }

  lemma {:induction false} MarksCount(w: World, a: Action, k: nat)
    requires Enabled(w, a) && k < |w.held| && (a.Got? || a.Fail? || a.Finish?)
    requires k == IndexOf(w.held, if a.Got? then a.id else if a.Fail? then a.id else w.worker.v.id)
    ensures RootHeld(Do(w, a).held) ==> RootHeld(w.held)
  {
    var w' := Do(w, a);
    assert |w'.held| == |w.held| && forall i | 0 <= i < |w.held| ::
        w'.held[i].cmd == w.held[i].cmd && (w.held[i].handed ==> w'.held[i].handed);
  }

  lemma {:induction false} CountsTwice(side: Side, a: World, b: World, c: World)
    requires Counts(side, a, b) && Counts(side, b, c)
    ensures Counts(side, a, c)
  {
  }

  lemma {:induction false} RunGrows(ws: seq<World>, w: World, a: Action)
    requires Run(ws) && ws[|ws| - 1] == w && Enabled(w, a)
    ensures Run(ws + [Do(w, a)])
  {
    var vs := ws + [Do(w, a)];
    assert Took(w, a, Do(w, a));
    forall i | 0 <= i < |vs| - 1 ensures StepAt(vs, i) {
      if i < |ws| - 1 {
        assert StepAt(ws, i);
      }
    }
  }

  // ---------------------------------------------------------------- a pass over the kept commands

  predicate Ascend(held: seq<HeldCmd>) {
    forall i, j | 0 <= i < j < |held| :: held[i].cmd.num < held[j].cmd.num
  }

  /** Past where the pass stands, in seq. */
  function From(snapshot: seq<HeldCmd>, i: nat): nat
    requires i <= |snapshot|
  {
    if i < |snapshot| then snapshot[i].cmd.num else if i > 0 then snapshot[i - 1].cmd.num + 1 else 0
  }

  /** No root command before where the pass stands is still to be handed on, unless roots wait. */
  predicate RootsHanded(snapshot: seq<HeldCmd>, i: nat, held: seq<HeldCmd>, rootWaits: bool)
    requires i <= |snapshot|
  {
    !rootWaits ==> forall k | 0 <= k < |held| && held[k].cmd.root && !held[k].handed ::
        held[k].cmd.num >= From(snapshot, i)
  }

  /** Of those kept, all that are not past the snapshot's last were in it. */
  predicate OfSnapshot(snapshot: seq<HeldCmd>, held: seq<HeldCmd>) {
    forall k | 0 <= k < |held| :: InSnapshot(snapshot, held[k].cmd)
  }

  predicate InSnapshot(snapshot: seq<HeldCmd>, c: Cmd) {
    (exists j | 0 <= j < |snapshot| :: snapshot[j].cmd == c) || forall j | 0 <= j < |snapshot| ::
        snapshot[j].cmd.num < c.num
  }

  predicate Passing(snapshot: seq<HeldCmd>, i: nat, held: seq<HeldCmd>, rootWaits: bool)
    requires i <= |snapshot|
  {
    && Ascend(snapshot) && RootsHanded(snapshot, i, held, rootWaits) && OfSnapshot(snapshot, held)
    && forall j | i <= j < |snapshot| :: snapshot[j] in held
  }

  /** From held to held' only c's entry changed, a mark never taken back, and later ones came. */
  predicate Evolved(held: seq<HeldCmd>, held': seq<HeldCmd>, c: Cmd, high: nat) {
    && (forall k | 0 <= k < |held'| :: Stems(held, held'[k], high))
    && (forall j | 0 <= j < |held| && held[j].cmd != c :: held[j] in held')
  }

  predicate Stems(held: seq<HeldCmd>, h: HeldCmd, high: nat) {
    h.cmd.num > high || exists j | 0 <= j < |held| :: held[j].cmd == h.cmd && (held[j].handed ==> h.handed)
  }

  lemma {:induction false} EvolvedTwice(
      a: seq<HeldCmd>, b: seq<HeldCmd>, c: seq<HeldCmd>, x: Cmd, high: nat, high': nat)
    requires Evolved(a, b, x, high) && Evolved(b, c, x, high') && high <= high'
    ensures Evolved(a, c, x, high)
  {
    forall k | 0 <= k < |c| ensures Stems(a, c[k], high) {
      assert Stems(b, c[k], high');
      if c[k].cmd.num <= high {
        var j :| 0 <= j < |b| && b[j].cmd == c[k].cmd && (b[j].handed ==> c[k].handed);
        assert Stems(a, b[j], high);
      }
    }
  }

  /** Nothing of the snapshot lies between where the pass stands and where it goes on. */
  lemma {:induction false} NextUp(snapshot: seq<HeldCmd>, i: nat, c: Cmd)
    requires i < |snapshot| && Ascend(snapshot) && InSnapshot(snapshot, c) && c.num >= From(snapshot, i)
             && c != snapshot[i].cmd
    ensures c.num >= From(snapshot, i + 1)
  {
    if exists j | 0 <= j < |snapshot| :: snapshot[j].cmd == c {
      var j :| 0 <= j < |snapshot| && snapshot[j].cmd == c;
      assert j > i;
    }
  }

  lemma {:induction false} RootsGoOn(
      snapshot: seq<HeldCmd>, i: nat, held: seq<HeldCmd>, held': seq<HeldCmd>, high: nat, k: nat)
    requires i < |snapshot| && Ascend(snapshot) && RootsHanded(snapshot, i, held, false) && OfSnapshot(snapshot, held)
    requires k < |held'| && Stems(held, held'[k], high) && held'[k].cmd.root && !held'[k].handed
             && held'[k].cmd != snapshot[i].cmd
    requires forall j | 0 <= j < |snapshot| :: snapshot[j].cmd.num <= high
    ensures held'[k].cmd.num >= From(snapshot, i + 1)
  {
    if held'[k].cmd.num <= high {
      var j :| 0 <= j < |held| && held[j].cmd == held'[k].cmd && !held[j].handed;
      NextUp(snapshot, i, held[j].cmd);
    } else if i + 1 < |snapshot| {
      assert snapshot[i + 1].cmd.num <= high;
    }
  }

  lemma {:induction false} StaysOfSnapshot(
      snapshot: seq<HeldCmd>, held: seq<HeldCmd>, held': seq<HeldCmd>, c: Cmd, high: nat)
    requires OfSnapshot(snapshot, held) && Evolved(held, held', c, high)
    requires forall j | 0 <= j < |snapshot| :: snapshot[j].cmd.num <= high
    ensures OfSnapshot(snapshot, held')
  {
    forall k | 0 <= k < |held'| ensures InSnapshot(snapshot, held'[k].cmd) {
      assert Stems(held, held'[k], high);
      if held'[k].cmd.num <= high {
        var j :| 0 <= j < |held| && held[j].cmd == held'[k].cmd;
        assert InSnapshot(snapshot, held[j].cmd);
      }
    }
  }

  /** What the worker does to a command it has come to leaves the rest of the pass as it was. */
  lemma {:induction false} PassGoesOn(
      snapshot: seq<HeldCmd>, i: nat, held: seq<HeldCmd>, rootWaits: bool, held': seq<HeldCmd>, high: nat,
      rootWaits': bool)
    requires i < |snapshot| && Passing(snapshot, i, held, rootWaits) && (rootWaits ==> rootWaits')
    requires Evolved(held, held', snapshot[i].cmd, high) && forall j | 0 <= j < |snapshot| ::
             snapshot[j].cmd.num <= high
    requires rootWaits' || !snapshot[i].cmd.root || forall k | 0 <= k < |held'| && held'[k].cmd == snapshot[i].cmd ::
             held'[k].handed
    ensures Passing(snapshot, i + 1, held', rootWaits')
  {
    StaysOfSnapshot(snapshot, held, held', snapshot[i].cmd, high);
    if !rootWaits' {
      forall k | 0 <= k < |held'| && held'[k].cmd.root && !held'[k].handed
          ensures held'[k].cmd.num >= From(snapshot, i + 1) {
        assert Stems(held, held'[k], high);
        RootsGoOn(snapshot, i, held, held', high, k);
      }
    }
    StillKept(snapshot, i, held, held', high);
  }

  lemma {:induction false} StillKept(snapshot: seq<HeldCmd>, i: nat, held: seq<HeldCmd>, held': seq<HeldCmd>, high: nat)
    requires i < |snapshot| && Ascend(snapshot) && Evolved(held, held', snapshot[i].cmd, high)
    requires forall j | i <= j < |snapshot| :: snapshot[j] in held
    ensures forall j | i + 1 <= j < |snapshot| :: snapshot[j] in held'
  {
    forall j | i + 1 <= j < |snapshot| ensures snapshot[j] in held' {
      assert snapshot[j] in held && snapshot[i].cmd.num < snapshot[j].cmd.num;
    }
  }

  /** The command the pass has come to may be handed on, unless it is a root and roots wait. */
  lemma {:induction false} MayHandOver(w: World, snapshot: seq<HeldCmd>, i: nat, rootWaits: bool, k: nat)
    requires Shape(w) && i < |snapshot| && RootsHanded(snapshot, i, w.held, rootWaits) && w.worker.None?
    requires k < |w.held| && w.held[k].cmd == snapshot[i].cmd && !w.held[k].handed
             && (w.held[k].fetch ==> w.held[k].got)
    requires rootWaits ==> !snapshot[i].cmd.root
    ensures Enabled(w, HandOver(snapshot[i].cmd.id))
  {
    HeldDistinct(w);
    IndexIs(w.held, k);
    assert forall j | 0 <= j < k :: w.held[j].cmd.num < w.held[k].cmd.num;
  }

  /** The command a step of the worker's is about. */
  function Subject(w: World, a: Action): string {
    match a
    case Got(id) => id
    case Fail(id) => id
    case HandOver(id) => id
    case Drop(id) => id
    case _ => if w.worker.Some? then w.worker.v.id else ""
  }

  lemma {:induction false} SubjectIs(w: World, a: Action, c: Cmd) returns (i: nat)
    requires Shape(w) && Enabled(w, a) && SideOf(a) == WorkerSide && c in w.issued && c.id == Subject(w, a)
    ensures i == IndexOf(w.held, c.id) && i < |w.held| && w.held[i].cmd == c
  {
    i := IndexOf(w.held, c.id);
    if a.Finish? {
      HeldDistinct(w);
      var k :| 0 <= k < |w.held| && w.held[k].cmd == w.worker.v && !w.held[k].handed;
      IndexIs(w.held, k);
    }
  }

  /** A step of the worker's on command c, and what comes meanwhile. */
  lemma {:induction false} WorkerEvolves(w: World, a: Action, c: Cmd, w': World)
    requires Shape(w) && Enabled(w, a) && SideOf(a) == WorkerSide && Counts(WorkerSide, Do(w, a), w')
    requires c in w.issued && c.id == Subject(w, a)
    ensures Evolved(w.held, w'.held, c, w.high)
  {
    HeldDistinct(w);
    var i := SubjectIs(w, a, c);
    var d := Do(w, a);
    assert d.high == w.high;
    ChangesOne(w.held, d.held, i, a.Drop?);
    ComeLater(w.held, d.held, w'.held, c, w.high);
  }

  lemma {:induction false} ComeLater(held: seq<HeldCmd>, mid: seq<HeldCmd>, held': seq<HeldCmd>, c: Cmd, high: nat)
    requires Evolved(held, mid, c, high) && mid <= held' && NewAbove(mid, held', high)
    ensures Evolved(held, held', c, high)
  {
    forall k | 0 <= k < |held'| ensures Stems(held, held'[k], high) {
      if k < |mid| {
        assert held'[k] == mid[k] && Stems(held, mid[k], high);
      }
    }
    forall j | 0 <= j < |held| && held[j].cmd != c ensures held[j] in held' {
      var k :| 0 <= k < |mid| && mid[k] == held[j];
      assert held'[k] == mid[k];
    }
  }

  /** Where the worker's step ends a command, it is handed on or gone. */
  lemma {:induction false} WorkerEnds(w: World, a: Action, c: Cmd, w': World)
    requires Shape(w) && Enabled(w, a) && (a.Fail? || a.Finish? || a.Drop?) && Counts(WorkerSide, Do(w, a), w')
    requires c in w.issued && c.id == Subject(w, a)
    ensures forall k | 0 <= k < |w'.held| && w'.held[k].cmd == c :: w'.held[k].handed
  {
    HeldDistinct(w);
    var i := SubjectIs(w, a, c);
    var d := Do(w, a);
    assert c.num <= w.high && d.high == w.high;
    forall k | 0 <= k < |d.held| ensures d.held[k].cmd != c || d.held[k].handed {
      if a.Drop? {
        assert d.held[k] == w.held[if k < i then k else k + 1];
      } else {
        assert k != i ==> d.held[k] == w.held[k];
      }
    }
    forall k | 0 <= k < |w'.held| && w'.held[k].cmd == c ensures w'.held[k].handed {
      assert k < |d.held| && w'.held[k] == d.held[k];
    }
  }

  lemma {:induction false} WorkerGot(w: World, c: Cmd, w': World) returns (k: nat)
    requires Shape(w) && Enabled(w, Got(c.id)) && Counts(WorkerSide, Do(w, Got(c.id)), w') && c in w.issued
    ensures k < |w'.held| && w'.held[k].cmd == c && w'.held[k].got && !w'.held[k].handed
  {
    k := SubjectIs(w, Got(c.id), c);
    assert w'.held[k] == Do(w, Got(c.id)).held[k];
  }

  lemma {:induction false} ChangesOne(held: seq<HeldCmd>, held': seq<HeldCmd>, i: nat, dropped: bool)
    requires i < |held| && forall j, k | 0 <= j < k < |held| :: held[j].cmd != held[k].cmd
    requires if dropped then held' == held[..i] + held[i + 1..] && held[i].handed
             else
               && |held'| == |held| && held' == held[i := held'[i]] && held'[i].cmd == held[i].cmd
               && (held[i].handed ==> held'[i].handed)
    ensures forall high: nat :: Evolved(held, held', held[i].cmd, high)
  {
    forall high: nat ensures Evolved(held, held', held[i].cmd, high) {
      forall k | 0 <= k < |held'| ensures Stems(held, held'[k], high) {
        var j := if dropped && k >= i then k + 1 else k;
        assert held[j].cmd == held'[k].cmd && (held[j].handed ==> held'[k].handed);
      }
      forall j | 0 <= j < |held| && held[j].cmd != held[i].cmd ensures held[j] in held' {
        assert held'[if dropped && j > i then j - 1 else j] == held[j];
      }
    }
  }

  lemma {:induction false} Checks(w: World, list: seq<Wire>, i: nat, ran: seq<Cmd>)
    requires i < |list| && w.denial == Some(Batch(list[i..], None, ran))
    ensures var w' := Do(w, DenialCheck);
            && w'.denial == Some(Batch(list[i + 1..], if LeftToRun(w, list[i]) then Some(list[i].cmd) else None, ran))
            && w' == w.(denial := w'.denial, lapped := w'.lapped)
  {
    assert list[i..][0] == list[i] && list[i..][1..] == list[i + 1..];
  }

  lemma {:induction false} StillNotLeft(w: World, w': World, list: seq<Wire>, n: nat, ran: seq<Cmd>)
    requires n <= |list| && KeptExps(w) && KeptOn(w, w') && w'.issued == w.issued
    requires forall j | 0 <= j < n && list[j].Signed? :: list[j].cmd in ran || !LeftToRun(w, list[j])
    ensures forall j | 0 <= j < n && list[j].Signed? :: list[j].cmd in ran || !LeftToRun(w', list[j])
    ensures forall d :: !LeftToRun(w, d) ==> !LeftToRun(w', d)
  {
    forall d | !LeftToRun(w, d) ensures !LeftToRun(w', d) {
      NotLeft(w, w', d);
    }
  }

  lemma {:induction false} RecordedNotLeft(w: World, ran: seq<Cmd>, d: Wire)
    requires KeptExps(w) && w.denial.Some? && w.denial.v.ran == ran && d.Signed? && (d.cmd in ran || !LeftToRun(w, d))
    ensures !LeftToRun(Do(w, DenialRecord), d)
  {
    RanHas(ran, d.cmd.id);
  }

  class Agent {
    var w: World
    ghost var trace: seq<World>

    ghost predicate Valid()
      reads this
    {
      Run(trace) && trace[|trace| - 1] == w && !w.crashed
    }

    lemma Sound()
      requires Valid()
      ensures Shape(w) && RootsOk(w)
    {
      RunKeeps(trace, |trace| - 1);
    }

    lemma Expiries()
      requires Valid()
      ensures KeptExps(w)
    {
      RunKeeps(trace, |trace| - 1);
      forall c | c in w.issued && c.id in w.kept ensures w.kept[c.id] == c.exp {
        assert Once(w, c);
      }
    }

    constructor (w: World)
      requires Initial(w)
      ensures Valid() && this.w == w
    {
      this.w, trace := w, [w];
    }

    method Act(a: Action)
      requires Valid() && Enabled(w, a) && !a.Crash?
      modifies this
      ensures Valid() && w == Do(old(w), a)
    {
      RunGrows(trace, w, a);
      Unchanging(w, a);
      w := Do(w, a);
      trace := trace + [w];
    }

    /** The other routes take any number of their steps. */
    method Others(side: Side)
      requires Valid()
      modifies this
      ensures Valid() && Counts(side, old(w), w)
    {
      var n: nat :| n >= 0;
      for i := 0 to n
        invariant Valid() && Counts(side, old(w), w)
      {
        ghost var before := w;
        var a: Action := *;
        if SideOf(a) != side && !a.Crash? && Enabled(w, a) {
          Sound();
          CountsOn(side, w, a);
          Act(a);
          CountsTwice(side, old(w), before, w);
        }
      }
    }

    /** A step of this route's, and whatever the others do until its next. */
    method Take(a: Action)
      requires Valid() && Enabled(w, a) && !a.Crash?
      modifies this
      ensures Valid() && Counts(SideOf(a), Do(old(w), a), w)
    {
      Act(a);
      Others(SideOf(a));
    }

    // -------------------------------------------------------------- the long-poll's loop

    /** Verifies, runs, keeps or sends aside one command, and raises the high-water past it: a verified
        command's only. */
    method HandleCommand(d: Wire, badGrant: bool, fetch: bool, wantsAside: bool) returns (taken: bool)
      requires Valid() && w.loop.None?
      modifies this
      ensures Valid() && w.loop.None?
      ensures taken <==> Verified(old(w), d)
      ensures w.high == if taken then d.cmd.num else old(w).high
    {
      taken := Verified(w, d);
      Take(LoopCheck(d, badGrant));
      if w.loop.None? {
        return;
      }
      var c := w.loop.v.cmd;
      if fetch || (c.root && RootHeld(w.held)) {
        Take(LoopHold(fetch));
        return;
      }
      if wantsAside && !c.root {
        Take(LoopAside);
      } else {
        Take(LoopRun);
      }
      Take(LoopRaise);
    }

    // -------------------------------------------------------------- the denial's list

    /** Runs the commands a denial carries that pass their checks and were not run from one before, each
        once, and records them: none of the list is left to run. */
    method TakeSealed(list: seq<Wire>) returns (ghost ran: seq<Cmd>)
      requires Valid() && w.denial.None? && Enabled(w, DenialBegin(list))
      modifies this
      ensures Valid() && w.denial.None?
      ensures RanBy(w.log, Denial) == RanBy(old(w).log, Denial) + ran
      ensures forall c | c in ran :: Signed(c) in list
      ensures forall d | d in list && d.Signed? :: !LeftToRun(w, d)
    {
      Take(DenialBegin(list));
      ran := [];
      for i := 0 to |list|
        invariant Valid() && w.denial == Some(Batch(list[i..], None, ran))
        invariant RanBy(w.log, Denial) == RanBy(old(w).log, Denial) + ran
        invariant forall c | c in ran :: Signed(c) in list
        invariant forall j | 0 <= j < i && list[j].Signed? :: list[j].cmd in ran || !LeftToRun(w, list[j])
      {
        ran := TakeNext(list, i, ran);
      }
      Record(list, ran);
    }

    /** The list's next command. */
    method TakeNext(list: seq<Wire>, i: nat, ghost was: seq<Cmd>) returns (ghost ran: seq<Cmd>)
      requires Valid() && i < |list| && w.denial == Some(Batch(list[i..], None, was))
      requires forall j | 0 <= j < i && list[j].Signed? :: list[j].cmd in was || !LeftToRun(w, list[j])
      modifies this
      ensures Valid() && w.denial == Some(Batch(list[i + 1..], None, ran))
      ensures ran == was || (list[i].Signed? && ran == was + [list[i].cmd])
      ensures RanBy(w.log, Denial) == RanBy(old(w).log, Denial) + ran[|was|..]
      ensures forall j | 0 <= j < i + 1 && list[j].Signed? :: list[j].cmd in ran || !LeftToRun(w, list[j])
    {
      ran := was;
      ghost var w0 := w;
      Checks(w, list, i, was);
      Expiries();
      Take(DenialCheck);
      StillNotLeft(w0, w, list, i, was);
      if w.denial.v.cur.Some? {
        var c := w.denial.v.cur.v;
        RanMore(w.log, Exec(c, Denial), Denial);
        ghost var w1 := w;
        Expiries();
        Take(DenialRun);
        ran := was + [c];
        StillNotLeft(w1, w, list, i, was);
      }
    }

    method Record(list: seq<Wire>, ghost ran: seq<Cmd>)
      requires Valid() && w.denial == Some(Batch([], None, ran))
      requires forall j | 0 <= j < |list| && list[j].Signed? :: list[j].cmd in ran || !LeftToRun(w, list[j])
      modifies this
      ensures Valid() && w.denial.None? && RanBy(w.log, Denial) == RanBy(old(w).log, Denial)
      ensures forall d | d in list && d.Signed? :: !LeftToRun(w, d)
    {
      ghost var w0 := w;
      Expiries();
      Act(DenialRecord);
      forall d | d in list && d.Signed? ensures !LeftToRun(w, d) {
        var j :| 0 <= j < |list| && list[j] == d;
        RecordedNotLeft(w0, ran, list[j]);
      }
      ghost var w1 := w;
      Expiries();
      Others(DenialSide);
      forall d | d in list && d.Signed? ensures !LeftToRun(w, d) {
        NotLeft(w1, w, d);
      }
    }

    // -------------------------------------------------------------- the kept commands' worker

    /** A step of the worker's on command c. */
    method Work(a: Action, c: Cmd)
      requires Valid() && Enabled(w, a) && SideOf(a) == WorkerSide && c in w.issued && c.id == Subject(w, a)
      modifies this
      ensures Valid() && Counts(WorkerSide, Do(old(w), a), w) && w.high >= old(w).high && w.issued == old(w).issued
      ensures Evolved(old(w).held, w.held, c, old(w).high)
      ensures a.Fail? || a.Finish? || a.Drop? ==> forall k | 0 <= k < |w.held| && w.held[k].cmd == c :: w.held[k].handed
    {
      Sound();
      Unchanging(w, a);
      Take(a);
      WorkerEvolves(old(w), a, c, w);
      if a.Fail? || a.Finish? || a.Drop? {
        WorkerEnds(old(w), a, c, w);
      }
    }

    /** Runs a kept command, and records that it was. */
    method HandOver(c: Cmd)
      requires Valid() && Enabled(w, CommandWorld.HandOver(c.id)) && c in w.issued
      modifies this
      ensures Valid() && w.worker.None? && w.high >= old(w).high && w.issued == old(w).issued
      ensures Evolved(old(w).held, w.held, c, old(w).high)
      ensures forall k | 0 <= k < |w.held| && w.held[k].cmd == c :: w.held[k].handed
    {
      ghost var w0 := w;
      Sound();
      ghost var i := SubjectIs(w, CommandWorld.HandOver(c.id), c);
      Work(CommandWorld.HandOver(c.id), c);
      ghost var w1 := w;
      assert w.worker == Some(c);
      Work(Finish, c);
      EvolvedTwice(w0.held, w1.held, w.held, c, w0.high, w1.high);
    }

    /** The download is there: the command is handed on. */
    method GotThenHandOver(snapshot: seq<HeldCmd>, i: nat, ghost rootWaits: bool)
      requires Valid() && w.worker.None? && i < |snapshot| && RootsHanded(snapshot, i, w.held, rootWaits)
      requires snapshot[i].cmd in w.issued && snapshot[i].cmd.num <= w.high && (rootWaits ==> !snapshot[i].cmd.root)
      requires Enabled(w, Got(snapshot[i].cmd.id))
      modifies this
      ensures Valid() && w.worker.None? && w.high >= old(w).high && w.issued == old(w).issued
      ensures Evolved(old(w).held, w.held, snapshot[i].cmd, old(w).high)
      ensures forall k | 0 <= k < |w.held| && w.held[k].cmd == snapshot[i].cmd :: w.held[k].handed
    {
      ghost var w0 := w;
      var c := snapshot[i].cmd;
      Sound();
      Work(Got(c.id), c);
      ghost var w1 := w;
      ghost var g := WorkerGot(w0, c, w);
      Sound();
      HandedStays(snapshot, i, w0.held, rootWaits, w.held, w0.high);
      MayHandOver(w, snapshot, i, rootWaits, g);
      HandOver(c);
      EvolvedTwice(w0.held, w1.held, w.held, c, w0.high, w1.high);
    }

    /** A command only left to ack is acked, and forgotten once it is. */
    method AckHeld(h: HeldCmd, k: nat)
      requires Valid() && w.worker.None? && k < |w.held| && w.held[k] == h && h.handed
      modifies this
      ensures Valid() && w.worker.None? && w.high >= old(w).high && w.issued == old(w).issued
      ensures Evolved(old(w).held, w.held, h.cmd, old(w).high)
      ensures forall j | 0 <= j < |w.held| && w.held[j].cmd == h.cmd :: w.held[j].handed
    {
      Sound();
      OneEntry(w, k);
      var acked: bool := *;
      if acked {
        Work(Drop(h.cmd.id), h.cmd);
      } else {
        EvolvedSame(w.held, h.cmd, w.high);
      }
    }

    /** A command that waits for its download: it pauses, fails, or is there and the command is handed on. */
    method Fetch(
        snapshot: seq<HeldCmd>, i: nat, rootWaits: bool, paused: bool, k: nat) returns (rootWaits': bool, paused': bool)
      requires Valid() && w.worker.None? && i < |snapshot| && RootsHanded(snapshot, i, w.held, rootWaits)
      requires k < |w.held| && w.held[k] == snapshot[i] && !snapshot[i].handed && (rootWaits ==> !snapshot[i].cmd.root)
      modifies this
      ensures Valid() && w.worker.None? && w.high >= old(w).high && w.issued == old(w).issued
              && (rootWaits ==> rootWaits')
      ensures Evolved(old(w).held, w.held, snapshot[i].cmd, old(w).high)
      ensures (rootWaits' && snapshot[i].cmd.root) || !snapshot[i].cmd.root
              || forall j | 0 <= j < |w.held| && w.held[j].cmd == snapshot[i].cmd :: w.held[j].handed
    {
      rootWaits', paused' := rootWaits, paused;
      var c := snapshot[i].cmd;
      Sound();
      HeldDistinct(w);
      IndexIs(w.held, k);
      var outcome: int := *;
      if paused || outcome == 0 {
        paused', rootWaits' := true, rootWaits || c.root;
        EvolvedSame(w.held, c, w.high);
      } else if outcome == 1 {
        Work(Fail(c.id), c);
      } else {
        GotThenHandOver(snapshot, i, rootWaits);
      }
    }

    /** What the pass does with one kept command. */
    method PassOne(
        snapshot: seq<HeldCmd>, i: nat, rootWaits: bool, paused: bool) returns (rootWaits': bool, paused': bool)
      requires Valid() && w.worker.None? && i < |snapshot| && Passing(snapshot, i, w.held, rootWaits)
      requires Known(snapshot, w)
      modifies this
      ensures Valid() && w.worker.None? && w.issued == old(w).issued && w.high >= old(w).high
      ensures Passing(snapshot, i + 1, w.held, rootWaits')
    {
      rootWaits', paused' := rootWaits, paused;
      var h := snapshot[i];
      var k :| 0 <= k < |w.held| && w.held[k] == h;
      if h.handed {
        AckHeld(h, k);
      } else if h.cmd.root && rootWaits {
        EvolvedSame(w.held, h.cmd, w.high);
      } else if h.fetch && !h.got {
        rootWaits', paused' := Fetch(snapshot, i, rootWaits, paused, k);
      } else {
        Sound();
        MayHandOver(w, snapshot, i, rootWaits, k);
        HandOver(h.cmd);
      }
      PassGoesOn(snapshot, i, old(w).held, rootWaits, w.held, old(w).high, rootWaits');
    }

    /** Goes through the kept commands in seq order once: acks what is only left to ack, downloads what is
        not downloaded, and hands on what is; a root command waits while one before it is kept. Then, unless
        roots wait for a download, every root command there was is handed on. */
    method ArtefactPass() returns (rootWaits: bool)
      requires Valid() && w.worker.None?
      modifies this
      ensures Valid() && w.worker.None?
      ensures !rootWaits ==> forall i, k | 0 <= i < |old(w).held| && 0 <= k < |w.held| && old(w).held[i].cmd.root
              && w.held[k].cmd == old(w).held[i].cmd ::
                w.held[k].handed
    {
      var snapshot := w.held;
      var paused := false;
      rootWaits := false;
      Sound();
      PassBegins(w);
      for i := 0 to |snapshot|
        invariant Valid() && w.worker.None? && w.issued == old(w).issued
        invariant Passing(snapshot, i, w.held, rootWaits)
        invariant Known(snapshot, w)
      {
        rootWaits, paused := PassOne(snapshot, i, rootWaits, paused);
      }
      if !rootWaits {
        PassEnds(snapshot, w.held);
      }
    }
  }

  predicate Known(snapshot: seq<HeldCmd>, w: World) {
    forall j | 0 <= j < |snapshot| :: snapshot[j].cmd in w.issued && snapshot[j].cmd.num <= w.high
  }

  lemma {:induction false} PassBegins(w: World)
    requires Shape(w)
    ensures Passing(w.held, 0, w.held, false) && Known(w.held, w)
  {
    forall k | 0 <= k < |w.held| ensures InSnapshot(w.held, w.held[k].cmd) {
      assert w.held[k].cmd == w.held[k].cmd;
    }
    if w.held != [] {
      assert forall k | 0 <= k < |w.held| :: k > 0 ==> w.held[0].cmd.num < w.held[k].cmd.num;
    }
  }

  lemma {:induction false} OneEntry(w: World, k: nat)
    requires Shape(w) && k < |w.held|
    ensures IndexOf(w.held, w.held[k].cmd.id) == k && w.held[k].cmd in w.issued
    ensures forall j | 0 <= j < |w.held| && w.held[j].cmd == w.held[k].cmd :: j == k
  {
    HeldDistinct(w);
    IndexIs(w.held, k);
  }

  lemma {:induction false} EvolvedSame(held: seq<HeldCmd>, c: Cmd, high: nat)
    ensures Evolved(held, held, c, high)
  {
    forall k | 0 <= k < |held| ensures Stems(held, held[k], high) {
      assert held[k].cmd == held[k].cmd;
    }
  }

  lemma {:induction false} HandedStays(
      snapshot: seq<HeldCmd>, i: nat, held: seq<HeldCmd>, rootWaits: bool, held': seq<HeldCmd>, high: nat)
    requires i < |snapshot| && RootsHanded(snapshot, i, held, rootWaits) && snapshot[i].cmd.num <= high
    requires Evolved(held, held', snapshot[i].cmd, high)
    ensures RootsHanded(snapshot, i, held', rootWaits)
  {
    if !rootWaits {
      forall k | 0 <= k < |held'| && held'[k].cmd.root && !held'[k].handed
          ensures held'[k].cmd.num >= From(snapshot, i) {
        assert Stems(held, held'[k], high);
      }
    }
  }

  lemma {:induction false} PassEnds(snapshot: seq<HeldCmd>, held: seq<HeldCmd>)
    requires Passing(snapshot, |snapshot|, held, false)
    ensures forall i, k | 0 <= i < |snapshot| && 0 <= k < |held| && snapshot[i].cmd.root
            && held[k].cmd == snapshot[i].cmd :: held[k].handed
  {
    forall i, k | 0 <= i < |snapshot| && 0 <= k < |held| && snapshot[i].cmd.root && held[k].cmd == snapshot[i].cmd
        ensures held[k].handed {
      assert snapshot[i].cmd.num <= snapshot[|snapshot| - 1].cmd.num;
    }
  }
}
