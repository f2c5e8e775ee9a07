/** What every run of the command machine keeps: at most one execution but where the two routes overlap,
a high-water that never falls, and the order of the root commands. */
module CommandSafety {
  import opened Maps
  import opened CommandWorld

  // ---------------------------------------------------------------- the kept commands

  ghost predicate HeldOk(w: World) {
    && (forall i | 0 <= i < |w.held| :: w.held[i].cmd in w.issued && w.held[i].cmd.num <= w.high)
    && (forall i, j | 0 <= i < j < |w.held| :: w.held[i].cmd.num < w.held[j].cmd.num)
  }

  /** No two commands share a cmd_id or a seq. */
  ghost predicate IssuedOk(issued: set<Cmd>) {
    forall c, d | c in issued && d in issued && (c.id == d.id || c.num == d.num) :: c == d
  }

  lemma {:induction false} IndexIs(held: seq<HeldCmd>, i: nat)
    requires i < |held| && forall j, k | 0 <= j < k < |held| :: held[j].cmd.id != held[k].cmd.id
    ensures IndexOf(held, held[i].cmd.id) == i
  {
    var k := IndexOf(held, held[i].cmd.id);
    assert k <= i;
    IndexFound(held, i);
  }

  lemma {:induction false} IndexFound(held: seq<HeldCmd>, i: nat)
    requires i < |held|
    ensures IndexOf(held, held[i].cmd.id) <= i
  {
    if i < |held| - 1 {
      IndexFound(held[..|held| - 1], i);
    }
  }

  /** Kept above all others, a command goes last. */
  lemma {:induction false} InsertsLast(held: seq<HeldCmd>, h: HeldCmd)
    requires forall i | 0 <= i < |held| :: held[i].cmd.num < h.cmd.num
    ensures Insert(held, h) == held + [h]
  {
  }

  // ---------------------------------------------------------------- the loop's route

  ghost predicate Shape(w: World) {
    && IssuedOk(w.issued) && HeldOk(w)
    && (w.loop.Some? ==> w.loop.v.cmd in w.issued && w.loop.v.cmd.num > w.high)
    && (w.worker.Some? ==> exists i | 0 <= i < |w.held| :: w.held[i].cmd == w.worker.v && !w.held[i].handed)
  }

  lemma {:induction false} HeldDistinct(w: World)
    requires IssuedOk(w.issued) && HeldOk(w)
    ensures forall i, j | 0 <= i < j < |w.held| :: w.held[i].cmd.id != w.held[j].cmd.id
  {
  }

  lemma {:induction false} ShapeKept(w: World, a: Action)
    requires Shape(w) && Enabled(w, a)
    ensures Shape(Do(w, a))
  {
    match a
    case LoopHold(fetch) => ShapeHold(w, fetch);
    case Got(id) => ShapeMarks(w, a, IndexOf(w.held, id));
    case Fail(id) => ShapeMarks(w, a, IndexOf(w.held, id));
    case Finish =>
      var k :| 0 <= k < |w.held| && w.held[k].cmd == w.worker.v && !w.held[k].handed;
      IndexFound(w.held, k);
      ShapeMarks(w, a, IndexOf(w.held, w.worker.v.id));
    case Drop(id) => ShapeDrop(w, id);
    case HandOver(id) => assert w.held[IndexOf(w.held, id)].cmd == Do(w, a).worker.v;
    case _ => ShapeElsewhere(w, a);
  }

  predicate OnHeld(a: Action) {
    a.LoopHold? || a.Got? || a.Fail? || a.Finish? || a.Drop? || a.HandOver?
  }

  lemma {:induction false} ShapeElsewhere(w: World, a: Action)
    requires Shape(w) && Enabled(w, a) && !OnHeld(a)
    ensures Shape(Do(w, a))
  {
    Unchanging(w, a);
    ShapeStill(w, Do(w, a));
  }

  lemma {:induction false} ShapeStill(w: World, w': World)
    requires Shape(w) && w'.held == w.held && w'.high >= w.high && w'.issued == w.issued
    requires w'.worker == w.worker || w'.worker.None?
    requires w'.loop.Some? ==> w'.loop.v.cmd in w.issued && w'.loop.v.cmd.num > w'.high
    ensures Shape(w')
  {
  }

  lemma {:induction false} ShapeHold(w: World, fetch: bool)
    requires Shape(w) && Enabled(w, LoopHold(fetch))
    ensures Shape(Do(w, LoopHold(fetch)))
  {
    var w' := Do(w, LoopHold(fetch));
    InsertsLast(w.held, HeldCmd(w.loop.v.cmd, fetch, false, false));
    assert forall i | 0 <= i < |w.held| :: w'.held[i] == w.held[i];
  }

  /** A mark on a kept command changes neither which are kept nor their order. */
  lemma {:induction false} ShapeMarks(w: World, a: Action, k: nat)
    requires Shape(w) && Enabled(w, a) && k < |w.held| && (a.Got? || a.Fail? || a.Finish?)
    requires k == IndexOf(w.held, if a.Got? then a.id else if a.Fail? then a.id else w.worker.v.id)
    ensures Shape(Do(w, a))
  {
    var w' := Do(w, a);
    assert |w'.held| == |w.held| && forall i | 0 <= i < |w.held| :: w'.held[i].cmd == w.held[i].cmd;
  }

  lemma {:induction false} ShapeDrop(w: World, id: string)
    requires Shape(w) && Enabled(w, Drop(id))
    ensures Shape(Do(w, Drop(id)))
  {
    var w', k := Do(w, Drop(id)), IndexOf(w.held, id);
    assert forall i | 0 <= i < |w'.held| :: w'.held[i] == w.held[if i < k then i else i + 1];
  }

  lemma {:induction false} RunsMore(log: seq<Exec>, e: Exec, id: string, r: Route)
    ensures Runs(log + [e], id, r) == Runs(log, id, r) + if e.cmd.id == id && e.route == r then 1 else 0
  {
    assert (log + [e])[..|log|] == log;
  }

  lemma {:induction false} QueuedMore(aside: seq<Cmd>, c: Cmd, id: string)
    ensures Queued(aside + [c], id) == Queued(aside, id) + if c.id == id then 1 else 0
  {
    assert (aside + [c])[..|aside|] == aside;
  }

  lemma {:induction false} QueuedFirst(aside: seq<Cmd>, id: string)
    requires aside != []
    ensures Queued(aside, id) == Queued(aside[1..], id) + if aside[0].id == id then 1 else 0
  {
    if |aside| == 1 {
      assert aside[..0] == [] && aside[1..] == [];
    } else {
      var l := |aside| - 1;
      QueuedFirst(aside[..l], id);
      assert aside[..l][1..] == aside[1..][..l - 1];
    }
  }

  /** The loop's route executes a command at most once, and once it has claimed it does not take it again. */
  ghost predicate LoopOk(w: World, c: Cmd) {
    && LoopClaims(w, c.id) <= 1 && (LoopClaims(w, c.id) == 1 ==> LoopShut(w, c))
    && (LoopHolds(w, c.id) ==> LoopClaims(w, c.id) == 1)
  }

  predicate Takes(w: World, a: Action, c: Cmd) {
    a.LoopCheck? && Verified(w, a.w) && a.w.cmd == c && c.id !in w.kept && !a.badGrant
  }

  /** What a step does to the loop's claim on a command. */
  lemma {:induction false} LoopClaimsGo(w: World, a: Action, c: Cmd)
    requires Shape(w) && c in w.issued && Enabled(w, a) && !a.Crash?
    ensures var n, n' := LoopClaims(w, c.id), LoopClaims(Do(w, a), c.id);
            n' == if Takes(w, a, c) then n + 1 else if a == Fail(c.id) then n - 1 else n
  {
    if OnHeld(a) {
      KeptClaims(w, a, c);
    } else if a.LoopAside? {
      AsideClaims(w, c.id);
    } else if a.LoopRun? {
      LoopRunClaims(w, c.id);
    } else if a.AsideRun? {
      AsideRunClaims(w, c.id);
    } else if a.DenialRun? {
      DenialRunClaims(w, c.id);
    } else if a.LoopCheck? {
    } else {
      ClaimsElsewhere(w, a);
    }
  }

  lemma {:induction false} ClaimsElsewhere(w: World, a: Action)
    requires Enabled(w, a) && !a.Crash? && !OnHeld(a) && !a.LoopAside? && !a.LoopRun? && !a.AsideRun? && !a.DenialRun?
             && !a.LoopCheck?
    ensures var w' := Do(w, a);
            && w'.log == w.log && w'.aside == w.aside && w'.held == w.held && w'.worker == w.worker
            && (w'.loop == w.loop || (w'.loop.None? && w.loop.Some? && w.loop.v.acted))
  {
  }

  lemma {:induction false} AsideClaims(w: World, id: string)
    requires Enabled(w, LoopAside)
    ensures LoopClaims(Do(w, LoopAside), id) == LoopClaims(w, id)
  {
    QueuedMore(w.aside, w.loop.v.cmd, id);
  }

  lemma {:induction false} AsideRunClaims(w: World, id: string)
    requires Enabled(w, AsideRun)
    ensures LoopClaims(Do(w, AsideRun), id) == LoopClaims(w, id)
  {
    RunsMore(w.log, Exec(w.aside[0], Loop), id, Loop);
    QueuedFirst(w.aside, id);
  }

  lemma {:induction false} LoopRunClaims(w: World, id: string)
    requires Enabled(w, LoopRun)
    ensures LoopClaims(Do(w, LoopRun), id) == LoopClaims(w, id)
  {
    RunsMore(w.log, Exec(w.loop.v.cmd, Loop), id, Loop);
  }

  lemma {:induction false} DenialRunClaims(w: World, id: string)
    requires Enabled(w, DenialRun)
    ensures LoopClaims(Do(w, DenialRun), id) == LoopClaims(w, id)
  {
    RunsMore(w.log, Exec(w.denial.v.cur.v, Denial), id, Loop);
  }

  lemma {:induction false} KeptClaims(w: World, a: Action, c: Cmd)
    requires Shape(w) && c in w.issued && Enabled(w, a) && OnHeld(a)
    ensures LoopClaims(Do(w, a), c.id) == LoopClaims(w, c.id) - if a == Fail(c.id) then 1 else 0
  {
    match a
    case LoopHold(fetch) => HoldClaims(w, fetch, c);
    case HandOver(id) => HandsOver(w, id, c.id);
    case Got(id) => SameWaits(w, Do(w, a), c.id);
    case Fail(id) => FailWaits(w, id, c.id);
    case Finish => FinishWaits(w, c.id);
    case Drop(id) => DropWaits(w, id, c.id);
  }

  lemma {:induction false} HandsOver(w: World, id: string, x: string)
    requires Shape(w) && Enabled(w, HandOver(id))
    ensures LoopClaims(Do(w, HandOver(id)), x) == LoopClaims(w, x)
  {
    var h := w.held[IndexOf(w.held, id)];
    RunsMore(w.log, Exec(h.cmd, Loop), x, Loop);
    assert Unhanded(w.held, id);
  }

  lemma {:induction false} HoldClaims(w: World, fetch: bool, c: Cmd)
    requires Shape(w) && c in w.issued && Enabled(w, LoopHold(fetch))
    ensures LoopClaims(Do(w, LoopHold(fetch)), c.id) == LoopClaims(w, c.id)
  {
    var w' := Do(w, LoopHold(fetch));
    var l := w.loop.v.cmd;
    InsertsLast(w.held, HeldCmd(l, fetch, false, false));
    assert forall i | 0 <= i < |w.held| :: w'.held[i] == w.held[i];
    assert w'.held[|w.held|] == HeldCmd(l, fetch, false, false);
    if l.id == c.id {
      assert l == c;
      forall i | 0 <= i < |w.held| ensures w.held[i].cmd.id != c.id {
        assert w.held[i].cmd.num <= w.high;
      }
    } else {
      assert Waits(w, c.id) <==> Waits(w', c.id) by {
        if Waits(w, c.id) {
          var i :| 0 <= i < |w.held| && w.held[i].cmd.id == c.id && !w.held[i].handed;
          assert w'.held[i] == w.held[i];
        }
      }
    }
  }

  lemma {:induction false} SameWaits(w: World, w': World, id: string)
    requires |w'.held| == |w.held| && w'.worker == w.worker
    requires forall i | 0 <= i < |w.held| :: w'.held[i].cmd == w.held[i].cmd && w'.held[i].handed == w.held[i].handed
    ensures Waits(w', id) <==> Waits(w, id)
  {
    if Waits(w, id) {
      var i :| 0 <= i < |w.held| && w.held[i].cmd.id == id && !w.held[i].handed;
      assert w'.held[i].cmd.id == id && !w'.held[i].handed;
    }
    if Waits(w', id) {
      var i :| 0 <= i < |w'.held| && w'.held[i].cmd.id == id && !w'.held[i].handed;
      assert w.held[i].cmd.id == id && !w.held[i].handed;
    }
  }

  /** Marked as handed on, a command waits no more, and the others as before. */
  lemma {:induction false} HandedOn(held: seq<HeldCmd>, k: nat, x: string)
    requires k < |held| && forall i, j | 0 <= i < j < |held| :: held[i].cmd.id != held[j].cmd.id
    ensures Unhanded(held[k := held[k].(handed := true)], x) <==> Unhanded(held, x) && x != held[k].cmd.id
  {
    var held' := held[k := held[k].(handed := true)];
    if Unhanded(held, x) && x != held[k].cmd.id {
      var i :| 0 <= i < |held| && held[i].cmd.id == x && !held[i].handed;
      assert held'[i] == held[i];
    }
    if Unhanded(held', x) {
      var i :| 0 <= i < |held'| && held'[i].cmd.id == x && !held'[i].handed;
      assert i != k && held'[i] == held[i];
    }
  }

  lemma {:induction false} FailWaits(w: World, id: string, x: string)
    requires Shape(w) && Enabled(w, Fail(id))
    ensures Waits(Do(w, Fail(id)), x) <==> Waits(w, x) && x != id
    ensures Waits(w, id)
  {
    HeldDistinct(w);
    var k := IndexOf(w.held, id);
    HandedOn(w.held, k, x);
    assert w.held[k].cmd.id == id && !w.held[k].handed;
  }

  lemma {:induction false} FinishWaits(w: World, x: string)
    requires Shape(w) && Enabled(w, Finish)
    ensures Waits(Do(w, Finish), x) <==> Waits(w, x)
  {
    HeldDistinct(w);
    var k :| 0 <= k < |w.held| && w.held[k].cmd == w.worker.v && !w.held[k].handed;
    IndexIs(w.held, k);
    HandedOn(w.held, k, x);
  }

  lemma {:induction false} DropWaits(w: World, id: string, x: string)
    requires Shape(w) && Enabled(w, Drop(id))
    ensures Waits(Do(w, Drop(id)), x) <==> Waits(w, x)
  {
    DropKeeps(w.held, IndexOf(w.held, id), x);
    assert Do(w, Drop(id)).worker == w.worker;
  }

  lemma {:induction false} DropKeeps(held: seq<HeldCmd>, k: nat, x: string)
    requires k < |held| && held[k].handed
    ensures Unhanded(held[..k] + held[k + 1..], x) <==> Unhanded(held, x)
  {
    var held' := held[..k] + held[k + 1..];
    if Unhanded(held, x) {
      var i :| 0 <= i < |held| && held[i].cmd.id == x && !held[i].handed;
      assert held'[if i < k then i else i - 1] == held[i];
    }
    if Unhanded(held', x) {
      var i :| 0 <= i < |held'| && held'[i].cmd.id == x && !held'[i].handed;
      assert held'[i] == held[if i < k then i else i + 1];
    }
  }

  lemma {:induction false} LoopKept(w: World, a: Action, c: Cmd)
    requires Shape(w) && c in w.issued && LoopOk(w, c) && Enabled(w, a) && !a.Crash?
    ensures LoopOk(Do(w, a), c)
  {
    LoopClaimsGo(w, a, c);
    if a.LoopCheck? {
      LoopChecks(w, a, c);
    } else {
      LoopShutStays(w, a, c);
    }
  }

  lemma {:induction false} LoopChecks(w: World, a: Action, c: Cmd)
    requires c in w.issued && LoopOk(w, c) && IssuedOk(w.issued) && Enabled(w, a) && a.LoopCheck?
    ensures LoopHolds(Do(w, a), c.id) <==> Takes(w, a, c)
    ensures LoopShut(w, c) ==> LoopShut(Do(w, a), c) && !Takes(w, a, c)
  {
  }

  /** What the loop has shut out it does not take up again. */
  lemma {:induction false} LoopShutStays(w: World, a: Action, c: Cmd)
    requires Shape(w) && c in w.issued && Enabled(w, a) && !a.Crash? && !a.LoopCheck?
    ensures LoopHolds(Do(w, a), c.id) ==> LoopHolds(w, c.id)
    ensures LoopShut(w, c) ==> LoopShut(Do(w, a), c)
    ensures a == Fail(c.id) ==> (LoopHolds(Do(w, a), c.id) <==> LoopHolds(w, c.id))
  {
    HighStep(w, a);
    if LoopHolds(w, c.id) {
      assert w.loop.v.cmd == c;
    }
  }

  // ---------------------------------------------------------------- the denial's route

  /** The batch's list names a command once, and it is not one already checked. */
  ghost predicate BatchOk(w: World, c: Cmd) {
    w.denial.Some? ==>
      && DistinctIds(w.denial.v.todo)
      && (DenialHolds(w, c.id) ==> forall i | 0 <= i < |w.denial.v.todo| && w.denial.v.todo[i].Signed? ::
          w.denial.v.todo[i].cmd.id != c.id)
  }

  ghost predicate DenialOk(w: World, c: Cmd) {
    && BatchOk(w, c)
    && (c.id in w.kept ==> w.kept[c.id] == c.exp)
    && (w.denial.Some? ==> forall i | 0 <= i < |w.denial.v.ran| && w.denial.v.ran[i].id == c.id ::
        w.denial.v.ran[i] == c)
    && (w.denial.Some? && w.denial.v.cur.Some? && w.denial.v.cur.v.id == c.id ==> w.denial.v.cur.v == c)
    && DenialClaims(w, c.id) <= 1 && (DenialClaims(w, c.id) == 1 ==> DenialShut(w, c))
    && (DenialHolds(w, c.id) ==> DenialClaims(w, c.id) == 1)
  }

  lemma {:induction false} RanHas(cmds: seq<Cmd>, id: string)
    ensures id in Ran(cmds) <==> exists i | 0 <= i < |cmds| :: cmds[i].id == id
    ensures id in Ran(cmds) ==> exists i | 0 <= i < |cmds| :: cmds[i].id == id && Ran(cmds)[id] == cmds[i].exp
  {
    if cmds != [] {
      var l := |cmds| - 1;
      RanHas(cmds[..l], id);
      if cmds[l].id == id {
      } else if id in Ran(cmds[..l]) {
        var i :| 0 <= i < |cmds[..l]| && cmds[..l][i].id == id && Ran(cmds[..l])[id] == cmds[..l][i].exp;
        assert cmds[i].id == id;
      } else {
        forall i | 0 <= i < |cmds| ensures cmds[i].id != id {
          assert i < l ==> cmds[..l][i] == cmds[i];
        }
      }
    }
  }

  /** What a step does to the denial's claim on a command. */
  lemma {:induction false} DenialClaimsGo(w: World, a: Action, id: string)
    requires Enabled(w, a) && !a.Crash? && !a.DenialCheck?
    ensures DenialClaims(Do(w, a), id) == DenialClaims(w, id)
  {
    match a
    case DenialRun =>
      RunsMore(w.log, Exec(w.denial.v.cur.v, Denial), id, Denial);
    case LoopRun =>
      RunsMore(w.log, Exec(w.loop.v.cmd, Loop), id, Denial);
    case AsideRun =>
      RunsMore(w.log, Exec(w.aside[0], Loop), id, Denial);
    case HandOver(x) =>
      RunsMore(w.log, Exec(w.held[IndexOf(w.held, x)].cmd, Loop), id, Denial);
    case _ =>
  }

  lemma {:induction false} DenialKept(w: World, a: Action, c: Cmd)
    requires Shape(w) && c in w.issued && DenialOk(w, c) && Enabled(w, a) && !a.Crash?
    ensures DenialOk(Do(w, a), c)
  {
    if a.DenialCheck? {
      DenialChecks(w, c);
    } else if a.DenialRun? {
      DenialRuns(w, c);
    } else {
      DenialClaimsGo(w, a, c.id);
      if a.DenialRecord? {
        DenialRecords(w, c);
      } else if a.DenialBegin? || a.Tick? || a.Forget? {
        DenialBegins(w, a, c);
      } else {
        DenialElsewhere(w, a);
        DenialStill(w, Do(w, a), c);
      }
    }
  }

  lemma {:induction false} DenialBegins(w: World, a: Action, c: Cmd)
    requires DenialOk(w, c) && Enabled(w, a) && (a.DenialBegin? || a.Tick? || a.Forget?)
    requires DenialClaims(Do(w, a), c.id) == DenialClaims(w, c.id)
    ensures DenialOk(Do(w, a), c)
  {
  }

  lemma {:induction false} DenialStill(w: World, w': World, c: Cmd)
    requires DenialOk(w, c) && w'.denial == w.denial && w'.kept == w.kept && w'.now == w.now
    requires DenialClaims(w', c.id) == DenialClaims(w, c.id)
    ensures DenialOk(w', c)
  {
  }

  lemma {:induction false} DenialRecords(w: World, c: Cmd)
    requires DenialOk(w, c) && Enabled(w, DenialRecord)
    requires DenialClaims(Do(w, DenialRecord), c.id) == DenialClaims(w, c.id)
    ensures DenialOk(Do(w, DenialRecord), c)
  {
    RanHas(w.denial.v.ran, c.id);
  }

  lemma {:induction false} DenialElsewhere(w: World, a: Action)
    requires Enabled(w, a) && !a.Crash? && !a.DenialCheck? && !a.DenialRun? && !a.DenialRecord? && !a.DenialBegin?
             && !a.Tick? && !a.Forget?
    ensures var w' := Do(w, a); w'.denial == w.denial && w'.kept == w.kept && w'.now == w.now
  {
  }

  lemma {:induction false} DenialRuns(w: World, c: Cmd)
    requires c in w.issued && DenialOk(w, c) && Enabled(w, DenialRun)
    ensures DenialOk(Do(w, DenialRun), c)
  {
    DenialClaimsGo(w, DenialRun, c.id);
    var w' := Do(w, DenialRun);
    var b, b' := w.denial.v, w'.denial.v;
    assert b'.ran[|b.ran|] == b.cur.v;
    assert forall i | 0 <= i < |b.ran| :: b'.ran[i] == b.ran[i];
    assert DenialHolds(w', c.id) <==> DenialHolds(w, c.id);
  }

  predicate DenialTakes(w: World, a: Action, c: Cmd) {
    && a.DenialCheck? && w.denial.Some? && w.denial.v.todo != []
    && Verified(w, w.denial.v.todo[0]) && w.denial.v.todo[0].cmd == c && c.id !in w.kept
  }

  lemma {:induction false} DenialChecks(w: World, c: Cmd)
    requires Shape(w) && c in w.issued && DenialOk(w, c) && Enabled(w, DenialCheck)
    ensures DenialOk(Do(w, DenialCheck), c)
    ensures DenialClaims(Do(w, DenialCheck), c.id) ==
            DenialClaims(w, c.id) + if DenialTakes(w, DenialCheck, c) then 1 else 0
  {
    var d := w.denial.v.todo[0];
    if Verified(w, d) && d.cmd.id == c.id {
      assert d.cmd == c;
    }
    if DenialTakes(w, DenialCheck, c) {
      DenialLetsIn(w, c);
    } else {
      DenialPasses(w, c);
    }
  }

  lemma {:induction false} DenialLetsIn(w: World, c: Cmd)
    requires DenialOk(w, c) && DenialTakes(w, DenialCheck, c)
    ensures DenialOk(Do(w, DenialCheck), c)
    ensures DenialClaims(w, c.id) == 0 && DenialClaims(Do(w, DenialCheck), c.id) == 1
  {
    var w', todo := Do(w, DenialCheck), w.denial.v.todo;
    assert w'.denial.v.todo == todo[1..] && w'.denial.v.ran == w.denial.v.ran;
    assert forall i | 0 <= i < |todo| - 1 :: todo[1..][i] == todo[i + 1];
    assert !DenialHolds(w, c.id);
  }

  lemma {:induction false} DenialPasses(w: World, c: Cmd)
    requires DenialOk(w, c) && Enabled(w, DenialCheck)
    requires var d := w.denial.v.todo[0]; Verified(w, d) && d.cmd.id == c.id ==> c.id in w.kept
    ensures DenialOk(Do(w, DenialCheck), c)
    ensures DenialClaims(Do(w, DenialCheck), c.id) == DenialClaims(w, c.id)
  {
    var w', todo := Do(w, DenialCheck), w.denial.v.todo;
    assert w'.denial.v.todo == todo[1..] && w'.denial.v.ran == w.denial.v.ran;
    assert forall i | 0 <= i < |todo| - 1 :: todo[1..][i] == todo[i + 1];
    assert w'.log == w.log && w'.kept == w.kept && w'.now == w.now;
    assert DenialHolds(w', c.id) <==> DenialHolds(w, c.id);
  }

  // ---------------------------------------------------------------- both routes

  /** A command runs by both routes exactly when one let it through while the other held it. */
  ghost predicate LappedOk(w: World, c: Cmd) {
    c.id in w.lapped <==> LoopClaims(w, c.id) == 1 && DenialClaims(w, c.id) == 1
  }

  ghost predicate Once(w: World, c: Cmd) {
    LoopOk(w, c) && DenialOk(w, c) && LappedOk(w, c)
  }

  lemma {:induction false} LappedStays(w: World, a: Action, c: Cmd)
    requires Shape(w) && c in w.issued && Enabled(w, a) && !a.Crash?
    ensures c.id in Do(w, a).lapped <==>
            || (c.id in w.lapped && a != Fail(c.id))
            || (Takes(w, a, c) && DenialHolds(w, c.id))
            || (DenialTakes(w, a, c) && LoopHolds(w, c.id))
  {
    if !a.LoopCheck? && !a.DenialCheck? && !a.Fail? {
      LappedSame(w, a);
    }
  }

  lemma {:induction false} LappedSame(w: World, a: Action)
    requires !a.LoopCheck? && !a.DenialCheck? && !a.Fail?
    ensures Do(w, a).lapped == w.lapped
  {
  }

  lemma {:induction false} OnceKept(w: World, a: Action, c: Cmd)
    requires Shape(w) && c in w.issued && Once(w, c) && Enabled(w, a) && !a.Crash?
    ensures Once(Do(w, a), c)
  {
    LoopKept(w, a, c);
    DenialKept(w, a, c);
    LoopClaimsGo(w, a, c);
    if a.DenialCheck? {
      DenialChecks(w, c);
    } else {
      DenialClaimsGo(w, a, c.id);
    }
    LappedStays(w, a, c);
    ClaimsMeet(w, a, c);
  }

  /** A route's check lets a command through that the other has claimed only while the other holds it. */
  lemma {:induction false} ClaimsMeet(w: World, a: Action, c: Cmd)
    requires Shape(w) && c in w.issued && LoopOk(w, c) && DenialOk(w, c) && Enabled(w, a)
    ensures Takes(w, a, c) ==> LoopClaims(w, c.id) == 0 && (DenialClaims(w, c.id) == 1 <==> DenialHolds(w, c.id))
    ensures DenialTakes(w, a, c) ==> (LoopClaims(w, c.id) == 1 <==> LoopHolds(w, c.id))
  {
  }

  // ---------------------------------------------------------------- the root commands' order

  predicate InOrder(a: nat, b: nat, strictly: bool) {
    if strictly then a < b else a <= b
  }

  /** Every root command executed came before seq n. */
  predicate RootsBefore(log: seq<Exec>, n: nat, strictly: bool) {
    forall i | 0 <= i < |log| && log[i].cmd.root :: InOrder(log[i].cmd.num, n, strictly)
  }

  predicate RootsAscend(log: seq<Exec>, strictly: bool) {
    forall i, j | 0 <= i < j < |log| && log[i].cmd.root && log[j].cmd.root ::
        InOrder(log[i].cmd.num, log[j].cmd.num, strictly)
  }

  predicate NoRootAside(w: World) {
    && (forall i | 0 <= i < |w.aside| :: !w.aside[i].root)
    && (w.denial.Some? ==>
          && (w.denial.v.cur.Some? ==> !w.denial.v.cur.v.root)
          && forall i | 0 <= i < |w.denial.v.todo| && w.denial.v.todo[i].Signed? :: !w.denial.v.todo[i].cmd.root)
  }

  /** The root commands still to come do so after all executed ones. */
  ghost predicate RootsToCome(w: World) {
    && (w.loop.Some? && !w.loop.v.acted && w.loop.v.cmd.root ==> RootsBefore(w.log, w.loop.v.cmd.num, !w.crashed))
    && (forall i | 0 <= i < |w.held| && w.held[i].cmd.root && !w.held[i].handed && w.worker != Some(w.held[i].cmd) ::
          RootsBefore(w.log, w.held[i].cmd.num, !w.crashed))
    && (w.worker.Some? && w.worker.v.root ==> RootsBefore(w.log, w.worker.v.num, false))
  }

  ghost predicate RootsOk(w: World) {
    && NoRootAside(w) && RootsAscend(w.log, !w.crashed) && RootsToCome(w)
    && RootsBefore(w.log, w.top, false)
    && (!w.crashed ==> RootsBefore(w.log, w.high, false)
                       || (w.loop.Some? && w.loop.v.acted && RootsBefore(w.log, w.loop.v.cmd.num, false)))
    && (w.loop.Some? ==> w.loop.v.cmd.num <= w.top)
    && (forall i | 0 <= i < |w.held| :: w.held[i].cmd.num <= w.top)
  }

  lemma {:induction false} AscendMore(log: seq<Exec>, e: Exec, strictly: bool)
    requires RootsAscend(log, strictly) && (e.cmd.root ==> RootsBefore(log, e.cmd.num, strictly))
    ensures RootsAscend(log + [e], strictly)
  {
  }

  lemma {:induction false} BeforeMore(log: seq<Exec>, e: Exec, n: nat, strictly: bool)
    requires RootsBefore(log, n, strictly) && (e.cmd.root ==> InOrder(e.cmd.num, n, strictly))
    ensures RootsBefore(log + [e], n, strictly)
  {
  }

  lemma {:induction false} RootsKept(w: World, a: Action)
    requires Shape(w) && RootsOk(w) && Enabled(w, a)
    ensures RootsOk(Do(w, a))
  {
    match a
    case LoopRun => RootsLoopRun(w);
    case AsideRun => RootsElsewhere(w, Exec(w.aside[0], Loop), Do(w, a));
    case DenialRun => RootsElsewhere(w, Exec(w.denial.v.cur.v, Denial), Do(w, a));
    case HandOver(id) => RootsHandOver(w, id);
    case LoopHold(fetch) => RootsHold(w, fetch);
    case LoopCheck(_, _) => RootsCheck(w, a);
    case Got(id) => RootsMark(w, a, IndexOf(w.held, id));
    case Fail(id) => RootsMark(w, a, IndexOf(w.held, id));
    case Finish =>
      var k :| 0 <= k < |w.held| && w.held[k].cmd == w.worker.v && !w.held[k].handed;
      HeldDistinct(w);
      IndexIs(w.held, k);
      RootsMark(w, a, k);
    case Drop(id) => RootsDrop(w, id);
    case Crash => RootsCrash(w);
    case _ => RootsUntouched(w, a);
  }

  /** From w to w' the loop at most sent its command, no root one, aside, or raised the high-water past it. */
  predicate LoopStill(w: World, w': World) {
    || (w'.loop == w.loop && w'.high == w.high)
    || (w.loop.Some? && !w.loop.v.acted && !w.loop.v.cmd.root && w'.loop == Some(Taking(w.loop.v.cmd, true))
        && w'.high == w.high)
    || (w.loop.Some? && w.loop.v.acted && w'.loop.None? && w'.high >= w.high && w'.high >= w.loop.v.cmd.num)
  }

  lemma {:induction false} RootsStill(w: World, w': World)
    requires RootsOk(w) && NoRootAside(w') && LoopStill(w, w')
    requires w'.log == w.log && w'.held == w.held && w'.worker == w.worker && w'.top == w.top && w'.crashed == w.crashed
    ensures RootsOk(w')
  {
  }

  lemma {:induction false} RootsUntouched(w: World, a: Action)
    requires Shape(w) && RootsOk(w) && Enabled(w, a)
    requires a.Tick? || a.LoopAside? || a.LoopRaise? || a.DenialBegin? || a.DenialCheck? || a.DenialRecord? || a.Forget?
    ensures RootsOk(Do(w, a))
  {
    var w' := Do(w, a);
    if a.DenialCheck? {
      assert forall i | 0 <= i < |w.denial.v.todo| - 1 :: w.denial.v.todo[1..][i] == w.denial.v.todo[i + 1];
    }
    RootsStill(w, w');
  }

  /** A command that is not a root one leaves the order as it was. */
  lemma {:induction false} RootsElsewhere(w: World, e: Exec, w': World)
    requires RootsOk(w) && !e.cmd.root && w'.log == w.log + [e] && NoRootAside(w')
    requires w' == w.(log := w'.log, aside := w'.aside, denial := w'.denial)
    ensures RootsOk(w')
  {
    AscendMore(w.log, e, !w.crashed);
  }

  lemma {:induction false} RootsLoopRun(w: World)
    requires Shape(w) && RootsOk(w) && Enabled(w, LoopRun)
    ensures RootsOk(Do(w, LoopRun))
  {
    if w.loop.v.cmd.root {
      NoneToCome(w);
    }
    RootsRan(w, Do(w, LoopRun), Exec(w.loop.v.cmd, Loop));
  }

  lemma {:induction false} RootsRan(w: World, w': World, e: Exec)
    requires RootsOk(w) && w.loop.Some? && !w.loop.v.acted && e.cmd == w.loop.v.cmd
    requires w' == w.(log := w.log + [e], loop := Some(Taking(w.loop.v.cmd, true)))
    requires e.cmd.root ==> forall i | 0 <= i < |w.held| :: !(w.held[i].cmd.root && !w.held[i].handed)
    requires e.cmd.root && w.worker.Some? ==> !w.worker.v.root
    ensures RootsOk(w')
  {
    AscendMore(w.log, e, !w.crashed);
  }

  /** When the loop runs a root command, none is kept, and the worker has none. */
  lemma {:induction false} NoneToCome(w: World)
    requires Shape(w) && Enabled(w, LoopRun) && w.loop.v.cmd.root
    ensures forall i | 0 <= i < |w.held| :: !(w.held[i].cmd.root && !w.held[i].handed)
    ensures w.worker.Some? ==> !w.worker.v.root
  {
    assert !RootHeld(w.held);
    if w.worker.Some? {
      var i :| 0 <= i < |w.held| && w.held[i].cmd == w.worker.v && !w.held[i].handed;
      assert !w.held[i].cmd.root;
    }
  }

  lemma {:induction false} RootsHandOver(w: World, id: string)
    requires Shape(w) && RootsOk(w) && Enabled(w, HandOver(id))
    ensures RootsOk(Do(w, HandOver(id)))
  {
    var k, w', strictly := IndexOf(w.held, id), Do(w, HandOver(id)), !w.crashed;
    var h := w.held[k].cmd;
    var e := Exec(h, Loop);
    AscendMore(w.log, e, strictly);
    forall i | 0 <= i < |w.held| && w.held[i].cmd.root && !w.held[i].handed && w.held[i].cmd != h
      ensures RootsBefore(w'.log, w.held[i].cmd.num, strictly)
    {
      assert h.root ==> i > k;
      BeforeMore(w.log, e, w.held[i].cmd.num, strictly);
    }
    if w.loop.Some? && !w.loop.v.acted && w.loop.v.cmd.root {
      BeforeMore(w.log, e, w.loop.v.cmd.num, strictly);
    }
    assert h.num <= w.high && h.num <= w.top;
  }

  lemma {:induction false} RootsHold(w: World, fetch: bool)
    requires Shape(w) && RootsOk(w) && Enabled(w, LoopHold(fetch))
    ensures RootsOk(Do(w, LoopHold(fetch)))
  {
    var w' := Do(w, LoopHold(fetch));
    InsertsLast(w.held, HeldCmd(w.loop.v.cmd, fetch, false, false));
    assert forall i | 0 <= i < |w.held| :: w'.held[i] == w.held[i];
  }

  lemma {:induction false} RootsCheck(w: World, a: Action)
    requires Shape(w) && RootsOk(w) && Enabled(w, a) && a.LoopCheck?
    ensures RootsOk(Do(w, a))
  {
    var w' := Do(w, a);
    RootsChecked(w, w');
  }

  lemma {:induction false} RootsChecked(w: World, w': World)
    requires RootsOk(w) && w.loop.None? && NoRootAside(w')
    requires w'.log == w.log && w'.held == w.held && w'.worker == w.worker && w'.crashed == w.crashed
    requires w'.top >= w.top && w'.high >= w.high
    requires w'.loop.Some? ==>
               && !w'.loop.v.acted && w'.loop.v.cmd.num <= w'.top
               && if w.crashed then w'.loop.v.cmd.num >= w.top else w'.loop.v.cmd.num > w.high
    ensures RootsOk(w')
  {
    if w'.loop.Some? {
      var n := w'.loop.v.cmd.num;
      forall i | 0 <= i < |w.log| && w.log[i].cmd.root ensures InOrder(w.log[i].cmd.num, n, !w.crashed) {
        assert InOrder(w.log[i].cmd.num, w.top, false);
        assert !w.crashed ==> InOrder(w.log[i].cmd.num, w.high, false);
      }
      assert RootsBefore(w.log, n, !w.crashed);
    }
  }

  lemma {:induction false} RootsMark(w: World, a: Action, k: nat)
    requires Shape(w) && RootsOk(w) && Enabled(w, a) && k < |w.held|
    requires a == Got(w.held[k].cmd.id) || a == Fail(w.held[k].cmd.id) || (a.Finish? && w.worker == Some(w.held[k].cmd))
    requires k == IndexOf(w.held, w.held[k].cmd.id)
    ensures RootsOk(Do(w, a))
  {
    var w' := Do(w, a);
    assert |w'.held| == |w.held| && forall i | 0 <= i < |w.held| :: i != k ==> w'.held[i] == w.held[i];
    HeldDistinct(w);
  }

  lemma {:induction false} RootsDrop(w: World, id: string)
    requires Shape(w) && RootsOk(w) && Enabled(w, Drop(id))
    ensures RootsOk(Do(w, Drop(id)))
  {
    var k := IndexOf(w.held, id);
    RootsDropped(w, w.(held := w.held[..k] + w.held[k + 1..]), k);
  }

  lemma {:induction false} RootsDropped(w: World, w': World, k: nat)
    requires RootsOk(w) && k < |w.held| && w' == w.(held := w.held[..k] + w.held[k + 1..])
    ensures RootsOk(w')
  {
    assert forall i | 0 <= i < |w'.held| :: w'.held[i] == w.held[if i < k then i else i + 1];
  }

  lemma {:induction false} RootsCrash(w: World)
    requires Shape(w) && RootsOk(w)
    ensures RootsOk(Do(w, Crash))
  {
  }

  // ---------------------------------------------------------------- every run

  ghost predicate AllOnce(w: World) {
    forall c | c in w.issued :: Once(w, c)
  }

  ghost predicate Inv(w: World) {
    Shape(w) && RootsOk(w) && (!w.crashed ==> AllOnce(w))
  }

  lemma {:induction false} AllOnceKept(w: World, a: Action, w': World)
    requires Shape(w) && AllOnce(w) && Enabled(w, a) && !a.Crash? && w' == Do(w, a) && w'.issued == w.issued
    ensures AllOnce(w')
  {
    forall c | c in w'.issued ensures Once(w', c) {
      OnceKept(w, a, c);
    }
  }

  lemma {:induction false} Unchanging(w: World, a: Action)
    ensures Do(w, a).issued == w.issued && (Do(w, a).crashed <==> w.crashed || a.Crash?)
  {
  }

  lemma {:induction false} StepKeeps(w: World, a: Action)
    requires Inv(w) && Enabled(w, a)
    ensures Inv(Do(w, a))
  {
    ShapeKept(w, a);
    RootsKept(w, a);
    Unchanging(w, a);
    var w' := Do(w, a);
    if !w'.crashed {
      AllOnceKept(w, a, w');
    }
  }

  /** The agent begins with nothing under way; MAIN gives every command its own cmd_id and seq. */
  ghost predicate Initial(w: World) {
    && IssuedOk(w.issued) && w.kept == map[] && w.held == [] && w.loop.None? && w.denial.None? && w.aside == []
    && w.worker.None? && w.log == [] && w.lapped == {} && w.top == w.high && !w.crashed
  }

  ghost predicate StepAt(ws: seq<World>, i: nat)
    requires i + 1 < |ws|
  {
    Step(ws[i], ws[i + 1])
  }

  ghost predicate Run(ws: seq<World>) {
    && ws != [] && Initial(ws[0])
    && forall i | 0 <= i < |ws| - 1 :: StepAt(ws, i)
  }

  lemma {:induction false} InitialInv(w: World)
    requires Initial(w)
    ensures Inv(w)
  {
  }

  lemma {:induction false} RunKeeps(ws: seq<World>, k: nat)
    requires Run(ws) && k < |ws|
    ensures Inv(ws[k])
  {
    if k == 0 {
      InitialInv(ws[0]);
    } else {
      RunKeeps(ws, k - 1);
      assert StepAt(ws, k - 1);
      var a :| Took(ws[k - 1], a, ws[k]);
      StepKeeps(ws[k - 1], a);
    }
  }

  /** Nothing is under way. */
  predicate Quiet(w: World) {
    && w.loop.None? && w.denial.None? && w.aside == [] && w.worker.None?
    && forall i | 0 <= i < |w.held| :: w.held[i].handed
  }

  /** In a run without a crash a command is executed twice at most, and more than once exactly when one
      route's check let it through while the other route still held it (from its own check until it had
      raised the high-water, or recorded the batch). */
  lemma {:induction false} ExecutedTwiceIff(ws: seq<World>, k: nat, c: Cmd)
    requires Run(ws) && k < |ws| && !ws[k].crashed && c in ws[k].issued
    ensures Runs(ws[k].log, c.id, Loop) <= 1 && Runs(ws[k].log, c.id, Denial) <= 1
    ensures c.id !in ws[k].lapped ==> Runs(ws[k].log, c.id, Loop) + Runs(ws[k].log, c.id, Denial) <= 1
    ensures Quiet(ws[k]) ==>
              (Runs(ws[k].log, c.id, Loop) + Runs(ws[k].log, c.id, Denial) == 2 <==> c.id in ws[k].lapped)
  {
    RunKeeps(ws, k);
    assert Once(ws[k], c);
  }

  /** One of the routes holds a command only while the other holds none. */
  predicate Apart(w: World) {
    w.loop.None? || w.denial.None?
  }

  lemma {:induction false} ApartNeverLap(w: World, a: Action)
    requires Enabled(w, a) && Apart(w) && Apart(Do(w, a)) && w.lapped == {}
    ensures Do(w, a).lapped == {}
  {
  }

  /** Where the two routes are never under way at once, every command is executed at most once. */
  lemma {:induction false} AtMostOnce(ws: seq<World>, k: nat, c: Cmd)
    requires Run(ws) && k < |ws| && !ws[k].crashed && c in ws[k].issued
    requires forall i | 0 <= i <= k :: Apart(ws[i])
    ensures Runs(ws[k].log, c.id, Loop) + Runs(ws[k].log, c.id, Denial) <= 1
  {
    NothingLaps(ws, k);
    ExecutedTwiceIff(ws, k, c);
  }

  lemma {:induction false} NothingLaps(ws: seq<World>, k: nat)
    requires Run(ws) && k < |ws| && forall i | 0 <= i <= k :: Apart(ws[i])
    ensures ws[k].lapped == {}
  {
    if k > 0 {
      NothingLaps(ws, k - 1);
      assert StepAt(ws, k - 1);
      var a :| Took(ws[k - 1], a, ws[k]);
      ApartNeverLap(ws[k - 1], a);
    }
  }

  lemma {:induction false} Next(ws: seq<World>, a: Action, w': World) returns (ws': seq<World>)
    requires Run(ws) && Enabled(ws[|ws| - 1], a) && w' == Do(ws[|ws| - 1], a)
    ensures Run(ws') && ws' == ws + [w']
  {
    ws' := ws + [w'];
    assert Took(ws[|ws| - 1], a, w');
    forall i | 0 <= i < |ws'| - 1 ensures StepAt(ws', i) {
      if i < |ws| - 1 {
        assert StepAt(ws, i);
      }
    }
  }

  /** The loop checks a command, and a denial's list names it. */
  lemma {:induction false} BothCheck(c: Cmd) returns (ws: seq<World>)
    requires c.num > 0 && c.exp > 0 && !c.root
    ensures Run(ws)
    ensures ws[|ws| - 1] == World(
              {c}, 0, 0, map[], [], Some(Taking(c, false)), Some(Batch([], Some(c), [])), [], None,
              [], {c.id}, c.num, false)
  {
    var w0 := World({c}, 0, 0, map[], [], None, None, [], None, [], {}, 0, false);
    var w1 := w0.(top := c.num, loop := Some(Taking(c, false)));
    var w2 := w1.(denial := Some(Batch([Signed(c)], None, [])));
    ws := [w0];
    ws := Next(ws, LoopCheck(Signed(c), false), w1);
    ws := Next(ws, DenialBegin([Signed(c)]), w2);
    assert w2.denial.v.todo[1..] == [] && {} + {c.id} == {c.id};
    ws := Next(ws, DenialCheck, w2.(denial := Some(Batch([], Some(c), [])), lapped := {c.id}));
  }

  /** They do overlap: a denial's list names the command the loop has just checked. */
  lemma {:induction false} TwiceHappens(c: Cmd) returns (ws: seq<World>)
    requires c.num > 0 && c.exp > 0 && !c.root
    ensures Run(ws) && !ws[|ws| - 1].crashed
    ensures Runs(ws[|ws| - 1].log, c.id, Loop) + Runs(ws[|ws| - 1].log, c.id, Denial) == 2
  {
    ws := BothCheck(c);
    var w := ws[|ws| - 1];
    var w4 := w.(denial := Some(Batch([], None, [c])), log := [Exec(c, Denial)]);
    assert [] + [c] == [c] && [] + [Exec(c, Denial)] == [Exec(c, Denial)];
    ws := Next(ws, DenialRun, w4);
    assert w4.log + [Exec(c, Loop)] == [Exec(c, Denial), Exec(c, Loop)];
    ws := Next(ws, LoopRun, w4.(loop := Some(Taking(c, true)), log := [Exec(c, Denial), Exec(c, Loop)]));
    TwoRuns(c);
  }

  lemma {:induction false} TwoRuns(c: Cmd)
    ensures var log := [Exec(c, Denial), Exec(c, Loop)]; Runs(log, c.id, Loop) == 1 && Runs(log, c.id, Denial) == 1
  {
    assert [Exec(c, Denial), Exec(c, Loop)] == ([] + [Exec(c, Denial)]) + [Exec(c, Loop)];
    forall r ensures Runs([] + [Exec(c, Denial)] + [Exec(c, Loop)], c.id, r) == 1 {
      RunsMore([], Exec(c, Denial), c.id, r);
      RunsMore([] + [Exec(c, Denial)], Exec(c, Loop), c.id, r);
    }
  }

  /** The high-water never falls, and a document that does not verify never moves it. */
  lemma {:induction false} HighWater(ws: seq<World>, i: nat, j: nat)
    requires Run(ws) && i <= j < |ws|
    ensures ws[i].high <= ws[j].high
  {
    if i < j {
      HighWater(ws, i, j - 1);
      assert StepAt(ws, j - 1);
      var a :| Took(ws[j - 1], a, ws[j]);
      HighStep(ws[j - 1], a);
    }
  }

  lemma {:induction false} HighStep(w: World, a: Action)
    requires Enabled(w, a)
    ensures w.high <= Do(w, a).high
    ensures a.LoopCheck? && !Verified(w, a.w) ==> Do(w, a) == w
  {
  }

  /** The root commands go to the executor in seq order, however the loop and the worker interleave and
      downloads pause, fail or succeed: strictly rising until the agent crashes, and never falling after,
      while MAIN hands commands out in order. */
  lemma {:induction false} RootsInOrder(ws: seq<World>, k: nat)
    requires Run(ws) && k < |ws|
    ensures RootsAscend(ws[k].log, !ws[k].crashed)
  {
    RunKeeps(ws, k);
  }
}
