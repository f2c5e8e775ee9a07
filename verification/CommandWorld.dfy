/** The three routes a command may take to the executor, as one machine (commands.go, sealed.go,
artefact.go): the long-poll's loop, which runs it, sends it aside or keeps it behind a download; the
denial's list, run beside that loop; and the worker that hands on what was kept. Each action is a step
of one of them that the others cannot divide; a crash forgets what was not saved. */
module CommandWorld {
  import opened Maps

  /** A command as MAIN signed it for this node and generation. */
  datatype Cmd = Cmd(id: string, num: nat, exp: int, root: bool)

  /** A document as it comes: one MAIN signed, or one that claims to be. */
  datatype Wire = Signed(cmd: Cmd) | Forged(id: string, claims: nat)

  datatype HeldCmd = HeldCmd(cmd: Cmd, fetch: bool, got: bool, handed: bool)

  datatype Route = Loop | Denial

  datatype Exec = Exec(cmd: Cmd, route: Route)

  /** The loop's command, from the moment it passed its checks until the high-water is past it. */
  datatype Taking = Taking(cmd: Cmd, acted: bool)

  /** A denial's list: what is left of it, the command that passed its checks, and those run. */
  datatype Batch = Batch(todo: seq<Wire>, cur: Opt<Cmd>, ran: seq<Cmd>)

  /** high, kept (by cmd_id, till their exp) and held are saved; log is every execution begun. issued is
      what MAIN ever signs. lapped, top and crashed only serve to state: lapped are the commands one
      route's check let through while the other held them (and whose download did not fail). */
  datatype World = World(
    issued: set<Cmd>, now: int,
    high: nat, kept: map<string, int>, held: seq<HeldCmd>,
    loop: Opt<Taking>, denial: Opt<Batch>, aside: seq<Cmd>, worker: Opt<Cmd>,
    log: seq<Exec>, lapped: set<string>, top: nat, crashed: bool)

  datatype Action =
    | Tick(now: int)
    | LoopCheck(w: Wire, badGrant: bool)
    | LoopHold(fetch: bool)
    | LoopAside
    | LoopRun
    | LoopRaise
    | AsideRun
    | DenialBegin(list: seq<Wire>)
    | DenialCheck
    | DenialRun
    | DenialRecord
    | Forget
    | Got(id: string)
    | Fail(id: string)
    | HandOver(id: string)
    | Finish
    | Drop(id: string)
    | Crash

  /** verifyCommand: the signature, the node and the generation are right (Signed), and besides: */
  predicate Verified(w: World, d: Wire) {
    d.Signed? && d.cmd in w.issued && d.cmd.num > w.high && d.cmd.exp > w.now
  }

  /** A node.root kept and not yet handed on. */
  predicate RootHeld(held: seq<HeldCmd>) {
    exists i | 0 <= i < |held| :: held[i].cmd.root && !held[i].handed
  }

  /** The commands kept, in seq order, with one more. */
  function Insert(held: seq<HeldCmd>, h: HeldCmd): seq<HeldCmd> {
    if held == [] || held[|held| - 1].cmd.num <= h.cmd.num then held + [h]
    else Insert(held[..|held| - 1], h) + [held[|held| - 1]]
  }

  function IndexOf(held: seq<HeldCmd>, id: string): (i: nat)
    ensures i <= |held| && (i < |held| ==> held[i].cmd.id == id)
    ensures forall j | 0 <= j < i :: held[j].cmd.id != id
  {
    if held == [] then 0
    else
      var i := IndexOf(held[..|held| - 1], id);
      if i < |held| - 1 || held[i].cmd.id == id then i else |held|
  }

  function Raised(w: World, num: nat): World {
    w.(high := if num > w.high then num else w.high)
  }

  /** A kept node.root may be handed on when no other before it is still kept. */
  predicate FirstRoot(held: seq<HeldCmd>, i: nat)
    requires i < |held|
  {
    held[i].cmd.root ==> forall j | 0 <= j < i :: held[j].cmd.root ==> held[j].handed
  }

  /** The commands named by a denial's list. */
  predicate DistinctIds(list: seq<Wire>) {
    forall i, j | 0 <= i < j < |list| && list[i].Signed? && list[j].Signed? :: list[i].cmd.id != list[j].cmd.id
  }

  predicate Enabled(w: World, a: Action) {
    match a
    case Tick(now) => now >= w.now
    case LoopCheck(d, _) => w.loop.None? && (w.crashed && Verified(w, d) ==> d.cmd.num >= w.top)
    case LoopHold(fetch) => w.loop.Some? && !w.loop.v.acted && (fetch || (w.loop.v.cmd.root && RootHeld(w.held)))
    case LoopAside => w.loop.Some? && !w.loop.v.acted && !w.loop.v.cmd.root
    case LoopRun => w.loop.Some? && !w.loop.v.acted && !(w.loop.v.cmd.root && RootHeld(w.held))
    case LoopRaise => w.loop.Some? && w.loop.v.acted
    case AsideRun => w.aside != []
    case DenialBegin(list) =>
      w.denial.None? && DistinctIds(list) && forall i | 0 <= i < |list| && list[i].Signed? :: !list[i].cmd.root
    case DenialCheck => w.denial.Some? && w.denial.v.cur.None? && w.denial.v.todo != []
    case DenialRun => w.denial.Some? && w.denial.v.cur.Some?
    case DenialRecord => w.denial.Some? && w.denial.v.cur.None? && w.denial.v.todo == []
    case Forget => true
    case Got(id) => var i := IndexOf(w.held, id); i < |w.held| && w.worker.None? && !w.held[i].handed
    case Fail(id) => var i := IndexOf(w.held, id); i < |w.held| && w.worker.None? && !w.held[i].handed
    case HandOver(id) =>
      var i := IndexOf(w.held, id);
      && i < |w.held| && w.worker.None? && !w.held[i].handed
      && (w.held[i].fetch ==> w.held[i].got) && FirstRoot(w.held, i)
    case Finish => w.worker.Some?
    case Drop(id) => var i := IndexOf(w.held, id); i < |w.held| && w.worker.None? && w.held[i].handed
    case Crash => true
  }

  /** The commands run from denials that have not expired. */
  function Unexpired(kept: map<string, int>, now: int): map<string, int> {
    map id | id in kept && kept[id] > now :: kept[id]
  }

  function Ran(cmds: seq<Cmd>): map<string, int> {
    if cmds == [] then map[] else Ran(cmds[..|cmds| - 1])[cmds[|cmds| - 1].id := cmds[|cmds| - 1].exp]
  }

  predicate LoopHolds(w: World, id: string) {
    w.loop.Some? && w.loop.v.cmd.id == id
  }

  predicate DenialHolds(w: World, id: string) {
    w.denial.Some? &&
    ((w.denial.v.cur.Some? && w.denial.v.cur.v.id == id) || exists i | 0 <= i < |w.denial.v.ran| ::
        w.denial.v.ran[i].id == id)
  }

  function Do(w: World, a: Action): World {
    match a
    case Tick(now) => w.(now := now)
    case LoopCheck(d, badGrant) =>
      if !Verified(w, d) then w
      else
        var w' := w.(top := if d.cmd.num > w.top then d.cmd.num else w.top);
        if d.cmd.id in w.kept || badGrant then Raised(w', d.cmd.num)
        else w'.(loop := Some(Taking(d.cmd, false)),
                 lapped := if DenialHolds(w, d.cmd.id) then w.lapped + {d.cmd.id} else w.lapped)
    case LoopHold(fetch) =>
      if w.loop.Some? then
        var c := w.loop.v.cmd;
        Raised(w.(held := Insert(w.held, HeldCmd(c, fetch, false, false)), loop := None), c.num)
      else w
    case LoopAside =>
      if w.loop.Some? then w.(aside := w.aside + [w.loop.v.cmd], loop := Some(Taking(w.loop.v.cmd, true))) else w
    case LoopRun =>
      if w.loop.Some? then w.(log := w.log + [Exec(w.loop.v.cmd, Loop)], loop := Some(Taking(w.loop.v.cmd, true)))
          else w
    case LoopRaise => if w.loop.Some? then Raised(w.(loop := None), w.loop.v.cmd.num) else w
    case AsideRun => if w.aside != [] then w.(log := w.log + [Exec(w.aside[0], Loop)], aside := w.aside[1..]) else w
    case DenialBegin(list) => w.(denial := Some(Batch(list, None, [])))
    case DenialCheck =>
      if w.denial.Some? && w.denial.v.todo != [] then
        var b := w.denial.v;
        var d := b.todo[0];
        if Verified(w, d) && d.cmd.id !in w.kept then
          w.(denial := Some(Batch(b.todo[1..], Some(d.cmd), b.ran)),
             lapped := if LoopHolds(w, d.cmd.id) then w.lapped + {d.cmd.id} else w.lapped)
        else w.(denial := Some(b.(todo := b.todo[1..])))
      else w
    case DenialRun =>
      if w.denial.Some? && w.denial.v.cur.Some? then
        var b := w.denial.v;
        w.(log := w.log + [Exec(b.cur.v, Denial)], denial := Some(Batch(b.todo, None, b.ran + [b.cur.v])))
      else w
    case DenialRecord =>
      if w.denial.Some? then
        var ran := w.denial.v.ran;
        w.(kept := if ran == [] then w.kept else Unexpired(w.kept, w.now) + Ran(ran), denial := None)
      else w
    case Forget => w.(kept := Unexpired(w.kept, w.now))
    case Got(id) =>
      var i := IndexOf(w.held, id);
      if i < |w.held| then w.(held := w.held[i := w.held[i].(got := true)]) else w
    case Fail(id) =>
      var i := IndexOf(w.held, id);
      if i < |w.held| then w.(held := w.held[i := w.held[i].(handed := true)], lapped := w.lapped - {id}) else w
    case HandOver(id) =>
      var i := IndexOf(w.held, id);
      if i < |w.held| then w.(log := w.log + [Exec(w.held[i].cmd, Loop)], worker := Some(w.held[i].cmd)) else w
    case Finish =>
      if w.worker.Some? then
        var i := IndexOf(w.held, w.worker.v.id);
        if i < |w.held| then w.(held := w.held[i := w.held[i].(handed := true)], worker := None) else w.(worker := None)
      else w
    case Drop(id) =>
      var i := IndexOf(w.held, id);
      if i < |w.held| then w.(held := w.held[..i] + w.held[i + 1..]) else w
    case Crash => w.(loop := None, denial := None, aside := [], worker := None, crashed := true)
  }

  ghost predicate Step(w: World, w': World) {
    exists a :: Took(w, a, w')
  }

  ghost predicate Took(w: World, a: Action, w': World) {
    Enabled(w, a) && w' == Do(w, a)
  }

  // ---------------------------------------------------------------- claims to be executed

  function Runs(log: seq<Exec>, id: string, r: Route): nat {
    if log == [] then 0
    else Runs(log[..|log| - 1], id, r) + if log[|log| - 1].cmd.id == id && log[|log| - 1].route == r then 1 else 0
  }

  /** What a route has executed, in order. */
  function RanBy(log: seq<Exec>, r: Route): seq<Cmd> {
    if log == [] then []
    else RanBy(log[..|log| - 1], r) + if log[|log| - 1].route == r then [log[|log| - 1].cmd] else []
  }

  function Queued(aside: seq<Cmd>, id: string): nat {
    if aside == [] then 0 else Queued(aside[..|aside| - 1], id) + if aside[|aside| - 1].id == id then 1 else 0
  }

  predicate Unhanded(held: seq<HeldCmd>, id: string) {
    exists i | 0 <= i < |held| :: held[i].cmd.id == id && !held[i].handed
  }

  /** Kept, not yet handed on, and not with the worker. */
  predicate Waits(w: World, id: string) {
    !(w.worker.Some? && w.worker.v.id == id) && Unhanded(w.held, id)
  }

  /** How often the loop's route has executed the command or will. */
  function LoopClaims(w: World, id: string): nat {
    Runs(w.log, id, Loop) + Queued(w.aside, id)
    + (if w.loop.Some? && w.loop.v.cmd.id == id && !w.loop.v.acted then 1 else 0)
    + (if Waits(w, id) then 1 else 0)
  }

  function DenialClaims(w: World, id: string): nat {
    Runs(w.log, id, Denial) + if w.denial.Some? && w.denial.v.cur.Some? && w.denial.v.cur.v.id == id then 1 else 0
  }

  /** The loop will not take the command again. */
  predicate LoopShut(w: World, c: Cmd) {
    LoopHolds(w, c.id) || c.num <= w.high
  }

  /** The denial's route will not take it again. */
  predicate DenialShut(w: World, c: Cmd) {
    DenialHolds(w, c.id) || c.id in w.kept || c.exp <= w.now
  }
}
