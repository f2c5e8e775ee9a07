/** What delivery keeps when MAIN is restored and its cursor moves back: the batch in flight is renumbered
(events.go, `shipOnce`). The spool is the batch in flight and the events behind it; MAIN applies a batch with its
cursor, so a restored MAIN has the log of a cursor it had before. */
module SpoolRestored {
  import opened Maps
  import opened SpoolEvents
  import opened SpoolWorld

  /** marks are the cursors MAIN had; batch is the record in flight; sent is every request that may arrive; gone
      counts the events lost, spooled is every event ever spooled. The two only serve to state. */
  datatype State = State(
    log: seq<Event>, marks: set<nat>, batch: Opt<Request>, rest: seq<Event>, sent: set<Request>,
    spooled: seq<Event>, gone: nat)

  datatype Move =
    | Spool(events: seq<Event>)
    | Collect(first: nat, count: nat)
    | Renumber(first: nat)
    | Post
    | Arrives(req: Request)
    | Finish
    | Restore(cursor: nat)

  /** MAIN's cursor covers the batch. */
  predicate Has(s: State, f: Request) {
    |s.log| + 1 >= f.first + |f.events|
  }

  /** The events in flight that MAIN does not have. */
  function Waiting(s: State): seq<Event> {
    if s.batch.Some? && !Has(s, s.batch.v) then s.batch.v.events else []
  }

  /** What MAIN has or will have. */
  function Kept(s: State): seq<Event> {
    s.log + Waiting(s) + s.rest
  }

  /** Of MAIN's log, the events whose files are gone. */
  function FinishedTo(s: State): int {
    if s.batch.Some? && Has(s, s.batch.v) then |s.log| - |s.batch.v.events| else |s.log|
  }

  predicate May(s: State, a: Move) {
    match a
    case Spool(_) => true
    case Collect(first, count) => s.batch.None? && first > |s.log| && count <= |s.rest| && count > 0
    case Renumber(first) => s.batch.Some? && !Has(s, s.batch.v) && first > |s.log|
    case Post => s.batch.Some?
    case Arrives(r) => r in s.sent
    case Finish => s.batch.Some?
    case Restore(n) => n in s.marks && n <= |s.log|
  }

  function After(s: State, a: Move): State {
    match a
    case Spool(evs) => s.(rest := s.rest + evs, spooled := s.spooled + evs)
    case Collect(first, count) =>
      if count > |s.rest| then s else s.(batch := Some(Request(first, s.rest[..count])), rest := s.rest[count..])
    case Renumber(first) => if s.batch.None? then s else s.(batch := Some(s.batch.v.(first := first)))
    case Post => if s.batch.None? then s else s.(sent := s.sent + {s.batch.v})
    case Arrives(r) => var log := Receive(s.log, r); s.(log := log, marks := s.marks + {|log|})
    case Finish => s.(batch := None, gone := s.gone + |Waiting(s)|)
    case Restore(n) =>
      if n > |s.log| then s
      else
        s.(log := s.log[..n], marks := (set m | m in s.marks && m <= n),
           gone := if n < FinishedTo(s) then s.gone + (FinishedTo(s) - n) else s.gone)
  }

  /** The batch in flight is MAIN's last, whole, or it is numbered past MAIN's cursor. */
  predicate StateOk(s: State) {
    && (forall m | m in s.marks :: m <= |s.log|)
    && (s.batch.Some? ==>
          var f := s.batch.v;
          && f.events != [] && f.first >= 1 && (Has(s, f) || f.first > |s.log|)
          && (Has(s, f) ==>
                && |s.log| + 1 == f.first + |f.events| && s.log[f.first - 1..] == f.events
                && forall m | m in s.marks :: m < f.first || m == |s.log|))
  }

  /** A request that arrives is of the batch in flight, under the number it has. */
  predicate Current(s: State, a: Move) {
    a.Arrives? ==> s.batch == Some(a.req)
  }

  lemma {:induction false} ArrivesWhole(s: State, r: Request)
    requires StateOk(s) && s.batch == Some(r)
    ensures Receive(s.log, r) == if r.first == |s.log| + 1 then s.log + r.events else s.log
  {
  }

  lemma {:induction false} StateKept(s: State, a: Move)
    requires StateOk(s) && May(s, a) && Current(s, a)
    ensures StateOk(After(s, a))
  {
    if a.Arrives? {
      ArrivesWhole(s, a.req);
      if a.req.first == |s.log| + 1 {
        assert (s.log + a.req.events)[|s.log|..] == a.req.events;
      }
    }
  }

  /** What a step does to what MAIN has or will have: only a restore past events whose files are gone, and the end
      of a batch that MAIN no longer has, take anything away, and exactly that. */
  lemma {:induction false} KeptAfter(s: State, a: Move)
    requires StateOk(s) && May(s, a) && Current(s, a)
    ensures Kept(After(s, a)) ==
            match a
            case Spool(evs) => Kept(s) + evs
            case Restore(n) => if n < FinishedTo(s) then s.log[..n] + Kept(s)[FinishedTo(s)..] else Kept(s)
            case Finish => s.log + s.rest
            case _ => Kept(s)
  {
    match a
    case Spool(evs) =>
      assert s.log + Waiting(s) + (s.rest + evs) == Kept(s) + evs;
    case Collect(first, count) =>
      assert s.log + s.rest[..count] + s.rest[count..] == s.log + [] + s.rest;
    case Arrives(r) =>
      ArrivesWhole(s, r);
      assert s.log + r.events + [] + s.rest == s.log + r.events + s.rest;
    case Restore(n) =>
      RestoreKeeps(s, n);
    case Finish =>
      assert s.log + [] + s.rest == s.log + s.rest;
    case _ =>
  }

  lemma {:induction false} RestoreKeeps(s: State, n: nat)
    requires StateOk(s) && May(s, Restore(n))
    ensures Kept(After(s, Restore(n))) ==
            if n < FinishedTo(s) then s.log[..n] + Kept(s)[FinishedTo(s)..] else Kept(s)
  {
    var k := FinishedTo(s);
    if s.batch.Some? && Has(s, s.batch.v) {
      var f := s.batch.v;
      assert s.log == s.log[..k] + f.events;
      assert Kept(s) == s.log[..k] + (f.events + s.rest);
      if n < |s.log| {
        assert n <= k;
        assert s.log[..n] + f.events + s.rest == s.log[..n] + (f.events + s.rest);
      } else {
        assert s.log[..n] == s.log;
      }
    } else {
      assert Kept(s) == s.log + (Waiting(s) + s.rest);
      assert s.log[..n] + Waiting(s) + s.rest == s.log[..n] + (Waiting(s) + s.rest);
      if n == |s.log| {
        assert s.log[..n] == s.log;
      }
    }
  }

  // ---------------------------------------------------------------- every run

  ghost predicate Steps(s: State, t: State) {
    exists a :: May(s, a) && Current(s, a) && t == After(s, a)
  }

  ghost predicate StepsAt(ss: seq<State>, i: nat)
    requires i + 1 < |ss|
  {
    Steps(ss[i], ss[i + 1])
  }

  predicate Fresh(s: State) {
    s.batch.None? && s.rest == [] && s.sent == {} && s.marks == {|s.log|} && s.spooled == s.log && s.gone == 0
  }

  /** A run in which no request arrives under a number the batch no longer has. */
  ghost predicate RestoringRun(ss: seq<State>) {
    ss != [] && Fresh(ss[0]) && forall i | 0 <= i < |ss| - 1 :: StepsAt(ss, i)
  }

  predicate Accounted(s: State) {
    && StateOk(s) && |Kept(s)| + s.gone == |s.spooled| && (s.gone == 0 ==> Kept(s) == s.spooled)
  }

  lemma {:induction false} AccountedNext(s: State, a: Move)
    requires Accounted(s) && May(s, a) && Current(s, a)
    ensures Accounted(After(s, a)) && After(s, a).gone >= s.gone
  {
    StateKept(s, a);
    KeptAfter(s, a);
    if a.Finish? && Waiting(s) == [] {
      assert s.log + [] + s.rest == s.log + s.rest;
    }
  }

  /** Over every run, MAIN restored however often, with crashes, lost replies, repeated requests and batches
      renumbered: exactly the events counted are lost, and if there are none, what MAIN has, what is in flight and
      what waits are the events spooled, in order and once. */
  lemma {:induction false} LostAreCounted(ss: seq<State>, k: nat)
    requires RestoringRun(ss) && k < |ss|
    ensures Accounted(ss[k])
    ensures ss[k].gone == 0 <==> Kept(ss[k]) == ss[k].spooled
  {
    if k > 0 {
      LostAreCounted(ss, k - 1);
      assert StepsAt(ss, k - 1);
      var a :| May(ss[k - 1], a) && Current(ss[k - 1], a) && ss[k] == After(ss[k - 1], a);
      AccountedNext(ss[k - 1], a);
    } else {
      assert ss[0].log + [] + [] == ss[0].log;
    }
  }

  /** A step loses something exactly when it restores MAIN to a cursor before events whose files are gone, or ends
      a batch that MAIN, restored since, does not have. */
  lemma {:induction false} LosesIff(s: State, a: Move)
    requires StateOk(s) && May(s, a)
    ensures After(s, a).gone > s.gone <==>
            (a.Restore? && a.cursor < FinishedTo(s)) || (a.Finish? && !Has(s, s.batch.v))
  {
  }

  // ---------------------------------------------------------------- a request under an old number

  lemma {:induction false} Next(ss: seq<State>, a: Move, t: State) returns (ts: seq<State>)
    requires RestoringRun(ss) && May(ss[|ss| - 1], a) && Current(ss[|ss| - 1], a) && t == After(ss[|ss| - 1], a)
    ensures RestoringRun(ts) && ts == ss + [t]
  {
    ts := ss + [t];
    forall i | 0 <= i < |ts| - 1 ensures StepsAt(ts, i) {
      if i < |ss| - 1 {
        assert StepsAt(ss, i);
      }
    }
  }

  /** The batch of the events named is collected, sent, applied and ended. */
  lemma {:induction false} Shipped(ss: seq<State>, evs: seq<Event>) returns (ts: seq<State>)
    requires RestoringRun(ss) && evs != []
    requires var s := ss[|ss| - 1]; s.batch.None? && s.rest == []
    ensures RestoringRun(ts)
    ensures var s, t := ss[|ss| - 1], ts[|ts| - 1];
            var log := s.log + evs;
            t == s.(log := log, marks := s.marks + {|log|}, sent := s.sent + {Request(|s.log| + 1, evs)},
                    spooled := s.spooled + evs)
  {
    var s := ss[|ss| - 1];
    var f := Request(|s.log| + 1, evs);
    var a := s.(rest := evs, spooled := s.spooled + evs);
    assert [] + evs == evs && evs[..|evs|] == evs && evs[|evs|..] == [];
    ts := Next(ss, Spool(evs), a);
    var b := a.(batch := Some(f), rest := []);
    ts := Next(ts, Collect(|s.log| + 1, |evs|), b);
    var c := b.(sent := s.sent + {f});
    ts := Next(ts, Post, c);
    assert evs[0..] == evs;
    var d := c.(log := s.log + evs, marks := s.marks + {|s.log + evs|});
    ts := Next(ts, Arrives(f), d);
    ts := Next(ts, Finish, d.(batch := None));
  }

  /** A batch is sent, MAIN is restored, and the batch renumbered, sent again and applied. */
  lemma {:induction false} Resent(p: Event, q: Event, x: Event) returns (ss: seq<State>)
    ensures RestoringRun(ss)
    ensures var s := ss[|ss| - 1];
            && s.log == [x] && s.batch.None? && s.rest == [] && Request(3, [x]) in s.sent
            && s.spooled == [p, q, x] && s.gone == 2
  {
    var none := State([], {0}, None, [], {}, [], 0);
    ss := Shipped([none], [p, q]);
    var s := ss[|ss| - 1];
    assert s.log == [p, q];
    var a := s.(rest := [x], spooled := s.spooled + [x]);
    ss := Next(ss, Spool([x]), a);
    assert [x][..1] == [x] && [x][1..] == [];
    var b := a.(batch := Some(Request(3, [x])), rest := []);
    ss := Next(ss, Collect(3, 1), b);
    var c := b.(sent := b.sent + {Request(3, [x])});
    ss := Next(ss, Post, c);
    var d := After(c, Restore(0));
    assert 0 in c.marks;
    ss := Next(ss, Restore(0), d);
    var e := d.(batch := Some(Request(1, [x])));
    ss := Next(ss, Renumber(1), e);
    var f := e.(sent := e.sent + {Request(1, [x])});
    ss := Next(ss, Post, f);
    assert d.log + [x][0..] == [x];
    var g := After(f, Arrives(Request(1, [x])));
    ss := Next(ss, Arrives(Request(1, [x])), g);
    ss := Next(ss, Finish, g.(batch := None));
  }

  /** The request under the old number then arrives, when the next batch is applied: MAIN has its events twice. */
  lemma {:induction false} StaleRepeats(p: Event, q: Event, x: Event, y: Event) returns (ss: seq<State>)
    ensures RestoringRun(ss)
    ensures var s, stale := ss[|ss| - 1], Arrives(Request(3, [x]));
            && s.spooled == [p, q, x, y] && s.log == [x, y] && s.gone == 2
            && May(s, stale) && !Current(s, stale) && After(s, stale).log == [x, y, x]
  {
    ss := Resent(p, q, x);
    ss := Shipped(ss, [y]);
    var s := ss[|ss| - 1];
    assert s.log == [x] + [y] == [x, y];
    assert [x, y] + [x][0..] == [x, y, x];
  }

  /** The events of a request that MAIN appends. */
  function Appended(s: State, r: Request): seq<Event> {
    if 1 <= r.first <= |s.log| + 1 < r.first + |r.events| then r.events[|s.log| + 1 - r.first..] else []
  }

  /** A request that arrives, under whatever number, leaves what MAIN has or will have as it was exactly when it is
      of the batch in flight, or MAIN appends nothing, or it appends just the events in flight in their place. */
  lemma {:induction false} ArrivalKeepsIff(s: State, r: Request)
    requires StateOk(s) && r in s.sent
    ensures Kept(After(s, Arrives(r))) == Kept(s) <==>
            || s.batch == Some(r)
            || Appended(s, r) == []
            || (s.batch.Some? && s.batch.v.first == |s.log| + 1 && Appended(s, r) == s.batch.v.events)
  {
    var new' := Appended(s, r);
    var t := After(s, Arrives(r));
    assert t.log == s.log + new';
    if s.batch == Some(r) {
      KeptAfter(s, Arrives(r));
    } else if new' != [] && s.batch.Some? && !Has(s, s.batch.v) {
      var f := s.batch.v;
      assert Kept(s) == s.log + (f.events + s.rest);
      if Has(t, f) {
        assert Kept(t) == s.log + (new' + s.rest);
        if |new'| == |f.events| {
          assert (s.log + (new' + s.rest))[|s.log|..][..|new'|] == new';
          assert (s.log + (f.events + s.rest))[|s.log|..][..|new'|] == f.events;
        }
      }
    }
  }

  // ---------------------------------------------------------------- the agent

  datatype Reply = Lost | Served(useq: nat) | Gap(expected: nat)

  /** next is the number the next event has, as the agent has it: past MAIN's cursor; with a batch in flight its
      first, or the one after its last, or one before it that MAIN told of. */
  predicate NextOk(s: State, next: nat) {
    match s.batch
    case None => next > |s.log|
    case Some(f) => next == f.first || next == f.first + |f.events| || |s.log| < next < f.first
  }

  /** MAIN's cursor is before n, and n before the batch in flight. */
  predicate Short(s: State, n: nat) {
    s.batch.Some? && |s.log| < n < s.batch.v.first
  }

  /** What a reply tells of the batch in flight: the number after it is one the next event may have, or MAIN's cursor
      is short of the number expected. */
  predicate Told(s: State, f: Request, reply: Reply) {
    match reply
    case Lost => true
    case Served(useq) => NextOk(s, f.first + |f.events|) && useq < f.first + |f.events|
    case Gap(expected) => Short(s, expected)
  }

  lemma {:induction false} NextStays(s: State, a: Move, next: nat)
    requires StateOk(s) && May(s, a) && Current(s, a) && (a.Spool? || a.Arrives? || a.Restore?)
    ensures NextOk(s, next) ==> NextOk(After(s, a), next)
    ensures Short(s, next) ==> Short(After(s, a), next)
  {
    if a.Arrives? {
      ArrivesWhole(s, a.req);
    }
  }

  class Sender {
    var s: State

    ghost predicate Valid()
      reads this
    {
      Accounted(s)
    }

    constructor (s: State)
      requires Accounted(s)
      ensures Valid() && this.s == s
    {
      this.s := s;
    }

    method Act(a: Move)
      requires Valid() && May(s, a) && Current(s, a)
      modifies this
      ensures Valid() && s == After(old(s), a)
    {
      AccountedNext(s, a);
      s := After(s, a);
    }

    /** Events are spooled, requests arrive, and MAIN is restored. */
    method Interfere()
      requires Valid()
      modifies this
      ensures Valid() && s.batch == old(s).batch
      ensures forall n: nat | NextOk(old(s), n) :: NextOk(s, n)
      ensures forall n: nat | Short(old(s), n) :: Short(s, n)
    {
      var times: nat :| times >= 0;
      for i := 0 to times
        invariant Valid() && s.batch == old(s).batch
        invariant forall n: nat | NextOk(old(s), n) :: NextOk(s, n)
        invariant forall n: nat | Short(old(s), n) :: Short(s, n)
      {
        Happen();
      }
    }

    method Happen()
      requires Valid()
      modifies this
      ensures Valid() && s.batch == old(s).batch
      ensures forall n: nat | NextOk(old(s), n) :: NextOk(s, n)
      ensures forall n: nat | Short(old(s), n) :: Short(s, n)
    {
      var a: Move := *;
      if (a.Spool? || a.Arrives? || a.Restore?) && May(s, a) && Current(s, a) {
        forall n: nat ensures (NextOk(s, n) ==> NextOk(After(s, a), n)) && (Short(s, n) ==> Short(After(s, a), n)) {
          NextStays(s, a, n);
        }
        Act(a);
      }
    }

    lemma NextAll(a: Move)
      requires Valid() && May(s, a) && Current(s, a) && (a.Spool? || a.Arrives? || a.Restore?)
      ensures forall n: nat | NextOk(s, n) :: NextOk(After(s, a), n)
      ensures a.Arrives? && a.req.first <= |s.log| + 1 ==> Has(After(s, a), a.req)
    {
      forall n: nat | NextOk(s, n) ensures NextOk(After(s, a), n) {
        NextStays(s, a, n);
      }
      if a.Arrives? {
        ArrivesWhole(s, a.req);
      }
    }

    /** MAIN answers the request of the batch in flight: it applies the batch or tells of a gap. */
    method Answer(f: Request) returns (reply: Reply)
      requires Valid() && s.batch == Some(f) && f in s.sent
      modifies this
      ensures Valid() && s.batch == Some(f)
      ensures forall n: nat | NextOk(old(s), n) :: NextOk(s, n)
      ensures !reply.Lost? && Told(s, f, reply)
    {
      if f.first > |s.log| + 1 {
        reply := Gap(|s.log| + 1);
      } else {
        NextAll(Arrives(f));
        Act(Arrives(f));
        reply := Served(|s.log|);
      }
    }

    /** Sends the batch in flight; the reply tells that MAIN has it, or the number MAIN expects. */
    method PostBatch() returns (reply: Reply)
      requires Valid() && s.batch.Some?
      modifies this
      ensures Valid() && s.batch == old(s).batch
      ensures forall n: nat | NextOk(old(s), n) :: NextOk(s, n)
      ensures Told(s, s.batch.v, reply)
    {
      Act(Post);
      Interfere();
      var f := s.batch.v;
      var answered: bool := *;
      if !answered || f !in s.sent {
        return Lost;
      }
      reply := Answer(f);
      Interfere();
      if * {
        reply := Lost;
      }
    }

    /** Sends at most one batch, one in flight before any other, renumbered to what MAIN expects if that is another
        number: the number the next event has. */
    method ShipOnce(next: nat) returns (next': nat, served: bool)
      requires Valid() && NextOk(s, next)
      modifies this
      ensures Valid() && NextOk(s, next')
      ensures served ==> s.batch.None?
    {
      next', served := next, false;
      match s.batch {
        case None =>
          var count: nat :| count >= 0;
          if count == 0 || count > |s.rest| {
            return;
          }
          Act(Collect(next, count));
          Interfere();
        case Some(f) =>
          if f.first + |f.events| - 1 < next {
            Act(Finish);
            return;
          } else if f.first != next {
            Act(Renumber(next));
            Interfere();
          }
      }
      next', served := Attempts(next);
    }

    /** Three attempts at most, renumbering after each that MAIN answers with a gap. */
    method Attempts(next: nat) returns (next': nat, served: bool)
      requires Valid() && s.batch.Some? && s.batch.v.first == next
      modifies this
      ensures Valid() && NextOk(s, next') && (served ==> s.batch.None?)
    {
      next', served := next, false;
      for attempt := 0 to 3
        invariant Valid() && s.batch.Some? && s.batch.v.first == next'
      {
        var f := s.batch.v;
        var reply := PostBatch();
        match reply {
          case Lost =>
            return;
          case Served(useq) =>
            Act(Finish);
            next', served := if f.first + |f.events| > useq + 1 then f.first + |f.events| else useq + 1, true;
            return;
          case Gap(expected) =>
            if expected > f.first + |f.events| - 1 {
              assert false;
            }
            Act(Renumber(expected));
            next' := expected;
            Interfere();
        }
      }
    }
  }
}
