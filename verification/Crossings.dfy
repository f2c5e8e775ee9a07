/** Operations on one viewer that cross. Each reads the registry, spools its event and then changes the registry,
and the lock is released in between (registry.go, `Put`, `Reap`, `Delete`, `emitThenLocked`; touch.go,
`touchesToP0`). `there` is the viewer in MAIN's store once every event spooled is applied. */
module Crossings {
  import opened Maps
  import opened ConnRecords
  import opened Registry

  /** held: a change of hls_last_read alone is held back. CatchingUp is a catch-up in which the viewer is behind. */
  datatype Op = Request(rec: Rec, held: bool) | Reaping | CatchingUp | Leaving

  datatype Change = NoChange | Note(rec: Rec) | End(rec: Rec) | Drop

  /** What an operation is to tell MAIN, a record or that the viewer is gone, and to change. */
  datatype Plan = Plan(event: Opt<Opt<Rec>>, change: Change)

  /** plans has what the operations decided, told the order they spooled in, changed that of their changes. */
  datatype View = View(here: Opt<Rec>, there: Opt<Rec>, plans: seq<Opt<Plan>>, told: seq<nat>, changed: seq<nat>)

  predicate IsOpen(r: Opt<Rec>) {
    r.Some? && !Ended(r.v)
  }

  /** A viewer is open in both stores or in neither, and the records agree. */
  predicate Alike(here: Opt<Rec>, there: Opt<Rec>) {
    (IsOpen(here) <==> IsOpen(there)) && (IsOpen(here) ==> AgreeBut(here.v, there.v))
  }

  lemma {:induction false} AlikeMirrors(conns: Store, main: Store)
    ensures Mirrors(conns, main) <==> forall u :: Alike(At(conns, u), At(main, u))
  {
    if forall u :: Alike(At(conns, u), At(main, u)) {
      forall u ensures MirrorAt(conns, main, u) {
        assert Alike(At(conns, u), At(main, u));
      }
    }
    if Mirrors(conns, main) {
      forall u ensures Alike(At(conns, u), At(main, u)) {
        assert MirrorAt(conns, main, u);
      }
    }
  }

  // ---------------------------------------------------------------- the operations' steps

  function EndedOf(rec: Rec): Rec {
    rec[HLS_END := Text("1")]
  }

  predicate Sent(here: Opt<Rec>, rec: Rec, held: bool) {
    !(here.Some? && SameBut(here.v, rec) && held)
  }

  function Decide(op: Op, here: Opt<Rec>): Plan {
    match op
    case Request(rec, held) => Plan(if Sent(here, rec, held) then Some(Some(rec)) else None, Note(rec))
    case Reaping =>
      if IsOpen(here) && Is(here.v, "container", "hls") then Plan(Some(Some(EndedOf(here.v))), End(EndedOf(here.v)))
      else Plan(None, NoChange)
    case CatchingUp => if IsOpen(here) then Plan(Some(here), NoChange) else Plan(None, NoChange)
    case Leaving => Plan(Some(None), Drop)
  }

  function Told(there: Opt<Rec>, p: Plan): Opt<Rec> {
    if p.event.Some? then p.event.v else there
  }

  function Kept(rec: Rec): Opt<Rec> {
    if EndedTS(rec) then None else Some(rec)
  }

  function Changed(here: Opt<Rec>, c: Change): Opt<Rec> {
    match c
    case NoChange => here
    case Note(rec) => Kept(rec)
    case End(rec) => if IsOpen(here) && Field(here.v, LAST_READ) == Field(rec, LAST_READ) then Some(rec) else here
    case Drop => None
  }

  predicate Decided(v: View, i: nat) {
    i < |v.plans| && v.plans[i].Some?
  }

  predicate Decides(ops: seq<Op>, v: View, w: View, i: nat) {
    && i < |v.plans| == |ops| && v.plans[i].None?
    && w == v.(plans := v.plans[i := Some(Decide(ops[i], v.here))])
  }

  predicate Tells(v: View, w: View, i: nat) {
    Decided(v, i) && i !in v.told && w == v.(there := Told(v.there, v.plans[i].v), told := v.told + [i])
  }

  predicate Changes(v: View, w: View, i: nat) {
    && Decided(v, i) && i in v.told && i !in v.changed
    && w == v.(here := Changed(v.here, v.plans[i].v.change), changed := v.changed + [i])
  }

  ghost predicate Step(ops: seq<Op>, v: View, w: View) {
    exists i: nat :: Decides(ops, v, w, i) || Tells(v, w, i) || Changes(v, w, i)
  }

  ghost predicate StepAt(ops: seq<Op>, vs: seq<View>, k: nat)
    requires k + 1 < |vs|
  {
    Step(ops, vs[k], vs[k + 1])
  }

  function Begun(ops: seq<Op>, here: Opt<Rec>, there: Opt<Rec>): View {
    View(here, there, seq(|ops|, i => None), [], [])
  }

  /** The operations' steps, interleaved anyhow. */
  ghost predicate Run(ops: seq<Op>, vs: seq<View>) {
    && vs != [] && vs[0] == Begun(ops, vs[0].here, vs[0].there)
    && forall k | 0 <= k < |vs| - 1 :: StepAt(ops, vs, k)
  }

  predicate Finished(ops: seq<Op>, v: View) {
    |v.told| == |v.changed| == |ops|
  }

  // ---------------------------------------------------------------- what every run comes to

  predicate AllDecided(plans: seq<Opt<Plan>>, ids: seq<nat>) {
    forall k | 0 <= k < |ids| :: ids[k] < |plans| && plans[ids[k]].Some?
  }

  function TellAll(there: Opt<Rec>, plans: seq<Opt<Plan>>, ids: seq<nat>): Opt<Rec>
    requires AllDecided(plans, ids)
  {
    if ids == [] then there
    else Told(TellAll(there, plans, ids[..|ids| - 1]), plans[ids[|ids| - 1]].v)
  }

  function ChangeAll(here: Opt<Rec>, plans: seq<Opt<Plan>>, ids: seq<nat>): Opt<Rec>
    requires AllDecided(plans, ids)
  {
    if ids == [] then here
    else Changed(ChangeAll(here, plans, ids[..|ids| - 1]), plans[ids[|ids| - 1]].v.change)
  }

  predicate Distinct(ids: seq<nat>) {
    forall i, j | 0 <= i < j < |ids| :: ids[i] != ids[j]
  }

  /** MAIN has what the events tell, in the order spooled, and the registry what the changes make, in theirs. */
  predicate Sound(ops: seq<Op>, v0: View, v: View) {
    && |v.plans| == |ops| && AllDecided(v.plans, v.told) && AllDecided(v.plans, v.changed)
    && Distinct(v.told) && Distinct(v.changed)
    && v.there == TellAll(v0.there, v.plans, v.told) && v.here == ChangeAll(v0.here, v.plans, v.changed)
  }

  lemma {:induction false} SamePlans(
      here: Opt<Rec>, there: Opt<Rec>, a: seq<Opt<Plan>>, b: seq<Opt<Plan>>, ids: seq<nat>)
    requires AllDecided(a, ids) && |b| == |a| && forall i | 0 <= i < |a| && a[i].Some? :: b[i] == a[i]
    ensures AllDecided(b, ids) && TellAll(there, b, ids) == TellAll(there, a, ids)
    ensures ChangeAll(here, b, ids) == ChangeAll(here, a, ids)
  {
    if ids != [] {
      SamePlans(here, there, a, b, ids[..|ids| - 1]);
    }
  }

  lemma {:induction false} SoundNext(ops: seq<Op>, v0: View, v: View, w: View)
    requires Sound(ops, v0, v) && Step(ops, v, w)
    ensures Sound(ops, v0, w)
  {
    var i: nat :| Decides(ops, v, w, i) || Tells(v, w, i) || Changes(v, w, i);
    if Decides(ops, v, w, i) {
      SamePlans(v0.here, v0.there, v.plans, w.plans, v.told);
      SamePlans(v0.here, v0.there, v.plans, w.plans, v.changed);
    } else if Tells(v, w, i) {
      assert w.told[..|v.told|] == v.told;
    } else {
      assert w.changed[..|v.changed|] == v.changed;
    }
  }

  lemma {:induction false} RunSound(ops: seq<Op>, vs: seq<View>, k: nat)
    requires Run(ops, vs) && k < |vs|
    ensures Sound(ops, vs[0], vs[k])
  {
    if k > 0 {
      RunSound(ops, vs, k - 1);
      assert StepAt(ops, vs, k - 1);
      SoundNext(ops, vs[0], vs[k - 1], vs[k]);
    }
  }

  /** The operations overlapped: each read the viewer as it was before any changed it. */
  predicate Overlapped(ops: seq<Op>, v0: View, v: View) {
    |v.plans| == |ops| && forall i | 0 <= i < |ops| :: v.plans[i] == Some(Decide(ops[i], v0.here))
  }

  /** A run of operations that overlapped, to its end. */
  ghost predicate Crossed(ops: seq<Op>, vs: seq<View>) {
    Run(ops, vs) && Finished(ops, vs[|vs| - 1]) && Overlapped(ops, vs[0], vs[|vs| - 1])
  }

  /** Two operations that overlapped have ended in one of four ways. */
  lemma {:induction false} PairEnds(ops: seq<Op>, vs: seq<View>)
    requires |ops| == 2 && Crossed(ops, vs)
    ensures var v0, v := vs[0], vs[|vs| - 1];
            var a, b := Decide(ops[0], v0.here), Decide(ops[1], v0.here);
            && (v.told == [0, 1] || v.told == [1, 0]) && (v.changed == [0, 1] || v.changed == [1, 0])
            && v.there == (if v.told == [0, 1] then Told(Told(v0.there, a), b) else Told(Told(v0.there, b), a))
            && v.here == (if v.changed == [0, 1] then Changed(Changed(v0.here, a.change), b.change)
                          else Changed(Changed(v0.here, b.change), a.change))
  {
    var v0, v := vs[0], vs[|vs| - 1];
    RunSound(ops, vs, |vs| - 1);
    TwoFolds(v0, v.plans, v.told);
    TwoFolds(v0, v.plans, v.changed);
  }

  lemma {:induction false} TwoFolds(v0: View, plans: seq<Opt<Plan>>, ids: seq<nat>)
    requires |plans| == 2 && AllDecided(plans, ids) && Distinct(ids) && |ids| == 2
    ensures ids == [0, 1] || ids == [1, 0]
    ensures TellAll(v0.there, plans, ids) == Told(Told(v0.there, plans[ids[0]].v), plans[ids[1]].v)
    ensures ChangeAll(v0.here, plans, ids) ==
            Changed(Changed(v0.here, plans[ids[0]].v.change), plans[ids[1]].v.change)
  {
    assert ids[0] != ids[1] && ids[0] < 2 && ids[1] < 2;
    assert ids == [ids[0], ids[1]];
    var one := ids[..1];
    assert one == [ids[0]] && one[..|one| - 1] == [];
    assert TellAll(v0.there, plans, one) == Told(v0.there, plans[ids[0]].v);
    assert ChangeAll(v0.here, plans, one) == Changed(v0.here, plans[ids[0]].v.change);
    assert ids[..|ids| - 1] == one;
  }

  // ---------------------------------------------------------------- when the stores are alike

  /** Any number of requests whose events are all sent, one at least, however they cross: the stores are alike
      exactly when the record whose event was spooled last and the one noted last are. */
  lemma {:induction false} RequestsCrossIff(ops: seq<Op>, vs: seq<View>)
    requires Run(ops, vs) && ops != [] && Finished(ops, vs[|vs| - 1])
    requires forall i | 0 <= i < |ops| :: ops[i].Request? && !ops[i].held
    ensures var v := vs[|vs| - 1];
            var n := |ops| - 1;
            && v.told[n] < |ops| && v.changed[n] < |ops|
            && (Alike(v.here, v.there) <==> Alike(Kept(ops[v.changed[n]].rec), Some(ops[v.told[n]].rec)))
  {
    RunSound(ops, vs, |vs| - 1);
    var v := vs[|vs| - 1];
    PlansAre(ops, vs, |vs| - 1, v.told[|ops| - 1]);
    PlansAre(ops, vs, |vs| - 1, v.changed[|ops| - 1]);
  }

  /** A request's plan is its own, whenever it was made. */
  lemma {:induction false} PlansAre(ops: seq<Op>, vs: seq<View>, k: nat, i: nat)
    requires Run(ops, vs) && k < |vs| && i < |ops| && ops[i].Request? && !ops[i].held && Decided(vs[k], i)
    ensures vs[k].plans[i].v == Plan(Some(Some(ops[i].rec)), Note(ops[i].rec))
  {
    if k > 0 {
      RunSound(ops, vs, k - 1);
      assert StepAt(ops, vs, k - 1);
      if Decided(vs[k - 1], i) {
        PlansAre(ops, vs, k - 1, i);
      }
    }
  }

  /** A reap and a request of an open HLS viewer that overlap: unless the request ends the viewer, the stores
      are alike exactly when its record is MAIN's (it was sent, and last) just when it is the registry's (it was
      noted last, or the reap found hls_last_read changed). */
  lemma {:induction false} ReapCrossesRequestIff(rec: Rec, held: bool, vs: seq<View>)
    requires Crossed([Reaping, Request(rec, held)], vs) && IsOpen(vs[0].here) && Is(vs[0].here.v, "container", "hls")
    ensures var v0, v := vs[0], vs[|vs| - 1];
            Alike(v.here, v.there) <==>
            || Ended(rec)
            || ((Sent(v0.here, rec, held) && v.told == [0, 1]) <==>
                (v.changed == [0, 1] || Field(rec, LAST_READ) != Field(v0.here.v, LAST_READ)))
  {
    var v0, v := vs[0], vs[|vs| - 1];
    PairEnds([Reaping, Request(rec, held)], vs);
    OneEnds(v0.here.v);
    assert Field(EndedOf(v0.here.v), LAST_READ) == Field(v0.here.v, LAST_READ);
  }

  /** A catch-up and a request of an open viewer that overlap: alike when the request was sent, and after the
      catch-up's event; else exactly when it left the viewer open and the same but for hls_last_read. */
  lemma {:induction false} CatchUpCrossesRequestIff(rec: Rec, held: bool, vs: seq<View>)
    requires Crossed([CatchingUp, Request(rec, held)], vs) && IsOpen(vs[0].here)
    ensures var v0, v := vs[0], vs[|vs| - 1];
            Alike(v.here, v.there) <==>
            || (Sent(v0.here, rec, held) && v.told == [0, 1])
            || (!Ended(rec) && AgreeBut(rec, v0.here.v))
  {
    PairEnds([CatchingUp, Request(rec, held)], vs);
  }

  /** A removal and a request that overlap: unless the request ends the viewer, alike exactly when its record is
      MAIN's just when it is the registry's. */
  lemma {:induction false} RemovalCrossesRequestIff(rec: Rec, held: bool, vs: seq<View>)
    requires Crossed([Leaving, Request(rec, held)], vs)
    ensures var v0, v := vs[0], vs[|vs| - 1];
            Alike(v.here, v.there) <==>
            Ended(rec) || ((Sent(v0.here, rec, held) && v.told == [0, 1]) <==> v.changed == [0, 1])
  {
    PairEnds([Leaving, Request(rec, held)], vs);
  }

  // ---------------------------------------------------------------- it does happen

  /** A viewer that was open and has since ended. */
  const GONE: Rec := map["uuid" := Text("c1"), "container" := Text("hls"), LAST_READ := Text("5"), HLS_END := Text("1")]

  lemma {:induction false} Next(ops: seq<Op>, vs: seq<View>, w: View) returns (ws: seq<View>)
    requires Run(ops, vs) && Step(ops, vs[|vs| - 1], w)
    ensures Run(ops, ws) && ws == vs + [w]
  {
    ws := vs + [w];
    forall k | 0 <= k < |ws| - 1 ensures StepAt(ops, ws, k) {
      if k < |vs| - 1 {
        assert StepAt(ops, vs, k);
      }
    }
  }

  function Decision(ops: seq<Op>, v: View, i: nat): View
    requires i < |ops| == |v.plans|
  {
    v.(plans := v.plans[i := Some(Decide(ops[i], v.here))])
  }

  function Telling(v: View, i: nat): View
    requires Decided(v, i)
  {
    v.(there := Told(v.there, v.plans[i].v), told := v.told + [i])
  }

  function Changing(v: View, i: nat): View
    requires Decided(v, i)
  {
    v.(here := Changed(v.here, v.plans[i].v.change), changed := v.changed + [i])
  }

  /** The first operation decides and tells, the second runs to its end, and the first changes the registry. */
  lemma {:induction false} Around(ops: seq<Op>, rec: Rec) returns (vs: seq<View>)
    requires |ops| == 2
    ensures Crossed(ops, vs) && vs[0] == Begun(ops, Some(rec), Some(rec))
    ensures vs[|vs| - 1].told == [0, 1] && vs[|vs| - 1].changed == [1, 0]
  {
    var v0 := Begun(ops, Some(rec), Some(rec));
    vs := [v0];
    var v1 := Decision(ops, v0, 0);
    vs := Stepped(ops, vs, v1, 0);
    var v2 := Telling(v1, 0);
    vs := Stepped(ops, vs, v2, 0);
    var v3 := Decision(ops, v2, 1);
    vs := Stepped(ops, vs, v3, 1);
    var v4 := Telling(v3, 1);
    vs := Stepped(ops, vs, v4, 1);
    var v5 := Changing(v4, 1);
    vs := Stepped(ops, vs, v5, 1);
    vs := Stepped(ops, vs, Changing(v5, 0), 0);
  }

  lemma {:induction false} Stepped(ops: seq<Op>, vs: seq<View>, w: View, i: nat) returns (ws: seq<View>)
    requires Run(ops, vs)
    requires var v := vs[|vs| - 1]; Decides(ops, v, w, i) || Tells(v, w, i) || Changes(v, w, i)
    ensures Run(ops, ws) && ws == vs + [w]
  {
    ws := Next(ops, vs, w);
  }

  /** A reap has spooled its event, a request runs to its end, and then the reap changes the registry. */
  lemma {:induction false} WithinReap(was: Rec, rec: Rec, held: bool) returns (vs: seq<View>)
    requires !Ended(was) && Is(was, "container", "hls")
    ensures Crossed([Reaping, Request(rec, held)], vs) && vs[0].here == vs[0].there == Some(was)
    ensures var v := vs[|vs| - 1];
            Alike(v.here, v.there) <==>
            Ended(rec) || (Sent(Some(was), rec, held) <==> Field(rec, LAST_READ) != Field(was, LAST_READ))
  {
    vs := Around([Reaping, Request(rec, held)], was);
    ReapCrossesRequestIff(rec, held, vs);
  }

  lemma {:induction false} Viewers()
    ensures !Ended(VIEWER) && !Ended(READ_ON) && Is(VIEWER, "container", "hls")
  {
  }

  /** A viewer's end is spooled, a request reads on and is held back as a touch, and the viewer is open here and
      ended in MAIN's store. */
  lemma {:induction false} TouchOutlivesReap() returns (vs: seq<View>)
    ensures Crossed([Reaping, Request(READ_ON, true)], vs) && Alike(vs[0].here, vs[0].there)
    ensures !Alike(vs[|vs| - 1].here, vs[|vs| - 1].there)
  {
    Viewers();
    SameViewer();
    vs := WithinReap(VIEWER, READ_ON, true);
  }

  /** A viewer's end is spooled, a request that changes nothing is sent, and the reap ends the viewer here,
      which is open in MAIN's store. */
  lemma {:induction false} ReapUndoesRequest() returns (vs: seq<View>)
    ensures Crossed([Reaping, Request(VIEWER, false)], vs) && Alike(vs[0].here, vs[0].there)
    ensures !Alike(vs[|vs| - 1].here, vs[|vs| - 1].there)
  {
    Viewers();
    vs := WithinReap(VIEWER, VIEWER, false);
  }

  /** A catch-up reads the viewer, a request ends it, and the catch-up's event comes last: the viewer is open
      again in MAIN's store. */
  lemma {:induction false} RevivedHappens() returns (vs: seq<View>)
    ensures Crossed([CatchingUp, Request(GONE, false)], vs) && Alike(vs[0].here, vs[0].there)
    ensures var v := vs[|vs| - 1]; !IsOpen(v.here) && IsOpen(v.there)
  {
    Viewers();
    OneEnds(VIEWER);
    assert EndedOf(VIEWER) == GONE;
    vs := WithinCatchUp(VIEWER, GONE);
  }

  /** A catch-up has read the viewer, a request runs to its end, and then the catch-up's event is spooled. */
  lemma {:induction false} WithinCatchUp(was: Rec, rec: Rec) returns (vs: seq<View>)
    requires !Ended(was)
    ensures Crossed([CatchingUp, Request(rec, false)], vs) && vs[0].here == vs[0].there == Some(was)
    ensures vs[|vs| - 1].here == Kept(rec) && vs[|vs| - 1].there == Some(was)
  {
    var ops := [CatchingUp, Request(rec, false)];
    var v0 := Begun(ops, Some(was), Some(was));
    vs := [v0];
    var v1 := Decision(ops, v0, 0);
    vs := Stepped(ops, vs, v1, 0);
    var v2 := Decision(ops, v1, 1);
    vs := Stepped(ops, vs, v2, 1);
    var v3 := Telling(v2, 1);
    vs := Stepped(ops, vs, v3, 1);
    var v4 := Changing(v3, 1);
    vs := Stepped(ops, vs, v4, 1);
    var v5 := Telling(v4, 0);
    vs := Stepped(ops, vs, v5, 0);
    vs := Stepped(ops, vs, Changing(v5, 0), 0);
  }
}
