/** The node's connection registry as the source runs it (registry.go, touch.go), each operation from its
first lock to its last before the next one's. `main` is MAIN's store once every event spooled is
applied. */
module Registry {
  import opened Maps
  import opened ConnRecords

  datatype Event = Upsert(uuid: string, rec: Rec) | Remove(uuid: string) | CloseConn(uuid: string)

  datatype TouchOf = TouchOf(uuid: string, value: int)

  const TOUCH_EVERY := 10
  const TOUCH_P2_EVERY := 60

  function Mirrored(main: Store, e: Event): Store {
    match e
    case Upsert(u, rec) => main[u := rec]
    case Remove(u) => main - {u}
    case CloseConn(u) => main - {u}
  }

  function MirroredAll(main: Store, es: seq<Event>): Store {
    if es == [] then main else Mirrored(MirroredAll(main, es[..|es| - 1]), es[|es| - 1])
  }

  lemma {:induction false} MirroredOnly(main: Store, e: Event)
    ensures MirroredAll(main, [e]) == Mirrored(main, e)
  {
    assert [e][..0] == [];
  }

  // ---------------------------------------------------------------- what a Put does to the mirror

  /** A Put keeps the mirror exactly when it is sent, or the viewer was not open, or the record does not
      drop its hls_last_read: sameBut takes a record that drops it for another key's coming as a touch. */
  lemma {:induction false} PutMirrorsIff(conns: Store, main: Store, u: string, rec: Rec, sent: bool)
    requires Mirrors(conns, main) && (!sent ==> u in conns && SameBut(conns[u], rec))
    ensures var conns' := if EndedTS(rec) then conns - {u} else conns[u := rec];
            var main' := if sent then main[u := rec] else main;
            Mirrors(conns', main') <==> sent || !Open(conns, u) || !DropsLastRead(conns[u], rec)
  {
    var conns' := if EndedTS(rec) then conns - {u} else conns[u := rec];
    var main' := if sent then main[u := rec] else main;
    forall v | v != u ensures MirrorAt(conns', main', v) {
      assert MirrorAt(conns, main, v);
    }
    assert MirrorAt(conns, main, u);
    if sent {
      assert MirrorAt(conns', main', u);
    } else {
      SameButAgreesIff(conns[u], rec);
      UnsentPut(conns, main, u, rec);
      assert Mirrors(conns', main') <==> MirrorAt(conns', main', u);
    }
  }

  lemma {:induction false} AgreeField(a: Rec, b: Rec, k: string)
    requires AgreeBut(a, b) && k != LAST_READ
    ensures Field(a, k) == Field(b, k)
  {
    assert Field(a, k) == Field(a - {LAST_READ}, k) && Field(b, k) == Field(b - {LAST_READ}, k);
  }

  lemma {:induction false} UnsentPut(conns: Store, main: Store, u: string, rec: Rec)
    requires MirrorAt(conns, main, u) && u in conns && SameBut(conns[u], rec)
    ensures var conns' := if EndedTS(rec) then conns - {u} else conns[u := rec];
            MirrorAt(conns', main, u) <==> !Open(conns, u) || AgreeBut(conns[u], rec)
  {
    var was := conns[u];
    if AgreeBut(was, rec) {
      AgreeField(was, rec, HLS_END);
    }
    if Ended(was) {
      assert HLS_END in was && rec[HLS_END] == was[HLS_END];
    }
  }

  lemma {:induction false} OneEnds(rec: Rec)
    ensures Ended(rec[HLS_END := Text("1")])
  {
    assert "1"[..0] == "";
    assert Digits("1") == 1;
  }

  /** A viewer's record, a later request's that has another key in the place of hls_last_read, and one that
      only read on. */
  const VIEWER: Rec := map["uuid" := Text("c1"), "container" := Text("hls"), LAST_READ := Text("5")]
  const OTHER_KEY: Rec := map["uuid" := Text("c1"), "container" := Text("hls"), "bitrate" := Text("7")]
  const READ_ON: Rec := map["uuid" := Text("c1"), "container" := Text("hls"), LAST_READ := Text("6")]

  lemma {:induction false} ThreeKeys()
    ensures |VIEWER| == 3 && |OTHER_KEY| == 3 && |READ_ON| == 3
  {
    assert VIEWER.Keys == {"uuid", "container", LAST_READ} && |VIEWER| == |VIEWER.Keys|;
    assert READ_ON.Keys == {"uuid", "container", LAST_READ} && |READ_ON| == |READ_ON.Keys|;
    assert OTHER_KEY.Keys == {"uuid", "container", "bitrate"} && |OTHER_KEY| == |OTHER_KEY.Keys|;
  }

  lemma {:induction false} SameViewer()
    ensures SameBut(VIEWER, OTHER_KEY) && DropsLastRead(VIEWER, OTHER_KEY) && !Ended(VIEWER)
    ensures SameBut(VIEWER, READ_ON) && !DropsLastRead(VIEWER, READ_ON)
    ensures Field(READ_ON, LAST_READ) != Field(VIEWER, LAST_READ)
  {
    ThreeKeys();
  }

  /** It does happen: the record that drops hls_last_read is taken for a touch of the other's, held back, and
      the stores no longer agree. */
  lemma {:induction false} DropHappens()
    ensures var was, now := map["c1" := VIEWER], map["c1" := OTHER_KEY];
            SameBut(VIEWER, OTHER_KEY) && Mirrors(was, was) && !Mirrors(now, was)
  {
    var was := map["c1" := VIEWER];
    SameViewer();
    PutMirrorsIff(was, was, "c1", OTHER_KEY, false);
    assert was["c1" := OTHER_KEY] == map["c1" := OTHER_KEY];
  }

  /** What MAIN's store says of a viewer's hls_last_read is what was last sent on P0. */
  predicate P0Known(main: Store, lastP0: map<string, int>, u: string) {
    u in lastP0 ==> u in main && IntOf(Field(main[u], LAST_READ)) == lastP0[u]
  }

  /** MAIN's store mirrors the registry, and the registry knows what it last sent of every open viewer. */
  ghost predicate InStep(conns: Store, main: Store, lastP0: map<string, int>) {
    Mirrors(conns, main) && forall u :: Open(conns, u) ==> P0Known(main, lastP0, u)
  }

  function StoreAfter(conns: Store, u: string, rec: Rec): Store {
    if EndedTS(rec) then conns - {u} else conns[u := rec]
  }

  function LastAfter(lastP0: map<string, int>, u: string, rec: Rec, sent: bool): map<string, int> {
    if EndedTS(rec) then lastP0 - {u} else if sent then lastP0[u := IntOf(Field(rec, LAST_READ))] else lastP0
  }

  lemma {:induction false} PutKeepsIff(
      conns: Store, main: Store, lastP0: map<string, int>, u: string, rec: Rec, sent: bool)
    requires InStep(conns, main, lastP0) && (!sent ==> u in conns && SameBut(conns[u], rec))
    ensures InStep(StoreAfter(conns, u, rec), if sent then main[u := rec] else main, LastAfter(lastP0, u, rec, sent))
            <==> sent || !Open(conns, u) || !DropsLastRead(conns[u], rec)
  {
    PutMirrorsIff(conns, main, u, rec, sent);
    var conns', main' := StoreAfter(conns, u, rec), if sent then main[u := rec] else main;
    var last' := LastAfter(lastP0, u, rec, sent);
    if Mirrors(conns', main') {
      forall v | Open(conns', v) ensures P0Known(main', last', v) {
        assert MirrorAt(conns, main, v) && MirrorAt(conns', main', v);
        assert Open(conns, v) ==> P0Known(main, lastP0, v);
      }
    }
  }

  /** What leaves both stores leaves the others as they were. */
  lemma {:induction false} GoneKeeps(conns: Store, main: Store, lastP0: map<string, int>, gone: set<string>)
    requires InStep(conns, main, lastP0)
    ensures InStep(conns - gone, main - gone, lastP0 - gone)
  {
    var conns', main', last' := conns - gone, main - gone, lastP0 - gone;
    forall v ensures MirrorAt(conns', main', v) && (Open(conns', v) ==> P0Known(main', last', v)) {
      assert MirrorAt(conns, main, v);
      assert Open(conns, v) ==> P0Known(main, lastP0, v);
    }
  }

  lemma {:induction false} ClosedKeeps(
      conns: Store, main: Store, lastP0: map<string, int>, conns': Store, last': map<string, int>, u: string,
      remove: bool)
    requires InStep(conns, main, lastP0)
    requires !Open(conns', u) && !Open(MainCloses(main, u, remove), u)
    requires forall v | v != u :: At(conns', v) == At(conns, v) && At(last', v) == At(lastP0, v)
    ensures InStep(conns', MainCloses(main, u, remove), last')
  {
    var main' := MainCloses(main, u, remove);
    forall v ensures MirrorAt(conns', main', v) && (Open(conns', v) ==> P0Known(main', last', v)) {
      assert MirrorAt(conns, main, v);
      assert Open(conns, v) ==> P0Known(main, lastP0, v);
      if v != u {
        assert At(conns', v) == At(conns, v) && At(last', v) == At(lastP0, v);
      }
    }
  }

  lemma {:induction false} ClosedInMain(main: Store, u: string, remove: bool)
    ensures !Open(MainCloses(main, u, remove), u)
  {
    if u in main {
      OneEnds(main[u]);
    }
  }

  /** The last read known of a viewer; seen for the first time, its wait begins now. */
  function WaitsFrom(readAt: map<string, int>, u: string, seen: bool, now: int): Opt<int> {
    if u in readAt then Some(readAt[u]) else if seen then Some(now) else None
  }

  /** Left as it was, or ended. */
  predicate ReapedAt(was: Store, conns: Store, u: string) {
    At(conns, u) == At(was, u) || (u in was && At(conns, u) == Some(was[u][HLS_END := Text("1")]))
  }

  lemma {:induction false} ReapedOn(old_: Store, was: Store, conns: Store, u: string, ended: bool)
    requires u in was && At(was, u) == At(old_, u)
    requires conns == if ended then was[u := was[u][HLS_END := Text("1")]] else was
    ensures ReapedAt(old_, conns, u) && forall v | v != u :: At(conns, v) == At(was, v)
  {
  }

  class Registry {
    var conns: Store
    var sentAt: map<string, int>
    var readAt: map<string, int>
    var pending: map<string, int>
    var lastP0: map<string, int>
    var lastAny: map<string, int>
    var p2At: map<string, int>
    var now: int
    var p2: bool
    ghost var main: Store

    ghost predicate Valid()
      reads this
    {
      forall u | u in conns :: Is(conns[u], "uuid", u)
    }

    ghost predicate Mirror()
      reads this
    {
      InStep(conns, main, lastP0)
    }

    constructor (now: int)
      ensures Valid() && Mirror() && conns == map[] && this.now == now
    {
      conns, sentAt, readAt, pending, lastP0, lastAny, p2At := map[], map[], map[], map[], map[], map[], map[];
      this.now, p2, main := now, false, map[];
    }

    /** Spools events for MAIN, or fails and spools none. */
    method Emit(events: seq<Event>) returns (ok: bool)
      modifies this`main
      ensures main == if ok then MirroredAll(old(main), events) else old(main)
    {
      ok := *;
      if ok {
        main := MirroredAll(main, events);
      }
    }

    /** Notes an upsert of the whole record. */
    method SentP0(u: string, rec: Rec)
      modifies this`sentAt, this`lastP0, this`lastAny, this`pending
      ensures lastP0 == old(lastP0)[u := IntOf(Field(rec, LAST_READ))]
              && lastAny == old(lastAny)[u := IntOf(Field(rec, LAST_READ))]
      ensures pending == old(pending) - {u} && sentAt == old(sentAt)[u := now]
    {
      sentAt := sentAt[u := now];
      var v := IntOf(Field(rec, LAST_READ));
      lastP0, lastAny, pending := lastP0[u := v], lastAny[u := v], pending - {u};
    }

    method Forget(u: string)
      modifies this`sentAt, this`readAt, this`pending, this`lastP0, this`lastAny, this`p2At
      ensures lastP0 == old(lastP0) - {u} && lastAny == old(lastAny) - {u} && pending == old(pending) - {u}
      ensures sentAt == old(sentAt) - {u} && readAt == old(readAt) - {u} && p2At == old(p2At) - {u}
    {
      sentAt, readAt, pending, lastP0, lastAny, p2At := sentAt - {u}, readAt - {u}, pending - {u}, lastP0 - {u},
          lastAny - {u}, p2At - {u};
    }

    /** Whether a change of hls_last_read alone is held back. */
    predicate HeldBack(u: string)
      reads this
    {
      p2 || (u in sentAt && now - sentAt[u] < TOUCH_EVERY)
    }

    /** Records a connection and mirrors it to MAIN, the event first; a touch may be held back. */
    method Put(u: string, rec0: Rec) returns (ok: bool, sent: bool)
      requires Valid()
      modifies this
      ensures Valid() && now == old(now) && p2 == old(p2)
      ensures !sent ==> ok
      ensures var rec := rec0["uuid" := Text(u)];
              && (sent <==> !(u in old(conns) && SameBut(old(conns)[u], rec) && old(HeldBack(u))))
              && (if ok then
                    && conns == StoreAfter(old(conns), u, rec)
                    && main == (if sent then old(main)[u := rec] else old(main))
                    && (old(Mirror()) ==>
                          (Mirror() <==> sent || !Open(old(conns), u) || !DropsLastRead(old(conns)[u], rec)))
                  else conns == old(conns) && main == old(main) && (old(Mirror()) ==> Mirror()))
    {
      var rec := rec0["uuid" := Text(u)];
      var touchOnly := u in conns && SameBut(conns[u], rec);
      var toP2 := touchOnly && p2;
      sent := !toP2 && (!touchOnly || u !in sentAt || now - sentAt[u] >= TOUCH_EVERY);
      ok := SendAndNote(u, rec, sent, toP2);
    }

    /** The event first, if it is sent, and then the registry's change. */
    method SendAndNote(u: string, rec: Rec, sent: bool, toP2: bool) returns (ok: bool)
      requires Valid() && Is(rec, "uuid", u) && (!sent ==> u in conns && SameBut(conns[u], rec))
      modifies this
      ensures Valid() && now == old(now) && p2 == old(p2)
      ensures !sent ==> ok
      ensures ok ==> conns == StoreAfter(old(conns), u, rec)
      ensures ok ==> main == (if sent then old(main)[u := rec] else old(main))
      ensures ok && old(Mirror()) ==>
                (Mirror() <==> sent || !Open(old(conns), u) || !DropsLastRead(old(conns)[u], rec))
      ensures !ok ==> conns == old(conns) && main == old(main) && (old(Mirror()) ==> Mirror())
    {
      ok := true;
      if sent {
        MirroredOnly(main, Upsert(u, rec));
        ok := Emit([Upsert(u, rec)]);
        if !ok {
          return;
        }
      }
      Note(u, rec, sent, toP2);
      if old(Mirror()) {
        PutKeepsIff(old(conns), old(main), old(lastP0), u, rec, sent);
      }
    }

    /** What the registry keeps of a connection put. */
    method Note(u: string, rec: Rec, sent: bool, toP2: bool)
      requires Valid() && Is(rec, "uuid", u)
      modifies this`conns, this`sentAt, this`readAt, this`pending, this`lastP0, this`lastAny, this`p2At
      ensures Valid() && conns == StoreAfter(old(conns), u, rec) && lastP0 == LastAfter(old(lastP0), u, rec, sent)
      ensures u in conns && toP2 && !sent
              && (u !in old(conns) || Field(old(conns)[u], LAST_READ) != Field(rec, LAST_READ)) ==>
                u in pending && pending[u] == IntOf(Field(rec, LAST_READ))
    {
      if u !in conns || Field(conns[u], LAST_READ) != Field(rec, LAST_READ) {
        readAt := readAt[u := now];
        if toP2 {
          pending := pending[u := IntOf(Field(rec, LAST_READ))];
        }
      }
      if EndedTS(rec) {
        conns := conns - {u};
        Forget(u);
      } else {
        conns := conns[u := rec];
        if sent {
          SentP0(u, rec);
        }
      }
    }

    /** Refreshes hls_last_read and returns the record, None if there is no such viewer. */
    method Touch(u: string, lastRead: Val) returns (rec: Opt<Rec>, ok: bool)
      requires Valid()
      modifies this
      ensures Valid() && now == old(now) && p2 == old(p2)
      ensures rec.Some? <==> u in old(conns)
      ensures rec.Some? ==> rec.v == old(conns)[u][LAST_READ := lastRead]
      ensures old(Mirror()) ==> Mirror()
      ensures conns == if rec.Some? && ok then StoreAfter(old(conns), u, rec.v) else old(conns)
    {
      rec, ok := At(conns, u), true;
      if rec.Some? {
        rec := Some(rec.v[LAST_READ := lastRead]);
        assert rec.v["uuid" := Text(u)] == rec.v;
        var sent;
        ok, sent := Put(u, rec.v);
      }
    }

    /** On the registry: a request that comes within TOUCH_EVERY of the last is held back as a touch. */
    method DropsOnPut()
      requires Valid() && Mirror() && conns == map["c1" := VIEWER] && HeldBack("c1")
      modifies this
      ensures !Mirror()
    {
      SameViewer();
      assert OTHER_KEY["uuid" := Text("c1")] == OTHER_KEY;
      var ok, sent := Put("c1", OTHER_KEY);
    }

    // -------------------------------------------------------------- closes

    /** An open, non-HLS record that the daemon served. */
    predicate FanoutServed(u: string)
      reads this
    {
      Open(conns, u) && !Is(conns[u], "container", "hls") && IntOf(Field(conns[u], "pid")) == 0
    }

    /** Ends the daemon-served viewers reported gone: one close each, spooled before they leave. */
    method FanoutClosed(uuids: seq<string>) returns (n: nat, ok: bool)
      requires Valid()
      modifies this
      ensures Valid() && now == old(now) && p2 == old(p2)
      ensures ok ==> forall u :: u in conns <==> u in old(conns) && !(u in uuids && old(FanoutServed(u)))
      ensures ok ==> forall u | u in conns :: conns[u] == old(conns)[u]
      ensures ok ==> main == old(main) - set u | u in uuids && old(FanoutServed(u))
      ensures !ok ==> conns == old(conns) && main == old(main)
      ensures old(Mirror()) ==> Mirror()
    {
      var events, gone := ClosesOf(uuids);
      assert Names(gone) == set u | u in uuids && FanoutServed(u);
      if events == [] {
        return 0, true;
      }
      ok := Emit(events);
      if !ok {
        return 0, false;
      }
      ClosesAll(old(main), events, gone);
      if old(Mirror()) {
        GoneKeeps(conns, old(main), lastP0, Names(gone));
      }
      DropAll(gone);
      n := |gone|;
    }

    method ClosesOf(uuids: seq<string>) returns (events: seq<Event>, gone: seq<string>)
      ensures |gone| == |events| && forall j | 0 <= j < |gone| :: events[j] == CloseConn(gone[j])
      ensures forall u :: u in gone <==> u in uuids && FanoutServed(u)
    {
      events, gone := [], [];
      for i := 0 to |uuids|
        invariant |gone| == |events| && forall j | 0 <= j < |gone| :: events[j] == CloseConn(gone[j])
        invariant forall u :: u in gone <==> u in uuids[..i] && FanoutServed(u)
      {
        assert uuids[..i + 1] == uuids[..i] + [uuids[i]];
        if FanoutServed(uuids[i]) {
          events, gone := events + [CloseConn(uuids[i])], gone + [uuids[i]];
        }
      }
      assert uuids[..|uuids|] == uuids;
    }

    method DropAll(gone: seq<string>)
      requires Valid()
      modifies this`conns, this`sentAt, this`readAt, this`pending, this`lastP0, this`lastAny, this`p2At
      ensures Valid() && conns == old(conns) - Names(gone) && lastP0 == old(lastP0) - Names(gone)
    {
      for i := 0 to |gone|
        invariant Valid() && conns == old(conns) - Names(gone[..i]) && lastP0 == old(lastP0) - Names(gone[..i])
      {
        assert gone[..i + 1] == gone[..i] + [gone[i]];
        conns := conns - {gone[i]};
        Forget(gone[i]);
      }
      assert gone[..|gone|] == gone;
    }

    /** Removes a connection and tells MAIN. */
    method Delete(u: string) returns (ok: bool)
      requires Valid()
      modifies this
      ensures Valid() && now == old(now) && p2 == old(p2)
      ensures if ok then conns == old(conns) - {u} && main == old(main) - {u}
              else conns == old(conns) && main == old(main)
      ensures old(Mirror()) ==> Mirror()
    {
      MirroredOnly(main, Remove(u));
      ok := Emit([Remove(u)]);
      if ok {
        conns := conns - {u};
        Forget(u);
        if old(Mirror()) {
          GoneKeeps(old(conns), old(main), old(lastP0), {u});
        }
      }
    }

    /** Applies a close MAIN decided, and made in its own store: the viewer removed, or ended. */
    method Close(u: string, remove: bool)
      requires Valid()
      modifies this
      ensures Valid() && now == old(now) && p2 == old(p2)
      ensures main == MainCloses(old(main), u, remove)
      ensures !Open(conns, u) && forall v | v != u :: At(conns, v) == At(old(conns), v)
      ensures old(Mirror()) ==> Mirror()
    {
      main := MainCloses(main, u, remove);
      CloseHere(u, remove);
      if old(Mirror()) {
        ClosedInMain(old(main), u, remove);
        ClosedKeeps(old(conns), old(main), old(lastP0), conns, lastP0, u, remove);
      }
    }

    method CloseHere(u: string, remove: bool)
      requires Valid()
      modifies this`conns, this`sentAt, this`readAt, this`pending, this`lastP0, this`lastAny, this`p2At
      ensures Valid() && !Open(conns, u)
      ensures forall v | v != u :: At(conns, v) == At(old(conns), v) && At(lastP0, v) == At(old(lastP0), v)
    {
      if remove || (u in conns && Is(conns[u], "container", "ts")) {
        conns := conns - {u};
        Forget(u);
      } else if u in conns {
        OneEnds(conns[u]);
        conns := conns[u := conns[u][HLS_END := Text("1")]];
        pending := pending - {u};
      }
    }

    // -------------------------------------------------------------- the HLS reaper

    /** An open HLS viewer whose last playlist request is as long ago. */
    predicate Stale(u: string, after: int)
      reads this
    {
      Open(conns, u) && Is(conns[u], "container", "hls") && u in readAt && now - readAt[u] >= after
    }

    function HlsOpen(): set<string>
      reads this
    {
      set u | u in conns && Open(conns, u) && Is(conns[u], "container", "hls")
    }

    /** The stale viewers; one never seen read begins its wait now. */
    method FindStale(after: int) returns (stale: set<string>)
      requires Valid()
      modifies this`readAt
      ensures stale == set u | u in conns && old(Stale(u, after))
      ensures forall u :: At(readAt, u) == WaitsFrom(old(readAt), u, u in HlsOpen(), now)
    {
      var hls := HlsOpen();
      stale := {};
      var rest := hls;
      while rest != {}
        invariant rest <= hls && stale == set u | u in hls && u !in rest && u in old(readAt)
                  && now - old(readAt)[u] >= after
        invariant forall u :: At(readAt, u) == WaitsFrom(old(readAt), u, u in hls && u !in rest, now)
        decreases |rest|
      {
        var u :| u in rest;
        assert At(readAt, u) == At(old(readAt), u);
        rest := rest - {u};
        if u !in readAt {
          readAt := readAt[u := now];
        } else if now - readAt[u] >= after {
          stale := stale + {u};
        }
      }
    }

    /** Ends the open HLS viewers with no playlist request for so long: each by an upsert that says so,
        spooled before the registry changes; one whose event cannot be spooled stays open. */
    method Reap(after: int) returns (n: nat)
      requires Valid()
      modifies this
      ensures Valid() && now == old(now) && p2 == old(p2)
      ensures forall u ::
                if old(Stale(u, after)) then ReapedAt(old(conns), conns, u) else At(conns, u) == At(old(conns), u)
      ensures old(Mirror()) ==> Mirror()
    {
      n := 0;
      var rest := FindStale(after);
      ghost var stale := rest;
      while rest != {}
        invariant rest <= stale && Valid() && now == old(now) && p2 == old(p2) && (old(Mirror()) ==> Mirror())
        invariant forall u | u !in stale || u in rest :: At(conns, u) == At(old(conns), u)
        invariant forall u | u in stale :: ReapedAt(old(conns), conns, u)
        decreases |rest|
      {
        var u :| u in rest;
        assert At(conns, u) == At(old(conns), u);
        rest := rest - {u};
        ghost var was := conns;
        var ended := ReapOne(u);
        ReapedOn(old(conns), was, conns, u, ended);
        n := if ended then n + 1 else n;
      }
    }

    method ReapOne(u: string) returns (ended: bool)
      requires Valid() && Open(conns, u) && Is(conns[u], "container", "hls")
      modifies this
      ensures Valid() && now == old(now) && p2 == old(p2) && (old(Mirror()) ==> Mirror())
      ensures conns == if ended then old(conns)[u := old(conns)[u][HLS_END := Text("1")]] else old(conns)
    {
      var rec := conns[u][HLS_END := Text("1")];
      MirroredOnly(main, Upsert(u, rec));
      ended := Emit([Upsert(u, rec)]);
      if ended {
        if old(Mirror()) {
          PutKeepsIff(conns, old(main), lastP0, u, rec, true);
        }
        conns := conns[u := rec];
        SentP0(u, rec);
      }
    }

    /** Loads records as they are, with no event: MAIN's store already holds them. */
    method Seed(records: seq<Rec>, reset: bool) returns (n: nat)
      requires Valid()
      modifies this
      ensures Valid() && now == old(now) && p2 == old(p2) && main == old(main)
      ensures conns == SeededInto(if reset then map[] else old(conns), records)
      ensures AsMainHolds(main, records) && (if reset then CoversOpen(main, records) else old(Mirror())) ==> Mirror()
    {
      if reset {
        conns, sentAt, readAt, pending, lastP0, lastAny, p2At := map[], map[], map[], map[], map[], map[], map[];
      }
      n := 0;
      ghost var known := old(Mirror()) && !reset;
      if known {
        forall u ensures SeedAt(conns, main, lastP0, records, 0, known, u) {
          assert MirrorAt(conns, main, u) && (Open(conns, u) ==> P0Known(main, lastP0, u));
        }
      }
      for i := 0 to |records|
        invariant Valid() && now == old(now) && p2 == old(p2) && main == old(main)
        invariant conns == SeededInto(if reset then map[] else old(conns), records[..i])
        invariant AsMainHolds(main, records) && (reset || known) ==> SeedOk(conns, main, lastP0, records, i, known)
      {
        var c := records[i];
        ghost var connsWas, lastWas := conns, lastP0;
        assert records[..i + 1][..i] == records[..i];
        if Seeded(c) {
          SeedOne(c);
          n := n + 1;
        }
        if AsMainHolds(main, records) && (reset || known) {
          SeedGoesOn(connsWas, main, lastWas, records, i, known, conns, lastP0);
        }
      }
      assert records[..|records|] == records;
      if AsMainHolds(main, records) && (reset || known) {
        if known || CoversOpen(main, records) {
          SeedEnds(conns, main, lastP0, records, known);
        }
      }
    }

    method SeedOne(c: Rec)
      requires Valid() && Is(c, "uuid", Uuid(c))
      modifies this`conns, this`sentAt, this`readAt, this`pending, this`lastP0, this`lastAny
      ensures Valid() && conns == old(conns)[Uuid(c) := c]
              && lastP0 == old(lastP0)[Uuid(c) := IntOf(Field(c, LAST_READ))]
      ensures readAt == old(readAt)[Uuid(c) := now]
    {
      conns := conns[Uuid(c) := c];
      SentP0(Uuid(c), c);
      readAt := readAt[Uuid(c) := now];
    }

    // -------------------------------------------------------------- touches

    /** Forgets every pending touch. */
    method DropTouches()
      modifies this`pending
      ensures pending == map[]
    {
      pending := map[];
    }

    /** A pending touch that MAIN does not have and whose wait is over. */
    predicate Due(u: string)
      reads this
    {
      u in pending && !(u in lastAny && lastAny[u] == pending[u]) && !(u in p2At && now - p2At[u] < TOUCH_P2_EVERY)
    }

    /** When a viewer's touch last went on P2; a viewer none ever did comes first. */
    predicate SentBefore(u: string, v: string)
      reads this
    {
      u !in p2At || (v in p2At && p2At[u] <= p2At[v])
    }

    /** The touches due, the longest not sent first, at most max. */
    method DueTouches(max: nat) returns (out: seq<TouchOf>)
      modifies this`pending
      ensures |out| <= max
      ensures forall i | 0 <= i < |out| :: old(Due(out[i].uuid)) && out[i].value == old(pending)[out[i].uuid]
      ensures forall i, j | 0 <= i < j < |out| :: out[i].uuid != out[j].uuid && SentBefore(out[i].uuid, out[j].uuid)
      ensures forall u | old(Due(u)) && TouchOf(u, old(pending)[u]) !in out ::
                |out| == max && forall i | 0 <= i < |out| :: SentBefore(out[i].uuid, u)
      ensures pending == map u | u in old(pending) && !(u in lastAny && lastAny[u] == old(pending)[u]) ::
              old(pending)[u]
    {
      var due := set u | u in pending && Due(u);
      pending := map u | u in pending && !(u in lastAny && lastAny[u] == pending[u]) :: pending[u];
      assert forall u :: u in due <==> old(Due(u));
      assert forall u | u in due :: u in pending && pending[u] == old(pending)[u];
      out := LongestFirst(due, max);
    }

    method LongestFirst(due: set<string>, max: nat) returns (out: seq<TouchOf>)
      requires due <= pending.Keys
      ensures |out| <= max
      ensures forall i | 0 <= i < |out| :: out[i].uuid in due && out[i] == TouchOf(out[i].uuid, pending[out[i].uuid])
      ensures forall i, j | 0 <= i < j < |out| :: out[i].uuid != out[j].uuid && SentBefore(out[i].uuid, out[j].uuid)
      ensures forall u | u in due && TouchOf(u, pending[u]) !in out ::
                |out| == max && forall i | 0 <= i < |out| :: SentBefore(out[i].uuid, u)
    {
      var rest := due;
      out := [];
      while rest != {} && |out| < max
        invariant |out| <= max && rest <= due
        invariant forall i | 0 <= i < |out| :: out[i].uuid in due - rest && out[i].value == pending[out[i].uuid]
        invariant forall i, j | 0 <= i < j < |out| :: out[i].uuid != out[j].uuid && SentBefore(out[i].uuid, out[j].uuid)
        invariant forall i, u | 0 <= i < |out| && u in rest :: SentBefore(out[i].uuid, u)
        invariant forall u | u in due && TouchOf(u, pending[u]) !in out :: u in rest
        decreases |rest|
      {
        var u := Longest(rest);
        rest := rest - {u};
        out := out + [TouchOf(u, pending[u])];
      }
    }

    method Longest(due: set<string>) returns (u: string)
      requires due != {}
      ensures u in due && forall v | v in due :: SentBefore(u, v)
    {
      u :| u in due;
      var rest := due - {u};
      while rest != {}
        invariant rest <= due && u in due && u !in rest
        invariant forall v | v in due :: v in rest || SentBefore(u, v)
        decreases |rest|
      {
        var v :| v in rest;
        rest := rest - {v};
        if !SentBefore(u, v) {
          u := v;
        }
      }
    }

    /** Notes the values MAIN took on P2; a newer value stays pending. */
    method TouchesSent(sent: seq<TouchOf>)
      modifies this`pending, this`lastAny, this`p2At
      ensures forall u | u in old(pending) && u in conns && forall i | 0 <= i < |sent| ::
              sent[i] != TouchOf(u, old(pending)[u]) ::
                u in pending && pending[u] == old(pending)[u]
      ensures forall i | 0 <= i < |sent| && sent[i].uuid in conns ::
                sent[i].uuid in lastAny && !(sent[i].uuid in pending && pending[sent[i].uuid] == sent[i].value)
      ensures forall u | u in pending :: u in old(pending) && pending[u] == old(pending)[u]
    {
      for i := 0 to |sent|
        invariant forall u | u in old(pending) && u in conns && forall j | 0 <= j < i ::
                  sent[j] != TouchOf(u, old(pending)[u]) ::
                    u in pending && pending[u] == old(pending)[u]
        invariant forall j | 0 <= j < i && sent[j].uuid in conns ::
                    sent[j].uuid in lastAny && !(sent[j].uuid in pending && pending[sent[j].uuid] == sent[j].value)
        invariant forall u | u in pending :: u in old(pending) && pending[u] == old(pending)[u]
      {
        var t := sent[i];
        if t.uuid !in conns {
          pending := pending - {t.uuid};
        } else {
          lastAny, p2At := lastAny[t.uuid := t.value], p2At[t.uuid := now];
          if t.uuid in pending && pending[t.uuid] == t.value {
            pending := pending - {t.uuid};
          }
        }
      }
    }

    /** The open viewers whose hls_last_read is not what was last sent of it on P0. */
    predicate Behind(u: string)
      reads this
    {
      Open(conns, u) && !(u in lastP0 && lastP0[u] == IntOf(Field(conns[u], LAST_READ)))
    }

    /** Sends, as one batch, every open record whose hls_last_read MAIN's store does not have: then the
        records agree on it too. The pending touches are forgotten. */
    method TouchesToP0() returns (ok: bool)
      requires Valid()
      modifies this
      ensures Valid() && now == old(now) && p2 == old(p2) && conns == old(conns) && pending == map[]
      ensures old(Mirror()) ==> Mirror()
      ensures old(Mirror()) && ok ==> forall u | Open(conns, u) ::
                u in main && IntOf(Field(main[u], LAST_READ)) == IntOf(Field(conns[u], LAST_READ))
      ensures if ok then forall u :: At(main, u) == if old(Behind(u)) then At(conns, u) else At(old(main), u)
              else main == old(main)
    {
      var events, us := BehindAll();
      assert forall u :: u in us <==> old(Behind(u));
      pending := map[];
      ok := true;
      if events == [] {
        forall u ensures !Behind(u) {
          assert u !in us && !old(Behind(u));
        }
        if Mirror() {
          NoneBehind();
        }
        return;
      }
      ok := Emit(events);
      if !ok {
        return;
      }
      UpsertsAll(old(main), conns, events, us);
      SentAll(us);
      if old(Mirror()) {
        BatchKeeps(conns, old(main), old(lastP0), us, main);
        forall u | Open(conns, u) ensures u in lastP0 && lastP0[u] == IntOf(Field(conns[u], LAST_READ)) {
          NotedAt(old(lastP0), conns, us, u);
        }
        CaughtUp(conns, main, lastP0);
      }
    }

    lemma {:induction false} NoneBehind()
      requires Mirror() && forall u :: !Behind(u)
      ensures forall u | Open(conns, u) ::
                u in main && IntOf(Field(main[u], LAST_READ)) == IntOf(Field(conns[u], LAST_READ))
    {
      forall u | Open(conns, u) ensures u in lastP0 && lastP0[u] == IntOf(Field(conns[u], LAST_READ)) {
        assert !Behind(u);
      }
      CaughtUp(conns, main, lastP0);
    }

    method BehindAll() returns (events: seq<Event>, us: seq<string>)
      ensures |events| == |us| && forall j | 0 <= j < |us| :: us[j] in conns && events[j] == Upsert(us[j], conns[us[j]])
      ensures forall u :: u in us <==> Behind(u)
    {
      events, us := [], [];
      var rest := conns.Keys;
      while rest != {}
        invariant rest <= conns.Keys && |events| == |us|
        invariant forall j | 0 <= j < |us| :: us[j] in conns && events[j] == Upsert(us[j], conns[us[j]])
        invariant forall u :: u in us <==> u in conns && u !in rest && Behind(u)
        decreases |rest|
      {
        var u :| u in rest;
        rest := rest - {u};
        if Behind(u) {
          events, us := events + [Upsert(u, conns[u])], us + [u];
        }
      }
    }

    method SentAll(us: seq<string>)
      requires forall j | 0 <= j < |us| :: us[j] in conns
      modifies this`sentAt, this`lastP0, this`lastAny, this`pending
      ensures lastP0 == Noted(old(lastP0), conns, us) && (old(pending) == map[] ==> pending == map[])
    {
      for i := 0 to |us|
        invariant lastP0 == Noted(old(lastP0), conns, us[..i]) && (old(pending) == map[] ==> pending == map[])
      {
        assert us[..i + 1][..i] == us[..i];
        SentP0(us[i], conns[us[i]]);
      }
      assert us[..|us|] == us;
    }

    /** Switches touches on or off P2; losing it hands them back to P0, or drops them. */
    method SetP2(on: bool, connections: bool)
      requires Valid()
      modifies this
      ensures Valid() && now == old(now) && p2 == on && conns == old(conns) && (old(Mirror()) ==> Mirror())
    {
      if p2 == on {
        return;
      }
      p2 := on;
      if !on {
        if connections {
          var ok := TouchesToP0();
        } else {
          DropTouches();
        }
      }
    }

    // -------------------------------------------------------------- every sequence

    /** MAIN forgets an ended viewer. */
    method MainForgets(u: string)
      requires Valid()
      modifies this`main
      ensures main == if Open(old(main), u) then old(main) else old(main) - {u}
      ensures old(Mirror()) ==> Mirror()
    {
      if !Open(main, u) {
        main := main - {u};
        if old(Mirror()) {
          forall v ensures MirrorAt(conns, main, v) && (Open(conns, v) ==> P0Known(main, lastP0, v)) {
            assert MirrorAt(conns, old(main), v) && (Open(conns, v) ==> P0Known(old(main), lastP0, v));
          }
        }
      }
    }

    /** One operation, its events spooled or not; whether it was a held-back Put of an open viewer whose
        record drops hls_last_read. */
    method Perform(op: Op) returns (dropped: bool)
      requires Valid()
      modifies this
      ensures Valid() && (old(Mirror()) ==> (Mirror() <==> !dropped))
      ensures dropped ==> op.Put? && op.uuid in old(conns)
      ensures dropped ==> DropsLastRead(old(conns)[op.uuid], op.rec["uuid" := Text(op.uuid)])
    {
      dropped := false;
      match op {
        case Put(u, rec) =>
          var rec' := rec["uuid" := Text(u)];
          var drops := Open(conns, u) && DropsLastRead(conns[u], rec');
          var ok, sent := Put(u, rec);
          dropped := ok && !sent && drops;
        case Touch(u, v) => var rec, ok := Touch(u, v);
        case Reap(after) => var n := Reap(after);
        case FanoutClosed(us) => var n, ok := FanoutClosed(us);
        case Delete(u) => var ok := Delete(u);
        case Close(u, remove) => Close(u, remove);
        case TouchesToP0 => var ok := TouchesToP0();
        case SetP2(on, connections) => SetP2(on, connections);
        case MainForgets(u) => MainForgets(u);
        case Wait(s) => now := now + s;
      }
    }

    /** After every sequence of operations, whichever events failed to be spooled, a viewer is open here
        exactly when it is open in MAIN's store, the records agree but for hls_last_read, and both digests
        are the same, unless a held-back Put dropped an open viewer's hls_last_read on the way. */
    method PerformAll(ops: seq<Op>, hash: (string, string) -> bv64) returns (dropped: bool, d: Digest)
      requires Valid()
      modifies this
      ensures Valid() && d == DigestOf(hash, conns)
      ensures old(Mirror()) && !dropped ==> Mirror() && d == DigestOf(hash, main)
    {
      dropped := false;
      for i := 0 to |ops|
        invariant Valid() && (old(Mirror()) && !dropped ==> Mirror())
      {
        var drops := Perform(ops[i]);
        dropped := dropped || drops;
      }
      d := ComputeDigest(hash, conns);
      if old(Mirror()) && !dropped {
        MirrorsDigest(hash, conns, main);
      }
    }
  }

  datatype Op =
    | Put(uuid: string, rec: Rec)
    | Touch(uuid: string, lastRead: Val)
    | Reap(after: int)
    | FanoutClosed(uuids: seq<string>)
    | Delete(uuid: string)
    | Close(uuid: string, remove: bool)
    | TouchesToP0
    | SetP2(on: bool, connections: bool)
    | MainForgets(uuid: string)
    | Wait(seconds: nat)

  function Uuid(rec: Rec): string {
    match Field(rec, "uuid")
    case Text(s) => s
    case _ => ""
  }

  predicate UuidChar(c: char) {
    'A' <= c <= 'Z' || 'a' <= c <= 'z' || '0' <= c <= '9' || c == '_' || c == '-'
  }

  /** A record `Seed` takes: with a valid uuid, and not a finished TS request. */
  predicate Seeded(rec: Rec) {
    1 <= |Uuid(rec)| <= 64 && (forall i | 0 <= i < |Uuid(rec)| :: UuidChar(Uuid(rec)[i])) && !EndedTS(rec)
  }

  /** The records put in, one after the other. */
  function SeededInto(conns: Store, records: seq<Rec>): Store {
    if records == [] then conns
    else
      var r, before := records[|records| - 1], SeededInto(conns, records[..|records| - 1]);
      if Seeded(r) then before[Uuid(r) := r] else before
  }

  ghost predicate AsMainHolds(main: Store, records: seq<Rec>) {
    forall i | 0 <= i < |records| && Seeded(records[i]) :: At(main, Uuid(records[i])) == Some(records[i])
  }

  ghost predicate Given(records: seq<Rec>, n: nat, u: string)
    requires n <= |records|
  {
    exists i | 0 <= i < n :: Seeded(records[i]) && Uuid(records[i]) == u
  }

  /** Every viewer open in MAIN's store is among the records. */
  ghost predicate CoversOpen(main: Store, records: seq<Rec>) {
    forall u | Open(main, u) :: Given(records, |records|, u)
  }

  /** Every viewer is in step with MAIN, or, the registry having been emptied, is not there until its
      record comes. */
  ghost predicate SeedOk(conns: Store, main: Store, lastP0: map<string, int>, records: seq<Rec>, i: nat, known: bool)
    requires i <= |records|
  {
    forall u :: SeedAt(conns, main, lastP0, records, i, known, u)
  }

  ghost predicate SeedAt(
      conns: Store, main: Store, lastP0: map<string, int>, records: seq<Rec>, i: nat, known: bool, u: string)
    requires i <= |records|
  {
    if known || Given(records, i, u) then MirrorAt(conns, main, u) && (Open(conns, u) ==> P0Known(main, lastP0, u))
    else u !in conns
  }

  /** MAIN ends a viewer in its own store. */
  function MainCloses(main: Store, u: string, remove: bool): Store {
    if remove then main - {u}
    else if u in main then main[u := main[u][HLS_END := Text("1")]]
    else main
  }

  function Names(us: seq<string>): set<string> {
    set u | u in us
  }

  lemma {:induction false} ClosesAll(main: Store, es: seq<Event>, us: seq<string>)
    requires |es| == |us| && forall j | 0 <= j < |us| :: es[j] == CloseConn(us[j])
    ensures MirroredAll(main, es) == main - Names(us)
  {
    if us == [] {
      assert main - Names([]) == main;
    } else {
      var l := |us| - 1;
      ClosesAll(main, es[..l], us[..l]);
      assert us == us[..l] + [us[l]];
      assert Names(us) == Names(us[..l]) + {us[l]};
      assert main - Names(us[..l]) - {us[l]} == main - Names(us);
    }
  }

  lemma {:induction false} GivenNext(records: seq<Rec>, i: nat, u: string)
    requires i < |records|
    ensures Given(records, i + 1, u) <==> Given(records, i, u) || (Seeded(records[i]) && Uuid(records[i]) == u)
  {
    if Given(records, i, u) {
      var j :| 0 <= j < i && Seeded(records[j]) && Uuid(records[j]) == u;
      assert 0 <= j < i + 1;
    }
  }

  lemma {:induction false} SeedGoesOn(
      conns: Store, main: Store, lastP0: map<string, int>, records: seq<Rec>, i: nat, known: bool, conns': Store,
      last': map<string, int>)
    requires i < |records| && AsMainHolds(main, records) && SeedOk(conns, main, lastP0, records, i, known)
    requires var c := records[i];
             if Seeded(c) then conns' == conns[Uuid(c) := c] && last' == lastP0[Uuid(c) := IntOf(Field(c, LAST_READ))]
             else conns' == conns && last' == lastP0
    ensures SeedOk(conns', main, last', records, i + 1, known)
  {
    var c, n := records[i], i + 1;
    forall u ensures SeedAt(conns', main, last', records, n, known, u) {
      GivenNext(records, i, u);
      assert SeedAt(conns, main, lastP0, records, i, known, u);
      if Seeded(c) && Uuid(c) == u {
        assert At(main, u) == Some(c);
      }
    }
  }

  lemma {:induction false} SeedEnds(conns: Store, main: Store, lastP0: map<string, int>, records: seq<Rec>, known: bool)
    requires SeedOk(conns, main, lastP0, records, |records|, known) && (known || CoversOpen(main, records))
    ensures InStep(conns, main, lastP0)
  {
    forall u ensures MirrorAt(conns, main, u) && (Open(conns, u) ==> P0Known(main, lastP0, u)) {
      assert SeedAt(conns, main, lastP0, records, |records|, known, u);
    }
  }

  /** What was sent of the viewers named, noted. */
  function Noted(lastP0: map<string, int>, conns: Store, us: seq<string>): map<string, int>
    requires forall j | 0 <= j < |us| :: us[j] in conns
  {
    if us == [] then lastP0
    else
      var u := us[|us| - 1];
      Noted(lastP0, conns, us[..|us| - 1])[u := IntOf(Field(conns[u], LAST_READ))]
  }

  lemma {:induction false} UpsertsAll(main: Store, conns: Store, es: seq<Event>, us: seq<string>)
    requires |es| == |us| && forall j | 0 <= j < |us| :: us[j] in conns && es[j] == Upsert(us[j], conns[us[j]])
    ensures forall u :: At(MirroredAll(main, es), u) == if u in us then At(conns, u) else At(main, u)
  {
    if us != [] {
      var l := |us| - 1;
      UpsertsAll(main, conns, es[..l], us[..l]);
      assert us == us[..l] + [us[l]];
    }
  }

  lemma {:induction false} NotedAt(lastP0: map<string, int>, conns: Store, us: seq<string>, u: string)
    requires forall j | 0 <= j < |us| :: us[j] in conns
    ensures At(Noted(lastP0, conns, us), u) == if u in us then Some(IntOf(Field(conns[u], LAST_READ)))
            else At(lastP0, u)
  {
    if us != [] {
      var l := |us| - 1;
      NotedAt(lastP0, conns, us[..l], u);
      assert us == us[..l] + [us[l]];
    }
  }

  lemma {:induction false} BatchKeeps(
      conns: Store, main: Store, lastP0: map<string, int>, us: seq<string>, main': Store)
    requires InStep(conns, main, lastP0) && forall j | 0 <= j < |us| :: us[j] in conns
    requires forall u :: At(main', u) == if u in us then At(conns, u) else At(main, u)
    ensures InStep(conns, main', Noted(lastP0, conns, us))
  {
    forall v ensures MirrorAt(conns, main', v) && (Open(conns, v) ==> P0Known(main', Noted(lastP0, conns, us), v)) {
      NotedAt(lastP0, conns, us, v);
      assert MirrorAt(conns, main, v);
      assert Open(conns, v) ==> P0Known(main, lastP0, v);
      assert At(main', v) == if v in us then At(conns, v) else At(main, v);
    }
  }

  lemma {:induction false} CaughtUp(conns: Store, main: Store, lastP0: map<string, int>)
    requires InStep(conns, main, lastP0)
    requires forall u | Open(conns, u) :: u in lastP0 && lastP0[u] == IntOf(Field(conns[u], LAST_READ))
    ensures forall u | Open(conns, u) ::
              u in main && IntOf(Field(main[u], LAST_READ)) == IntOf(Field(conns[u], LAST_READ))
  {
    forall u | Open(conns, u) ensures u in main && IntOf(Field(main[u], LAST_READ)) ==
        IntOf(Field(conns[u], LAST_READ)) {
      assert P0Known(main, lastP0, u);
    }
  }
}
