/** The streams section's sync as the source runs it (streams.go): the full pass, the resync and the
deltas, against a MAIN that may change between any two calls, refuse any of them, and answer with
records that do not verify. */
module Streams {
  import opened Maps
  import opened StreamsMain

  const MAX_STREAM_HASHES := 2000

  datatype Pass = Pass(head: nat, from: int, withheld: bool)

  /** A page of the walk, for the ranges walked: the ids it answered for. */
  datatype Page = Page(from: int, next: int)

  /** The pages follow each other without gap or overlap, from lo up to hi. */
  predicate Tile(pages: seq<Page>, lo: int, hi: int) {
    if pages == [] then lo == hi
    else
      var p := pages[|pages| - 1];
      p.from < p.next == hi && Tile(pages[..|pages| - 1], lo, p.from)
  }

  predicate StoredOk(held: Held) {
    forall id | id in held :: IsId(id)
  }

  /** No stored record is damaged. */
  predicate AllGood(held: Held) {
    forall id | id in held :: Good(held[id])
  }

  /** From held to held' every stream stayed, or became as MAIN has it. */
  ghost predicate Towards(held: Held, held': Held, m: Main) {
    forall id :: At(held', id) == At(held, id) || Agrees(held', m, id)
  }

  predicate AllSane(held: Held) {
    forall id | id in held :: Sane(held[id])
  }

  /** Stream id's .rep was written and its .json was not. */
  predicate HalfWritten(held: Held, held': Held, m: Main, id: int) {
    id in held && id in held' && DataOf(m, id).Some? && held'[id] == held[id].(rep := DataOf(m, id))
  }

  /** Or, of one stream, one file was written and the other was not. */
  ghost predicate Drifts(held: Held, held': Held, m: Main) {
    forall id :: At(held', id) == At(held, id) || Agrees(held', m, id) || HalfWritten(held, held', m, id)
  }

  /** A record named in a walk is right, unless MAIN does not hold the stream. */
  predicate NamedGood(held: Held, bad: set<int>, m: Main, id: int) {
    Nameable(held, bad, id) ==> Good(held[id]) || DataOf(m, id).None?
  }

  /** What a whole page leaves of stream id. */
  predicate PageDone(held: Held, bad: set<int>, held': Held, m: Main, id: int) {
    || Agrees(held', m, id)
    || (DataOf(m, id).None? && id in held && !Nameable(held, bad, id) && At(held', id) == At(held, id))
  }

  predicate Ascending(ids: seq<int>) {
    forall i, j | 0 <= i < j < |ids| :: ids[i] < ids[j]
  }

  function NamedAmong(held: Held, bad: set<int>, from: int, ids: seq<int>): map<int, Data> {
    map id | id in ids && from <= id && Nameable(held, bad, id) :: held[id].etag.v
  }

  lemma {:induction false} Member<T>(s: set<T>) returns (x: T)
    requires s != {}
    ensures x in s
  {
    x :| x in s;
  }

  /** The ids of a set, ascending. */
  method Sorted(s: set<int>) returns (ids: seq<int>)
    ensures Ascending(ids) && forall id :: id in ids <==> id in s
  {
    ids := [];
    var rest := s;
    while rest != {}
      invariant Ascending(ids) && rest <= s
      invariant forall id :: id in ids <==> id in s && id !in rest
      invariant forall x, y | x in ids && y in rest :: x < y
      decreases |rest|
    {
      ghost var some := Member(rest);
      assert exists x: int :: x in rest by {
        assert some in rest;
      }
      var least: int :| least in rest;
      var others := rest - {least};
      while others != {}
        invariant others <= rest && least in rest && least !in others
        invariant forall y | y in rest :: y in others || least <= y
        decreases |others|
      {
        var y :| y in others;
        if y < least {
          least := y;
        }
        others := others - {y};
      }
      assert forall i | 0 <= i < |ids| :: ids[i] in ids;
      ids, rest := ids + [least], rest - {least};
    }
  }

  /** A record whose etag cannot be read, of a stream MAIN does not hold. */
  predicate Unnameable(held: Held, m: Main, id: int) {
    id in held && held[id].etag.None? && DataOf(m, id).None?
  }

  lemma {:induction false} FreshStays(held: Held, m: Main, held': Held, m': Main, id: int, h: nat)
    requires Grown(m, m') && Drifts(held, held', m') && h <= m.head && Fresh(held, m, id, h)
    ensures Fresh(held', m', id, h)
  {
    AnyMoved(m, m', id);
    StaysFresh(held, m, m', id, h);
    assert At(held', id) == At(held, id) || Agrees(held', m', id) || HalfWritten(held, held', m', id);
  }

  lemma {:induction false} GoodStays(held: Held, held': Held, m: Main)
    requires AllGood(held) && Towards(held, held', m)
    ensures AllGood(held')
  {
    forall id | id in held' ensures Good(held'[id]) {
      assert At(held', id) == At(held, id) || Agrees(held', m, id);
    }
  }

  lemma {:induction false} SaneStays(held: Held, held': Held, m: Main)
    requires AllSane(held) && Drifts(held, held', m)
    ensures AllSane(held')
  {
    forall id | id in held' ensures Sane(held'[id]) {
      assert At(held', id) == At(held, id) || Agrees(held', m, id) || HalfWritten(held, held', m, id);
    }
  }

  lemma {:induction false} NobodyHolds(held: Held, m: Main, id: int)
    requires StoredOk(held) && MainOk(m) && !IsId(id)
    ensures Agrees(held, m, id)
  {
  }

  /** Every stream below from is as MAIN has it, or changed past version h. */
  ghost predicate FreshBelow(held: Held, m: Main, from: int, h: nat) {
    forall id | id < from :: Fresh(held, m, id, h)
  }

  lemma {:induction false} BelowStays(held: Held, m: Main, held': Held, m': Main, from: int, h: nat)
    requires Grown(m, m') && Drifts(held, held', m') && FreshBelow(held, m, from, h) && h <= m.head
    ensures FreshBelow(held', m', from, h)
  {
    forall id | id < from ensures Fresh(held', m', id, h) {
      FreshStays(held, m, held', m', id, h);
    }
  }

  lemma {:induction false} GrownSame(m: Main)
    requires MainOk(m)
    ensures Grown(m, m)
  {
  }

  /** A page answered in full carries the pass on. */
  lemma {:induction false} PassGoesOn(held: Held, m: Main, held': Held, m': Main, from: int, next: int, h: nat)
    requires Grown(m, m') && Drifts(held, held', m') && FreshBelow(held, m, from, h) && h <= m'.head
    requires h <= m.head || (from == 0 && StoredOk(held'))
    requires forall id | from <= id < next :: AgreesText(held', m', id)
    ensures FreshBelow(held', m', next, h)
  {
    forall id | id < next ensures Fresh(held', m', id, h) {
      if id < from {
        if h <= m.head {
          FreshStays(held, m, held', m', id, h);
        } else {
          NobodyHolds(held', m', id);
        }
      } else {
        assert AgreesText(held', m', id);
      }
    }
  }

  // ---------------------------------------------------------------- a resync

  /** What a walk has made, so far, of what was held when it began: a stream stayed, or is as MAIN has it,
      and so is every one that no longer counts as failed. */
  ghost predicate Walking(held0: Held, bad0: set<int>, held: Held, bad: set<int>, m: Main) {
    && Towards(held0, held, m) && bad <= bad0
    && (forall id | id in bad0 && id !in bad :: Agrees(held, m, id))
    && (forall id | Unnameable(held0, m, id) :: At(held, id) == At(held0, id))
  }

  /** A page more, MAIN changing nothing meanwhile. */
  lemma {:induction false} WalksOn(
      held0: Held, bad0: set<int>, held: Held, bad: set<int>, held': Held, bad': set<int>, m: Main)
    requires Walking(held0, bad0, held, bad, m) && Walking(held, bad, held', bad', m)
    ensures Walking(held0, bad0, held', bad', m)
  {
    forall id ensures At(held', id) == At(held0, id) || Agrees(held', m, id) {
      assert At(held, id) == At(held0, id) || Agrees(held, m, id);
      assert At(held', id) == At(held, id) || Agrees(held', m, id);
    }
    forall id | id in bad0 && id !in bad' ensures Agrees(held', m, id) {
      if id !in bad {
        assert At(held', id) == At(held, id) || Agrees(held', m, id);
      }
    }
    forall id | Unnameable(held0, m, id) ensures At(held', id) == At(held0, id) {
      assert At(held, id) == At(held0, id);
      assert Unnameable(held, m, id);
    }
  }

  lemma {:induction false} PageIsDone(
      held0: Held, bad0: set<int>, held: Held, bad: set<int>, held': Held, m: Main, id: int)
    requires Walking(held0, bad0, held, bad, m) && NamedGood(held0, bad0, m, id) && Towards(held, held', m)
    requires PageDone(held0, bad0, held, m, id) || (NamedGood(held, bad, m, id) ==> PageDone(held, bad, held', m, id))
    ensures PageDone(held0, bad0, held', m, id)
  {
    assert At(held, id) == At(held0, id) || Agrees(held, m, id);
    assert At(held', id) == At(held, id) || Agrees(held', m, id);
  }

  /** What was done below from0 and is done up to next is done up to next. */
  lemma {:induction false} PagesAreDone(
      held0: Held, bad0: set<int>, held: Held, bad: set<int>, held': Held, m: Main, from0: int, next: int)
    requires Walking(held0, bad0, held, bad, m) && Towards(held, held', m)
    requires forall id | 0 <= id < from0 && NamedGood(held0, bad0, m, id) :: PageDone(held0, bad0, held, m, id)
    requires forall id | from0 <= id < next && NamedGood(held, bad, m, id) :: PageDone(held, bad, held', m, id)
    ensures forall id | 0 <= id < next && NamedGood(held0, bad0, m, id) :: PageDone(held0, bad0, held', m, id)
  {
    forall id | 0 <= id < next && NamedGood(held0, bad0, m, id) ensures PageDone(held0, bad0, held', m, id) {
      PageIsDone(held0, bad0, held, bad, held', m, id);
    }
  }

  class StreamSync {
    /** MAIN changes no more. */
    const still: bool
    var main: Main
    var held: Held
    var bad: set<int>
    var answered: set<int>
    var cursor: nat
    var pass: Opt<Pass>
    var resyncNow: bool
    /** The pass took its head, and the cursor comes from, a first reply whose head was 0. */
    ghost var passZero: bool
    ghost var cursorZero: bool
    /** How often a record's .rep was written and its .json was not. */
    ghost var halves: nat

    ghost predicate Valid()
      reads this
    {
      MainOk(main) && StoredOk(held) && forall id | id in bad :: IsId(id)
    }

    constructor (still: bool, main: Main, held: Held, bad: set<int>, cursor: nat, pass: Opt<Pass>)
      requires MainOk(main) && StoredOk(held) && forall id | id in bad :: IsId(id)
      ensures Valid() && this.still == still && this.main == main && this.held == held && this.bad == bad
      ensures this.cursor == cursor && this.pass == pass && answered == {} && !passZero && !cursorZero
    {
      this.still, this.main, this.held, this.bad, this.cursor, this.pass := still, main, held, bad, cursor, pass;
      answered, resyncNow, passZero, cursorZero, halves := {}, false, false, false, 0;
    }

    // -------------------------------------------------------------- MAIN

    method MainMoves()
      requires Valid()
      modifies this`main
      ensures Valid() && Grown(old(main), main) && (still ==> main == old(main))
    {
      var m: Main := *;
      if !still && Grown(main, m) {
        main := m;
      }
    }

    // -------------------------------------------------------------- a reply

    /** Stores a reply's records and removals, or nothing of it when a record does not verify; a write
        that fails, or a crash, leaves it stored in part, be it between a record's two files. */
    method Apply(r: Reply) returns (ok: bool)
      requires Valid() && Honest(main, r)
      modifies this`held, this`bad, this`halves
      ensures Valid() && Drifts(old(held), held, main) && Cleared(old(bad)) && old(halves) <= halves
      ensures halves == old(halves) ==> Towards(old(held), held, main)
      ensures ok ==> Verifies(r) && halves == old(halves) && forall id :: At(held, id) == AfterReply(old(held), r, id)
      ensures !Verifies(r) ==> !ok && held == old(held) && bad == old(bad)
    {
      for i := 0 to |r.streams|
        invariant forall j | 0 <= j < i :: r.streams[j].rec.Some?
      {
        if r.streams[i].rec.None? {
          return false;
        }
      }
      if exists id | id in r.removed :: id < 1 {
        return false;
      }
      ok := StoreAll(r.streams);
      if ok {
        ok := RemoveAll(r);
      }
    }

    /** What failed its check and no longer counts as failed is as MAIN has it. */
    ghost predicate Cleared(was: set<int>)
      reads this
    {
      bad <= was && forall id | id in was && id !in bad :: Agrees(held, main, id)
    }

    method StoreAll(es: seq<Entry>) returns (ok: bool)
      requires Valid() && forall i | 0 <= i < |es| :: es[i].rec.Some? && es[i].rec == DataOf(main, es[i].id)
      modifies this`held, this`bad, this`halves
      ensures Valid() && Drifts(old(held), held, main) && Cleared(old(bad)) && old(halves) <= halves
      ensures halves == old(halves) ==> Towards(old(held), held, main)
      ensures ok ==> halves == old(halves) && forall id :: At(held, id) == AfterEntries(old(held), es, id)
    {
      for i := 0 to |es|
        invariant Valid() && Towards(old(held), held, main) && Cleared(old(bad)) && halves == old(halves)
        invariant forall id :: At(held, id) == AfterEntries(old(held), es[..i], id)
      {
        var e := es[i];
        var fails: bool := *;
        if fails {
          if * {
            StoreHalf(e);
          }
          return false;
        }
        assert es[..i + 1][..i] == es[..i];
        held := held[e.id := AsSigned(e.rec.v)];
        bad := bad - {e.id};
      }
      assert es[..|es|] == es;
      ok := true;
    }

    /** The record's .rep is written, and its .json fails; without one, the stream is not held. */
    method StoreHalf(e: Entry)
      requires Valid() && e.rec.Some? && e.rec == DataOf(main, e.id)
      modifies this`held, this`halves
      ensures Valid() && halves == old(halves) + 1 && held.Keys == old(held).Keys
      ensures forall id | id != e.id :: At(held, id) == At(old(held), id)
      ensures e.id in held ==> held[e.id] == old(held)[e.id].(rep := e.rec)
    {
      if e.id in held {
        held := held[e.id := held[e.id].(rep := e.rec)];
      }
      halves := halves + 1;
    }

    method RemoveAll(r: Reply) returns (ok: bool)
      requires Valid() && forall id | id in r.removed :: DataOf(main, id).None?
      modifies this`held, this`bad
      ensures Valid() && Towards(old(held), held, main) && Cleared(old(bad))
      ensures ok ==> forall id :: At(held, id) == if id in r.removed then None else At(old(held), id)
    {
      var rest := r.removed;
      while rest != {}
        invariant rest <= r.removed
        invariant Valid() && Towards(old(held), held, main) && Cleared(old(bad))
        invariant forall id :: At(held, id) == if id in r.removed && id !in rest then None else At(old(held), id)
        decreases |rest|
      {
        if * {
          return false;
        }
        ghost var some := Member(rest);
        assert exists x: int :: x in rest by {
          assert some in rest;
        }
        var id: int :| id in rest;
        held, bad, rest := held - {id}, bad - {id}, rest - {id};
      }
      ok := true;
    }

    // -------------------------------------------------------------- the walk

    /** One call's hashes, MAX_STREAM_HASHES at most, and how far they go. */
    method StreamHashes(from: int) returns (hashes: map<int, Data>, to: int)
      requires Valid() && from <= MAX_STREAM_ID + 1
      ensures hashes == Named(held, bad, from, to) && |hashes| <= MAX_STREAM_HASHES
      ensures to <= MAX_STREAM_ID && (from <= to || to == MAX_STREAM_ID)
    {
      var ids := Sorted(held.Keys);
      hashes, to := map[], MAX_STREAM_ID;
      var n := 0;
      for i := 0 to |ids|
        invariant 0 <= n <= MAX_STREAM_HASHES && |hashes| <= n
        invariant n > 0 ==> i > 0 && from <= ids[i - 1]
        invariant hashes == NamedAmong(held, bad, from, ids[..i])
      {
        var id := ids[i];
        NamedNext(held, bad, from, ids, i);
        if id < from {
          continue;
        }
        if n == MAX_STREAM_HASHES {
          to := ids[i - 1];
          NamedUpTo(held, bad, from, ids, i);
          return;
        }
        n := n + 1;
        if id in bad {
          continue;
        }
        if held[id].etag.Some? {
          hashes := hashes[id := held[id].etag.v];
        }
      }
      NamedInAll(held, bad, from, ids);
    }

    /** Sends a walk's call; None if it fails. */
    method CallWalk(from: int, to: int, hashes: map<int, Data>) returns (r: Opt<Reply>)
      requires Valid()
      modifies this`main
      ensures Valid() && Grown(old(main), main) && (still ==> main == old(main))
      ensures r.Some? ==> WalkReply(main, from, to, hashes, r.v)
    {
      MainMoves();
      var reply: Reply := *;
      r := if WalkReply(main, from, to, hashes, reply) then Some(reply) else None;
    }

    /** One call of the walk. */
    method WalkOnce(from: int) returns (ok: bool, r: Reply, next: int, done: bool)
      requires Valid() && 0 <= from <= MAX_STREAM_ID + 1
      modifies this`main, this`held, this`bad, this`answered, this`halves
      ensures Valid() && Grown(old(main), main) && (still ==> main == old(main))
      ensures Drifts(old(held), held, main) && Cleared(old(bad)) && old(halves) <= halves
      ensures halves == old(halves) ==> Towards(old(held), held, main)
      ensures ok ==> halves == old(halves)
      ensures old(answered) <= answered
      ensures ok ==> r.head == main.head
      ensures ok ==> (from < next || (done && from == next)) && next <= MAX_STREAM_ID + 1
      ensures ok && done ==> next == MAX_STREAM_ID + 1
      ensures ok && r.withheld == 0 ==> forall id | from <= id < next && NamedGood(old(held), old(bad), main, id) ::
                PageDone(old(held), old(bad), held, main, id)
      ensures ok && r.withheld == 0 ==> forall id | from <= id < next && id !in old(bad)
              && (id in old(held) ==> Sane(old(held)[id])) :: AgreesText(held, main, id)
      ensures ok && r.withheld == 0 ==> forall id | from <= id < next && id in bad :: id in answered
      ensures ok ==> forall id | Unnameable(old(held), main, id) :: At(held, id) == At(old(held), id)
    {
      var hashes, to := StreamHashes(from);
      var reply := CallWalk(from, to, hashes);
      ok, next, done := false, 0, false;
      if reply.None? {
        r := *;
        return;
      }
      r := reply.v;
      var stored := Apply(r);
      if !stored {
        return;
      }
      next := to + 1;
      if r.next.Some? {
        if r.next.v <= from || r.next.v > to + 1 {
          return;
        }
        next := r.next.v;
      }
      if r.withheld == 0 {
        answered := answered + set id | id in bad && from <= id < next;
      }
      ok, done := true, to == MAX_STREAM_ID && r.next.None?;
      forall id | Unnameable(old(held), main, id) ensures At(held, id) == At(old(held), id) {
        LatestIsMains(main, r.streams, id);
      }
      if r.withheld == 0 {
        forall id | from <= id < next && NamedGood(old(held), old(bad), main, id)
            ensures PageDone(old(held), old(bad), held, main, id) {
          PageAgrees(main, old(held), old(bad), from, to, r, held, id);
        }
        forall id | from <= id < next && id !in old(bad) && (id in old(held) ==> Sane(old(held)[id]))
            ensures AgreesText(held, main, id) {
          PageAgreesText(main, old(held), old(bad), from, to, r, held, id);
        }
      }
    }

    /** A walk that went to its end: the failed records it was answered for in full may be named again. */
    method Walked()
      requires Valid()
      modifies this`bad, this`answered, this`resyncNow
      ensures Valid() && bad == old(bad) - old(answered) && answered == {}
      ensures resyncNow <==> bad != {}
    {
      bad := bad - answered;
      answered := {};
      resyncNow := bad != {};
    }

    // -------------------------------------------------------------- the full pass

    ghost predicate Clean()
      reads this
    {
      AllSane(held) && bad == {}
    }

    /** Unless a record was left half written since halves was h, none is damaged if none was then. */
    ghost predicate GoodOn(h: nat, good: bool)
      reads this
    {
      h <= halves && (halves == h && good ==> AllGood(held))
    }

    lemma GoesOn(was: Held, n: nat, h: nat, good: bool)
      requires Drifts(was, held, main) && h <= n <= halves && (halves == n ==> Towards(was, held, main))
      requires n == h && good ==> AllGood(was)
      ensures GoodOn(h, good) && (AllSane(was) ==> AllSane(held))
    {
      if AllSane(was) {
        SaneStays(was, held, main);
      }
      if halves == h && good {
        GoodStays(was, held, main);
      }
    }

    /** A pass in progress has every stream below where it stands, or it was withheld something; unless
        its head is that of a first reply with head 0. */
    ghost predicate PassOk()
      reads this
    {
      pass.Some? ==>
        var p := pass.v;
        && 0 <= p.from <= MAX_STREAM_ID + 1
        && (if p.head == 0 then p.from == 0 && !p.withheld
            else passZero || (p.head <= main.head && (p.withheld || FreshBelow(held, main, p.from, p.head))))
    }

    /** Every stream is as MAIN has it, or changed past the cursor; unless that comes from a first reply
        with head 0. */
    ghost predicate Covered()
      reads this
    {
      cursorZero || (cursor <= main.head && forall id :: Fresh(held, main, id, cursor))
    }

    lemma CoverStays(was: Held, m: Main, c: nat, zero: bool)
      requires Grown(m, main) && Drifts(was, held, main) && c == cursor && zero == cursorZero
      ensures zero || (c <= m.head && (forall id :: Fresh(was, m, id, c))) ==> Covered()
    {
      if !zero && c <= m.head && forall id :: Fresh(was, m, id, c) {
        forall id ensures Fresh(held, main, id, c) {
          FreshStays(was, m, held, main, id, c);
        }
      }
    }

    /** A pass from here does not begin at head 0: it has begun past it, or MAIN is past it. */
    ghost predicate PassFrom(head: nat)
      reads this
    {
      if pass.Some? && pass.v.head > 0 then !passZero && 1 <= head else 1 <= head
    }

    /** One page of a full pass. */
    method PassOnce() returns (ok: bool, done: bool, ghost page: Page)
      requires Valid() && Clean() && PassOk() && pass.Some?
      modifies this
      ensures Valid() && Clean() && PassOk() && pass.Some?
      ensures Grown(old(main), main) && (old(Covered()) ==> Covered())
      ensures cursor == old(cursor) && cursorZero == old(cursorZero)
      ensures GoodOn(old(halves), old(AllGood(held)))
      ensures if ok && old(pass).v.head == 0 then passZero <==> main.head == 0 else passZero == old(passZero)
      ensures !ok ==> pass == old(pass)
      ensures ok ==> page == Page(old(pass).v.from, pass.v.from) && pass.v.head > 0
      ensures ok ==> page.from < page.next || (done && page.from == page.next)
      ensures ok && done ==> pass.v.from == MAX_STREAM_ID + 1
    {
      var p := pass.v;
      page := Page(p.from, p.from);
      var r, next;
      ok, r, next, done := WalkOnce(p.from);
      GoesOn(old(held), old(halves), old(halves), AllGood(old(held)));
      CoverStays(old(held), old(main), cursor, cursorZero);
      if !ok {
        if p.head > 0 && !p.withheld && !passZero {
          BelowStays(old(held), old(main), held, main, p.from, p.head);
        }
        return;
      }
      var head := if p.head == 0 then PassHead(r.head) else p.head;
      if p.head == 0 {
        passZero := r.head == 0;
      }
      if !p.withheld && r.withheld == 0 && !passZero {
        PassGoesOn(old(held), old(main), held, main, p.from, next, head);
      }
      pass := Some(Pass(head, next, p.withheld || r.withheld > 0));
      page := Page(p.from, next);
    }

    /** Walks every stream from where the pass stands; the cursor becomes the head of the pass's first
        reply once it ends with nothing withheld. A pass begun while MAIN's head is past 0 is never one
        from head 0. */
    method FullPass() returns (ok: bool, whole: bool, ghost pages: seq<Page>)
      requires Valid() && Clean() && PassOk()
      modifies this
      ensures Valid() && Clean() && PassOk() && Grown(old(main), main)
      ensures ok && whole ==> cursor > 0 && Covered() && cursorZero == passZero
      ensures !(ok && whole) ==> cursor == old(cursor) && cursorZero == old(cursorZero)
      ensures !(ok && whole) && old(Covered()) ==> Covered()
      ensures GoodOn(old(halves), old(AllGood(held)))
      ensures old(PassFrom(main.head)) ==> !passZero || (pass.Some? && pass.v.head == 0)
      ensures ok ==> pass == None && Tile(pages, if old(pass).Some? then old(pass).v.from else 0, MAX_STREAM_ID + 1)
    {
      if pass.None? {
        pass := Some(Pass(0, 0, false));
      }
      answered, pages, ok, whole := {}, [], true, false;
      GrownSame(main);
      var round, done := 0, false;
      ghost var lo := pass.v.from;
      while round < 100000 && !done
        invariant Valid() && Clean() && PassOk() && pass.Some?
        invariant Grown(old(main), main) && (old(Covered()) ==> Covered())
        invariant GoodOn(old(halves), old(AllGood(held)))
        invariant cursor == old(cursor) && cursorZero == old(cursorZero)
        invariant old(PassFrom(main.head)) ==> 1 <= main.head && (pass.v.head == 0 || !passZero)
        invariant Tile(pages, lo, pass.v.from)
        invariant done ==> pass.v.from == MAX_STREAM_ID + 1 && pass.v.head > 0
        decreases 100000 - round
      {
        ghost var page;
        ghost var m0 := main;
        ok, done, page := PassOnce();
        GrownTwice(old(main), m0, main);
        if !ok {
          return;
        }
        if page.from < page.next {
          pages := Appended(pages, page);
        }
        round := round + 1;
      }
      if !done {
        ok := false;
        return;
      }
      whole := EndPass();
    }

    /** The pass has come to its end. */
    method EndPass() returns (whole: bool)
      requires Valid() && Clean() && PassOk() && pass.Some? && pass.v.from == MAX_STREAM_ID + 1 && pass.v.head > 0
      modifies this`cursor, this`cursorZero, this`pass, this`bad, this`answered, this`resyncNow
      ensures Valid() && Clean() && pass == None
      ensures whole ==> cursor > 0 && Covered() && cursorZero == passZero
      ensures !whole ==> cursor == old(cursor) && cursorZero == old(cursorZero) && (old(Covered()) ==> Covered())
    {
      whole := !pass.v.withheld;
      if whole {
        cursor, cursorZero := pass.v.head, passZero;
        forall id ensures cursorZero || Fresh(held, main, id, cursor) {
          if id >= MAX_STREAM_ID + 1 {
            NobodyHolds(held, main, id);
          }
        }
      }
      pass := None;
      Walked();
    }

    // -------------------------------------------------------------- the resync

    /** Walks the section hashes with the cursor unchanged. */
    method Resync() returns (ok: bool, whole: bool, ghost pages: seq<Page>)
      requires Valid()
      modifies this
      ensures Valid() && cursor == old(cursor) && pass == old(pass) && Grown(old(main), main)
      ensures cursorZero == old(cursorZero) && passZero == old(passZero)
      ensures (old(Clean()) ==> Clean()) && (old(Covered()) ==> Covered())
      ensures GoodOn(old(halves), old(AllGood(held)))
      ensures still ==> main == old(main)
      ensures ok ==> Tile(pages, 0, MAX_STREAM_ID + 1)
      ensures still && ok ==> forall id | Unnameable(old(held), main, id) :: At(held, id) == At(old(held), id)
      ensures still && ok && whole ==> bad == {} && forall id | NamedGood(old(held), old(bad), main, id) ::
                PageDone(old(held), old(bad), held, main, id)
    {
      answered, pages, whole := {}, [], true;
      GrownSame(main);
      var from, round, done := 0, 0, false;
      while round < 100000 && !done
        invariant Valid() && cursor == old(cursor) && pass == old(pass) && Grown(old(main), main)
        invariant cursorZero == old(cursorZero) && passZero == old(passZero)
        invariant (old(Clean()) ==> Clean()) && (old(Covered()) ==> Covered())
        invariant GoodOn(old(halves), old(AllGood(held)))
        invariant still ==> main == old(main)
        invariant ResyncAt(old(held), old(bad), from, whole) && Tile(pages, 0, from)
        invariant done ==> from == MAX_STREAM_ID + 1
        decreases 100000 - round
      {
        var next;
        ghost var m0 := main;
        ok, next, done, whole := ResyncOnce(from, whole, old(held), old(bad));
        GrownTwice(old(main), m0, main);
        if !ok {
          return;
        }
        if from < next {
          pages := Appended(pages, Page(from, next));
        }
        from := next;
        round := round + 1;
      }
      ok := done;
      if ok {
        if whole {
          assert forall id | id in bad :: id in answered;
        }
        if still && whole {
          forall id | NamedGood(old(held), old(bad), main, id) ensures PageDone(old(held), old(bad), held, main, id) {
            if id < 0 || id > MAX_STREAM_ID {
              NobodyHolds(held, main, id);
            }
          }
        }
        Walked();
      }
    }

    /** What the walk has made up to from of what was held when it began, MAIN changing no more. */
    ghost predicate ResyncAt(held0: Held, bad0: set<int>, from: int, whole: bool)
      reads this
    {
      && 0 <= from <= MAX_STREAM_ID + 1
      && (whole ==> forall id | id < from && id in bad :: id in answered)
      && (still ==> Walking(held0, bad0, held, bad, main))
      && (still && whole ==> forall id | 0 <= id < from && NamedGood(held0, bad0, main, id) ::
          PageDone(held0, bad0, held, main, id))
    }

    /** One page of the resync. */
    method ResyncOnce(from: int, whole: bool, ghost held0: Held, ghost bad0: set<int>)
      returns (ok: bool, next: int, done: bool, whole': bool)
      requires Valid() && ResyncAt(held0, bad0, from, whole)
      modifies this`main, this`held, this`bad, this`answered, this`halves
      ensures Valid() && Grown(old(main), main) && (still ==> main == old(main))
      ensures (old(Clean()) ==> Clean()) && (old(Covered()) ==> Covered())
      ensures forall h: nat, good | old(GoodOn(h, good)) :: GoodOn(h, good)
      ensures ok ==> ResyncAt(held0, bad0, next, whole') && (whole' ==> whole)
      ensures ok ==> (from < next || (done && from == next)) && (done ==> next == MAX_STREAM_ID + 1)
    {
      var r;
      ok, r, next, done := WalkOnce(from);
      CoverStays(old(held), old(main), cursor, cursorZero);
      forall h: nat, good | old(GoodOn(h, good)) ensures GoodOn(h, good) {
        GoesOn(old(held), old(halves), h, good);
      }
      GoesOn(old(held), old(halves), old(halves), false);
      whole' := whole && ok && r.withheld == 0;
      if ok && still {
        assert Walking(old(held), old(bad), held, bad, main);
        if whole' {
          PagesAreDone(held0, bad0, old(held), old(bad), held, main, from, next);
        }
        WalksOn(held0, bad0, old(held), old(bad), held, bad, main);
      }
    }

    /** Every stored record's .rep is opened again; those that fail, or are not what the .json says, are
        left out of the next walk. */
    method Recheck()
      requires Valid()
      modifies this`bad, this`resyncNow
      ensures Valid() && forall id :: id in bad <==> id in held && Damaged(held[id])
    {
      bad := {};
      var ids := Sorted(held.Keys);
      for i := 0 to |ids|
        invariant Valid()
        invariant forall id :: id in bad <==> id in ids[..i] && Damaged(held[id])
      {
        var id := ids[i];
        assert ids[..i + 1] == ids[..i] + [id];
        assert id in ids;
        if Damaged(held[id]) {
          bad := bad + {id};
        }
      }
      assert ids[..|ids|] == ids;
      resyncNow := resyncNow || bad != {};
    }

    /** After the check and two walks of a MAIN that changes no more and withholds nothing, the node holds
        exactly what MAIN does, whatever was damaged, if and only if every record it held of a stream MAIN
        does not hold kept a readable etag. (A .json's etag and data are written together.) */
    method Heal() returns (ok: bool, whole: bool)
      requires Valid() && still
      requires forall id | id in held && held[id].etag.Some? :: held[id].etag.v == held[id].data
      modifies this
      ensures Valid() && main == old(main)
      ensures ok && whole ==> (SameAsMain(held, main) <==> forall id | id in old(held) && old(held)[id].etag.None? ::
              DataOf(main, id).Some?)
    {
      Recheck();
      ghost var h0, b0 := held, bad;
      assert forall id :: NamedGood(h0, b0, main, id);
      ghost var pages;
      ok, whole, pages := Resync();
      if !ok || !whole {
        return;
      }
      ghost var h1 := held;
      assert forall id :: PageDone(h0, b0, h1, main, id) by {
        forall id ensures PageDone(h0, b0, h1, main, id) {
          assert NamedGood(h0, b0, main, id);
        }
      }
      ok, whole, pages := Resync();
      if ok && whole {
        HealedIff(h0, b0, h1, held, main);
      }
    }

    // -------------------------------------------------------------- the deltas

    /** Asks for what changed past the cursor while MAIN has more: whether MAIN answered `full`, and whether
        there was no more and nothing was withheld. */
    method Deltas() returns (ok: bool, full: bool, complete: bool)
      requires Valid() && Clean() && PassOk() && cursor > 0 && Covered()
      modifies this
      ensures Valid() && Clean() && cursor >= old(cursor) && Covered() && pass == old(pass)
      ensures cursorZero == old(cursorZero) && passZero == old(passZero)
      ensures Grown(old(main), main) && (old(pass).None? ==> PassOk())
      ensures GoodOn(old(halves), old(AllGood(held)))
      ensures ok && complete ==> !full && (!cursorZero ==> SameText(held, main))
    {
      ok, full, complete := false, false, false;
      GrownSame(main);
      for round := 0 to 1000
        invariant Valid() && Clean() && cursor >= old(cursor) && cursor > 0 && Covered() && pass == old(pass)
        invariant cursorZero == old(cursorZero) && passZero == old(passZero)
        invariant Grown(old(main), main) && !full && !complete && GoodOn(old(halves), old(AllGood(held)))
      {
        ghost var m0 := main;
        var more;
        ok, full, more, complete := DeltaOnce();
        GrownTwice(old(main), m0, main);
        if !ok || full || !more {
          return;
        }
      }
      ok := true;
    }

    /** One call of the deltas. */
    method DeltaOnce() returns (ok: bool, full: bool, more: bool, complete: bool)
      requires Valid() && Clean() && cursor > 0 && Covered()
      modifies this`main, this`held, this`bad, this`halves, this`cursor
      ensures Valid() && Clean() && cursor >= old(cursor) && Covered() && Grown(old(main), main)
      ensures forall h: nat, good | old(GoodOn(h, good)) :: GoodOn(h, good)
      ensures complete ==> ok && !full && !more && (!cursorZero ==> SameText(held, main))
    {
      ok, full, more, complete := false, false, false, false;
      ghost var c0 := cursor;
      MainMoves();
      CoverMoves(old(main));
      ghost var m0 := main;
      GrownSame(main);
      var r: Reply := *;
      if !DeltaReply(main, cursor, r) {
        return;
      }
      if r.full {
        ok, full := true, true;
        return;
      }
      ok := Apply(r);
      forall h: nat, good | old(GoodOn(h, good)) ensures GoodOn(h, good) {
        GoesOn(old(held), old(halves), h, good);
      }
      GoesOn(old(held), old(halves), old(halves), false);
      CoverStays(old(held), m0, cursor, cursorZero);
      if !ok {
        return;
      }
      if !cursorZero {
        forall id ensures Fresh(held, main, id, r.ver)
              && (!r.more && r.withheld == 0 ==> AgreesText(held, main, id)) {
          DeltaFreshens(main, old(held), c0, r, held, id);
        }
      }
      cursor := r.ver;
      more := r.more;
      complete := !more && r.withheld == 0;
    }

    lemma CoverMoves(m: Main)
      requires Grown(m, main) && (cursorZero || (cursor <= m.head && forall id :: Fresh(held, m, id, cursor)))
      ensures Covered()
    {
      forall id | !cursorZero ensures Fresh(held, main, id, cursor) {
        AnyMoved(m, main, id);
        StaysFresh(held, m, main, id, cursor);
      }
    }

    /** A full pass, resumed or begun, over a MAIN that changes meanwhile, and the deltas from its first
        head until there is no more: then the .json files say exactly what MAIN holds, unless that head was 0
        (CatchUpIff); and the node holds exactly that if and only if no record is damaged, which none is that
        was not, unless a write failed between a record's two files. */
    method CatchUp() returns (ok: bool, complete: bool)
      requires Valid() && Clean() && PassOk()
      modifies this
      ensures Valid() && Clean() && GoodOn(old(halves), old(AllGood(held)))
      ensures ok && complete && (!cursorZero || old(PassFrom(main.head))) ==>
                SameText(held, main) && (SameAsMain(held, main) <==> NoneDamaged(held))
      ensures ok && complete && (!cursorZero || old(PassFrom(main.head))) ==>
                (halves == old(halves) && old(AllGood(held)) ==> SameAsMain(held, main))
    {
      ghost var pages;
      var whole, full;
      complete := false;
      ok, whole, pages := FullPass();
      if ok && whole {
        ok, full, complete := Deltas();
        if ok && complete && !cursorZero {
          SameIff(held, main);
        }
      }
    }

    /** One sync: a delta, a full pass when one is due or in progress, and the resync when its time has
        come. What the cursor says of the node's records holds whenever it ends, and wherever it fails. */
    method SyncStreams(due: bool) returns (ok: bool)
      requires Valid() && Clean() && PassOk() && (cursor > 0 ==> Covered())
      modifies this
      ensures Valid() && Clean() && PassOk() && (cursor > 0 ==> Covered())
    {
      ok := true;
      if pass.None? && cursor > 0 {
        var full, complete;
        ok, full, complete := Deltas();
        if !ok {
          return;
        }
        if full {
          pass := Some(Pass(0, 0, false));
        }
      }
      if pass.Some? || cursor == 0 {
        var whole;
        ghost var pages;
        ok, whole, pages := FullPass();
      } else if resyncNow || due {
        var whole;
        ghost var pages;
        ok, whole, pages := Resync();
      }
    }
  }

  /** One page more. */
  function Appended(pages: seq<Page>, p: Page): (r: seq<Page>)
    ensures forall lo :: p.from < p.next && Tile(pages, lo, p.from) ==> Tile(r, lo, p.next)
  {
    var r := pages + [p];
    assert r[..|pages|] == pages;
    r
  }

  lemma {:induction false} HealedIff(h0: Held, b0: set<int>, h1: Held, h2: Held, m: Main)
    requires forall id :: PageDone(h0, b0, h1, m, id)
    requires forall id | NamedGood(h1, {}, m, id) :: PageDone(h1, {}, h2, m, id)
    requires forall id | Unnameable(h0, m, id) :: At(h1, id) == At(h0, id)
    requires forall id | Unnameable(h1, m, id) :: At(h2, id) == At(h1, id)
    ensures SameAsMain(h2, m) <==> forall id | id in h0 && h0[id].etag.None? :: DataOf(m, id).Some?
  {
    if forall id | id in h0 && h0[id].etag.None? :: DataOf(m, id).Some? {
      forall id ensures Agrees(h2, m, id) {
        assert PageDone(h0, b0, h1, m, id);
        assert NamedGood(h1, {}, m, id);
        assert PageDone(h1, {}, h2, m, id);
      }
    } else {
      var id :| id in h0 && h0[id].etag.None? && DataOf(m, id).None?;
      assert Unnameable(h0, m, id) && Unnameable(h1, m, id);
      assert !Agrees(h2, m, id);
    }
  }

  lemma {:induction false} NamedNext(held: Held, bad: set<int>, from: int, ids: seq<int>, i: nat)
    requires i < |ids| && Ascending(ids) && forall id :: id in ids <==> id in held
    ensures ids[i] in held && ids[i] !in NamedAmong(held, bad, from, ids[..i])
    ensures var was := NamedAmong(held, bad, from, ids[..i]);
            NamedAmong(held, bad, from, ids[..i + 1]) ==
            if from <= ids[i] && Nameable(held, bad, ids[i]) then was[ids[i] := held[ids[i]].etag.v] else was
  {
    assert ids[i] in ids;
    assert ids[..i + 1] == ids[..i] + [ids[i]];
  }

  lemma {:induction false} NamedUpTo(held: Held, bad: set<int>, from: int, ids: seq<int>, i: nat)
    requires 0 < i <= |ids| && Ascending(ids) && forall id :: id in ids <==> id in held
    ensures NamedAmong(held, bad, from, ids[..i]) == Named(held, bad, from, ids[i - 1])
  {
    UpTo(ids, i);
  }

  lemma {:induction false} NamedInAll(held: Held, bad: set<int>, from: int, ids: seq<int>)
    requires StoredOk(held) && forall id :: id in ids <==> id in held
    ensures NamedAmong(held, bad, from, ids[..|ids|]) == Named(held, bad, from, MAX_STREAM_ID)
  {
    assert ids[..|ids|] == ids;
  }

  lemma {:induction false} UpTo(ids: seq<int>, i: nat)
    requires Ascending(ids) && 0 < i <= |ids|
    ensures forall id | id in ids :: id in ids[..i] <==> id <= ids[i - 1]
  {
    forall id | id in ids ensures id in ids[..i] <==> id <= ids[i - 1] {
      var k :| 0 <= k < |ids| && ids[k] == id;
      assert k < i ==> ids[..i][k] == id;
    }
  }

  // ---------------------------------------------------------------- a record half written

  /** MAIN changes a stream to "b", the node writes its .rep and fails at its .json, and MAIN changes it back:
      the next walk names what the .json says, is sent nothing, and the .rep stays. */
  lemma {:induction false} HalfStays()
    ensures var m0, m := Main(2, 0, map[1 := StreamRow(2, Some("b"))]), Main(3, 0, map[1 := StreamRow(3, Some("a"))]);
            var held0, held := map[1 := AsSigned("a")], map[1 := Stored(Some("a"), "a", Some("b"))];
            var r := Reply(0, 3, false, false, None, [], {}, 0);
            && MainOk(m0) && Grown(m0, m) && Drifts(held0, held, m0) && HalfWritten(held0, held, m0, 1)
            && WalkReply(m, 0, MAX_STREAM_ID, Named(held, {}, 0, MAX_STREAM_ID), r)
            && (forall id :: At(held, id) == AfterReply(held, r, id))
            && SameText(held, m) && !SameAsMain(held, m)
  {
    var m0, m := Main(2, 0, map[1 := StreamRow(2, Some("b"))]), Main(3, 0, map[1 := StreamRow(3, Some("a"))]);
    var held := map[1 := Stored(Some("a"), "a", Some("b"))];
    assert Moved(m0, m, 1);
    assert Damaged(held[1]);
    SameIff(held, m);
  }

  // ---------------------------------------------------------------- the pass's first head

  /** A node catching up when MAIN answers its walk with one page, and what it asks for next with all there
      is: what it held, what MAIN was then and said, and again, and what the node made of each. */
  datatype OnePage = OnePage(held: Held, m: Main, walk: Reply, held1: Held, m1: Main, delta: Reply, held2: Held)

  ghost predicate CatchesUp(c: OnePage) {
    && MainOk(c.m) && StoredOk(c.held) && AllGood(c.held) && Grown(c.m, c.m1)
    && WalkReply(c.m, 0, MAX_STREAM_ID, Named(c.held, {}, 0, MAX_STREAM_ID), c.walk)
    && c.walk.next.None? && c.walk.withheld == 0 && Verifies(c.walk)
    && (forall id :: At(c.held1, id) == AfterReply(c.held, c.walk, id))
    && DeltaReply(c.m1, PassHead(c.walk.head), c.delta)
    && !c.delta.full && !c.delta.more && c.delta.withheld == 0 && Verifies(c.delta)
    && (forall id :: At(c.held2, id) == AfterReply(c.held1, c.delta, id))
  }

  lemma {:induction false} CaughtUp(c: OnePage, id: int)
    requires CatchesUp(c) && c.m.head >= 1
    ensures Agrees(c.held2, c.m1, id)
  {
    var h := c.m.head;
    assert PassHead(c.walk.head) == h;
    assert Fresh(c.held1, c.m, id, h) by {
      if IsId(id) {
        PageAgrees(c.m, c.held, {}, 0, MAX_STREAM_ID, c.walk, c.held1, id);
      } else {
        RepliesAgree(c.m, c.held, c.walk, c.held1, id);
        NobodyHolds(c.held, c.m, id);
      }
    }
    AnyMoved(c.m, c.m1, id);
    StaysFresh(c.held1, c.m, c.m1, id, h);
    assert At(c.held2, id) == AfterReply(c.held1, c.delta, id);
    DeltaFreshens(c.m1, c.held1, h, c.delta, c.held2, id);
  }

  /** The first stream ever is added as the walk ends: the node asks for changes past version 1, gets
      everything there is, and does not have it. */
  lemma {:induction false} HeadZeroMisses() returns (c: OnePage)
    ensures CatchesUp(c) && c.m.head == 0 && !SameAsMain(c.held2, c.m1)
  {
    var m, m1 := Main(0, 0, map[]), Main(1, 0, map[1 := StreamRow(1, Some("a"))]);
    var nothing := Reply(0, 0, false, false, None, [], {}, 0);
    c := OnePage(map[], m, nothing, map[], m1, nothing.(ver := 1, head := 1), map[]);
    assert Moved(m, m1, 1);
    assert !Agrees(c.held2, m1, 1);
  }

  /** Catching up leaves the node with what MAIN holds, whatever MAIN holds and does meanwhile, if and only
      if its counter had moved when it answered the pass's first page. */
  lemma {:induction false} CatchUpIff(head: nat)
    ensures head >= 1 <==> forall c: OnePage | CatchesUp(c) && c.m.head == head :: SameAsMain(c.held2, c.m1)
  {
    if head >= 1 {
      forall c: OnePage, id | CatchesUp(c) && c.m.head == head ensures Agrees(c.held2, c.m1, id) {
        CaughtUp(c, id);
      }
    } else {
      var c := HeadZeroMisses();
    }
  }
}
