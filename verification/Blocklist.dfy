/** The replica's blocklist (replica.go): a whole section and the deltas stored over it, kept in step with
MAIN's list, and the list written from them. An ETag is the hash of a section's content, taken as
injective: here it is the content. */
module Blocklist {
  import opened Maps
  import opened Sorting

  type Ip = Bytes

  datatype Section = Section(etag: set<Ip>, num: nat, ips: seq<Ip>)

  datatype Delta = Delta(num: nat, add: seq<Ip>, remove: seq<Ip>)

  /** MAIN's list at every seq so far. */
  datatype Main = Main(head: nat, lists: nat -> set<Ip>)

  /** A config reply's blocklist, once its records are opened; Bad is one that does not verify or is not
      the one announced. */
  datatype Reply = Whole(section: Section) | Unchanged(num: nat) | Change(delta: Delta) | Empty(num: nat) | Bad

  const MAX_DELTAS := 1000
  const FULL_EVERY := 86400

  function Ips(s: seq<Ip>): set<Ip> {
    set x | x in s
  }

  function AfterDelta(list: set<Ip>, d: Delta): set<Ip> {
    list - Ips(d.remove) + Ips(d.add)
  }

  function AfterAll(list: set<Ip>, ds: seq<Delta>): set<Ip> {
    if ds == [] then list else AfterDelta(AfterAll(list, ds[..|ds| - 1]), ds[|ds| - 1])
  }

  predicate Ascending(ds: seq<Delta>) {
    forall i, j | 0 <= i < j < |ds| :: ds[i].num < ds[j].num
  }

  /** Each delta's seq is above the one before, the first's above the section's. */
  predicate Rising(num: nat, ds: seq<Delta>) {
    Ascending(ds) && forall i | 0 <= i < |ds| :: ds[i].num > num
  }

  lemma {:induction false} AfterOne(list: set<Ip>, ds: seq<Delta>, d: Delta)
    ensures AfterAll(list, ds + [d]) == AfterDelta(AfterAll(list, ds), d)
  {
    assert (ds + [d])[..|ds|] == ds;
  }

  /** What MAIN may answer to a node that says it holds the list as of since (0: ask for the whole) and the
      section have. */
  predicate Answers(m: Main, held: nat, since: nat, have: Opt<set<Ip>>, r: Reply) {
    match r
    case Whole(s) => s.num == m.head && Ips(s.ips) == s.etag == m.lists(m.head)
    case Unchanged(n) => n == m.head && have == Some(m.lists(m.head))
    case Change(d) => 0 < since < d.num <= m.head && AfterDelta(m.lists(since), d) == m.lists(d.num)
    case Empty(n) => n > held ==> 0 < since == held && n <= m.head && m.lists(n) == m.lists(since)
    case Bad => true
  }

  // ---------------------------------------------------------------- what is stored

  /** The files (the section's record, and the deltas' by name) and the saved state: the seq asked from, the
      section's etag, and when the whole was last had. */
  datatype Held = Held(rep: Opt<Section>, deltas: seq<Delta>, num: nat, etag: Opt<set<Ip>>, fullAt: int)

  /** A delta's file is named by its seq: one of the same seq is replaced. */
  function Inserted(ds: seq<Delta>, d: Delta): seq<Delta> {
    if ds == [] || ds[|ds| - 1].num < d.num then ds + [d]
    else if ds[|ds| - 1].num == d.num then ds[..|ds| - 1] + [d]
    else Inserted(ds[..|ds| - 1], d) + [ds[|ds| - 1]]
  }

  predicate Shaped(m: Main, h: Held) {
    && h.num <= m.head && (h.etag.None? ==> h.num == 0)
    && (h.rep.Some? ==> Ips(h.rep.v.ips) == h.rep.v.etag)
    && Ascending(h.deltas)
  }

  /** What is stored passes the checks it is opened with. */
  predicate Opens(h: Held) {
    h.rep.Some? && h.etag == Some(h.rep.v.etag) && Rising(h.rep.v.num, h.deltas)
  }

  /** The list the section and the deltas make. */
  function Made(h: Held): set<Ip> {
    if h.rep.Some? then AfterAll(h.rep.v.etag, h.deltas) else {}
  }

  /** What is held opens, and makes MAIN's list at the seq held. */
  predicate InStep(m: Main, h: Held) {
    h.etag.Some? ==> Opens(h) && Made(h) == m.lists(h.num)
  }

  /** Besides, nothing stored is of a later seq than is saved. */
  predicate Settled(m: Main, h: Held) {
    && InStep(m, h)
    && (h.etag.Some? && h.rep.Some? ==>
          h.rep.v.num <= h.num && forall i | 0 <= i < |h.deltas| :: h.deltas[i].num <= h.num)
  }

  /** All that a reply makes of what is held, the state saved last. */
  function After(h: Held, r: Reply, now: int): Held {
    match r
    case Whole(s) => Held(Some(s), [], s.num, Some(s.etag), now)
    case Unchanged(n) => h.(deltas := [], num := n, fullAt := now)
    case Change(d) => h.(deltas := Inserted(h.deltas, d), num := d.num)
    case Empty(n) => if n > h.num then h.(num := n) else h
    case Bad => h
  }

  /** Some of a reply's files written, and the state not saved: what a crash, or a save that fails, leaves. */
  predicate Partway(h: Held, r: Reply, g: Held) {
    || g == h
    || match r
       case Whole(s) => exists i | 0 <= i <= |h.deltas| :: g == Dropped(h, i).(rep := Some(s))
       case Unchanged(_) => exists i | 0 <= i <= |h.deltas| :: g == Dropped(h, i)
       case Change(d) => g == h.(deltas := Inserted(h.deltas, d))
       case Empty(_) => false
       case Bad => false
  }

  /** The first i deltas removed, oldest first. */
  function Dropped(h: Held, i: nat): Held
    requires i <= |h.deltas|
  {
    h.(deltas := h.deltas[i..])
  }

  /** What does not open is held no more, and is asked for whole. */
  function Rechecked(h: Held, intact: bool): Held {
    if h.etag.Some? && !(intact && Opens(h)) then h.(etag := None, num := 0, fullAt := 0) else h
  }

  // ---------------------------------------------------------------- deltas

  /** What the deltas add or remove. */
  function Named(ds: seq<Delta>): set<Ip> {
    if ds == [] then {} else Named(ds[..|ds| - 1]) + Ips(ds[|ds| - 1].add) + Ips(ds[|ds| - 1].remove)
  }

  function Below(ds: seq<Delta>, num: nat): seq<Delta> {
    if ds == [] then [] else if ds[|ds| - 1].num < num then ds else Below(ds[..|ds| - 1], num)
  }

  function Above(ds: seq<Delta>, num: nat): seq<Delta> {
    if ds == [] || ds[|ds| - 1].num <= num then [] else Above(ds[..|ds| - 1], num) + [ds[|ds| - 1]]
  }

  /** Deltas leave what they do not name, and make of the rest what they make of nothing. */
  lemma {:induction false} OnlyNamed(list: set<Ip>, ds: seq<Delta>)
    ensures AfterAll(list, ds) == list - Named(ds) + AfterAll({}, ds) && AfterAll({}, ds) <= Named(ds)
  {
    if ds != [] {
      OnlyNamed(list, ds[..|ds| - 1]);
    }
  }

  lemma {:induction false} AfterJoin(list: set<Ip>, a: seq<Delta>, b: seq<Delta>)
    ensures AfterAll(list, a + b) == AfterAll(AfterAll(list, a), b)
  {
    if b == [] {
      assert a + b == a;
    } else {
      AfterJoin(list, a, b[..|b| - 1]);
      assert a + b == a + b[..|b| - 1] + [b[|b| - 1]];
      AfterOne(list, a + b[..|b| - 1], b[|b| - 1]);
    }
  }

  lemma {:induction false} InsertedBetween(ds: seq<Delta>, d: Delta)
    requires Ascending(ds)
    ensures Inserted(ds, d) == Below(ds, d.num) + [d] + Above(ds, d.num)
  {
    if ds == [] || ds[|ds| - 1].num < d.num {
    } else {
      var l := ds[|ds| - 1];
      if l.num == d.num {
        BelowAll(ds[..|ds| - 1], d.num);
      } else {
        InsertedBetween(ds[..|ds| - 1], d);
      }
    }
  }

  lemma {:induction false} BelowAll(ds: seq<Delta>, num: nat)
    requires forall i | 0 <= i < |ds| :: ds[i].num < num
    ensures Below(ds, num) == ds && Above(ds, num) == []
  {
  }

  lemma {:induction false} RisesOn(num: nat, ds: seq<Delta>, last: Delta)
    requires forall x | x in ds :: x.num < last.num
    ensures Ascending(ds + [last]) <==> Ascending(ds)
    ensures Rising(num, ds + [last]) <==> Rising(num, ds) && last.num > num
  {
    var es := ds + [last];
    assert es[|ds|] == last && forall i | 0 <= i < |ds| :: es[i] == ds[i] && es[i] in ds;
  }

  lemma {:induction false} InsertedRises(num: nat, ds: seq<Delta>, d: Delta)
    requires Ascending(ds)
    ensures Ascending(Inserted(ds, d))
    ensures Rising(num, Inserted(ds, d)) <==> Rising(num, ds) && d.num > num
    ensures forall x | x in Inserted(ds, d) :: x == d || x in ds
    ensures d in Inserted(ds, d)
  {
    if ds == [] || ds[|ds| - 1].num < d.num {
      RisesOn(num, ds, d);
    } else {
      var l, first := ds[|ds| - 1], ds[..|ds| - 1];
      assert ds == first + [l];
      RisesOn(num, first, l);
      if l.num == d.num {
        RisesOn(num, first, d);
      } else {
        InsertedRises(num, first, d);
        RisesOn(num, Inserted(first, d), l);
      }
    }
  }

  // ---------------------------------------------------------------- what a round leaves

  /** The change, from the seq saved, names what is to change of the list made without it: what MAIN does not
      list now it removes, what MAIN lists it adds, but for what deltas of later seqs, stored before, say. */
  predicate Names(m: Main, h: Held, d: Delta) {
    h.rep.Some? &&
      var below, later := AfterAll(h.rep.v.etag, Below(h.deltas, d.num)), Above(h.deltas, d.num);
      var was, now := m.lists(h.num), m.lists(d.num);
      && AfterAll({}, later) <= now && now * Named(later) <= AfterAll({}, later)
      && below - was - now - Named(later) <= Ips(d.remove)
      && (was - below) * now - Named(later) <= Ips(d.add)
  }

  /** After a round what is held is in step with MAIN exactly when, a change having been stored, what was held
      opened, the change is later than the section, and names what is to change; when, nothing having changed
      or the reply being refused, it was in step before; when, the section being MAIN's still, it is the one
      stored; and always with a new section. Whatever was stored, and whatever was saved. */
  lemma {:induction false} InStepIff(m: Main, h: Held, since: nat, have: Opt<set<Ip>>, r: Reply, now: int)
    requires Shaped(m, h) && Answers(m, h.num, since, have, r) && (since == 0 || since == h.num)
             && (have.None? || have == h.etag)
    ensures Shaped(m, After(h, r, now)) && After(h, r, now).num >= h.num
    ensures InStep(m, After(h, r, now)) <==>
            match r
            case Whole(_) => true
            case Unchanged(_) => h.rep.Some? && h.rep.v.etag == h.etag.v
            case Change(d) => Opens(h) && d.num > h.rep.v.num && Names(m, h, d)
            case Empty(_) => InStep(m, h)
            case Bad => InStep(m, h)
  {
    if r.Change? {
      if h.rep.Some? {
        InsertedRises(h.rep.v.num, h.deltas, r.delta);
        ChangeMakesIff(m, h, r.delta);
      } else {
        InsertedRises(0, h.deltas, r.delta);
      }
    }
  }

  lemma {:induction false} ChangeMakesIff(m: Main, h: Held, d: Delta)
    requires h.rep.Some? && Ascending(h.deltas) && AfterDelta(m.lists(h.num), d) == m.lists(d.num)
    ensures AfterAll(h.rep.v.etag, Inserted(h.deltas, d)) == m.lists(d.num) <==> Names(m, h, d)
  {
    var section, lower, later := h.rep.v.etag, Below(h.deltas, d.num), Above(h.deltas, d.num);
    var below := AfterAll(section, lower);
    InsertedBetween(h.deltas, d);
    AfterJoin(section, lower + [d], later);
    AfterOne(section, lower, d);
    OnlyNamed(AfterDelta(below, d), later);
    NamesIff(m.lists(h.num), below, Ips(d.add), Ips(d.remove), Named(later), AfterAll({}, later));
  }

  lemma {:induction false} NamesIff(
      was: set<Ip>, below: set<Ip>, add: set<Ip>, remove: set<Ip>, named: set<Ip>, later: set<Ip>)
    requires later <= named
    ensures var now := was - remove + add;
            below - remove + add - named + later == now <==>
            && later <= now && now * named <= later
            && below - was - now - named <= remove && (was - below) * now - named <= add
  {
    var now, made := was - remove + add, below - remove + add - named + later;
    if made == now {
      forall x | x in below - was - now - named ensures x in remove {
        assert x !in made;
      }
      forall x | x in (was - below) * now - named ensures x in add {
        assert x in made;
      }
    }
    if later <= now && now * named <= later && below - was - now - named <= remove
       && (was - below) * now - named <= add {
      forall x ensures x in made <==> x in now {
        if x in named {
          assert x in made <==> x in later;
          assert x in now ==> x in now * named;
        } else if x in below && x !in was && x !in now {
          assert x in below - was - now - named;
        } else if x in was && x !in below && x in now {
          assert x in (was - below) * now - named;
        }
      }
    }
  }

  lemma {:induction false} InStepNames(m: Main, h: Held, d: Delta)
    requires h.rep.Some? && Made(h) == m.lists(h.num) && AfterDelta(m.lists(h.num), d) == m.lists(d.num)
    requires forall i | 0 <= i < |h.deltas| :: h.deltas[i].num < d.num
    ensures Names(m, h, d)
  {
    BelowAll(h.deltas, d.num);
  }

  lemma {:induction false} NoneLater(ds: seq<Delta>, d: Delta)
    requires Ascending(ds) && forall i | 0 <= i < |ds| :: ds[i].num < d.num
    ensures forall i | 0 <= i < |Inserted(ds, d)| :: Inserted(ds, d)[i].num <= d.num
  {
  }

  /** Rounds that run to their end leave it in step, and nothing stored of a later seq than is saved. */
  lemma {:induction false} SettledKept(m: Main, h: Held, since: nat, have: Opt<set<Ip>>, r: Reply, now: int)
    requires Shaped(m, h) && Settled(m, h) && Answers(m, h.num, since, have, r) && (since == 0 || since == h.num)
             && (have.None? || have == h.etag)
    ensures Settled(m, After(h, r, now))
  {
    InStepIff(m, h, since, have, r, now);
    if r.Change? {
      InStepNames(m, h, r.delta);
      NoneLater(h.deltas, r.delta);
    }
  }

  // ---------------------------------------------------------------- stopped before the state is saved

  /** What a round left partway is asked from the seq saved before it, and a change then stored over it leaves
      it in step exactly when it names what is to change of what was left. */
  lemma {:induction false} ResumedIff(m: Main, h: Held, r: Reply, g: Held, intact: bool, again: Delta, now: int)
    requires Shaped(m, h) && Settled(m, h) && Partway(h, r, g) && Rechecked(g, intact).etag.Some?
    requires r.Whole? ==> Ips(r.section.ips) == r.section.etag
    requires Answers(m, h.num, h.num, None, Change(again))
    ensures var k := Rechecked(g, intact);
            && k == g && k.num == h.num
            && (InStep(m, After(k, Change(again), now)) <==> again.num > k.rep.v.num && Names(m, k, again))
  {
    PartwayShaped(m, h, r, g);
    InStepIff(m, g, h.num, None, Change(again), now);
  }

  lemma {:induction false} PartwayShaped(m: Main, h: Held, r: Reply, g: Held)
    requires Shaped(m, h) && Partway(h, r, g) && (r.Whole? ==> Ips(r.section.ips) == r.section.etag)
    ensures Shaped(m, g) && g.num == h.num && g.etag == h.etag && g.fullAt == h.fullAt
  {
    if r.Change? {
      InsertedRises(0, h.deltas, r.delta);
    }
  }

  const SECTION := Section({[1]}, 5, [[1]])

  /** MAIN's list has one entry up to seq 5, none at 6 to 8, the entry at 9 and 10, and none from 11 on. */
  const HISTORY := Main(11, n => if n < 6 || n == 9 || n == 10 then {[1]} else {})

  lemma {:induction false} OneIp()
    ensures Ips([[1]]) == {[1]} && Ips([]) == {}
  {
    assert Ips([[1]]) == {[1]};
  }

  /** The node holds the section and the delta to seq 7. */
  const AT_SEVEN := Held(Some(SECTION), [Delta(7, [], [[1]])], 7, Some({[1]}), 0)

  lemma {:induction false} AtSeven()
    ensures Shaped(HISTORY, AT_SEVEN) && Settled(HISTORY, AT_SEVEN)
  {
    OneIp();
    AfterOne({[1]}, [], Delta(7, [], [[1]]));
    assert [] + [Delta(7, [], [[1]])] == [Delta(7, [], [[1]])];
  }

  /** Asked from 7 again, MAIN names what differs at 11 from 7, which is nothing, and the node keeps the entry. */
  ghost predicate KeepsTheEntry(g: Held) {
    var again := Delta(11, [], []);
    && Rechecked(g, true) == g && g.num == 7 && Answers(HISTORY, 7, 7, None, Change(again))
    && Opens(After(g, Change(again), 0))
    && [1] in Made(After(g, Change(again), 0)) && [1] !in HISTORY.lists(11)
  }

  lemma {:induction false} SectionAlone(s: Section)
    requires s.etag == {[1]} && s.num < 11
    ensures KeepsTheEntry(AT_SEVEN.(rep := Some(s), deltas := []))
  {
    var again := Delta(11, [], []);
    OneIp();
    var g := AT_SEVEN.(rep := Some(s), deltas := []);
    assert Inserted([], again) == [again];
    AfterOne(s.etag, [], again);
    assert [] + [again] == [again];
    assert Made(After(g, Change(again), 0)) == {[1]};
    assert AfterDelta({}, again) == {};
  }

  /** MAIN at 9 answers that the section held is the list, the deltas are dropped, and the agent stops. */
  lemma {:induction false} DroppedHappens()
    ensures var m, g := HISTORY.(head := 9), AT_SEVEN.(deltas := []);
            && Settled(m, AT_SEVEN) && Answers(m, 7, 0, AT_SEVEN.etag, Unchanged(9))
            && Partway(AT_SEVEN, Unchanged(9), g) && KeepsTheEntry(g)
  {
    AtSeven();
    assert Dropped(AT_SEVEN, 1) == AT_SEVEN.(deltas := []);
    SectionAlone(SECTION);
    assert AT_SEVEN.(deltas := []) == AT_SEVEN.(rep := Some(SECTION), deltas := []);
  }

  /** MAIN at 9 sends the whole section, which has the etag it had; it is stored, the deltas are dropped, and
      the agent stops. */
  lemma {:induction false} ResentHappens()
    ensures var m, s := HISTORY.(head := 9), SECTION.(num := 9);
            var g := AT_SEVEN.(rep := Some(s), deltas := []);
            && Settled(m, AT_SEVEN) && Answers(m, 7, 0, None, Whole(s))
            && Partway(AT_SEVEN, Whole(s), g) && KeepsTheEntry(g)
  {
    AtSeven();
    OneIp();
    var s := SECTION.(num := 9);
    assert Dropped(AT_SEVEN, 1).(rep := Some(s)) == AT_SEVEN.(rep := Some(s), deltas := []);
    SectionAlone(s);
  }

  /** MAIN at 9 sends the delta that puts the entry back, its file is written, and the agent stops. */
  lemma {:induction false} StoredHappens()
    ensures var m, d := HISTORY.(head := 9), Delta(9, [[1]], []);
            var g := AT_SEVEN.(deltas := AT_SEVEN.deltas + [d]);
            && Settled(m, AT_SEVEN) && Answers(m, 7, 7, None, Change(d))
            && Partway(AT_SEVEN, Change(d), g) && KeepsTheEntry(g)
  {
    AtSeven();
    OneIp();
    var d, again := Delta(9, [[1]], []), Delta(11, [], []);
    var ds := AT_SEVEN.deltas + [d];
    AfterOne({[1]}, AT_SEVEN.deltas, d);
    AfterOne({[1]}, ds, again);
  }

  // ---------------------------------------------------------------- the replica

  class Replica {
    const main: nat -> set<Ip>
    var head: nat
    var rep: Opt<Section>
    var deltas: seq<Delta>
    var num: nat
    var etag: Opt<set<Ip>>
    var fullAt: int

    function Now(): Held
      reads this
    {
      Held(rep, deltas, num, etag, fullAt)
    }

    function Theirs(): Main
      reads this
    {
      Main(head, main)
    }

    ghost predicate Valid()
      reads this
    {
      Shaped(Theirs(), Now())
    }

    constructor (main: nat -> set<Ip>)
      ensures Valid() && this.main == main && etag == None && Settled(Theirs(), Now())
    {
      this.main := main;
      head, rep, deltas, num, etag, fullAt := 0, None, [], 0, None, 0;
    }

    /** MAIN's list changes. */
    method MainMoves(n: nat)
      requires Valid()
      modifies this`head
      ensures Valid() && head == old(head) + n && Now() == old(Now())
    {
      head := head + n;
    }

    /** Removes the deltas, oldest first, or the agent stops before the last of them. */
    method DropDeltas() returns (any: bool, stopped: bool)
      modifies this`deltas
      ensures exists i | 0 <= i <= |old(deltas)| :: Now() == Dropped(old(Now()), i)
      ensures !stopped ==> deltas == [] && (any <==> old(deltas) != [])
    {
      any, stopped := deltas != [], false;
      ghost var n := 0;
      while deltas != []
        invariant 0 <= n <= |old(deltas)| && deltas == old(deltas)[n..]
        invariant Now() == Dropped(old(Now()), n)
        decreases |deltas|
      {
        stopped := *;
        if stopped {
          return;
        }
        deltas := deltas[1..];
        n := n + 1;
      }
    }

    /** Writes what the reply holds, file by file; the agent may stop between any two. */
    method StoreFiles(r: Reply) returns (changed: bool, stopped: bool)
      modifies this`rep, this`deltas
      ensures stopped ==> Partway(old(Now()), r, Now())
      ensures !stopped ==> rep == After(old(Now()), r, 0).rep && deltas == After(old(Now()), r, 0).deltas
      ensures !stopped ==> Partway(old(Now()), r, Now())
    {
      ghost var h := Now();
      changed, stopped := false, false;
      match r {
        case Whole(s) =>
          rep := Some(s);
          var any;
          any, stopped := DropDeltas();
          ghost var i :| 0 <= i <= |h.deltas| && Now() == Dropped(h.(rep := Some(s)), i);
          assert Now() == Dropped(h, i).(rep := Some(s));
          changed := true;
        case Unchanged(_) =>
          changed, stopped := DropDeltas();
        case Change(d) =>
          deltas := Inserted(deltas, d);
          changed := true;
        case Empty(_) =>
        case Bad =>
      }
    }

    /** One round of the sync: what the reply holds is stored, and then the state is saved; the agent may stop
        before it is, or the save fail. */
    method Round(full: bool, now: int, r: Reply) returns (ok: bool, changed: bool, stopped: bool)
      requires Valid() && Told(full, now, r)
      modifies this
      ensures Valid() && head == old(head) && num >= old(num)
      ensures stopped ==> Partway(old(Now()), r, Now())
      ensures !stopped ==> Now() == After(old(Now()), r, now) && (ok <==> !r.Bad?)
      ensures !stopped && old(Settled(Theirs(), Now())) ==> Settled(Theirs(), Now())
    {
      ghost var h, since, have := Now(), Since(full, now), if full then None else etag;
      ok := !r.Bad?;
      changed, stopped := StoreFiles(r);
      PartwayShaped(Theirs(), h, r, Now());
      var fails: bool := *;
      stopped := stopped || fails;
      if stopped {
        return;
      }
      match r {
        case Whole(s) =>
          num, etag, fullAt := s.num, Some(s.etag), now;
        case Unchanged(n) =>
          num, fullAt := n, now;
        case Change(d) =>
          num := d.num;
        case Empty(n) =>
          if n > num {
            num := n;
          }
        case Bad =>
      }
      InStepIff(Theirs(), h, since, have, r, now);
      if Settled(Theirs(), h) {
        SettledKept(Theirs(), h, since, have, r, now);
      }
    }

    /** A sync: rounds until MAIN has no more, each over the list as MAIN then has it. */
    method Sync(full: bool, now: int) returns (changed: bool, stopped: bool)
      requires Valid()
      modifies this
      ensures Valid() && head >= old(head)
      ensures !stopped && old(Settled(Theirs(), Now())) ==> Settled(Theirs(), Now())
    {
      changed, stopped := false, false;
      for round := 0 to 100
        invariant Valid() && head >= old(head)
        invariant old(Settled(Theirs(), Now())) ==> Settled(Theirs(), Now())
      {
        var more: nat :| more >= 0;
        MainMoves(more);
        var r: Reply, again: bool := *, *;
        var resync := full && round == 0;
        if !Told(resync, now, r) {
          return;
        }
        var ok, c;
        ok, c, stopped := Round(resync, now, r);
        changed := changed || c;
        if stopped || !ok || !again {
          return;
        }
      }
    }

    predicate Told(full: bool, now: int, r: Reply)
      reads this
    {
      Answers(Theirs(), num, Since(full, now), if full then None else etag, r)
    }

    /** The seq the next call asks changes from: 0 when it asks for the whole list. */
    function Since(full: bool, now: int): nat
      reads this
    {
      if |deltas| >= MAX_DELTAS || now - fullAt >= FULL_EVERY || full then 0 else num
    }

    /** Opens what is stored: the section, if it is the one held and its record verifies, and the deltas. */
    method OpenBlocklist(intact: bool) returns (r: Opt<(Section, seq<Delta>)>)
      requires Valid()
      ensures r.Some? <==> intact && Opens(Now())
      ensures r.Some? ==> r.v == (rep.v, deltas)
    {
      if rep.None? || !intact || etag != Some(rep.v.etag) {
        return None;
      }
      var n := rep.v.num;
      for i := 0 to |deltas|
        invariant n == if i == 0 then rep.v.num else deltas[i - 1].num
        invariant Rising(rep.v.num, deltas[..i])
      {
        if deltas[i].num <= n {
          return None;
        }
        n := deltas[i].num;
      }
      assert deltas[..|deltas|] == deltas;
      r := Some((rep.v, deltas));
    }

    /** A stored blocklist that no longer verifies is asked for again, whole. */
    method Recheck(intact: bool)
      requires Valid()
      modifies this`num, this`etag, this`fullAt
      ensures Valid() && Now() == Rechecked(old(Now()), intact)
      ensures etag != old(etag) ==> forall full, at :: Since(full, at) == 0
    {
      if etag.Some? {
        var bl := OpenBlocklist(intact);
        if bl.None? {
          etag, num, fullAt := None, 0, 0;
        }
      }
    }

    /** Writes the list from what is stored, delta by delta, each entry once, in order: MAIN's list at the seq
        held, where what is held is in step. */
    method Materialise(intact: bool) returns (out: Opt<seq<Ip>>)
      requires Valid()
      ensures out.Some? <==> intact && Opens(Now())
      ensures out.Some? ==> Sorted(Leq, out.v) && Ips(out.v) == Made(Now()) && |out.v| == |Ips(out.v)|
      ensures out.Some? && InStep(Theirs(), Now()) ==> Ips(out.v) == main(num)
    {
      var bl := OpenBlocklist(intact);
      if bl.None? {
        return None;
      }
      var (section, ds) := bl.v;
      var list := Add({}, section.ips);
      for i := 0 to |ds|
        invariant list == AfterAll(Ips(section.ips), ds[..i])
      {
        assert ds[..i + 1][..i] == ds[..i];
        list := Remove(list, ds[i].remove);
        list := Add(list, ds[i].add);
      }
      assert ds[..|ds|] == ds;
      var ips := Listed(list);
      SortedLists(ips);
      out := Some(Sort(Leq, ips));
    }
  }

  method Add(list: set<Ip>, ips: seq<Ip>) returns (r: set<Ip>)
    ensures r == list + Ips(ips)
  {
    r := list;
    for i := 0 to |ips|
      invariant r == list + Ips(ips[..i])
    {
      assert ips[..i + 1] == ips[..i] + [ips[i]];
      r := r + {ips[i]};
    }
    assert ips[..|ips|] == ips;
  }

  method Remove(list: set<Ip>, ips: seq<Ip>) returns (r: set<Ip>)
    ensures r == list - Ips(ips)
  {
    r := list;
    for i := 0 to |ips|
      invariant r == list - Ips(ips[..i])
    {
      assert ips[..i + 1] == ips[..i] + [ips[i]];
      r := r - {ips[i]};
    }
    assert ips[..|ips|] == ips;
  }

  /** The entries of a set, in whatever order. */
  method Listed(list: set<Ip>) returns (ips: seq<Ip>)
    ensures Ips(ips) == list && |ips| == |list|
  {
    ips := [];
    var rest := list;
    while rest != {}
      invariant rest <= list && Ips(ips) == list - rest && |ips| == |list| - |rest|
      decreases |rest|
    {
      var x :| x in rest;
      assert Ips(ips + [x]) == Ips(ips) + {x};
      assert |rest - {x}| == |rest| - 1;
      ips, rest := ips + [x], rest - {x};
    }
  }

  lemma {:induction false} SortedLists(ips: seq<Ip>)
    ensures var s := Sort(Leq, ips); Sorted(Leq, s) && Ips(s) == Ips(ips) && |s| == |ips|
  {
    BytesOrdered();
    SortIs(Leq, ips);
    var s := Sort(Leq, ips);
    assert |s| == |multiset(s)| == |multiset(ips)| == |ips|;
    forall x ensures x in s <==> x in ips {
      assert x in s <==> x in multiset(s);
      assert x in ips <==> x in multiset(ips);
    }
  }
}
