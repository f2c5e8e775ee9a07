/** MAIN's side of the `streams` op, as the agent may rely on it: a map of records each with the version
of its last change, and what a reply may say of it. An ETag is the SHA-256 of a record's data, taken as
injective: here it is the data itself. */
module StreamsMain {
  import opened Maps

  type Data = string

  const MAX_STREAM_ID := 2147483647

  /** A stream's row: the version of its last change, and its data while the node holds it. */
  datatype StreamRow = StreamRow(ver: nat, data: Opt<Data>)

  /** head is the counter of all changes; rows changed below floor may have been forgotten. */
  datatype Main = Main(head: nat, floor: nat, rows: map<int, StreamRow>)

  /** A stored record: the etag and the data of its .json, and what its .rep opens to; an etag that cannot
      be read, or a .rep that does not open and verify, is None. */
  datatype Stored = Stored(etag: Opt<Data>, data: Data, rep: Opt<Data>)

  /** A record as it is stored when it comes. */
  function AsSigned(d: Data): Stored {
    Stored(Some(d), d, Some(d))
  }

  type Held = map<int, Stored>

  /** A record of a reply: what it says once opened and verified, None if it does not verify. */
  datatype Entry = Entry(id: int, rec: Opt<Data>)

  datatype Reply = Reply(
    ver: nat, head: nat, more: bool, full: bool, next: Opt<int>,
    streams: seq<Entry>, removed: set<int>, withheld: nat)

  predicate IsId(id: int) {
    1 <= id <= MAX_STREAM_ID
  }

  predicate MainOk(m: Main) {
    m.floor <= m.head && forall id | id in m.rows :: IsId(id) && m.rows[id].ver <= m.head
  }

  function DataOf(m: Main, id: int): Opt<Data> {
    if id in m.rows then m.rows[id].data else None
  }

  function VerOf(m: Main, id: int): int {
    if id in m.rows then m.rows[id].ver else -1
  }

  /** What MAIN may become: a change has a version past the head, and a row it forgets is one of a
      stream the node does not hold, below the floor. */
  predicate Grown(m: Main, m': Main) {
    && MainOk(m') && m.head <= m'.head && m.floor <= m'.floor
    && forall id | id in m.rows.Keys + m'.rows.Keys :: Moved(m, m', id)
  }

  predicate Moved(m: Main, m': Main, id: int) {
    || At(m'.rows, id) == At(m.rows, id)
    || (id in m'.rows && m.head < m'.rows[id].ver)
    || (id !in m'.rows && id in m.rows && m.rows[id].data.None? && m.rows[id].ver < m'.floor)
    || (id !in m'.rows && m.head < m'.floor)
  }

  lemma {:induction false} AnyMoved(m: Main, m': Main, id: int)
    requires Grown(m, m')
    ensures Moved(m, m', id)
  {
    if id in m.rows.Keys + m'.rows.Keys {
      assert Moved(m, m', id);
    }
  }

  lemma {:induction false} GrownTwice(a: Main, b: Main, c: Main)
    requires MainOk(a) && Grown(a, b) && Grown(b, c)
    ensures Grown(a, c)
  {
    forall id | id in a.rows.Keys + c.rows.Keys ensures Moved(a, c, id) {
      AnyMoved(a, b, id);
      AnyMoved(b, c, id);
    }
  }

  // ---------------------------------------------------------------- what a reply stores

  /** The last record of stream id among the reply's. */
  function Latest(es: seq<Entry>, id: int): Opt<Data> {
    if es == [] then None
    else
      var e := es[|es| - 1];
      if e.id == id && e.rec.Some? then e.rec else Latest(es[..|es| - 1], id)
  }

  function AfterEntries(held: Held, es: seq<Entry>, id: int): Opt<Stored> {
    match Latest(es, id)
    case Some(d) => Some(AsSigned(d))
    case None => At(held, id)
  }

  function AfterReply(held: Held, r: Reply, id: int): Opt<Stored> {
    if id in r.removed then None else AfterEntries(held, r.streams, id)
  }

  predicate Verifies(r: Reply) {
    && (forall i | 0 <= i < |r.streams| :: r.streams[i].rec.Some?)
    && (forall id | id in r.removed :: id >= 1)
  }

  /** Stream id is held exactly as MAIN holds it, with a readable and right etag. */
  predicate Agrees(held: Held, m: Main, id: int) {
    match DataOf(m, id)
    case Some(d) => At(held, id) == Some(AsSigned(d))
    case None => id !in held
  }

  /** The node holds exactly what MAIN says it holds. */
  ghost predicate SameAsMain(held: Held, m: Main) {
    forall id :: Agrees(held, m, id)
  }

  /** What its .json says of stream id is what MAIN has. */
  predicate AgreesText(held: Held, m: Main, id: int) {
    match DataOf(m, id)
    case Some(d) => id in held && held[id].etag == Some(d) && held[id].data == d
    case None => id !in held
  }

  /** What the .json files say is exactly what MAIN holds. */
  ghost predicate SameText(held: Held, m: Main) {
    forall id :: AgreesText(held, m, id)
  }

  /** The .json's etag can be read, and is of its data. */
  predicate Sane(s: Stored) {
    s.etag == Some(s.data)
  }

  /** What opens of the record is not what its etag says, or nothing opens. */
  predicate Damaged(s: Stored) {
    s.rep.None? || s.rep != s.etag
  }

  ghost predicate NoneDamaged(held: Held) {
    forall id | id in held :: !Damaged(held[id])
  }

  /** Where the .json files say what MAIN holds, the node holds exactly that if and only if no .rep is another's. */
  lemma {:induction false} SameIff(held: Held, m: Main)
    requires SameText(held, m)
    ensures SameAsMain(held, m) <==> NoneDamaged(held)
  {
    if SameAsMain(held, m) {
      forall id | id in held ensures !Damaged(held[id]) {
        assert Agrees(held, m, id);
      }
    }
    if NoneDamaged(held) {
      forall id ensures Agrees(held, m, id) {
        assert AgreesText(held, m, id);
      }
    }
  }

  // ---------------------------------------------------------------- MAIN's replies

  predicate Lists(r: Reply, id: int) {
    exists i | 0 <= i < |r.streams| :: r.streams[i].id == id
  }

  /** Records that verify are MAIN's, and only what it does not hold is removed. */
  predicate Honest(m: Main, r: Reply) {
    && (forall i | 0 <= i < |r.streams| && r.streams[i].rec.Some? :: r.streams[i].rec == DataOf(m, r.streams[i].id))
    && (forall id | id in r.removed :: IsId(id) && DataOf(m, id).None?)
  }

  /** Where MAIN says the page it answered for ends. */
  function PageEnd(r: Reply, to: int): int {
    if r.next.Some? then r.next.v else to + 1
  }

  /** What a walk's page must say of stream id. */
  predicate Answered(m: Main, hashes: map<int, Data>, r: Reply, id: int) {
    match DataOf(m, id)
    case Some(d) => At(hashes, id) == Some(d) || Lists(r, id)
    case None => id in hashes ==> id in r.removed
  }

  /** A page of the range walk: what it says is right, and, nothing being withheld, whole up to its end. */
  predicate WalkReply(m: Main, from: int, to: int, hashes: map<int, Data>, r: Reply) {
    && Honest(m, r) && r.head == m.head
    && (forall i | 0 <= i < |r.streams| :: from <= r.streams[i].id <= to)
    && (forall id | id in r.removed :: id in hashes)
    && (r.withheld == 0 ==> forall id | id in m.rows.Keys + hashes.Keys && from <= id < PageEnd(r, to) ::
        Answered(m, hashes, r, id))
  }

  /** What changed after since and up to r.ver; everything, unless there is more or something is withheld. */
  predicate DeltaReply(m: Main, since: nat, r: Reply) {
    && (r.full <==> since == 0 || since < m.floor || since > m.head)
    && (!r.full ==>
          && Honest(m, r) && since <= r.ver <= m.head
          && (forall id | id in m.rows && since < m.rows[id].ver <= r.ver ::
                if m.rows[id].data.Some? then Lists(r, id) else id in r.removed)
          && (!r.more && r.withheld == 0 ==> forall id | id in m.rows :: m.rows[id].ver <= r.ver))
  }

  // ---------------------------------------------------------------- what replies make of what is held

  lemma {:induction false} LatestIsMains(m: Main, es: seq<Entry>, id: int)
    requires forall i | 0 <= i < |es| && es[i].rec.Some? :: es[i].rec == DataOf(m, es[i].id)
    ensures Latest(es, id).Some? ==> Latest(es, id) == DataOf(m, id)
  {
    if es != [] {
      LatestIsMains(m, es[..|es| - 1], id);
    }
  }

  lemma {:induction false} ListedIsLatest(es: seq<Entry>, id: int, i: nat)
    requires i < |es| && es[i].id == id && es[i].rec.Some?
    ensures Latest(es, id).Some?
  {
    if i < |es| - 1 {
      ListedIsLatest(es[..|es| - 1], id, i);
    }
  }

  /** A reply leaves a stream as it was, or as MAIN has it. */
  lemma {:induction false} RepliesAgree(m: Main, held: Held, r: Reply, held': Held, id: int)
    requires Honest(m, r) && At(held', id) == AfterReply(held, r, id)
    ensures At(held', id) == At(held, id) || Agrees(held', m, id)
  {
    LatestIsMains(m, r.streams, id);
  }

  lemma {:induction false} ListedAgrees(m: Main, held: Held, r: Reply, held': Held, id: int)
    requires Honest(m, r) && Verifies(r) && At(held', id) == AfterReply(held, r, id)
    requires if DataOf(m, id).Some? then Lists(r, id) else id in r.removed
    ensures Agrees(held', m, id)
  {
    LatestIsMains(m, r.streams, id);
    if DataOf(m, id).Some? {
      var i :| 0 <= i < |r.streams| && r.streams[i].id == id;
      ListedIsLatest(r.streams, id, i);
    }
  }

  /** The etags a walk's call names: of the held streams in the range that did not fail their check. */
  function Named(held: Held, bad: set<int>, from: int, to: int): map<int, Data> {
    map id | id in held && from <= id <= to && id !in bad && held[id].etag.Some? :: held[id].etag.v
  }

  predicate Nameable(held: Held, bad: set<int>, id: int) {
    id in held && id !in bad && held[id].etag.Some?
  }

  predicate Good(s: Stored) {
    s == AsSigned(s.data)
  }

  /** A page answered in full leaves a stream as MAIN has it, unless MAIN does not hold it and was not
      told that the node does. */
  lemma {:induction false} PageAgrees(
      m: Main, held: Held, bad: set<int>, from: int, to: int, r: Reply, held': Held, id: int)
    requires WalkReply(m, from, to, Named(held, bad, from, to), r) && r.withheld == 0 && Verifies(r)
    requires from <= id < PageEnd(r, to) && id <= to
    requires At(held', id) == AfterReply(held, r, id)
    requires Nameable(held, bad, id) ==> Good(held[id]) || DataOf(m, id).None?
    ensures || Agrees(held', m, id)
            || (DataOf(m, id).None? && id in held && !Nameable(held, bad, id) && At(held', id) == At(held, id))
  {
    RepliesAgree(m, held, r, held', id);
    if id in m.rows || Nameable(held, bad, id) {
      assert Answered(m, Named(held, bad, from, to), r, id);
      if DataOf(m, id).Some? && Lists(r, id) {
        ListedAgrees(m, held, r, held', id);
      }
    }
  }

  /** The .json of a stream in the page is then as MAIN has it, if it was a sane one's, or there was none. */
  lemma {:induction false} PageAgreesText(
      m: Main, held: Held, bad: set<int>, from: int, to: int, r: Reply, held': Held, id: int)
    requires WalkReply(m, from, to, Named(held, bad, from, to), r) && r.withheld == 0 && Verifies(r)
    requires from <= id < PageEnd(r, to) && id <= to && id !in bad && (id in held ==> Sane(held[id]))
    requires At(held', id) == AfterReply(held, r, id)
    ensures AgreesText(held', m, id)
  {
    RepliesAgree(m, held, r, held', id);
    if id in m.rows || Nameable(held, bad, id) {
      assert Answered(m, Named(held, bad, from, to), r, id);
      if DataOf(m, id).Some? && Lists(r, id) {
        ListedAgrees(m, held, r, held', id);
      }
    }
  }

  /** A record whose .json and .rep were of two versions, named in a page by its .json's etag, is as MAIN has it
      afterwards exactly when MAIN has not changed the stream back to that, or sends it all the same. */
  lemma {:induction false} HalfHealsIff(
      m: Main, held: Held, bad: set<int>, from: int, to: int, r: Reply, held': Held, id: int)
    requires WalkReply(m, from, to, Named(held, bad, from, to), r) && r.withheld == 0 && Verifies(r)
    requires from <= id < PageEnd(r, to) && id <= to && Nameable(held, bad, id) && Damaged(held[id])
    requires At(held', id) == AfterReply(held, r, id)
    ensures Agrees(held', m, id) <==> DataOf(m, id) != held[id].etag || Lists(r, id)
  {
    RepliesAgree(m, held, r, held', id);
    assert Answered(m, Named(held, bad, from, to), r, id);
    if DataOf(m, id).Some? && Lists(r, id) {
      ListedAgrees(m, held, r, held', id);
    } else if DataOf(m, id) == held[id].etag {
      NotListed(r.streams, id);
      assert id !in r.removed;
    }
  }

  lemma {:induction false} NotListed(es: seq<Entry>, id: int)
    requires forall i | 0 <= i < |es| :: es[i].id != id
    ensures Latest(es, id).None?
  {
    if es != [] {
      NotListed(es[..|es| - 1], id);
    }
  }

  // ---------------------------------------------------------------- versions

  /** Stream id's .json is as MAIN has it, or it changed past version h; below the floor nothing is claimed. */
  predicate Fresh(held: Held, m: Main, id: int, h: nat) {
    h < m.floor || AgreesText(held, m, id) || VerOf(m, id) > h
  }

  lemma {:induction false} StaysFresh(held: Held, m: Main, m': Main, id: int, h: nat)
    requires Fresh(held, m, id, h) && h <= m.head && m.floor <= m'.floor && Moved(m, m', id)
    ensures Fresh(held, m', id, h)
  {
  }

  /** After a delta a stream's .json is as MAIN has it, or MAIN changed it later; after the last, as MAIN has it. */
  lemma {:induction false} DeltaFreshens(m: Main, held: Held, since: nat, r: Reply, held': Held, id: int)
    requires DeltaReply(m, since, r) && !r.full && Verifies(r) && Fresh(held, m, id, since)
    requires At(held', id) == AfterReply(held, r, id)
    ensures Fresh(held', m, id, r.ver)
    ensures !r.more && r.withheld == 0 ==> AgreesText(held', m, id)
  {
    RepliesAgree(m, held, r, held', id);
    if id in m.rows && since < m.rows[id].ver <= r.ver {
      ListedAgrees(m, held, r, held', id);
    }
  }

  // ---------------------------------------------------------------- the pass's cursor

  /** The cursor a full pass takes from its first reply's head. */
  function PassHead(head: nat): nat {
    if head > 1 then head else 1
  }

  /** Every change after MAIN answered is past the cursor (and so in the deltas from it) exactly when
      MAIN's counter had moved: a first reply with head 0 makes the cursor 1, and the next change,
      version 1, is never asked for. */
  lemma {:induction false} PassCursorIff(m: Main)
    requires MainOk(m)
    ensures m.head >= 1 <==>
            forall m', id | Grown(m, m') && At(m'.rows, id) != At(m.rows, id) && id in m'.rows ::
                VerOf(m', id) > PassHead(m.head)
  {
    if m.head >= 1 {
      forall m', id | Grown(m, m') && At(m'.rows, id) != At(m.rows, id) && id in m'.rows
          ensures VerOf(m', id) > PassHead(m.head) {
        AnyMoved(m, m', id);
      }
    } else {
      var id := 1;
      var m' := Main(1, m.floor, m.rows[id := StreamRow(1, Some("a"))]);
      forall x | x in m.rows.Keys + m'.rows.Keys ensures Moved(m, m', x) {
      }
      assert Grown(m, m') && At(m'.rows, id) != At(m.rows, id);
    }
  }
}
