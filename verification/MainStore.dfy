/** What MAIN keeps of a lane's events: the meaning compaction must preserve.

- a row per slot key: what an event says besides its merging part is the latest event's, and the
  merging part is last-writer-wins per field;
- a connection per viewer: an upsert creates or overwrites it whole and releases the viewer's
  reservation, a remove or a close deletes it;
- a history: for every other event, and for every remove and close, what MAIN could see of its
  viewers when it applied it. A close or remove also sees that viewer's own record whole
  (conn.close writes its activity row from it). */
module MainStore {
  import opened Maps
  import opened SpoolEvents

  datatype Row = Row(rest: Fields, merged: Fields)

  datatype Seen = Seen(ev: Event, views: map<string, Mark>, own: Opt<Conn>, released: set<string>)

  datatype Store = Store(
    rows: map<string, Row>,
    conns: map<string, Conn>,
    released: set<string>,
    history: seq<Seen>)

  /** The viewers, but for their hls_last_read. */
  function Views(conns: map<string, Conn>): map<string, Mark> {
    map u | u in conns :: MarkOf(conns[u])
  }

  function RowAfter(was: Opt<Row>, it: Item): Row
    requires it.c.Slot?
  {
    var c := it.c;
    if c.part == "" then Row(c.d, map[])
    else Row(c.d - {c.part}, (if was.Some? then was.v.merged else map[]) + PartOf(it))
  }

  function Apply(st: Store, it: Item): Store {
    match it.c
    case Keep =>
      st.(history := st.history + [Seen(it.e, Views(st.conns), None, st.released)])
    case Slot(k, _, _) =>
      st.(rows := st.rows[k := RowAfter(At(st.rows, k), it)])
    case Upsert(u, conn) =>
      st.(conns := st.conns[u := conn], released := st.released + {u})
    case ConnEnd(u) =>
      st.(conns := st.conns - {u},
          history := st.history + [Seen(it.e, Views(st.conns), At(st.conns, u), st.released)])
  }

  function Replay(st: Store, its: seq<Item>): Store {
    if its == [] then st else Apply(Replay(st, its[..|its| - 1]), its[|its| - 1])
  }

  lemma ReplayOne(st: Store, its: seq<Item>, it: Item)
    ensures Replay(st, its + [it]) == Apply(Replay(st, its), it)
  {
    assert (its + [it])[..|its|] == its;
  }

  /** Replaying a concatenation is replaying one after the other. */
  lemma {:induction false} ReplayConcat(st: Store, a: seq<Item>, b: seq<Item>)
    ensures Replay(st, a + b) == Replay(Replay(st, a), b)
  {
    if b == [] {
      assert a + b == a;
    } else {
      var b' := b[..|b| - 1];
      assert a + b == (a + b') + [b[|b| - 1]];
      ReplayOne(st, a + b', b[|b| - 1]);
      ReplayConcat(st, a, b');
    }
  }
}
