/** It does happen that a merged event fits no batch: two states of a node, each a line a batch has room
for, whose merge none has. Neither is read back from the compaction. */
module MergedTooLong {
  import opened Maps
  import opened SpoolEvents
  import opened Compaction
  import opened ReadBack
  import opened Stage
  import opened StageRead
  import opened JsonLength

  const MAX_BATCH_BYTES := 0x10_0000
  const LONG := 600000

  predicate Plain(s: string) {
    forall i | 0 <= i < |s| :: CharLength(s[i]) == 1
  }

  lemma {:induction false} PlainLength(s: string)
    requires Plain(s)
    ensures StringLength(s) == |s| + 2
  {
    if s != "" {
      PlainLength(s[..|s| - 1]);
    }
  }

  function Xs(n: nat): string {
    seq(n, _ => 'x')
  }

  /** A node's state with one field. */
  function State(field: string): Event {
    Event("node.state", Obj(map["fields" := Obj(map[field := Str(Xs(LONG))])]), map[])
  }

  /** The states of two fields merged. */
  function Both(a: string, b: string): Event {
    Event("node.state", Obj(map["fields" := Obj(map[a := Str(Xs(LONG)), b := Str(Xs(LONG))])]), map[])
  }

  ghost function Member(k: string, v: Json): nat {
    StringLength(k) + 1 + Length(v)
  }

  lemma {:induction false} OneMember(k: string, v: Json)
    ensures Length(Obj(map[k := v])) == 2 + Member(k, v)
  {
    var j := Obj(map[k := v]);
    assert j.fields.Keys == {k} && |j.fields| == |j.fields.Keys|;
    KeyOf(j, k);
  }

  lemma {:induction false} KeyOf(j: Json, k: string)
    requires j.Obj? && k in j.fields
    ensures FieldsLength(j, {k}) == Member(k, j.fields[k])
  {
    var k' :| k' in {k} && FieldsLength(j, {k}) == Member(k', j.fields[k']) + FieldsLength(j, {k} - {k'});
    assert {k} - {k'} == {};
  }

  lemma {:induction false} TwoMembers(k: string, v: Json, l: string, u: Json)
    requires k != l
    ensures Length(Obj(map[k := v, l := u])) == 3 + Member(k, v) + Member(l, u)
  {
    var j := Obj(map[k := v, l := u]);
    assert j.fields.Keys == {k, l} && |j.fields| == |j.fields.Keys| == 2;
    var m :| m in {k, l} && FieldsLength(j, {k, l}) == Member(m, j.fields[m]) + FieldsLength(j, {k, l} - {m});
    assert {k, l} - {k} == {l} && {k, l} - {l} == {k};
    KeyOf(j, k);
    KeyOf(j, l);
  }

  lemma {:induction false} StateLength(fields: Json)
    ensures EventLength(Event("node.state", Obj(map["fields" := fields]), map[])) == Length(fields) + 37
  {
    var e := Event("node.state", Obj(map["fields" := fields]), map[]);
    MembersLength();
    OneMember("fields", fields);
    TwoMembers("type", Str("node.state"), "d", e.d);
    assert e.other["type" := Str(e.typ)]["d" := e.d] == map["type" := Str("node.state"), "d" := e.d];
  }

  lemma {:induction false} MembersLength()
    ensures StringLength("type") == 6 && StringLength("node.state") == 12 && StringLength("d") == 3
    ensures StringLength("fields") == 8
  {
    PlainLength("type");
    PlainLength("node.state");
    PlainLength("d");
    PlainLength("fields");
  }

  lemma {:induction false} Lengths(a: string, b: string)
    requires Plain(a) && Plain(b) && a != b && |a| <= 64 && |b| <= 64
    ensures EventLength(State(a)) <= MAX_BATCH_BYTES && EventLength(State(b)) <= MAX_BATCH_BYTES
    ensures EventLength(Both(a, b)) > MAX_BATCH_BYTES
  {
    var v := Str(Xs(LONG));
    PlainLength(Xs(LONG));
    PlainLength(a);
    PlainLength(b);
    OneMember(a, v);
    OneMember(b, v);
    TwoMembers(a, v, b, v);
    StateLength(Obj(map[a := v]));
    StateLength(Obj(map[b := v]));
    StateLength(Obj(map[a := v, b := v]));
  }

  lemma {:induction false} BothMerged(a: string, b: string)
    requires a != b
    ensures var its := Items([State(a), State(b)]); Merges(its, 1) && MergedEvent(its, 1) == Both(a, b)
  {
    var its := Items([State(a), State(b)]);
    var ia, ib := its[0], its[1];
    assert OfSlot(ia, "node") && OfSlot(ib, "node") && ib.c.part == "fields";
    assert its[..1] == [ia] && its[..1][..0] == [];
    assert CountOf(its[..1], "node") == CountOf([], "node") + 1;
    assert Merged(its[..1], "node") == map[] + PartOf(ia);
    assert PartOf(ia) == map[a := Str(Xs(LONG))] && PartOf(ib) == map[b := Str(Xs(LONG))];
    assert Merged(its, "node") == map[a := Str(Xs(LONG)), b := Str(Xs(LONG))];
    assert ib.c.d["fields" := Obj(Merged(its, "node"))] == map["fields" := Obj(Merged(its, "node"))];
  }

  lemma {:induction false} BothAreRead(a: Line, b: Line, maxBytes: nat)
    requires Takes(a, maxBytes) && Takes(b, maxBytes)
    ensures EventsTaken([[a, b]], maxBytes) == [a.e, b.e]
  {
    ReadsFlat([[a, b]], maxBytes);
    var files := [[a, b]];
    assert files[..|files| - 1] == [] && Flat(files) == Flat([]) + files[0];
    assert Flat(files) == [a] + [b];
    ReadFileConcat([a], [b], maxBytes);
    OneRead(a, maxBytes);
    OneRead(b, maxBytes);
  }

  /** Two states of a node, of lines short enough for a batch of the source's size: nothing of them is read
      back from their compaction, whatever the chunks. */
  lemma {:induction false} MergedIsLost(a: string, b: string, lim: Limits, chunks: seq<seq<Line>>)
    requires Plain(a) && Plain(b) && a != b && |a| <= 64 && |b| <= 64
    requires lim.maxBytes == MAX_BATCH_BYTES && forall e :: lim.encoded(e) == EventLength(e)
    requires var tail := [[Line(State(a), EventLength(State(a))), Line(State(b), EventLength(State(b)))]];
             Flat(chunks) == LinesOut(TakenOf(tail, lim.maxBytes), lim, |TakenOf(tail, lim.maxBytes)|)
    ensures var tail := [[Line(State(a), EventLength(State(a))), Line(State(b), EventLength(State(b)))]];
            && EventsTaken(tail, lim.maxBytes) == [State(a), State(b)]
            && EventsTaken(chunks, lim.maxBytes) == []
  {
    var la, lb := Line(State(a), EventLength(State(a))), Line(State(b), EventLength(State(b)));
    var evs := [State(a), State(b)];
    Lengths(a, b);
    BothAreRead(la, lb, lim.maxBytes);
    ChunksReadAs([[la, lb]], lim, chunks);
    NothingRead(a, b, Room(lim));
  }

  lemma {:induction false} NothingRead(a: string, b: string, fits: Event -> bool)
    requires a != b && !fits(Both(a, b))
    ensures CompactRead([State(a), State(b)], fits) == []
  {
    var its := Items([State(a), State(b)]);
    BothMerged(a, b);
    assert OfSlot(its[0], "node") && OfSlot(its[1], "node");
    assert Back(its, 0, fits).None? && Back(its, 1, fits).None?;
    assert Backs(its, 1, fits) == Backs(its, 0, fits) + [] && Backs(its, 2, fits) == Backs(its, 1, fits) + [];
  }
}
