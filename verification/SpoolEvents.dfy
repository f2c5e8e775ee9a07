/** The events of a spool lane and how compaction reads them (compact.go, `classify`).

A spool line is modelled after JSON parsing: its type, its `d`, and its other top-level keys.
A missing `d` is `Null`, which the source treats alike. */
module SpoolEvents {

  datatype Json =
    | Null
    | Bool(b: bool)
    | Num(n: int)
    | Str(s: string)
    | Arr(items: seq<Json>)
    | Obj(fields: map<string, Json>)

  type Fields = map<string, Json>

  datatype Event = Event(typ: string, d: Json, other: Fields)

  /** What compaction and MAIN take an event for. */
  datatype Class =
    | Keep
    | Slot(key: string, part: string, d: Fields)
    | Upsert(uuid: string, conn: Conn)
    | ConnEnd(viewer: string)

  /** A connection as an upsert carries it: the record, and what the event's d says besides. */
  datatype Conn = Conn(extra: Fields, rec: Fields)

  /** Two upserts of one viewer with the same mark differ in hls_last_read alone. The source keeps
      an SHA-256 of an injective encoding; here the mark is the encoded value itself. */
  datatype Mark = Mark(extra: Fields, rec: Fields)

  /** An event together with what it is taken for. */
  datatype Item = Item(c: Class, e: Event)

  const HLS_LAST_READ := "hls_last_read"

  function Digits(n: nat): string {
    if n < 10 then ["0123456789"[n]] else Digits(n / 10) + ["0123456789"[n % 10]]
  }

  /** Go's fmt.Sprint of a decoded value. */
  function Sprint(j: Json): string {
    match j
    case Null => "<nil>"
    case Bool(b) => if b then "true" else "false"
    case Num(n) => if n < 0 then "-" + Digits(-n) else Digits(n)
    case Str(s) => s
    case Arr(_) => "[]"
    case Obj(_) => "map[]"
  }

  function Field(d: Fields, k: string): Json {
    if k in d then d[k] else Null
  }

  function Id(d: Fields, k: string): string {
    Sprint(Field(d, k))
  }

  predicate ConnUuidChar(c: char) {
    'A' <= c <= 'Z' || 'a' <= c <= 'z' || '0' <= c <= '9' || c == '_' || c == '-'
  }

  /** registry.go's connUUID: 1 to 64 of [A-Za-z0-9_-]. */
  predicate IsConnUuid(s: string) {
    1 <= |s| <= 64 && forall i | 0 <= i < |s| :: ConnUuidChar(s[i])
  }

  /** A line readSpoolFile would take: an object with a type. */
  predicate Readable(e: Event) {
    e.typ != ""
  }

  predicate IsUpsertOfViewer(d: Fields) {
    && Field(d, "record").Obj?
    && Field(d["record"].fields, "uuid").Str?
    && IsConnUuid(d["record"].fields["uuid"].s)
  }

  function Classify(e: Event): Class {
    if !e.d.Obj? then Keep
    else
      var d := e.d.fields;
      if e.typ == "stream.state" then
        if "ssid" in d then Slot("state:r" + Id(d, "ssid"), "fields", d)
        else Slot("state:s" + Id(d, "stream_id") + ":" + Id(d, "server_id"), "fields", d)
      else if e.typ == "stream.monitor" then Slot("monitor:" + Id(d, "stream_id"), "", d)
      else if e.typ == "stream.worker" then
        Slot("worker:" + Id(d, "stream_id") + ":" + Id(d, "worker"), "", d)
      else if e.typ == "recording.state" then Slot("recording:" + Id(d, "id"), "", d)
      else if e.typ == "vod.analysis" then Slot("vod:" + Id(d, "stream_id"), "props", d)
      else if e.typ == "node.state" then Slot("node", "fields", d)
      else if e.typ == "conn.upsert" then
        if !IsUpsertOfViewer(d) then Keep
        else
          var rec := d["record"].fields;
          Upsert(rec["uuid"].s, Conn(d - {"record"}, rec))
      else if e.typ == "conn.remove" || e.typ == "conn.close" then
        // An explicit null decodes into the empty string; a missing uuid does not decode.
        if "uuid" in d && d["uuid"].Str? then ConnEnd(d["uuid"].s)
        else if "uuid" in d && d["uuid"].Null? then ConnEnd("")
        else Keep
      else Keep
  }

  function Classified(e: Event): Item {
    Item(Classify(e), e)
  }

  function Items(evs: seq<Event>): (r: seq<Item>)
    ensures |r| == |evs|
    ensures forall i | 0 <= i < |evs| :: r[i] == Classified(evs[i])
  {
    seq(|evs|, i requires 0 <= i < |evs| => Classified(evs[i]))
  }

  function Events(its: seq<Item>): (r: seq<Event>)
    ensures |r| == |its|
    ensures forall i | 0 <= i < |its| :: r[i] == its[i].e
  {
    seq(|its|, i requires 0 <= i < |its| => its[i].e)
  }

  function MarkOf(c: Conn): Mark {
    Mark(c.extra, c.rec - {HLS_LAST_READ})
  }

  /** The part of a slot event that merges; one that is not an object merges nothing. */
  function PartOf(it: Item): Fields {
    match it.c
    case Slot(_, part, d) => if part != "" && Field(d, part).Obj? then d[part].fields else map[]
    case _ => map[]
  }

  /** compact.go, `withPart`: the event with its merging part replaced. */
  function WithPart(it: Item, merged: Fields): Item
    requires it.c.Slot?
  {
    var d := it.c.d[it.c.part := Obj(merged)];
    Item(it.c.(d := d), it.e.(d := Obj(d)))
  }

  /** The event concerns viewer u, as the runs see it. */
  predicate About(it: Item, u: string) {
    match it.c
    case Upsert(v, _) => v == u
    case ConnEnd(v) => v == u
    case _ => false
  }

  predicate OfSlot(it: Item, k: string) {
    it.c.Slot? && it.c.key == k
  }

  predicate SameRun(a: Item, b: Item) {
    a.c.Upsert? && b.c.Upsert? && a.c.uuid == b.c.uuid && MarkOf(a.c.conn) == MarkOf(b.c.conn)
  }

  /** A key's first letter says which part of its events merges. */
  function PartByInitial(c: char): string {
    if c == 's' || c == 'n' then "fields" else if c == 'v' then "props" else ""
  }

  /** What Classify's results keep to. */
  predicate Proper(it: Item) {
    it.c.Slot? ==> it.c.key != "" && it.c.part == PartByInitial(it.c.key[0])
  }

  lemma ClassifyProper(e: Event)
    ensures Proper(Classified(e))
  {
  }

  /** What an event taken for an upsert or an end of a viewer says, and of which. */
  predicate OfViewer(e: Event, c: Class) {
    match c
    case Upsert(u, conn) =>
      && e.typ == "conn.upsert" && e.d.Obj? && Field(e.d.fields, "record") == Obj(conn.rec)
      && conn.extra == e.d.fields - {"record"} && Field(conn.rec, "uuid") == Str(u) && IsConnUuid(u)
    case ConnEnd(u) =>
      && (e.typ == "conn.remove" || e.typ == "conn.close") && e.d.Obj? && "uuid" in e.d.fields
      && (e.d.fields["uuid"] == Str(u) || (e.d.fields["uuid"].Null? && u == ""))
    case _ => true
  }

  /** An event is taken for an upsert or an end exactly when it names a viewer as one, and for that viewer's. */
  lemma ClassifyViewers(e: Event)
    ensures OfViewer(e, Classify(e))
    ensures forall c: Class | c.Upsert? || c.ConnEnd? :: OfViewer(e, c) ==> Classify(e) == c
  {
  }

  /** Replacing the merging part keeps what an event is and everything else it says. */
  lemma WithPartClassifies(e: Event, merged: Fields)
    requires Classify(e).Slot? && Classify(e).part != ""
    ensures Classified(WithPart(Classified(e), merged).e) == WithPart(Classified(e), merged)
  {
    var c := Classify(e);
    var d := e.d.fields;
    assert c.part == "fields" || c.part == "props";
    var d' := d[c.part := Obj(merged)];
    assert "ssid" in d' <==> "ssid" in d;
    assert Field(d', "ssid") == Field(d, "ssid");
    assert Field(d', "stream_id") == Field(d, "stream_id");
    assert Field(d', "server_id") == Field(d, "server_id");
  }
}
