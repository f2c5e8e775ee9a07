/** How many bytes an event takes on a spool line, as json.Marshal writes it. */
module JsonLength {
  import opened SpoolEvents

  /** A character within a string: escaped, or in UTF-8. */
  function CharLength(c: char): nat {
    if c == '"' || c == '\\' || c == '\n' || c == '\r' || c == '\t' then 2
    else if c < ' ' || c == '<' || c == '>' || c == '&' then 6
    else if c as int < 0x80 then 1
    else if c as int < 0x800 then 2
    else if c as int == 0x2028 || c as int == 0x2029 then 6
    else if c as int < 0x1_0000 then 3
    else 4
  }

  function TextLength(s: string): nat {
    if s == "" then 0 else TextLength(s[..|s| - 1]) + CharLength(s[|s| - 1])
  }

  function StringLength(s: string): nat {
    TextLength(s) + 2
  }

  ghost function Length(j: Json): nat
    decreases j, 1, 0
  {
    match j
    case Null => 4
    case Bool(b) => if b then 4 else 5
    case Num(n) => |Sprint(j)|
    case Str(s) => StringLength(s)
    case Arr(items) => Brackets(|items|) + ItemsLength(j, |items|)
    case Obj(fields) => Brackets(|fields|) + FieldsLength(j, fields.Keys)
  }

  /** The brackets and the commas. */
  function Brackets(n: nat): nat {
    if n == 0 then 2 else n + 1
  }

  ghost function ItemsLength(j: Json, n: nat): nat
    requires j.Arr? && n <= |j.items|
    decreases j, 0, n
  {
    if n == 0 then 0 else ItemsLength(j, n - 1) + Length(j.items[n - 1])
  }

  /** The members named, in whatever order. */
  ghost function FieldsLength(j: Json, ks: set<string>): nat
    requires j.Obj? && ks <= j.fields.Keys
    decreases j, 0, |ks|
  {
    if ks == {} then 0
    else
      var k :| k in ks;
      StringLength(k) + 1 + Length(j.fields[k]) + FieldsLength(j, ks - {k})
  }

  /** An event's line: its type, its d and its other keys, as one object. */
  ghost function EventLength(e: Event): nat {
    Length(Obj(e.other["type" := Str(e.typ)]["d" := e.d]))
  }
}
