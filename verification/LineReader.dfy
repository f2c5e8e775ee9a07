/** compact.go's `eachLine`: a file's lines read through a buffer of a fixed size, proved to be the lines
of a plain split, and `readLineAt`, which reads one of them again where it was found. */
module LineReader {
  import opened Sorting

  const NEWLINE: Byte := 10

  // ---------------------------------------------------------------- trimming (bytes.TrimSpace)

  /** How many bytes encode the white space a text begins with (unicode.IsSpace, in UTF-8); 0 if none. */
  function SpaceAtStart(s: seq<Byte>): (n: nat)
    ensures n <= |s|
  {
    if |s| >= 1 && IsAsciiSpace(s[0]) then 1
    else if |s| >= 2 && IsTwoByteSpace(s[0], s[1]) then 2
    else if |s| >= 3 && IsThreeByteSpace(s[0], s[1], s[2]) then 3
    else 0
  }

  function SpaceAtEnd(s: seq<Byte>): (n: nat)
    ensures n <= |s|
  {
    var k := |s|;
    if k >= 1 && IsAsciiSpace(s[k - 1]) then 1
    else if k >= 2 && IsTwoByteSpace(s[k - 2], s[k - 1]) then 2
    else if k >= 3 && IsThreeByteSpace(s[k - 3], s[k - 2], s[k - 1]) then 3
    else 0
  }

  predicate IsAsciiSpace(b: Byte) {
    9 <= b <= 13 || b == 32
  }

  /** U+0085 and U+00A0. */
  predicate IsTwoByteSpace(a: Byte, b: Byte) {
    a == 0xC2 && (b == 0x85 || b == 0xA0)
  }

  /** U+1680, U+2000 to U+200A, U+2028, U+2029, U+202F, U+205F and U+3000. */
  predicate IsThreeByteSpace(a: Byte, b: Byte, c: Byte) {
    || (a == 0xE1 && b == 0x9A && c == 0x80)
    || (a == 0xE2 && b == 0x80 && (0x80 <= c <= 0x8A || c == 0xA8 || c == 0xA9 || c == 0xAF))
    || (a == 0xE2 && b == 0x81 && c == 0x9F)
    || (a == 0xE3 && b == 0x80 && c == 0x80)
  }

  /** The bytes of leading white space. */
  function Lead(s: seq<Byte>): (n: nat)
    ensures n <= |s|
  {
    var k := SpaceAtStart(s);
    if k == 0 then 0 else k + Lead(s[k..])
  }

  function TrimRight(s: seq<Byte>): (r: seq<Byte>)
    ensures r <= s
  {
    var k := SpaceAtEnd(s);
    if k == 0 then s else TrimRight(s[..|s| - k])
  }

  function Trim(s: seq<Byte>): seq<Byte> {
    TrimRight(s[Lead(s)..])
  }

  /** What is left of a line once trimmed, and the bytes trimmed before it. */
  datatype Cut = Cut(lead: nat, line: seq<Byte>)

  /** How long a line may be, and how it is trimmed. */
  datatype Rules = Rules(max: nat, trim: seq<Byte> -> Cut)

  function GoRules(max: nat): Rules {
    Rules(max, (s: seq<Byte>) => Cut(Lead(s), Trim(s)))
  }

  /** What trimming leaves stands in the line, where it says. */
  predicate Cuts(c: Cut, raw: seq<Byte>) {
    c.lead + |c.line| <= |raw| && raw[c.lead..c.lead + |c.line|] == c.line
  }

  ghost predicate Trims(r: Rules) {
    forall raw :: Cuts(r.trim(raw), raw)
  }

  lemma {:induction false} GoTrims(max: nat)
    ensures Trims(GoRules(max))
  {
    forall raw ensures Cuts(GoRules(max).trim(raw), raw) {
      assert Trim(raw) <= raw[Lead(raw)..];
    }
  }

  // ---------------------------------------------------------------- a plain split

  /** A line as delivered: where it starts in the file, and its bytes. */
  datatype Found = Found(off: nat, line: seq<Byte>)

  /** Past the newline that ends the line at start, or the file's end. */
  function LineEnd(file: seq<Byte>, start: nat): (e: nat)
    requires start <= |file|
    ensures start <= e <= |file| && (start < |file| ==> start < e)
    decreases |file| - start
  {
    if start == |file| then start
    else if file[start] == NEWLINE then start + 1
    else LineEnd(file, start + 1)
  }

  /** What is delivered of a raw line (its newline, if it has one, included) that starts at start. */
  function Deliver(start: nat, raw: seq<Byte>, r: Rules): seq<Found> {
    var t := r.trim(raw);
    if |raw| <= r.max + 1 && 0 < |t.line| <= r.max then [Found(start + t.lead, t.line)] else []
  }

  /** The lines from start on: each trimmed, if it is not blank and not too long. */
  function Lines(file: seq<Byte>, start: nat, r: Rules): seq<Found>
    requires start <= |file|
    decreases |file| - start
  {
    if start == |file| then []
    else
      var e := LineEnd(file, start);
      Deliver(start, file[start..e], r) + Lines(file, e, r)
  }

  predicate NoNewline(file: seq<Byte>, i: nat, j: nat)
    requires i <= j <= |file|
  {
    forall k | i <= k < j :: file[k] != NEWLINE
  }

  lemma {:induction false} LineGoesOn(file: seq<Byte>, start: nat, pos: nat)
    requires start <= pos <= |file| && NoNewline(file, start, pos)
    ensures LineEnd(file, start) == LineEnd(file, pos)
    decreases pos - start
  {
    if start < pos {
      LineGoesOn(file, start + 1, pos);
    }
  }

  // ---------------------------------------------------------------- bufio.Reader.ReadSlice

  datatype Slice = Whole | BufferFull | Eof

  /** The bytes from pos through the next newline, or a whole buffer of them, or the file's last ones. */
  method ReadSlice(file: seq<Byte>, pos: nat, size: nat) returns (end: nat, how: Slice)
    requires pos <= |file| && size > 0
    ensures pos <= end <= |file| && end <= pos + size
    ensures match how
      case Whole => end > pos && file[end - 1] == NEWLINE && NoNewline(file, pos, end - 1)
      case BufferFull => end == pos + size && NoNewline(file, pos, end)
      case Eof => end == |file| && NoNewline(file, pos, end)
  {
    end := pos;
    while end < |file| && end < pos + size
      invariant pos <= end <= |file| && end <= pos + size && NoNewline(file, pos, end)
    {
      end := end + 1;
      if file[end - 1] == NEWLINE {
        return end, Whole;
      }
    }
    how := if end == pos + size then BufferFull else Eof;
  }

  // ---------------------------------------------------------------- eachLine

  /** What the reader holds between two slices of the line that starts at start. */
  predicate Holds(file: seq<Byte>, start: nat, pos: nat, buf: seq<Byte>, over: bool, r: Rules) {
    && start <= pos <= |file| && NoNewline(file, start, pos)
    && (if over then buf == [] && pos - start > r.max + 1 else buf == file[start..pos] && |buf| <= r.max + 1)
  }

  method DeliverLine(start: nat, line: seq<Byte>, r: Rules) returns (found: seq<Found>)
    requires |line| <= r.max + 1
    ensures found == Deliver(start, line, r)
  {
    found := [];
    var t := r.trim(line);
    if 0 < |t.line| <= r.max {
      found := [Found(start + t.lead, t.line)];
    }
  }

  /** The line's last slice is read: the line, unless it is too long. */
  method EndLine(
      ghost file: seq<Byte>, start: nat, ghost from: nat, chunk: seq<Byte>, buf: seq<Byte>, over: bool, r: Rules)
    returns (found: seq<Found>)
    requires Holds(file, start, from, buf, over, r) && from + |chunk| <= |file| && chunk == file[from..from + |chunk|]
    requires buf == [] && !over ==> |chunk| <= r.max + 1
    ensures found == Deliver(start, file[start..from + |chunk|], r)
  {
    assert file[start..from + |chunk|] == file[start..from] + chunk;
    var tooLong, line := over, chunk;
    if |buf| > 0 && !over {
      if |buf| + |chunk| <= r.max + 1 {
        line := buf + chunk;
      } else {
        tooLong := true;
      }
    }
    found := [];
    if !tooLong {
      found := DeliverLine(start, line, r);
    }
  }

  lemma {:induction false} HoldsMore(
      file: seq<Byte>, start: nat, pos: nat, end: nat, buf: seq<Byte>, over: bool, r: Rules)
    requires Holds(file, start, pos, buf, over, r) && pos <= end <= |file| && NoNewline(file, pos, end)
    requires pos == start ==> end - pos <= r.max + 1
    ensures var chunk := file[pos..end];
            if !over && |buf| + |chunk| <= r.max + 1 then Holds(file, start, end, buf + chunk, over, r)
            else Holds(file, start, end, [], true, r)
  {
    assert file[start..end] == file[start..pos] + file[pos..end];
  }

  /** One slice more: the line goes on in the buffer, or is delivered. */
  method NextSlice(file: seq<Byte>, size: nat, r: Rules, start: nat, pos: nat, buf: seq<Byte>, over: bool)
    returns (start': nat, pos': nat, buf': seq<Byte>, over': bool, found: seq<Found>, done: bool)
    requires 0 < size <= r.max + 1 && Trims(r) && Holds(file, start, pos, buf, over, r)
    ensures start' <= |file| && Lines(file, start, r) == found + Lines(file, start', r)
    ensures if done then start' == pos' == |file| else pos' > pos && Holds(file, start', pos', buf', over', r)
  {
    var how;
    pos', how := ReadSlice(file, pos, size);
    var chunk := file[pos..pos'];
    if how == BufferFull {
      HoldsMore(file, start, pos, pos', buf, over, r);
      found, done, start' := [], false, start;
      if !over && |buf| + |chunk| <= r.max + 1 {
        buf', over' := buf + chunk, over;
      } else {
        buf', over' := [], true;
      }
    } else {
      found := EndLine(file, start, pos, chunk, buf, over, r);
      LineGoesOn(file, start, pos);
      SliceEnds(file, pos, pos', how);
      LinesNext(file, start, pos', r);
      buf', over', start', done := [], false, pos', how == Eof;
    }
  }

  /** The lines before start have been delivered. */
  ghost predicate Read(file: seq<Byte>, out: seq<Found>, start: nat, r: Rules)
    requires start <= |file|
  {
    Lines(file, 0, r) == out + Lines(file, start, r)
  }

  lemma {:induction false} ReadOn(file: seq<Byte>, out: seq<Found>, from: nat, found: seq<Found>, start: nat, r: Rules)
    requires from <= |file| && start <= |file| && Read(file, out, from, r)
    requires Lines(file, from, r) == found + Lines(file, start, r)
    ensures Read(file, out + found, start, r)
  {
  }

  method EachLineBy(file: seq<Byte>, size: nat, r: Rules) returns (out: seq<Found>, read: nat)
    requires 0 < size <= r.max + 1 && Trims(r)
    ensures out == Lines(file, 0, r) && read == |file|
  {
    out := [];
    var start: nat, pos: nat := 0, 0;
    var buf, over, done := [], false, false;
    while !done
      invariant !done ==> Holds(file, start, pos, buf, over, r)
      invariant start <= pos <= |file| && Read(file, out, start, r)
      invariant done ==> start == pos == |file|
      decreases !done, |file| - pos
    {
      var found;
      ghost var from := start;
      start, pos, buf, over, found, done := NextSlice(file, size, r, start, pos, buf, over);
      ReadOn(file, out, from, found, start, r);
      out := out + found;
    }
    read := pos;
  }

  /** However the buffer cuts the file, the lines delivered are the plain split's, each as often and in
      the order it stands in the file, and every one can be read again where it was found. */
  method EachLine(file: seq<Byte>, size: nat, max: nat) returns (out: seq<Found>, read: nat)
    requires 0 < size <= max + 1
    ensures out == Lines(file, 0, GoRules(max)) && read == |file|
    ensures forall f | f in out :: Stands(file, f, max)
  {
    GoTrims(max);
    out, read := EachLineBy(file, size, GoRules(max));
    FoundStand(file, 0, GoRules(max));
  }

  lemma {:induction false} SliceEnds(file: seq<Byte>, from: nat, end: nat, how: Slice)
    requires from <= end <= |file|
    requires how == Whole ==> end > from && file[end - 1] == NEWLINE && NoNewline(file, from, end - 1)
    requires how == Eof ==> end == |file| && NoNewline(file, from, end)
    requires how != BufferFull
    ensures LineEnd(file, from) == end
  {
    LineGoesOn(file, from, if how == Eof then end else end - 1);
  }

  lemma {:induction false} LinesNext(file: seq<Byte>, start: nat, end: nat, r: Rules)
    requires start <= |file| && LineEnd(file, start) == end && Trims(r)
    ensures Lines(file, start, r) == Deliver(start, file[start..end], r) + Lines(file, end, r)
  {
    if start == |file| {
      assert Cuts(r.trim([]), []);
    }
  }

  // ---------------------------------------------------------------- readLineAt

  predicate Stands(file: seq<Byte>, f: Found, max: nat) {
    f.off + |f.line| <= |file| && file[f.off..f.off + |f.line|] == f.line && 0 < |f.line| <= max
  }

  lemma {:induction false} SliceOfSlice(file: seq<Byte>, start: nat, end: nat, i: nat, j: nat)
    requires start <= end <= |file| && i <= j <= end - start
    ensures file[start..end][i..j] == file[start + i..start + j]
  {
    var a, b := file[start..end][i..j], file[start + i..start + j];
    assert forall k | 0 <= k < j - i :: a[k] == file[start..end][i + k] == file[start + i + k] == b[k];
  }

  lemma {:induction false} DeliveredStands(file: seq<Byte>, start: nat, end: nat, r: Rules)
    requires start <= end <= |file| && Cuts(r.trim(file[start..end]), file[start..end])
    ensures forall f | f in Deliver(start, file[start..end], r) :: Stands(file, f, r.max)
  {
    var t := r.trim(file[start..end]);
    SliceOfSlice(file, start, end, t.lead, t.lead + |t.line|);
  }

  /** Every line delivered stands in the file where it was found, so reading there gives it again. */
  lemma {:induction false} FoundStand(file: seq<Byte>, start: nat, r: Rules)
    requires start <= |file| && Trims(r)
    ensures forall f | f in Lines(file, start, r) :: Stands(file, f, r.max)
    decreases |file| - start
  {
    if start < |file| {
      var e := LineEnd(file, start);
      DeliveredStands(file, start, e, r);
      FoundStand(file, e, r);
    }
  }

  /** A line found in a file, read again where it was. */
  method ReadLineAt(file: seq<Byte>, at: Found, max: nat) returns (b: seq<Byte>)
    requires at in Lines(file, 0, GoRules(max))
    ensures b == at.line
  {
    GoTrims(max);
    FoundStand(file, 0, GoRules(max));
    b := file[at.off..at.off + |at.line|];
  }
}
