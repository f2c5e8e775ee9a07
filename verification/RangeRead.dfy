/** Range reads: the xfile proxy's, in checked chunks (relayproxy.go), and the archive's, over a queue of
files (admin_timeshift.go). Ranges are those of section 14.1.2 of RFC 9110. */
module RangeRead {
  import opened Maps
  import opened Sorting
  import LineReader

  const COMMA: Byte := 44
  const DASH: Byte := 45
  const EQUALS: Byte := 61
  const MAX_INT64 := 9223372036854775807

  // ---------------------------------------------------------------- numbers as headers write them

  predicate IsDigits(s: Bytes) {
    s != [] && forall i | 0 <= i < |s| :: 48 <= s[i] <= 57
  }

  function Value(s: Bytes): nat
    requires forall i | 0 <= i < |s| :: 48 <= s[i] <= 57
  {
    if s == [] then 0 else Value(s[..|s| - 1]) * 10 + (s[|s| - 1] - 48)
  }

  /** strconv.ParseInt, base 10 and 64 bits. */
  function ParseInt(s: Bytes): Opt<int> {
    if s == [] then None
    else
      var negative, digits := s[0] == DASH, if s[0] == DASH || s[0] == 43 then s[1..] else s;
      if !IsDigits(digits) then None
      else
        var n: int := Value(digits);
        if negative then (if n <= MAX_INT64 + 1 then Some(-n) else None)
        else if n <= MAX_INT64 then Some(n)
        else None
  }

  /** A number's decimal digits. */
  function Print(n: nat): (s: Bytes)
    ensures IsDigits(s)
  {
    if n < 10 then [48 + n] else Print(n / 10) + [48 + n % 10]
  }

  lemma {:induction false} PrintValue(n: nat)
    ensures Value(Print(n)) == n
  {
    if n < 10 {
      assert Print(n)[..0] == [];
    } else {
      PrintValue(n / 10);
      assert Print(n)[..|Print(n)| - 1] == Print(n / 10);
    }
  }

  lemma {:induction false} ParsePrinted(n: nat)
    requires n <= MAX_INT64
    ensures ParseInt(Print(n)) == Some(n)
  {
    PrintValue(n);
    assert 48 <= Print(n)[0] <= 57;
  }

  // ---------------------------------------------------------------- the Range header

  /** A single range: from start to end (-1: to the file's end), or its last length bytes. */
  datatype ByteRange = From(start: nat, end: int) | Suffix(length: nat)

  datatype Parsed = NoRange | Range(r: ByteRange) | Refused

  const BYTES: Bytes := [98, 121, 116, 101, 115, 61]

  /** relayproxy.go's `parseRange`. */
  function ParseRange(h: Bytes): Parsed {
    if h == [] then NoRange
    else
      var t := LineReader.Trim(h);
      if !(BYTES <= t) || COMMA in t[|BYTES|..] then Refused
      else ParseSpec(t[|BYTES|..])
  }

  function IndexOf(s: Bytes, c: Byte): (i: nat)
    ensures i <= |s| && (i < |s| ==> s[i] == c) && forall j | 0 <= j < i :: s[j] != c
  {
    if s == [] || s[0] == c then 0 else 1 + IndexOf(s[1..], c)
  }

  function ParseSpec(spec: Bytes): Parsed {
    var i := IndexOf(spec, DASH);
    if i == |spec| then Refused
    else
      var a, b := spec[..i], spec[i + 1..];
      if a == [] then
        match ParseInt(b)
        case Some(n) => if n > 0 then Range(Suffix(n)) else Refused
        case None => Refused
      else
        match ParseInt(a)
        case None => Refused
        case Some(s) =>
          if s < 0 then Refused
          else if b == [] then Range(From(s, -1))
          else
            match ParseInt(b)
            case Some(e) => if e >= s then Range(From(s, e)) else Refused
            case None => Refused
  }

  lemma {:induction false} DashAt(a: Bytes, b: Bytes)
    requires forall i | 0 <= i < |a| :: a[i] != DASH
    ensures IndexOf(a + [DASH] + b, DASH) == |a|
  {
    var s := a + [DASH] + b;
    assert s[|a|] == DASH && forall j | 0 <= j < |a| :: s[j] == a[j];
  }

  lemma {:induction false} SpecCut(a: Bytes, b: Bytes)
    requires forall i | 0 <= i < |a| :: a[i] != DASH
    ensures var s, i := a + [DASH] + b, IndexOf(a + [DASH] + b, DASH);
            i == |a| && i < |s| && s[..i] == a && s[i + 1..] == b
  {
    DashAt(a, b);
  }

  predicate Spaces(s: Bytes) {
    forall i | 0 <= i < |s| :: LineReader.IsAsciiSpace(s[i])
  }

  /** The header of a range: its unit and what follows, and white space about them. */
  function Header(before: Bytes, spec: Bytes, after: Bytes): Bytes {
    before + (BYTES + spec + after)
  }

  lemma {:induction false} LeadIs(before: Bytes, t: Bytes)
    requires Spaces(before) && LineReader.SpaceAtStart(t) == 0
    ensures LineReader.Lead(before + t) == |before|
  {
    if before == [] {
      assert before + t == t;
    } else {
      assert (before + t)[1..] == before[1..] + t;
      LeadIs(before[1..], t);
    }
  }

  lemma {:induction false} TrimmedRight(t: Bytes, after: Bytes)
    requires Spaces(after) && LineReader.SpaceAtEnd(t) == 0
    ensures LineReader.TrimRight(t + after) == t
  {
    if after == [] {
      assert t + after == t;
    } else {
      assert (t + after)[..|t + after| - 1] == t + after[..|after| - 1];
      TrimmedRight(t, after[..|after| - 1]);
    }
  }

  predicate DigitOrDash(b: Byte) {
    48 <= b <= 57 || b == DASH
  }

  lemma {:induction false} HeaderRead(before: Bytes, spec: Bytes, after: Bytes)
    requires Spaces(before) && Spaces(after) && spec != [] && forall i | 0 <= i < |spec| :: DigitOrDash(spec[i])
    ensures ParseRange(Header(before, spec, after)) == ParseSpec(spec)
  {
    var t := BYTES + spec;
    assert t[0] == 98 && t[|t| - 1] == spec[|spec| - 1];
    assert LineReader.SpaceAtEnd(t) == 0;
    assert (t + after)[0] == 98;
    LeadIs(before, t + after);
    assert Header(before, spec, after)[|before|..] == t + after;
    TrimmedRight(t, after);
    assert t[|BYTES|..] == spec;
  }

  /** Every range the standard writes is read as it means, with white space about it or without: bytes=a-b,
      bytes=a- and bytes=-n. */
  lemma {:induction false} BothRead(a: nat, b: nat, before: Bytes, after: Bytes)
    requires a <= MAX_INT64 && b <= MAX_INT64 && Spaces(before) && Spaces(after)
    ensures ParseRange(Header(before, Print(a) + [DASH] + Print(b), after)) ==
            if a <= b then Range(From(a, b)) else Refused
  {
    SpecRead(Print(a), Print(b), a, b);
    HeaderRead(before, Print(a) + [DASH] + Print(b), after);
  }

  lemma {:induction false} SpecRead(s: Bytes, t: Bytes, a: nat, b: nat)
    requires s == Print(a) && t == Print(b) && a <= MAX_INT64 && b <= MAX_INT64
    ensures ParseSpec(s + [DASH] + t) == if a <= b then Range(From(a, b)) else Refused
  {
    ParsePrinted(a);
    ParsePrinted(b);
    SpecCut(s, t);
  }

  lemma {:induction false} StartRead(a: nat, before: Bytes, after: Bytes)
    requires a <= MAX_INT64 && Spaces(before) && Spaces(after)
    ensures ParseRange(Header(before, Print(a) + [DASH], after)) == Range(From(a, -1))
  {
    ParsePrinted(a);
    SpecCut(Print(a), []);
    assert Print(a) + [DASH] + [] == Print(a) + [DASH];
    HeaderRead(before, Print(a) + [DASH], after);
  }

  lemma {:induction false} SuffixRead(b: nat, before: Bytes, after: Bytes)
    requires b <= MAX_INT64 && Spaces(before) && Spaces(after)
    ensures ParseRange(Header(before, [DASH] + Print(b), after)) == if b > 0 then Range(Suffix(b)) else Refused
  {
    ParsePrinted(b);
    SpecCut([], Print(b));
    assert [] + [DASH] + Print(b) == [DASH] + Print(b);
    HeaderRead(before, [DASH] + Print(b), after);
  }

  /** Several ranges are refused. */
  lemma {:induction false} SeveralRefused(h: Bytes)
    requires COMMA in h
    ensures ParseRange(h) == Refused
  {
    var t := LineReader.Trim(h);
    CommaStays(h);
    if BYTES <= t {
      forall j | 0 <= j < |BYTES| ensures t[j] != COMMA {
        assert t[j] == BYTES[j];
      }
      var i :| 0 <= i < |t| && t[i] == COMMA;
      assert t[|BYTES|..][i - |BYTES|] == COMMA;
    }
  }

  lemma {:induction false} CommaStays(h: Bytes)
    requires COMMA in h
    ensures COMMA in LineReader.Trim(h)
  {
    CommaAfterLead(h);
    CommaBeforeEnd(h[LineReader.Lead(h)..]);
  }

  lemma {:induction false} CommaAfterLead(h: Bytes)
    requires COMMA in h
    ensures COMMA in h[LineReader.Lead(h)..]
  {
    var k := LineReader.SpaceAtStart(h);
    if k > 0 {
      var i :| 0 <= i < |h| && h[i] == COMMA;
      assert h[k..][i - k] == COMMA;
      CommaAfterLead(h[k..]);
      assert h[k..][LineReader.Lead(h[k..])..] == h[LineReader.Lead(h)..];
    }
  }

  lemma {:induction false} CommaBeforeEnd(h: Bytes)
    requires COMMA in h
    ensures COMMA in LineReader.TrimRight(h)
  {
    var k := LineReader.SpaceAtEnd(h);
    if k > 0 {
      var i :| 0 <= i < |h| && h[i] == COMMA;
      assert h[..|h| - k][i] == COMMA;
      CommaBeforeEnd(h[..|h| - k]);
    }
  }

  /** The bytes a range selects of a file so long: from start through end; None if it selects none. */
  function Select(p: Parsed, total: nat): Opt<(nat, int)> {
    match p
    case NoRange => Some((0, total - 1))
    case Refused => None
    case Range(Suffix(n)) => if total == 0 || n == 0 then None
        else Some((if n < total then total - n else 0, total - 1))
    case Range(From(s, e)) => if s >= total || 0 <= e < s then None
        else Some((s, if 0 <= e < total - 1 then e else total - 1))
  }

  // ---------------------------------------------------------------- chunks

  const CHUNK := 4194304

  /** The file's chunk at off: whole, but for the last. */
  function Chunk(file: Bytes, off: nat): Bytes {
    if off >= |file| then [] else if off + CHUNK <= |file| then file[off..off + CHUNK] else file[off..]
  }

  /** A chunk's signed digest: the offset, what it hashes, and the file's size. */
  datatype Digest = Digest(off: nat, content: Bytes, total: nat)

  datatype Response = Response(status: nat, digest: Opt<Digest>, body: Opt<Bytes>)

  /** A digest that verifies, and answers the request, was made of the file. */
  predicate Honest(file: Bytes, d: Digest) {
    && d.total == |file|
    && (if d.off <= |file| then d.off + |d.content| <= |file| && d.content == file[d.off..d.off + |d.content|]
        else d.content == [])
  }

  predicate HonestResponse(file: Bytes, r: Response) {
    r.digest.Some? ==> Honest(file, r.digest.v)
  }

  /** What the owner signs is so of the file as it is when it answers. */
  ghost predicate HonestOwner(files: nat -> Bytes, owner: (nat, nat) -> Response) {
    forall k: nat, off: nat :: HonestResponse(files(k), owner(k, off))
  }

  const RETRIES := 5

  class ChunkReader {
    /** The file when the k-th request is answered. */
    ghost const files: nat -> Bytes
    /** What comes back for the k-th request, at an offset. */
    const owner: (nat, nat) -> Response
    var asked: nat
    var total: nat
    var seen: bool

    ghost predicate Valid()
      reads this
    {
      HonestOwner(files, owner)
    }

    /** The size once seen stays. */
    twostate predicate SizeKept()
      reads this
    {
      old(seen) ==> seen && total == old(total)
    }

    constructor (ghost files: nat -> Bytes, owner: (nat, nat) -> Response)
      requires HonestOwner(files, owner)
      ensures Valid() && this.files == files && this.owner == owner && !seen
    {
      this.files, this.owner, asked, total, seen := files, owner, 0, 0, false;
    }

    /** Takes the k-th response, asked for the chunk at off, only if it is that chunk, whole, of a file of
        the size already seen. */
    method Check(off: nat, resp: Response, ghost k: nat) returns (body: Opt<Bytes>)
      requires Valid() && HonestResponse(files(k), resp)
      modifies this`total, this`seen
      ensures Valid() && SizeKept()
      ensures body.Some? ==> seen && IsChunk(files, k, total, off, body.v)
      ensures body.Some? <==> resp.status == 200 && resp.digest.Some? && resp.body.Some?
                              && resp.digest.v.off == off && resp.digest.v.content == resp.body.v
                              && (old(seen) ==> |files(k)| == old(total)) && |resp.body.v| == |Chunk(files(k), off)|
    {
      if resp.status != 200 || resp.digest.None? || resp.body.None? {
        return None;
      }
      var d, b := resp.digest.v, resp.body.v;
      if d.off != off || d.content != b {
        return None;
      }
      if seen && d.total != total {
        return None;
      }
      ghost var file := files(k);
      var want: int := if CHUNK < d.total - off then CHUNK else d.total - off;
      if |b| != if want > 0 then want else 0 {
        return None;
      }
      total, seen := d.total, true;
      body := Some(b);
      if off < |file| {
        assert file[off..] == file[off..|file|];
      }
    }

    /** Asks for the chunk at off, again while the owner is busy; None if it does not come or does not
        verify. k is the request it came for. */
    method Fetch(off: nat) returns (body: Opt<Bytes>, ghost k: nat)
      requires Valid()
      modifies this`asked, this`total, this`seen
      ensures Valid() && SizeKept()
      ensures body.Some? ==> seen && IsChunk(files, k, total, off, body.v)
    {
      body, k := None, 0;
      for try := 1 to RETRIES + 1
        invariant Valid() && seen == old(seen) && total == old(total)
      {
        k := asked;
        var resp := owner(asked, off);
        assert HonestResponse(files(k), resp);
        asked := asked + 1;
        if resp.status != 429 && resp.status != 503 {
          body := Check(off, resp, k);
          return;
        }
      }
    }
  }

  /** The chunk at off of the file as the k-th answer found it, then so long. */
  ghost predicate IsChunk(files: nat -> Bytes, k: nat, size: nat, off: nat, body: Bytes) {
    |files(k)| == size && body == Chunk(files(k), off)
  }

  // ---------------------------------------------------------------- xfile

  /** An answer: its status, the bytes it says it has, and what was written of them; whole when nothing
      failed on the way. */
  datatype Answer = Answer(status: nat, start: int, end: int, written: Bytes, whole: bool)

  /** The bytes from start through end. */
  function Slice(file: Bytes, start: nat, end: int): Bytes
    requires start <= end + 1 <= |file|
  {
    file[start..end + 1]
  }

  /** Which of the chunks written, the one that holds start being the first, holds byte pos. */
  function Nth(start: nat, pos: nat): int {
    pos / CHUNK - start / CHUNK
  }

  /** What was written from start on is the file's bytes, each chunk's as one answer found it (ks says
      which), always of one size. */
  ghost predicate Spliced(files: nat -> Bytes, ks: seq<nat>, size: nat, start: nat, written: Bytes) {
    forall i | 0 <= i < |written| :: ByteOf(files, ks, size, start, start + i, written[i])
  }

  ghost predicate ByteOf(files: nat -> Bytes, ks: seq<nat>, size: nat, start: nat, pos: nat, b: Byte) {
    var c := Nth(start, pos);
    0 <= c < |ks| && |files(ks[c])| == size && pos < size && b == files(ks[c])[pos]
  }

  lemma {:induction false} InChunk(at: nat, pos: nat)
    requires at % CHUNK == 0 && at <= pos < at + CHUNK
    ensures pos / CHUNK == at / CHUNK
  {
  }

  /** A part of the chunk at `at` more. */
  lemma {:induction false} SplicedMore(
      files: nat -> Bytes, ks: seq<nat>, k: nat, size: nat, start: nat, written: Bytes, at: nat, body: Bytes, n: nat)
    requires Spliced(files, ks, size, start, written) && ks != [] && ks[|ks| - 1] == k && |ks| - 1 == Nth(start, at)
    requires at % CHUNK == 0 && IsChunk(files, k, size, at, body)
    requires at <= start + |written| && start + |written| - at + n <= |body| <= CHUNK
    ensures Spliced(files, ks, size, start, written + body[start + |written| - at..start + |written| - at + n])
  {
    var lo, pos := start + |written| - at, start + |written|;
    var more := body[lo..lo + n];
    forall i | 0 <= i < |written + more| ensures ByteOf(files, ks, size, start, start + i, (written + more)[i]) {
      if i < |written| {
        assert ByteOf(files, ks, size, start, start + i, written[i]);
      } else {
        InChunk(at, start + i);
      }
    }
  }

  lemma {:induction false} SplicedStays(
      files: nat -> Bytes, ks: seq<nat>, k: nat, size: nat, start: nat, written: Bytes)
    requires Spliced(files, ks, size, start, written)
    ensures Spliced(files, ks + [k], size, start, written)
  {
    forall i | 0 <= i < |written| ensures ByteOf(files, ks + [k], size, start, start + i, written[i]) {
      assert ByteOf(files, ks, size, start, start + i, written[i]);
    }
  }

  /** Writes the file from start through end, a chunk after another, beginning in the chunk at `first`. */
  method CopyChunks(c: ChunkReader, start: nat, end: int, first: nat, body0: Bytes, ghost k0: nat)
    returns (written: Bytes, whole: bool, ghost ks: seq<nat>)
    requires c.Valid() && c.seen && start <= end + 1 <= c.total
    requires first == start - start % CHUNK && IsChunk(c.files, k0, c.total, first, body0)
    modifies c
    ensures Spliced(c.files, ks, old(c.total), start, written) && |written| <= end + 1 - start
    ensures if whole then |written| == end + 1 - start else (start + |written|) % CHUNK == 0
  {
    written, whole, ks := [], true, [k0];
    var at, pos, body := first, start, body0;
    ghost var k, size := k0, c.total;
    assert start / CHUNK == first / CHUNK by {
      InChunk(first, start);
    }
    while pos <= end
      invariant c.Valid() && c.seen && c.total == size && start <= pos <= end + 1 && |written| == pos - start
      invariant Spliced(c.files, ks, size, start, written)
      invariant pos <= end ==>
                  && at <= pos < at + CHUNK && at % CHUNK == 0 && IsChunk(c.files, k, size, at, body)
                  && ks != [] && ks[|ks| - 1] == k && |ks| - 1 == Nth(start, at)
      decreases end + 1 - pos
    {
      var lo := pos - at;
      var hi := if |body| < end - at + 1 then |body| else end - at + 1;
      SplicedMore(c.files, ks, k, size, start, written, at, body, hi - lo);
      written := written + body[lo..hi];
      pos := at + hi;
      if pos > end {
        break;
      }
      at := at + |body|;
      var next;
      next, k := c.Fetch(at);
      if next.None? {
        whole := false;
        return;
      }
      SplicedStays(c.files, ks, k, size, start, written);
      ks, body := ks + [k], next.v;
    }
  }

  /** What an answer to a range may be: of a file of one size, though it may change meanwhile. */
  ghost predicate Answers(files: nat -> Bytes, p: Parsed, a: Answer, size: nat, ks: seq<nat>) {
    && a.status in {200, 206, 416, 502}
    && (a.status == 200 || a.status == 206 ==>
          && Select(p, size) == Some((a.start, a.end))
          && 0 <= a.start <= a.end + 1 <= size
          && Spliced(files, ks, size, a.start, a.written) && |a.written| <= a.end + 1 - a.start
          && (if a.whole then |a.written| == a.end + 1 - a.start else (a.start + |a.written|) % CHUNK == 0)
          && (a.status == 200 <==> p == NoRange))
    && (a.status == 416 ==> a.written == [] && (p == Refused || (Select(p, size) == None && SizeOfOne(files, size))))
    && (p == Refused ==> a.status == 416)
  }

  ghost predicate SizeOfOne(files: nat -> Bytes, size: nat) {
    exists k: nat :: |files(k)| == size
  }

  /** What an answer to a range may be of a file that does not change. */
  predicate AnswersRange(file: Bytes, p: Parsed, a: Answer) {
    && a.status in {200, 206, 416, 502}
    && (a.status == 200 || a.status == 206 ==>
          && Select(p, |file|) == Some((a.start, a.end))
          && 0 <= a.start <= a.end + 1 <= |file|
          && a.written <= Slice(file, a.start, a.end)
          && (if a.whole then a.written == Slice(file, a.start, a.end) else (a.start + |a.written|) % CHUNK == 0)
          && (a.status == 200 <==> p == NoRange))
    && (a.status == 416 ==> Select(p, |file|) == None && a.written == [])
    && (p == Refused ==> a.status == 416)
  }

  lemma {:induction false} SplicedOfOne(
      files: nat -> Bytes, file: Bytes, ks: seq<nat>, size: nat, start: nat, end: int, written: Bytes)
    requires Spliced(files, ks, size, start, written) && |written| <= end + 1 - start
    requires (forall k: nat :: files(k) == file) && start <= end + 1 <= size == |file|
    ensures written <= Slice(file, start, end)
  {
    forall i | 0 <= i < |written| ensures written[i] == Slice(file, start, end)[i] {
      assert ByteOf(files, ks, size, start, start + i, written[i]);
    }
  }

  /** Of a file that does not change, exactly the bytes of the range are written, or, when a later chunk
      fails, the first of them, up to a chunk's end. */
  lemma {:induction false} UnchangedAnswers(
      files: nat -> Bytes, file: Bytes, p: Parsed, a: Answer, size: nat, ks: seq<nat>)
    requires Answers(files, p, a, size, ks) && forall k: nat :: files(k) == file
    requires a.status == 200 || a.status == 206 ==> SizeOfOne(files, size)
    ensures AnswersRange(file, p, a)
  {
    if a.status == 200 || a.status == 206 {
      SplicedOfOne(files, file, ks, size, a.start, a.end, a.written);
    }
  }

  /** relayproxy.go's `xfile`, from the header on: with status 200 or 206 the bytes of the range are written,
      each chunk's as the file was when it was asked for, and always of a file of the size the range was
      judged by; or, when a later chunk fails, the first of them, up to a chunk's end. */
  method XFile(c: ChunkReader, header: Bytes) returns (a: Answer, ghost size: nat, ghost ks: seq<nat>)
    requires c.Valid() && !c.seen
    modifies c
    ensures Answers(c.files, ParseRange(header), a, size, ks)
    ensures a.status == 200 || a.status == 206 ==> SizeOfOne(c.files, size)
  {
    a, size, ks := ServeRange(c, ParseRange(header));
  }

  method ServeRange(c: ChunkReader, p: Parsed) returns (a: Answer, ghost size: nat, ghost ks: seq<nat>)
    requires c.Valid() && !c.seen
    modifies c
    ensures Answers(c.files, p, a, size, ks)
    ensures a.status == 200 || a.status == 206 ==> SizeOfOne(c.files, size)
  {
    size, ks := 0, [];
    if p == Refused {
      a := Answer(416, 0, -1, [], true);
      return;
    }
    var first := if p.Range? && p.r.From? then p.r.start - p.r.start % CHUNK else 0;
    ghost var k;
    var body;
    body, k := c.Fetch(first);
    if body.None? {
      a := Answer(502, 0, -1, [], false);
      return;
    }
    var total := c.total;
    size := total;
    var start: int, end: int := 0, total - 1;
    if p.Range? {
      if p.r.Suffix? {
        start := if total - p.r.length > 0 then total - p.r.length else 0;
      } else {
        start := p.r.start;
        if 0 <= p.r.end < end {
          end := p.r.end;
        }
      }
      if start >= total || start > end {
        a := Answer(416, 0, -1, [], true);
        return;
      }
      var at := start - start % CHUNK;
      if at != first {
        body, k := c.Fetch(at);
        if body.None? {
          a := Answer(502, 0, -1, [], false);
          return;
        }
        first := at;
      }
    }
    assert Select(p, total) == Some((start, end));
    var written, whole;
    written, whole, ks := CopyChunks(c, start, end, first, body.v, k);
    a := Answer(if p.Range? then 206 else 200, start, end, written, whole);
  }

  /** A file that changes and keeps its size is told by nobody: chunks of both are written. */
  lemma {:induction false} SplicedHappens() returns (files: nat -> Bytes, ks: seq<nat>, written: Bytes)
    ensures |files(0)| == |files(1)| == |written| && Spliced(files, ks, |written|, 0, written)
    ensures written != files(0) && written != files(1)
  {
    var was, now := seq(CHUNK + 1, _ => 0 as Byte), seq(CHUNK + 1, _ => 1 as Byte);
    files := k => if k == 0 then was else now;
    ks := [0, 1];
    written := was[..CHUNK] + [1];
    forall i | 0 <= i < |written| ensures ByteOf(files, ks, |written|, 0, i, written[i]) {
      if i < CHUNK {
        InChunk(0, i);
      } else {
        InChunk(CHUNK, i);
      }
    }
    assert written[0] == 0 && files(1)[0] == 1 && written[CHUNK] == 1 && files(0)[CHUNK] == 0;
  }

  // ---------------------------------------------------------------- the archive

  /** A file of the archive: the size it was listed with, what it holds when it is opened, and whether it is gone
      by then. */
  datatype Part = Part(size: nat, data: Bytes, gone: bool)

  /** The listed sizes of the files from i on. */
  function SizeFrom(queue: seq<Part>, i: nat): nat
    decreases |queue| - i
  {
    if i >= |queue| then 0 else queue[i].size + SizeFrom(queue, i + 1)
  }

  function Size(queue: seq<Part>): nat {
    SizeFrom(queue, 0)
  }

  /** admin.go's `parsePositiveInt`. */
  function PositiveInt(s: Bytes): nat {
    match ParseInt(s)
    case Some(n) => if n > 0 then n else 0
    case None => 0
  }

  /** The archive's ranges, read as its panel reads them: no header is the whole; a leading dash is no
      suffix; None answers 416. */
  function ArchiveRange(header: Bytes, size: nat): Opt<(nat, int)> {
    if header == [] then Some((0, size - 1))
    else
      var i := IndexOf(header, EQUALS);
      var spec := if i < |header| then header[i + 1..] else header;
      if COMMA in spec then None
      else
        var dash := IndexOf(spec, DASH);
        var rs := if spec == [DASH] then size else PositiveInt(spec[..dash]);
        var re0 := if spec == [DASH] then size - 1
                   else if dash < |spec| && ParseInt(spec[dash + 1..]).Some? then ParseInt(spec[dash + 1..]).v
                   else size;
        var re := if size - 1 < re0 then size - 1 else re0;
        if re < rs || size - 1 < rs || size <= re then None else Some((rs, re))
  }

  /** A range served lies within the archive. */
  lemma {:induction false} ArchiveRangeFits(header: Bytes, size: nat)
    ensures ArchiveRange(header, size).Some? ==>
              var (start, end) := ArchiveRange(header, size).v;
              start <= end + 1 <= size && (header != [] ==> start <= end)
  {
  }

  /** What a file is asked for, from off on. */
  function Asked(p: Part, off: nat, most: nat): nat
    requires off <= p.size
  {
    if p.size - off > most then most else p.size - off
  }

  /** What it gives. */
  function Given(p: Part, off: nat, most: nat): (g: Bytes)
    requires off <= p.size
    ensures |g| <= Asked(p, off, most)
    ensures off == 0 || Asked(p, off, most) > 0 ==>
              (|g| < Asked(p, off, most) <==> |p.data| < off + Asked(p, off, most))
  {
    var n := Asked(p, off, most);
    if |p.data| <= off then [] else if |p.data| - off < n then p.data[off..] else p.data[off..off + n]
  }

  function Off(at: nat, start: nat): nat {
    if start > at then start - at else 0
  }

  /** What is copied of the files from i on, the first beginning at `at`, from start on, when so many bytes are
      still to come. */
  function Copied(queue: seq<Part>, i: nat, at: nat, start: nat, remaining: nat): Bytes
    decreases |queue| - i
  {
    if i >= |queue| || remaining == 0 then []
    else
      var p := queue[i];
      if at + p.size <= start then Copied(queue, i + 1, at + p.size, start, remaining)
      else if p.gone then []
      else
        var g := Given(p, Off(at, start), remaining);
        g + Copied(queue, i + 1, at + p.size, start, remaining - |g|)
  }

  /** The archive's byte at pos, if its file holds it; file i begins at `at`. */
  function ByteAt(queue: seq<Part>, i: nat, at: nat, pos: nat): Opt<Byte>
    requires at <= pos
    decreases |queue| - i
  {
    if i >= |queue| then None
    else if pos >= at + queue[i].size then ByteAt(queue, i + 1, at + queue[i].size, pos)
    else if pos - at < |queue[i].data| then Some(queue[i].data[pos - at])
    else None
  }

  predicate Stands(queue: seq<Part>, i: nat, at: nat, from: nat, bs: Bytes, k: nat)
    requires at <= from && k < |bs|
  {
    ByteAt(queue, i, at, from + k) == Some(bs[k])
  }

  /** Every byte written is the archive's in its place, from the position `from` on. */
  ghost predicate InPlace(queue: seq<Part>, i: nat, at: nat, from: nat, bs: Bytes)
    requires at <= from
  {
    forall k | 0 <= k < |bs| :: Stands(queue, i, at, from, bs, k)
  }

  /** Up to one that is gone, no file gives anything. */
  predicate GivesNothing(queue: seq<Part>, i: nat)
    decreases |queue| - i
  {
    i >= |queue| || queue[i].gone || ((queue[i].size == 0 || queue[i].data == []) && GivesNothing(queue, i + 1))
  }

  /** After a file that holds less than is asked of it, no other gives anything. */
  predicate Even(queue: seq<Part>, i: nat, at: nat, start: nat, remaining: nat)
    decreases |queue| - i
  {
    if i >= |queue| || remaining == 0 then true
    else
      var p := queue[i];
      if at + p.size <= start then Even(queue, i + 1, at + p.size, start, remaining)
      else if p.gone then true
      else
        var off := Off(at, start);
        if |p.data| < off + Asked(p, off, remaining) then GivesNothing(queue, i + 1)
        else Even(queue, i + 1, at + p.size, start, remaining - Asked(p, off, remaining))
  }

  lemma {:induction false} NothingCopied(queue: seq<Part>, i: nat, at: nat, start: nat, remaining: nat)
    requires remaining > 0 && start < at
    ensures Copied(queue, i, at, start, remaining) == [] <==> GivesNothing(queue, i)
    decreases |queue| - i
  {
    if i < |queue| && !queue[i].gone && Given(queue[i], 0, remaining) == [] {
      NothingCopied(queue, i + 1, at + queue[i].size, start, remaining);
    }
  }

  /** Past file i the archive's bytes are the others'. */
  lemma {:induction false} LaterInPlace(queue: seq<Part>, i: nat, at: nat, from: nat, bs: Bytes)
    requires i < |queue| && from >= at + queue[i].size
    ensures InPlace(queue, i, at, from, bs) <==> InPlace(queue, i + 1, at + queue[i].size, from, bs)
  {
    var j, next := i + 1, at + queue[i].size;
    forall k | 0 <= k < |bs| ensures Stands(queue, i, at, from, bs, k) <==> Stands(queue, j, next, from, bs, k) {
    }
    if InPlace(queue, i, at, from, bs) {
      forall k | 0 <= k < |bs| ensures Stands(queue, j, next, from, bs, k) {
        assert Stands(queue, i, at, from, bs, k);
      }
    }
  }

  lemma {:induction false} GivenInPlace(queue: seq<Part>, i: nat, at: nat, off: nat, remaining: nat)
    requires i < |queue| && off <= queue[i].size
    ensures InPlace(queue, i, at, at + off, Given(queue[i], off, remaining))
  {
    var g, from := Given(queue[i], off, remaining), at + off;
    forall k | 0 <= k < |g| ensures Stands(queue, i, at, from, g, k) {
    }
  }

  /** A file's bytes are in place; those that follow are, when it gave all that was asked, exactly when they are
      in the rest's, and else only if there are none. */
  lemma {:induction false} AfterPart(queue: seq<Part>, i: nat, at: nat, off: nat, remaining: nat, r: Bytes)
    requires i < |queue| && remaining > 0 && off <= queue[i].size && (off < queue[i].size || off == 0)
    ensures var p, next := queue[i], at + queue[i].size;
            var g := Given(p, off, remaining);
            && (|p.data| < off + Asked(p, off, remaining) ==> (InPlace(queue, i, at, at + off, g + r) <==> r == []))
            && (|p.data| >= off + Asked(p, off, remaining) && (|g| < remaining || r == []) ==>
                  (InPlace(queue, i, at, at + off, g + r) <==> InPlace(queue, i + 1, next, next, r)))
  {
    var p, next := queue[i], at + queue[i].size;
    var g := Given(p, off, remaining);
    GivenInPlace(queue, i, at, off, remaining);
    SplitInPlace(queue, i, at, at + off, g, r);
    if r != [] {
      if |g| < Asked(p, off, remaining) {
        assert !Stands(queue, i, at, at + off + |g|, r, 0);
      } else if |g| < remaining {
        assert at + off + |g| == next;
        LaterInPlace(queue, i, at, next, r);
      }
    }
  }

  lemma {:induction false} SplitInPlace(queue: seq<Part>, i: nat, at: nat, from: nat, g: Bytes, r: Bytes)
    requires at <= from && InPlace(queue, i, at, from, g)
    ensures InPlace(queue, i, at, from, g + r) <==> InPlace(queue, i, at, from + |g|, r)
  {
    var bs, mid := g + r, from + |g|;
    forall k | 0 <= k < |r| ensures Stands(queue, i, at, mid, r, k) <==> Stands(queue, i, at, from, bs, |g| + k) {
      assert mid + k == from + (|g| + k);
    }
    if InPlace(queue, i, at, mid, r) {
      forall k | 0 <= k < |bs| ensures Stands(queue, i, at, from, bs, k) {
        if k < |g| {
          assert Stands(queue, i, at, from, g, k);
        } else {
          assert Stands(queue, i, at, mid, r, k - |g|);
        }
      }
    }
    if InPlace(queue, i, at, from, bs) {
      forall k | 0 <= k < |r| ensures Stands(queue, i, at, mid, r, k) {
        assert Stands(queue, i, at, from, bs, |g| + k);
      }
    }
  }

  /** Whatever the sizes listed and the files found, every byte written stands in its place exactly when no
      file gives anything after one that holds less than is asked of it. */
  lemma {:induction false} CopiedInPlaceIff(queue: seq<Part>, i: nat, at: nat, start: nat, remaining: nat)
    ensures InPlace(queue, i, at, at + Off(at, start), Copied(queue, i, at, start, remaining)) <==>
            Even(queue, i, at, start, remaining)
    decreases |queue| - i
  {
    if i < |queue| && remaining > 0 {
      var p, next := queue[i], at + queue[i].size;
      if next <= start {
        CopiedInPlaceIff(queue, i + 1, next, start, remaining);
        LaterInPlace(queue, i, at, start, Copied(queue, i + 1, next, start, remaining));
      } else if !p.gone {
        var off := Off(at, start);
        var left := remaining - |Given(p, off, remaining)|;
        if |p.data| < off + Asked(p, off, remaining) {
          NothingCopied(queue, i + 1, next, start, left);
        } else {
          CopiedInPlaceIff(queue, i + 1, next, start, left);
        }
        AfterPart(queue, i, at, off, remaining, Copied(queue, i + 1, next, start, left));
      }
    }
  }

  /** Every file is there and holds no less than it was listed with. */
  predicate AllThere(queue: seq<Part>) {
    forall i | 0 <= i < |queue| :: !queue[i].gone && |queue[i].data| >= queue[i].size
  }

  /** Then all that is asked for is written, each byte in its place. */
  lemma {:induction false} AllCopied(queue: seq<Part>, i: nat, at: nat, start: nat, remaining: nat)
    requires AllThere(queue) && Off(at, start) + remaining <= SizeFrom(queue, i)
    ensures |Copied(queue, i, at, start, remaining)| == remaining && Even(queue, i, at, start, remaining)
    decreases |queue| - i
  {
    if i < |queue| && remaining > 0 {
      var p, next := queue[i], at + queue[i].size;
      AllCopied(queue, i + 1, next, start,
          if next <= start then remaining else remaining - Asked(p, Off(at, start), remaining));
    }
  }

  /** A file found shorter than listed shifts what follows it. */
  lemma {:induction false} ShortHappens()
    ensures var queue := [Part(2, [1], false), Part(1, [2], false)];
            && Size(queue) == 3 && Copied(queue, 0, 0, 0, 3) == [1, 2] && ByteAt(queue, 0, 0, 1) == None
            && ByteAt(queue, 0, 0, 2) == Some(2) && !InPlace(queue, 0, 0, 0, Copied(queue, 0, 0, 0, 3))
  {
    var a, b := Part(2, [1], false), Part(1, [2], false);
    var queue := [a, b];
    assert SizeFrom(queue, 1) == 1;
    assert Given(a, 0, 3) == [1] && Given(b, 0, 2) == [2];
    assert Copied(queue, 1, 2, 0, 2) == [2];
    assert Copied(queue, 0, 0, 0, 3)[1] == 2;
    assert !Stands(queue, 0, 0, 0, Copied(queue, 0, 0, 0, 3), 1);
  }

  lemma {:induction false} JoinsOn(a: Bytes, b: Bytes, c: Bytes)
    ensures a + (b + c) == a + b + c
  {
  }

  /** admin_timeshift.go's `serveTimeshiftConcat`, its copying. */
  method CopyQueue(queue: seq<Part>, start: nat, end: int) returns (written: Bytes)
    requires start <= end + 1
    ensures written == Copied(queue, 0, 0, start, end + 1 - start)
  {
    written := [];
    var remaining: nat, pos: nat := end - start + 1, 0;
    ghost var all := Copied(queue, 0, 0, start, remaining);
    for i := 0 to |queue|
      invariant all == written + Copied(queue, i, pos, start, remaining)
    {
      if remaining <= 0 {
        return;
      }
      var p := queue[i];
      var fileStart, fileEnd := pos, pos + p.size;
      pos := fileEnd;
      if fileEnd <= start {
        continue;
      }
      if p.gone {
        return;
      }
      var off := if start > fileStart then start - fileStart else 0;
      var g := ReadFrom(p, off, if p.size - off > remaining then remaining else p.size - off, remaining);
      ghost var rest := Copied(queue, i + 1, pos, start, remaining - |g|);
      JoinsOn(written, g, rest);
      written, remaining := written + g, remaining - |g|;
    }
  }

  /** Reads so much of a file, or up to its end. */
  method ReadFrom(p: Part, off: nat, toCopy: nat, ghost most: nat) returns (g: Bytes)
    requires off <= p.size && toCopy == Asked(p, off, most)
    ensures g == Given(p, off, most)
  {
    if |p.data| <= off {
      return [];
    }
    g := if |p.data| - off < toCopy then p.data[off..] else p.data[off..off + toCopy];
  }

  method TotalSize(queue: seq<Part>) returns (size: nat)
    ensures size == Size(queue)
  {
    size := 0;
    for i := 0 to |queue|
      invariant Size(queue) == size + SizeFrom(queue, i)
    {
      size := size + queue[i].size;
    }
  }

  /** The bytes written are the copy's; they stand in their place exactly when no file's want is made up by
      another's bytes, and they are all there when every file is as listed. */
  ghost predicate CopiedAs(queue: seq<Part>, a: Answer) {
    && 0 <= a.start <= a.end + 1 && a.written == Copied(queue, 0, 0, a.start, a.end + 1 - a.start)
    && (InPlace(queue, 0, 0, a.start, a.written) <==> Even(queue, 0, 0, a.start, a.end + 1 - a.start))
    && (a.whole <==> |a.written| == a.end + 1 - a.start)
    && (AllThere(queue) ==> a.whole && InPlace(queue, 0, 0, a.start, a.written))
  }

  lemma {:induction false} IsCopiedAs(queue: seq<Part>, a: Answer)
    requires 0 <= a.start <= a.end + 1 <= Size(queue)
    requires a.written == Copied(queue, 0, 0, a.start, a.end + 1 - a.start)
    requires a.whole <==> |a.written| == a.end + 1 - a.start
    ensures CopiedAs(queue, a)
  {
    CopiedInPlaceIff(queue, 0, 0, a.start, a.end + 1 - a.start);
    if AllThere(queue) {
      AllCopied(queue, 0, 0, a.start, a.end + 1 - a.start);
    }
  }

  /** With 416 the range is refused; else what is copied of it is written, unless only the headers are asked
      for. */
  method ServeArchive(queue: seq<Part>, header: Bytes, head: bool) returns (a: Answer)
    ensures a.status == 416 <==> ArchiveRange(header, Size(queue)).None?
    ensures a.status != 416 ==>
              && ArchiveRange(header, Size(queue)) == Some((a.start, a.end))
              && 0 <= a.start <= a.end + 1 <= Size(queue)
              && (a.status == 200 <==> header == [])
              && (head ==> a.written == [])
    ensures a.status != 416 && !head ==> CopiedAs(queue, a)
  {
    var size: int := TotalSize(queue);
    ArchiveRangeFits(header, size);
    var range := ArchiveRange(header, size);
    if range.None? {
      return Answer(416, 0, size - 1, [], true);
    }
    var (start, end) := range.v;
    var status := if header == [] then 200 else 206;
    if head {
      return Answer(status, start, end, [], true);
    }
    var written := CopyQueue(queue, start, end);
    a := Answer(status, start, end, written, |written| == end + 1 - start);
    IsCopiedAs(queue, a);
  }
}
