/** The relay's sealed frames (relayseal.go): a big-endian u32 length and a sealed part each, the number of
the frame in its nonce. Under an ideal AEAD (opening succeeds exactly on what was sealed under the same key
and number) a reader gets what was written, or the first frames of it. */
module Frames {
  import opened Maps
  import opened Sorting

  const FRAME_MAX := 65536
  const TAG := 16

  /** The session: how a frame's plaintext is sealed and opened under its key and number, and how lengths
      are written. */
  datatype Session = Session(
    seal: (nat, Bytes) -> Bytes,
    open: (nat, Bytes) -> Opt<Bytes>,
    header: nat -> Bytes,
    lengthOf: Bytes -> nat)

  // ---------------------------------------------------------------- lengths

  function BigEndian(n: nat): Bytes {
    [n / 0x100_0000 % 0x100, n / 0x1_0000 % 0x100, n / 0x100 % 0x100, n % 0x100]
  }

  function FromBigEndian(h: Bytes): nat {
    if |h| != 4 then 0
    else
      var a: int, b: int, c: int, d: int := h[0], h[1], h[2], h[3];
      a * 0x100_0000 + b * 0x1_0000 + c * 0x100 + d
  }

  lemma {:induction false} LengthRead(n: nat)
    requires n < 0x1_0000_0000
    ensures |BigEndian(n)| == 4 && FromBigEndian(BigEndian(n)) == n
  {
    var m := n / 0x100;
    var l := m / 0x100;
    ByteOff(n);
    ByteOff(m);
    ByteOff(l);
    assert n / 0x1_0000 == l && n / 0x100_0000 == l / 0x100 && l / 0x100 < 0x100;
  }

  lemma {:induction false} ByteOff(n: nat)
    ensures n == n / 0x100 * 0x100 + n % 0x100
  {
  }

  lemma {:induction false} LengthWritten(h: Bytes)
    requires |h| == 4
    ensures FromBigEndian(h) < 0x1_0000_0000 && BigEndian(FromBigEndian(h)) == h
  {
    var a: int, b: int, c: int, n := h[0], h[1], h[2], FromBigEndian(h);
    assert n / 0x100 == a * 0x1_0000 + b * 0x100 + c;
    assert n / 0x1_0000 == a * 0x100 + b;
    assert n / 0x100_0000 == a;
  }

  /** Lengths are read as they are written. */
  ghost predicate Lengths(s: Session) {
    && (forall n: nat | n < 0x1_0000_0000 :: |s.header(n)| == 4 && s.lengthOf(s.header(n)) == n)
    && (forall h: Bytes | |h| == 4 :: s.header(s.lengthOf(h)) == h)
  }

  /** A session's lengths are big-endian. */
  function OnWire(seal: (nat, Bytes) -> Bytes, open: (nat, Bytes) -> Opt<Bytes>): Session {
    Session(seal, open, BigEndian, FromBigEndian)
  }

  lemma {:induction false} BigEndianLengths(seal: (nat, Bytes) -> Bytes, open: (nat, Bytes) -> Opt<Bytes>)
    ensures Lengths(OnWire(seal, open))
  {
    forall n: nat | n < 0x1_0000_0000 ensures |BigEndian(n)| == 4 && FromBigEndian(BigEndian(n)) == n {
      LengthRead(n);
    }
    forall h: Bytes | |h| == 4 ensures BigEndian(FromBigEndian(h)) == h {
      LengthWritten(h);
    }
  }

  // ---------------------------------------------------------------- the ideal AEAD

  /** Sealing adds a tag. */
  ghost predicate Tagged(s: Session) {
    forall k: nat, p: Bytes :: |s.seal(k, p)| == |p| + TAG
  }

  /** Nothing opens but the frames that were sealed, each under its own number. */
  ghost predicate Opens(s: Session, frames: seq<Bytes>) {
    && Tagged(s)
    && forall k: nat, c: Bytes :: s.open(k, c) == if k < |frames| && c == s.seal(k, frames[k]) then Some(frames[k])
        else None
  }

  ghost predicate Ideal(s: Session, frames: seq<Bytes>) {
    Opens(s, frames) && Lengths(s)
  }

  // ---------------------------------------------------------------- a stream of frames

  function Joined(frames: seq<Bytes>): Bytes {
    if frames == [] then [] else Joined(frames[..|frames| - 1]) + frames[|frames| - 1]
  }

  /** The frames are as a writer makes them: not empty, and not too long. */
  predicate FramesOk(frames: seq<Bytes>) {
    forall i | 0 <= i < |frames| :: 0 < |frames[i]| <= FRAME_MAX
  }

  function Sealed(s: Session, k: nat, p: Bytes): Bytes {
    var c := s.seal(k, p);
    s.header(|c|) + c
  }

  function Stream(s: Session, frames: seq<Bytes>): Bytes {
    if frames == [] then []
    else Stream(s, frames[..|frames| - 1]) + Sealed(s, |frames| - 1, frames[|frames| - 1])
  }

  lemma {:induction false} OneMore(s: Session, frames: seq<Bytes>, p: Bytes)
    ensures Joined(frames + [p]) == Joined(frames) + p
    ensures Stream(s, frames + [p]) == Stream(s, frames) + Sealed(s, |frames|, p)
  {
    assert (frames + [p])[..|frames|] == frames;
  }

  lemma {:induction false} UpTo(s: Session, frames: seq<Bytes>, n: nat)
    requires n < |frames|
    ensures Joined(frames[..n + 1]) == Joined(frames[..n]) + frames[n]
    ensures Stream(s, frames[..n + 1]) == Stream(s, frames[..n]) + Sealed(s, n, frames[n])
  {
    assert frames[..n + 1] == frames[..n] + [frames[n]];
    OneMore(s, frames[..n], frames[n]);
  }

  lemma {:induction false} FirstFrames(s: Session, frames: seq<Bytes>, k: nat)
    requires k <= |frames|
    ensures Joined(frames[..k]) <= Joined(frames) && Stream(s, frames[..k]) <= Stream(s, frames)
  {
    if k < |frames| {
      var l := |frames| - 1;
      FirstFrames(s, frames[..l], k);
      assert frames[..l][..k] == frames[..k];
    } else {
      assert frames[..k] == frames;
    }
  }

  // ---------------------------------------------------------------- writing

  /** A text in frames of FRAME_MAX, the last one what is left. */
  function Cut(text: Bytes): (frames: seq<Bytes>)
    ensures FramesOk(frames)
  {
    if text == [] then []
    else if |text| <= FRAME_MAX then [text]
    else [text[..FRAME_MAX]] + Cut(text[FRAME_MAX..])
  }

  lemma {:induction false} JoinedFrom(a: Bytes, rest: seq<Bytes>)
    ensures Joined([a] + rest) == a + Joined(rest)
  {
    if rest == [] {
      assert [a] + rest == [a] && [a][..0] == rest;
    } else {
      var l := |rest| - 1;
      JoinedFrom(a, rest[..l]);
      assert ([a] + rest)[..|rest|] == [a] + rest[..l];
    }
  }

  lemma {:induction false} CutFirst(text: Bytes, n: nat)
    requires text != [] && n == if |text| > FRAME_MAX then FRAME_MAX else |text|
    ensures Cut(text) == [text[..n]] + Cut(text[n..])
  {
    if n == |text| {
      assert text[..n] == text && text[n..] == [];
    }
  }

  /** A text's frames say the text. */
  lemma {:induction false} CutJoins(text: Bytes)
    ensures Joined(Cut(text)) == text
    decreases |text|
  {
    if text != [] {
      var n := if |text| > FRAME_MAX then FRAME_MAX else |text|;
      CutFirst(text, n);
      CutJoins(text[n..]);
      JoinedFrom(text[..n], Cut(text[n..]));
      assert text == text[..n] + text[n..];
    }
  }

  /** The owner's chunk, in frames. */
  method WriteRelayFrames(s: Session, text: Bytes) returns (out: Bytes)
    ensures out == Stream(s, Cut(text))
  {
    out := [];
    ghost var frames: seq<Bytes>, cut := [], Cut(text);
    var rest, counter := text, 0;
    while rest != []
      invariant cut == frames + Cut(rest)
      invariant out == Stream(s, frames) && counter == |frames|
      decreases |rest|
    {
      var n := if |rest| > FRAME_MAX then FRAME_MAX else |rest|;
      var c := s.seal(counter, rest[..n]);
      OneMore(s, frames, rest[..n]);
      CutFirst(rest, n);
      out := out + (s.header(|c|) + c);
      frames := frames + [rest[..n]];
      rest := rest[n..];
      counter := counter + 1;
    }
    assert frames + Cut(rest) == frames;
  }

  function NonEmpty(bursts: seq<Bytes>): seq<Bytes> {
    if bursts == [] then []
    else NonEmpty(bursts[..|bursts| - 1]) + if bursts[|bursts| - 1] == [] then [] else [bursts[|bursts| - 1]]
  }

  /** Reads that brought nothing are no frames, and take nothing from what the frames say. */
  lemma {:induction false} NonEmptyIs(s: Session, bursts: seq<Bytes>)
    requires forall i | 0 <= i < |bursts| :: |bursts[i]| <= FRAME_MAX
    ensures FramesOk(NonEmpty(bursts)) && Joined(NonEmpty(bursts)) == Joined(bursts)
  {
    if bursts != [] {
      var l := |bursts| - 1;
      NonEmptyIs(s, bursts[..l]);
      var fs := NonEmpty(bursts[..l]);
      if bursts[l] == [] {
        assert Joined(bursts[..l]) + bursts[l] == Joined(bursts[..l]);
        assert NonEmpty(bursts) == fs;
      } else {
        OneMore(s, fs, bursts[l]);
      }
    }
  }

  lemma {:induction false} NonEmptyNext(bursts: seq<Bytes>, i: nat)
    requires i < |bursts|
    ensures NonEmpty(bursts[..i + 1]) == NonEmpty(bursts[..i]) + if bursts[i] == [] then [] else [bursts[i]]
  {
    assert bursts[..i + 1][..i] == bursts[..i];
  }

  /** A live body, a frame for every read that brought something. */
  method StreamRelaySealed(s: Session, bursts: seq<Bytes>) returns (out: Bytes)
    ensures out == Stream(s, NonEmpty(bursts))
  {
    out := [];
    var counter := 0;
    for i := 0 to |bursts|
      invariant out == Stream(s, NonEmpty(bursts[..i])) && counter == |NonEmpty(bursts[..i])|
    {
      NonEmptyNext(bursts, i);
      ghost var frames := NonEmpty(bursts[..i]);
      if |bursts[i]| > 0 {
        var c := s.seal(counter, bursts[i]);
        OneMore(s, frames, bursts[i]);
        out := out + (s.header(|c|) + c);
        counter := counter + 1;
      } else {
        assert frames + [] == frames;
      }
    }
    assert bursts[..|bursts|] == bursts;
  }

  // ---------------------------------------------------------------- reading

  /** The frames read so far are the first n, and the stream up to pos is theirs. */
  predicate HasRead(s: Session, frames: seq<Bytes>, stream: Bytes, pos: nat, n: nat, out: Bytes) {
    && n <= |frames| && pos <= |stream| && out == Joined(frames[..n]) && stream[..pos] == Stream(s, frames[..n])
  }

  /** A frame that opens is the next one. */
  lemma {:induction false} FrameOpens(
      s: Session, frames: seq<Bytes>, stream: Bytes, pos: nat, n: nat, out: Bytes, h: Bytes, c: Bytes)
    requires Ideal(s, frames) && HasRead(s, frames, stream, pos, n, out)
    requires pos + 4 + |c| <= |stream| && h == stream[pos..pos + 4] && c == stream[pos + 4..pos + 4 + |c|]
             && s.lengthOf(h) == |c|
    requires s.open(n, c).Some?
    ensures n < |frames| && HasRead(s, frames, stream, pos + 4 + |c|, n + 1, out + s.open(n, c).v)
  {
    assert c == s.seal(n, frames[n]);
    assert s.header(|c|) == h;
    UpTo(s, frames, n);
    assert stream[..pos + 4 + |c|] == stream[..pos] + (h + c);
  }

  /** While the stream is all the frames and nothing else, the next one is there and opens. */
  lemma {:induction false} NextOpens(s: Session, frames: seq<Bytes>, stream: Bytes, pos: nat, n: nat, out: Bytes)
    requires Ideal(s, frames) && FramesOk(frames) && HasRead(s, frames, stream, pos, n, out)
    requires stream == Stream(s, frames) && pos < |stream|
    ensures n < |frames|
    ensures var c := s.seal(n, frames[n]);
            && TAG <= |c| <= FRAME_MAX + TAG && pos + 4 + |c| <= |stream|
            && s.lengthOf(stream[pos..pos + 4]) == |c| && stream[pos + 4..pos + 4 + |c|] == c
  {
    assert frames[..|frames|] == frames;
    if n == |frames| {
      assert false;
    } else {
      var c := s.seal(n, frames[n]);
      UpTo(s, frames, n);
      FirstFrames(s, frames, n + 1);
      NextStands(stream, pos, s.header(|c|), c, Stream(s, frames[..n + 1]));
    }
  }

  lemma {:induction false} NextStands(stream: Bytes, pos: nat, h: Bytes, c: Bytes, t: Bytes)
    requires |h| == 4 && pos <= |stream| && t <= stream && t == stream[..pos] + (h + c)
    ensures pos + 4 + |c| <= |stream| && stream[pos..pos + 4] == h && stream[pos + 4..pos + 4 + |c|] == c
  {
    assert t == stream[..|t|];
    assert stream[pos..pos + 4] == t[pos..pos + 4] == h;
    assert stream[pos + 4..pos + 4 + |c|] == t[pos + 4..pos + 4 + |c|] == c;
  }

  /** At the stream's end, it is exactly the frames read. */
  lemma {:induction false} AllRead(s: Session, frames: seq<Bytes>, stream: Bytes, n: nat, out: Bytes)
    requires Ideal(s, frames) && HasRead(s, frames, stream, |stream|, n, out)
    ensures stream == Stream(s, frames[..n])
    ensures stream == Stream(s, frames) ==> n == |frames| && out == Joined(frames)
  {
    assert stream[..|stream|] == stream;
    if n < |frames| {
      UpTo(s, frames, n);
      FirstFrames(s, frames, n + 1);
      assert |Stream(s, frames[..n + 1])| > |Stream(s, frames[..n])|;
    } else {
      assert frames[..n] == frames;
    }
  }

  /** One frame of the stream: taken, or what is left of it does not make the next one. */
  method ReadFrame(s: Session, stream: Bytes, pos: nat, n: nat, out: Bytes, ghost frames: seq<Bytes>)
    returns (taken: bool, pos': nat, out': Bytes)
    requires Ideal(s, frames) && FramesOk(frames) && HasRead(s, frames, stream, pos, n, out) && pos < |stream|
    ensures taken ==> pos' > pos && HasRead(s, frames, stream, pos', n + 1, out')
    ensures !taken ==> stream != Stream(s, frames) && out' == out
  {
    taken, pos', out' := false, pos, out;
    if stream == Stream(s, frames) {
      NextOpens(s, frames, stream, pos, n, out);
    }
    if |stream| - pos < 4 {
      return;
    }
    var h := stream[pos..pos + 4];
    var length := s.lengthOf(h);
    if length < TAG || length > FRAME_MAX + TAG {
      return;
    }
    if |stream| - pos - 4 < length {
      return;
    }
    var c := stream[pos + 4..pos + 4 + length];
    var p := s.open(n, c);
    if p.None? {
      return;
    }
    FrameOpens(s, frames, stream, pos, n, out, h, c);
    taken, pos', out' := true, pos + 4 + length, out + p.v;
  }

  /** Writes the plaintext of the frames read; ok at a clean end between frames. Whatever the stream
      (altered, reordered, cut short), what is written is the first frames of what was sealed, and a clean
      end means that the stream was exactly these frames; all of it comes back exactly from the stream as it
      was written. */
  method CopyRelayFrames(s: Session, stream: Bytes, ghost frames: seq<Bytes>) returns (out: Bytes, ok: bool, n: nat)
    requires Ideal(s, frames) && FramesOk(frames)
    ensures n <= |frames| && out == Joined(frames[..n]) && out <= Joined(frames)
    ensures ok ==> stream == Stream(s, frames[..n])
    ensures stream == Stream(s, frames) ==> ok && out == Joined(frames)
  {
    out, ok, n := [], false, 0;
    var pos := 0;
    while pos < |stream|
      invariant HasRead(s, frames, stream, pos, n, out)
      decreases |stream| - pos
    {
      var taken;
      FirstFrames(s, frames, n);
      taken, pos, out := ReadFrame(s, stream, pos, n, out, frames);
      if !taken {
        return;
      }
      n := n + 1;
    }
    FirstFrames(s, frames, n);
    AllRead(s, frames, stream, n, out);
    ok := true;
  }

  /** A chunk written in frames, their lengths big-endian, and read back is the chunk. */
  method ChunkRoundTrip(seal: (nat, Bytes) -> Bytes, open: (nat, Bytes) -> Opt<Bytes>, text: Bytes)
    returns (back: Bytes, ok: bool)
    requires Opens(OnWire(seal, open), Cut(text))
    ensures ok && back == text
  {
    var s := OnWire(seal, open);
    BigEndianLengths(seal, open);
    var out := WriteRelayFrames(s, text);
    CutJoins(text);
    var n;
    back, ok, n := CopyRelayFrames(s, out, Cut(text));
  }

  /** A live body, however it was read, comes back as it was. */
  method LiveRoundTrip(seal: (nat, Bytes) -> Bytes, open: (nat, Bytes) -> Opt<Bytes>, bursts: seq<Bytes>)
    returns (back: Bytes, ok: bool)
    requires forall i | 0 <= i < |bursts| :: |bursts[i]| <= FRAME_MAX
    requires Opens(OnWire(seal, open), NonEmpty(bursts))
    ensures ok && back == Joined(bursts)
  {
    var s := OnWire(seal, open);
    BigEndianLengths(seal, open);
    var out := StreamRelaySealed(s, bursts);
    NonEmptyIs(s, bursts);
    var n;
    back, ok, n := CopyRelayFrames(s, out, NonEmpty(bursts));
  }
}
