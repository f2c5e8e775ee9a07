/** Query canonicalisation (canonical.go): what a signature covers of a request's query. Two queries have
the same canonical form exactly when they carry the same parameters, in whatever order and however
escaped. Percent-encoding is that of sections 2.1 and 2.3 of RFC 3986. */
module CanonicalQuery {
  import opened Sorting

  const PERCENT: Byte := 37
  const AMPERSAND: Byte := 38
  const EQUALS: Byte := 61
  const PLUS: Byte := 43
  const SPACE: Byte := 32

  // ---------------------------------------------------------------- percent-encoding

  predicate Unreserved(c: Byte) {
    65 <= c <= 90 || 97 <= c <= 122 || 48 <= c <= 57 || c == 45 || c == 95 || c == 46 || c == 126
  }

  function HexDigit(n: int): Byte
    requires 0 <= n < 16
  {
    if n < 10 then 48 + n else 55 + n
  }

  /** A hex digit's value, either case; 16 for anything else. */
  function Unhex(c: Byte): (n: int)
    ensures 0 <= n <= 16
  {
    if 48 <= c <= 57 then c - 48
    else if 97 <= c <= 102 then c - 87
    else if 65 <= c <= 70 then c - 55
    else 16
  }

  /** The text begins with an escape. */
  predicate Escaped(s: Bytes) {
    |s| > 2 && s[0] == PERCENT && Unhex(s[1]) < 16 && Unhex(s[2]) < 16
  }

  function Decode(s: Bytes): Bytes {
    if s == [] then []
    else if Escaped(s) then [Unhex(s[1]) * 16 + Unhex(s[2])] + Decode(s[3..])
    else [s[0]] + Decode(s[1..])
  }

  function EncodeByte(c: Byte): Bytes {
    if Unreserved(c) then [c] else [PERCENT, HexDigit(c / 16), HexDigit(c % 16)]
  }

  function Encode(s: Bytes): Bytes {
    if s == [] then [] else EncodeByte(s[0]) + Encode(s[1..])
  }

  /** Decoding goes on, an escape or a byte at a time. */
  lemma {:induction false} DecodeNext(s: Bytes, i: nat)
    requires i < |s|
    ensures Escaped(s[i..]) <==> s[i] == PERCENT && i + 2 < |s| && Unhex(s[i + 1]) < 16 && Unhex(s[i + 2]) < 16
    ensures Decode(s[i..]) == if Escaped(s[i..]) then [Unhex(s[i + 1]) * 16 + Unhex(s[i + 2])] + Decode(s[i + 3..])
                              else [s[i]] + Decode(s[i + 1..])
  {
    var t := s[i..];
    if Escaped(t) {
      assert t[3..] == s[i + 3..];
    } else {
      assert t[1..] == s[i + 1..];
    }
  }

  method RawUrlDecode(s: Bytes) returns (b: Bytes)
    ensures b == Decode(s)
  {
    b := [];
    var i := 0;
    ghost var whole := Decode(s);
    assert s[0..] == s;
    while i < |s|
      invariant 0 <= i <= |s| && whole == b + Decode(s[i..])
    {
      DecodeNext(s, i);
      if s[i] == PERCENT && i + 2 < |s| {
        var hi, lo := Unhex(s[i + 1]), Unhex(s[i + 2]);
        if hi < 16 && lo < 16 {
          b, i := b + [hi * 16 + lo], i + 3;
          continue;
        }
      }
      b, i := b + [s[i]], i + 1;
    }
  }

  lemma {:induction false} EncodeNext(s: Bytes, i: nat)
    requires i < |s|
    ensures Encode(s[i..]) == EncodeByte(s[i]) + Encode(s[i + 1..])
  {
    assert s[i..][1..] == s[i + 1..];
  }

  method RawUrlEncode(s: Bytes) returns (b: Bytes)
    ensures b == Encode(s)
  {
    b := [];
    ghost var whole := Encode(s);
    assert s[0..] == s;
    for i := 0 to |s|
      invariant whole == b + Encode(s[i..])
    {
      var c := s[i];
      EncodeNext(s, i);
      if Unreserved(c) {
        b := b + [c];
      } else {
        b := b + [PERCENT];
        b := b + [HexDigit(c / 16)];
        b := b + [HexDigit(c % 16)];
      }
    }
  }

  lemma {:induction false} HexBack(n: int)
    requires 0 <= n < 16
    ensures Unhex(HexDigit(n)) == n
  {
  }

  /** Every byte string comes back from its encoding. */
  lemma {:induction false} DecodeEncode(s: Bytes)
    ensures Decode(Encode(s)) == s
  {
    if s != [] {
      DecodeEncode(s[1..]);
      var c, rest := s[0], Encode(s[1..]);
      var e := EncodeByte(c) + rest;
      if Unreserved(c) {
        assert e[1..] == rest;
      } else {
        HexBack(c / 16);
        HexBack(c % 16);
        assert e[3..] == rest;
      }
    }
  }

  predicate Plain(s: Bytes) {
    forall i | 0 <= i < |s| :: Unreserved(s[i]) || s[i] == PERCENT
  }

  lemma {:induction false} EncodedIsPlain(s: Bytes)
    ensures Plain(Encode(s))
  {
    if s != [] {
      EncodedIsPlain(s[1..]);
    }
  }

  // ---------------------------------------------------------------- a query's parameters

  datatype Pair = Pair(k: Bytes, v: Bytes)

  /** strings.Split. */
  function Split(s: Bytes, sep: Byte): (r: seq<Bytes>)
    ensures r != []
  {
    if s == [] then [[]]
    else if s[0] == sep then [[]] + Split(s[1..], sep)
    else
      var r := Split(s[1..], sep);
      [[s[0]] + r[0]] + r[1..]
  }

  /** The query's parameters: its parts, but for empty ones. */
  function Params(parts: seq<Bytes>): seq<Bytes> {
    if parts == [] then []
    else (if parts[0] == [] then [] else [parts[0]]) + Params(parts[1..])
  }

  /** Where the separator first is; the text's end if nowhere. */
  function IndexOf(s: Bytes, sep: Byte): (i: nat)
    ensures i <= |s| && (i < |s| ==> s[i] == sep) && forall j | 0 <= j < i :: s[j] != sep
  {
    if s == [] || s[0] == sep then 0 else 1 + IndexOf(s[1..], sep)
  }

  /** strings.Cut at the equals sign. */
  function Cut(s: Bytes): Pair {
    var i := IndexOf(s, EQUALS);
    Pair(s[..i], if i < |s| then s[i + 1..] else [])
  }

  function Spaced(s: Bytes): (r: Bytes)
    ensures |r| == |s| && forall i | 0 <= i < |s| :: r[i] == if s[i] == PLUS then SPACE else s[i]
  {
    seq(|s|, i requires 0 <= i < |s| => if s[i] == PLUS then SPACE else s[i])
  }

  /** What a parameter says: its key and its value. */
  function Says(part: Bytes): Pair {
    var p := Cut(part);
    Pair(Decode(Spaced(p.k)), Decode(Spaced(p.v)))
  }

  function EncodePair(p: Pair): Pair {
    Pair(Encode(p.k), Encode(p.v))
  }

  function DecodePair(p: Pair): Pair {
    Pair(Decode(p.k), Decode(p.v))
  }

  /** What a query says, parameter by parameter. */
  function Said(raw: Bytes): seq<Pair> {
    var ps := Params(Split(raw, AMPERSAND));
    Map(Says, ps)
  }

  function Map<A, B>(f: A -> B, s: seq<A>): (r: seq<B>)
    ensures |r| == |s| && forall i | 0 <= i < |s| :: r[i] == f(s[i])
  {
    seq(|s|, i requires 0 <= i < |s| => f(s[i]))
  }

  function Pairs(raw: Bytes): seq<Pair> {
    Map(EncodePair, Said(raw))
  }

  predicate PairLeq(a: Pair, b: Pair) {
    if a.k != b.k then Leq(a.k, b.k) else Leq(a.v, b.v)
  }

  lemma {:induction false} PairsOrdered()
    ensures Ordering(PairLeq)
  {
    BytesOrdered();
    forall a: Pair, b: Pair | PairLeq(a, b) && PairLeq(b, a) ensures a == b {
      assert a.k == b.k;
    }
    forall a: Pair, b: Pair, c: Pair | PairLeq(a, b) && PairLeq(b, c) ensures PairLeq(a, c) {
      if a.k != b.k && b.k != c.k {
        assert Leq(a.k, c.k);
        if a.k == c.k {
          assert false;
        }
      }
    }
  }

  function Part(p: Pair): Bytes {
    p.k + [EQUALS] + p.v
  }

  function Join(ps: seq<Pair>): Bytes {
    if ps == [] then []
    else if |ps| == 1 then Part(ps[0])
    else Part(ps[0]) + [AMPERSAND] + Join(ps[1..])
  }

  function Canonical(raw: Bytes): Bytes {
    Join(Sort(PairLeq, Pairs(raw)))
  }

  // ---------------------------------------------------------------- the canonical form read back

  predicate Without(s: Bytes, c: Byte) {
    forall i | 0 <= i < |s| :: s[i] != c
  }

  lemma {:induction false} SplitNone(s: Bytes, sep: Byte)
    requires Without(s, sep)
    ensures Split(s, sep) == [s]
  {
    if s != [] {
      SplitNone(s[1..], sep);
      assert [s[0]] + s[1..] == s;
    }
  }

  lemma {:induction false} SplitFirst(a: Bytes, sep: Byte, rest: Bytes)
    requires Without(a, sep)
    ensures Split(a + [sep] + rest, sep) == [a] + Split(rest, sep)
  {
    var s := a + [sep] + rest;
    if a == [] {
      assert s[1..] == rest;
    } else {
      SplitFirst(a[1..], sep, rest);
      assert s[1..] == a[1..] + [sep] + rest;
      assert [a[0]] + a[1..] == a;
    }
  }

  predicate PlainPair(p: Pair) {
    Plain(p.k) && Plain(p.v)
  }

  lemma {:induction false} JoinSplits(ps: seq<Pair>)
    requires forall i | 0 <= i < |ps| :: PlainPair(ps[i])
    ensures Params(Split(Join(ps), AMPERSAND)) == Map(Part, ps)
  {
    if ps == [] {
      assert |Split([], AMPERSAND)[1..]| == 0;
      assert Map(Part, ps) == [];
    } else {
      var first, rest := Part(ps[0]), ps[1..];
      assert Without(first, AMPERSAND);
      if |ps| == 1 {
        SplitNone(first, AMPERSAND);
        var one: seq<Bytes> := [first];
        assert one[1..] == [];
      } else {
        SplitFirst(first, AMPERSAND, Join(rest));
        JoinSplits(rest);
        assert ([first] + Split(Join(rest), AMPERSAND))[1..] == Split(Join(rest), AMPERSAND);
      }
      assert Map(Part, ps) == [first] + Map(Part, rest);
    }
  }

  lemma {:induction false} PartSays(p: Pair)
    requires PlainPair(p)
    ensures Says(Part(p)) == DecodePair(p)
  {
    var s := Part(p);
    assert s[|p.k|] == EQUALS && forall j | 0 <= j < |p.k| :: s[j] == p.k[j];
    assert IndexOf(s, EQUALS) == |p.k|;
    assert s[..|p.k|] == p.k && s[|p.k| + 1..] == p.v;
    assert Spaced(p.k) == p.k && Spaced(p.v) == p.v;
  }

  lemma {:induction false} PairsArePlain(raw: Bytes)
    ensures forall i | 0 <= i < |Pairs(raw)| :: PlainPair(Pairs(raw)[i])
  {
    forall i | 0 <= i < |Pairs(raw)| ensures PlainPair(Pairs(raw)[i]) {
      EncodedIsPlain(Said(raw)[i].k);
      EncodedIsPlain(Said(raw)[i].v);
    }
  }

  lemma {:induction false} SortedArePlain(raw: Bytes)
    ensures forall i | 0 <= i < |Sort(PairLeq, Pairs(raw))| :: PlainPair(Sort(PairLeq, Pairs(raw))[i])
  {
    PairsOrdered();
    SortIs(PairLeq, Pairs(raw));
    PairsArePlain(raw);
    var s := Sort(PairLeq, Pairs(raw));
    forall i | 0 <= i < |s| ensures PlainPair(s[i]) {
      assert s[i] in multiset(s);
      assert s[i] in Pairs(raw);
    }
  }

  /** What the canonical form says is what its parts say. */
  lemma {:induction false} CanonicalSays(raw: Bytes)
    ensures Said(Canonical(raw)) == Map(DecodePair, Sort(PairLeq, Pairs(raw)))
  {
    var s := Sort(PairLeq, Pairs(raw));
    SortedArePlain(raw);
    JoinSplits(s);
    forall i | 0 <= i < |s| ensures Says(Map(Part, s)[i]) == DecodePair(s[i]) {
      PartSays(s[i]);
    }
  }

  lemma {:induction false} TakeOut<A>(b: seq<A>, k: nat)
    requires k < |b|
    ensures multiset(b[..k] + b[k + 1..]) == multiset(b) - multiset{b[k]}
  {
    assert b == b[..k] + [b[k]] + b[k + 1..];
  }

  lemma {:induction false} MapTakeOut<A, B>(f: A -> B, b: seq<A>, k: nat)
    requires k < |b|
    ensures Map(f, b[..k] + b[k + 1..]) == Map(f, b)[..k] + Map(f, b)[k + 1..]
  {
  }

  lemma {:induction false} MapRearranged<A, B>(f: A -> B, a: seq<A>, b: seq<A>)
    requires multiset(a) == multiset(b)
    ensures multiset(Map(f, a)) == multiset(Map(f, b))
  {
    assert |a| == |multiset(a)| == |multiset(b)| == |b|;
    if a != [] {
      var l := |a| - 1;
      assert a[l] in multiset(b);
      var k :| 0 <= k < |b| && b[k] == a[l];
      var a', b' := a[..l], b[..k] + b[k + 1..];
      ButLast(a);
      TakeOut(b, k);
      MapRearranged(f, a', b');
      var x, y := Map(f, a), Map(f, b);
      assert x[..l] == Map(f, a');
      MapTakeOut(f, b, k);
      ButLast(x);
      TakeOut(y, k);
      Restore(multiset(x), multiset(y), x[l]);
    }
  }

  lemma {:induction false} Restore<B>(x: multiset<B>, y: multiset<B>, e: B)
    requires e in x && e in y && x - multiset{e} == y - multiset{e}
    ensures x == y
  {
    assert x == (x - multiset{e}) + multiset{e};
    assert y == (y - multiset{e}) + multiset{e};
  }

  lemma {:induction false} PairsSay(raw: Bytes)
    ensures Map(DecodePair, Pairs(raw)) == Said(raw)
  {
    forall i | 0 <= i < |Said(raw)| ensures DecodePair(EncodePair(Said(raw)[i])) == Said(raw)[i] {
      DecodeEncode(Said(raw)[i].k);
      DecodeEncode(Said(raw)[i].v);
    }
  }

  /** The canonical form carries the query's parameters: none lost, none added, as often. */
  lemma {:induction false} CanonicalKeepsParameters(raw: Bytes)
    ensures multiset(Said(Canonical(raw))) == multiset(Said(raw))
  {
    PairsOrdered();
    SortIs(PairLeq, Pairs(raw));
    CanonicalSays(raw);
    MapRearranged(DecodePair, Sort(PairLeq, Pairs(raw)), Pairs(raw));
    PairsSay(raw);
  }

  /** Two queries have one canonical form exactly when they say the same, in whatever order, however
      escaped. */
  lemma {:induction false} CanonicalIff(a: Bytes, b: Bytes)
    ensures Canonical(a) == Canonical(b) <==> multiset(Said(a)) == multiset(Said(b))
  {
    if Canonical(a) == Canonical(b) {
      CanonicalKeepsParameters(a);
      CanonicalKeepsParameters(b);
    }
    if multiset(Said(a)) == multiset(Said(b)) {
      PairsOrdered();
      MapRearranged(EncodePair, Said(a), Said(b));
      SortRearranged(PairLeq, Pairs(a), Pairs(b));
    }
  }

  /** A canonical form is its own. */
  lemma {:induction false} CanonicalAgain(raw: Bytes)
    ensures Canonical(Canonical(raw)) == Canonical(raw)
  {
    CanonicalKeepsParameters(raw);
    CanonicalIff(Canonical(raw), raw);
  }

  /** The parameters' order does not matter. */
  lemma {:induction false} CanonicalRearranged(a: Bytes, b: Bytes)
    requires multiset(Params(Split(a, AMPERSAND))) == multiset(Params(Split(b, AMPERSAND)))
    ensures Canonical(a) == Canonical(b)
  {
    MapRearranged(Says, Params(Split(a, AMPERSAND)), Params(Split(b, AMPERSAND)));
    CanonicalIff(a, b);
  }

  // ---------------------------------------------------------------- the loops

  lemma {:induction false} ParamsMore(parts: seq<Bytes>, i: nat)
    requires i < |parts|
    ensures Params(parts[..i + 1]) == Params(parts[..i]) + if parts[i] == [] then [] else [parts[i]]
  {
    assert parts[..i + 1] == parts[..i] + [parts[i]];
    ParamsJoin(parts[..i], [parts[i]]);
    var one: seq<Bytes> := [parts[i]];
    assert one[1..] == [];
  }

  lemma {:induction false} ParamsJoin(a: seq<Bytes>, b: seq<Bytes>)
    ensures Params(a + b) == Params(a) + Params(b)
  {
    if a == [] {
      assert a + b == b;
    } else {
      assert (a + b)[1..] == a[1..] + b;
      ParamsJoin(a[1..], b);
    }
  }

  lemma {:induction false} PairsMore(parts: seq<Bytes>, i: nat)
    requires i < |parts|
    ensures PairsOf(parts[..i + 1]) == PairsOf(parts[..i]) + if parts[i] == [] then [] else [EncodePair(Says(parts[i]))]
  {
    ParamsMore(parts, i);
  }

  function PairsOf(parts: seq<Bytes>): seq<Pair> {
    Map(EncodePair, Map(Says, Params(parts)))
  }

  lemma {:induction false} NothingSaid()
    ensures Canonical([]) == []
  {
    assert Split([], AMPERSAND)[0] == [];
    assert |Split([], AMPERSAND)[1..]| == 0;
    assert Params(Split([], AMPERSAND)) == [];
    assert Pairs([]) == [];
  }

  method CanonicalPair(part: Bytes) returns (p: Pair)
    ensures p == EncodePair(Says(part))
  {
    var cut := Cut(part);
    var k := RawUrlDecode(Spaced(cut.k));
    var v := RawUrlDecode(Spaced(cut.v));
    k := RawUrlEncode(k);
    v := RawUrlEncode(v);
    p := Pair(k, v);
  }

  /** canonical.go's `CanonicalQuery`: the parts' keys and values decoded and encoded again, sorted by key
      then value, joined. */
  method Canonicalise(raw: Bytes) returns (r: Bytes)
    ensures r == Canonical(raw)
  {
    if raw == [] {
      NothingSaid();
      return [];
    }
    var parts := Split(raw, AMPERSAND);
    var pairs: seq<Pair> := [];
    for i := 0 to |parts|
      invariant pairs == PairsOf(parts[..i])
    {
      PairsMore(parts, i);
      if parts[i] == [] {
        continue;
      }
      var p := CanonicalPair(parts[i]);
      pairs := pairs + [p];
    }
    assert parts[..|parts|] == parts;
    pairs := Sort(PairLeq, pairs);
    r := Join(pairs);
  }
}
