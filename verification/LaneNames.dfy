/** The lane's file names and the order `spooled` lists them in (events.go). */
module LaneNames {
  import opened Maps
  import opened SpoolEvents
  import opened MainStore

  /** <clock>-… of a spooled file (gen 0), or <clock>-compact-<gen>-<n> of a compaction's chunk. */
  datatype Name = Name(clock: nat, gen: nat, n: nat)

  predicate Before(a: Name, b: Name) {
    a.clock < b.clock || (a.clock == b.clock && (a.gen < b.gen || (a.gen == b.gen && a.n < b.n)))
  }

  type Files = map<Name, seq<Event>>

  ghost predicate Ordered(names: seq<Name>) {
    forall i, j | 0 <= i < j < |names| :: Before(names[i], names[j])
  }

  function NameSet(names: seq<Name>): set<Name> {
    set x | x in names
  }

  lemma {:induction false} FirstExists(s: set<Name>)
    requires s != {}
    ensures exists x :: x in s && forall y | y in s :: x == y || Before(x, y)
  {
    var z :| z in s;
    var rest := s - {z};
    assert forall y | y in s :: y == z || y in rest;
    if rest == {} {
      assert forall y | y in s :: z == y || Before(z, y);
    } else {
      FirstExists(rest);
      var x :| x in rest && forall y | y in rest :: x == y || Before(x, y);
      var f := if Before(z, x) then z else x;
      forall y | y in s ensures f == y || Before(f, y) {
        assert y == z || x == y || Before(x, y);
      }
    }
  }

  ghost function First(s: set<Name>): (x: Name)
    requires s != {}
    ensures x in s && forall y | y in s :: x == y || Before(x, y)
  {
    FirstExists(s);
    var x :| x in s && forall y | y in s :: x == y || Before(x, y);
    x
  }

  /** The names of s, oldest first. */
  ghost function Listing(s: set<Name>): (r: seq<Name>) {
    if s == {} then [] else [First(s)] + Listing(s - {First(s)})
  }

  lemma {:induction false} ListingIs(s: set<Name>)
    ensures Ordered(Listing(s)) && NameSet(Listing(s)) == s
  {
    if s != {} {
      var x := First(s);
      ListingIs(s - {x});
      var r := Listing(s - {x});
      forall i, j | 0 <= i < j < |Listing(s)| ensures Before(Listing(s)[i], Listing(s)[j]) {
        assert r[j - 1] in NameSet(r);
      }
      forall y ensures y in NameSet(Listing(s)) <==> y in s {
        assert y in r <==> y in NameSet(r);
        assert Listing(s) == [x] + r;
      }
    }
  }

  /** There is one ordered listing of a set of names. */
  lemma {:induction false} ListingUnique(names: seq<Name>)
    requires Ordered(names)
    ensures Listing(NameSet(names)) == names
  {
    if names != [] {
      var s := NameSet(names);
      assert names[0] in s;
      assert First(s) == names[0] by {
        var x := First(s);
        assert x in names;
        var i :| 0 <= i < |names| && names[i] == x;
        assert i > 0 ==> Before(names[0], names[i]);
      }
      assert s - {names[0]} == NameSet(names[1..]) by {
        forall y | y in s && y != names[0] ensures y in names[1..] {
          var i :| 0 <= i < |names| && names[i] == y;
          assert names[1..][i - 1] == y;
        }
        forall i | 0 <= i < |names[1..]| ensures names[1..][i] in s && names[1..][i] != names[0] {
          assert names[1..][i] == names[i + 1] && Before(names[0], names[i + 1]);
        }
      }
      ListingUnique(names[1..]);
    }
  }

  /** Names that all come before others are listed before them. */
  lemma {:induction false} ListingJoin(a: set<Name>, b: set<Name>)
    requires forall x, y | x in a && y in b :: Before(x, y)
    ensures Listing(a + b) == Listing(a) + Listing(b)
  {
    ListingIs(a);
    ListingIs(b);
    var la, lb := Listing(a), Listing(b);
    forall i, j | 0 <= i < j < |la + lb| ensures Before((la + lb)[i], (la + lb)[j]) {
      if i < |la| <= j {
        assert la[i] in NameSet(la) && lb[j - |la|] in NameSet(lb);
      }
    }
    assert NameSet(la + lb) == NameSet(la) + NameSet(lb);
    ListingUnique(la + lb);
  }

  /** The events of the files named, in order; a file that is not there has none (`read`). */
  function Content(files: Files, names: seq<Name>): seq<Event> {
    if names == [] then []
    else (if names[0] in files then files[names[0]] else []) + Content(files, names[1..])
  }

  lemma {:induction false} ContentJoin(files: Files, a: seq<Name>, b: seq<Name>)
    ensures Content(files, a + b) == Content(files, a) + Content(files, b)
  {
    if a == [] {
      assert a + b == b;
    } else {
      assert (a + b)[1..] == a[1..] + b;
      ContentJoin(files, a[1..], b);
    }
  }

  /** Only the files named matter. */
  lemma {:induction false} ContentSame(f: Files, g: Files, names: seq<Name>)
    requires forall x | x in names :: (x in f <==> x in g) && (x in f ==> f[x] == g[x])
    ensures Content(f, names) == Content(g, names)
  {
    if names != [] {
      ContentSame(f, g, names[1..]);
    }
  }

  /** The rest of a listing lists the rest of the names. */
  lemma {:induction false} ListingRest(s: set<Name>, a: seq<Name>, b: seq<Name>)
    requires Listing(s) == a + b
    ensures Ordered(a) && Ordered(b)
    ensures Listing(s - NameSet(a)) == b
    ensures NameSet(a) <= s && NameSet(a) !! NameSet(b) && s == NameSet(a) + NameSet(b)
  {
    ListingIs(s);
    forall i, j | 0 <= i < j < |a| ensures Before(a[i], a[j]) {
      assert (a + b)[i] == a[i] && (a + b)[j] == a[j];
    }
    forall i, j | 0 <= i < j < |b| ensures Before(b[i], b[j]) {
      assert (a + b)[|a| + i] == b[i] && (a + b)[|a| + j] == b[j];
    }
    assert NameSet(a + b) == NameSet(a) + NameSet(b);
    forall i, j | 0 <= i < |a| && 0 <= j < |b| ensures a[i] != b[j] {
      assert Before((a + b)[i], (a + b)[|a| + j]);
    }
    ListingUnique(b);
    assert s - NameSet(a) == NameSet(b);
  }

  /** An empty file contributes nothing. */
  lemma {:induction false} EmptyFile(files: Files, s: set<Name>, x: Name)
    requires x in s && x in files && files[x] == []
    ensures Content(files, Listing(s - {x})) == Content(files, Listing(s))
  {
    var f := First(s);
    if f != x {
      assert f in s - {x};
      assert First(s - {x}) == f by {
        assert First(s - {x}) in s;
      }
      assert s - {x} - {f} == s - {f} - {x};
      EmptyFile(files, s - {f}, x);
      assert ([f] + Listing(s - {f} - {x}))[1..] == Listing(s - {f} - {x});
    }
    assert ([f] + Listing(s - {f}))[1..] == Listing(s - {f});
  }

  /** The files listed first, and then the rest. */
  lemma {:induction false} ContentSplit(files: Files, s: set<Name>, a: seq<Name>)
    requires a <= Listing(s)
    ensures Content(files, Listing(s)) == Content(files, a) + Content(files, Listing(s - NameSet(a)))
  {
    var b := Listing(s)[|a|..];
    assert Listing(s) == a + b;
    ListingRest(s, a, b);
    ContentJoin(files, a, b);
  }

  /** One file more, wherever it is listed. */
  lemma {:induction false} BagWith(files: Files, s: set<Name>, x: Name)
    requires x !in s && x in files
    ensures multiset(Content(files, Listing(s + {x}))) == multiset(Content(files, Listing(s))) + multiset(files[x])
  {
    var a, b := ListedAround(s, x);
    ContentAround(files, a, x, b);
  }

  lemma {:induction false} ListedAround(s: set<Name>, x: Name) returns (a: seq<Name>, b: seq<Name>)
    requires x !in s
    ensures Listing(s + {x}) == a + [x] + b && Listing(s) == a + b
  {
    var l := Listing(s + {x});
    ListingIs(s + {x});
    assert x in NameSet(l);
    var i :| 0 <= i < |l| && l[i] == x;
    a, b := l[..i], l[i + 1..];
    assert l == a + [x] + b;
    OrderedWithout(a, x, b);
    ListingUnique(a + b);
    assert NameSet(a + b) == s;
  }

  lemma {:induction false} ContentAround(files: Files, a: seq<Name>, x: Name, b: seq<Name>)
    requires x in files
    ensures Content(files, a + [x] + b) == Content(files, a) + files[x] + Content(files, b)
    ensures Content(files, a + b) == Content(files, a) + Content(files, b)
  {
    ContentJoin(files, a + [x], b);
    ContentJoin(files, a, [x]);
    ContentJoin(files, a, b);
    assert Content(files, [x]) == files[x] + Content(files, []);
  }

  /** The files named, and others, wherever they are listed among each other. */
  lemma {:induction false} BagUnion(files: Files, names: seq<Name>, s: set<Name>)
    requires Ordered(names) && NameSet(names) !! s && NameSet(names) <= files.Keys
    ensures multiset(Content(files, Listing(NameSet(names) + s))) ==
            multiset(Content(files, names)) + multiset(Content(files, Listing(s)))
  {
    if names == [] {
      assert NameSet(names) + s == s;
    } else {
      var x, rest := names[0], names[1..];
      FirstApart(names);
      BagUnion(files, rest, s);
      assert x in NameSet(names);
      BagWith(files, NameSet(rest) + s, x);
      assert NameSet(names) + s == NameSet(rest) + s + {x};
    }
  }

  lemma {:induction false} FirstApart(names: seq<Name>)
    requires Ordered(names) && names != []
    ensures var rest := names[1..];
            Ordered(rest) && names[0] !in NameSet(rest) && NameSet(names) == NameSet(rest) + {names[0]}
  {
    var rest := names[1..];
    forall i | 0 <= i < |rest| ensures rest[i] != names[0] {
      assert Before(names[0], names[i + 1]);
    }
    assert names == [names[0]] + rest;
  }

  /** The oldest of some names. */
  method Oldest(names: set<Name>) returns (x: Name)
    requires names != {}
    ensures x in names && forall y | y in names :: x == y || Before(x, y)
  {
    x :| x in names;
    var rest := names - {x};
    while rest != {}
      invariant rest <= names && x in names && x !in rest
      invariant forall y | y in names :: y in rest || x == y || Before(x, y)
      decreases |rest|
    {
      var y :| y in rest;
      if Before(y, x) {
        x := y;
      }
      rest := rest - {y};
    }
  }

  lemma {:induction false} ListedLast(r: seq<Name>, x: Name)
    requires Ordered(r) && forall y | y in r :: Before(y, x)
    ensures Ordered(r + [x]) && NameSet(r + [x]) == NameSet(r) + {x}
  {
    forall i, j | 0 <= i < j < |r + [x]| ensures Before((r + [x])[i], (r + [x])[j]) {
      if j == |r| {
        assert r[i] in r;
      }
    }
  }

  /** events.go's `spooled`: the names sorted. */
  method Spooled(names: set<Name>) returns (r: seq<Name>)
    ensures r == Listing(names)
  {
    r := [];
    var rest := names;
    while rest != {}
      invariant Ordered(r) && rest <= names && NameSet(r) == names - rest
      invariant forall x, y | x in r && y in rest :: Before(x, y)
      decreases |rest|
    {
      var x := Oldest(rest);
      ListedLast(r, x);
      r := r + [x];
      rest := rest - {x};
    }
    assert NameSet(r) == names;
    ListingUnique(r);
  }

  /** Those of the names whose files have events. */
  function NonEmpty(files: Files, names: seq<Name>): (r: seq<Name>) {
    if names == [] then []
    else (if names[0] in files && files[names[0]] != [] then [names[0]] else []) + NonEmpty(files, names[1..])
  }

  lemma {:induction false} NonEmptySame(f: Files, g: Files, names: seq<Name>)
    requires forall x | x in names :: At(f, x) == At(g, x)
    ensures NonEmpty(f, names) == NonEmpty(g, names)
  {
    if names != [] {
      assert At(f, names[0]) == At(g, names[0]);
      NonEmptySame(f, g, names[1..]);
    }
  }

  /** Names spooled later are listed after the rest. */
  lemma {:induction false} ListingGrows(a: set<Name>, b: set<Name>)
    requires a <= b && forall x, y | x in a && y in b - a :: Before(x, y)
    ensures Listing(a) <= Listing(b)
  {
    ListingJoin(a, b - a);
    assert a + (b - a) == b;
  }

  lemma {:induction false} OrderedWithout(a: seq<Name>, x: Name, c: seq<Name>)
    requires Ordered(a + [x] + c)
    ensures Ordered(a + c) && NameSet(a + c) == NameSet(a + [x] + c) - {x}
  {
    var l, r := a + [x] + c, a + c;
    forall i, j | 0 <= i < j < |r| ensures Before(r[i], r[j]) {
      assert r[i] == l[if i < |a| then i else i + 1] && r[j] == l[if j < |a| then j else j + 1];
    }
    forall i | 0 <= i < |r| ensures r[i] in l && r[i] != x {
      var k := if i < |a| then i else i + 1;
      assert r[i] == l[k] && l[|a|] == x;
      assert if k < |a| then Before(l[k], l[|a|]) else Before(l[|a|], l[k]);
    }
    forall y | y in l && y != x ensures y in r {
      var k :| 0 <= k < |l| && l[k] == y;
      assert r[if k < |a| then k else k - 1] == y;
    }
  }

  lemma {:induction false} ListingWithout(s: set<Name>, a: seq<Name>, x: Name, b: seq<Name>)
    requires a + [x] + b <= Listing(s)
    ensures a + b <= Listing(s - {x}) && x in s && x !in a + b
  {
    var l := Listing(s);
    var c := l[|a| + 1..];
    assert l == a + [x] + c;
    ListingIs(s);
    assert l[|a|] == x && x in NameSet(l);
    OrderedWithout(a, x, c);
    ListingUnique(a + c);
    PrefixRest(a + [x], b, l);
    ApartFrom(a, b, c, x);
  }

  lemma {:induction false} PrefixRest(a: seq<Name>, b: seq<Name>, l: seq<Name>)
    requires a + b <= l
    ensures b <= l[|a|..]
  {
    assert l[..|a + b|] == a + b;
  }

  lemma {:induction false} ApartFrom(a: seq<Name>, b: seq<Name>, c: seq<Name>, x: Name)
    requires b <= c && x !in NameSet(a + c)
    ensures a + b <= a + c && x !in a + b
  {
    forall i | 0 <= i < |a + b| ensures (a + b)[i] != x {
      assert (a + b)[i] == (a + c)[i] && (a + c)[i] in NameSet(a + c);
    }
  }

  lemma {:induction false} NonEmptyJoin(files: Files, a: seq<Name>, b: seq<Name>)
    ensures NonEmpty(files, a + b) == NonEmpty(files, a) + NonEmpty(files, b)
  {
    if a == [] {
      assert a + b == b;
    } else {
      assert (a + b)[1..] == a[1..] + b;
      NonEmptyJoin(files, a[1..], b);
    }
  }

  /** One more file, if it has events. */
  lemma {:induction false} NonEmptyNext(files: Files, names: seq<Name>, i: nat)
    requires i < |names|
    ensures NonEmpty(files, names[..i + 1]) ==
            NonEmpty(files, names[..i]) + if names[i] in files && files[names[i]] != [] then [names[i]] else []
  {
    assert names[..i + 1] == names[..i] + [names[i]];
    NonEmptyJoin(files, names[..i], [names[i]]);
    assert [names[i]][1..] == [];
  }
}
