/** Byte strings in their order, and what sorting makes of a sequence, whatever sorts it. */
module Sorting {

  type Byte = b: int | 0 <= b < 256

  type Bytes = seq<Byte>

  /** Bytewise, a prefix first. */
  predicate Leq(a: Bytes, b: Bytes) {
    a == [] || (b != [] && (a[0] < b[0] || (a[0] == b[0] && Leq(a[1..], b[1..]))))
  }

  lemma {:induction false} LeqTotal(a: Bytes, b: Bytes)
    ensures Leq(a, b) || Leq(b, a)
    ensures Leq(a, a)
  {
    if a != [] {
      LeqTotal(a[1..], a[1..]);
      if b != [] {
        LeqTotal(a[1..], b[1..]);
      }
    }
  }

  lemma {:induction false} LeqBoth(a: Bytes, b: Bytes)
    requires Leq(a, b) && Leq(b, a)
    ensures a == b
  {
    if a != [] {
      LeqBoth(a[1..], b[1..]);
      assert a == [a[0]] + a[1..] && b == [b[0]] + b[1..];
    }
  }

  lemma {:induction false} LeqOn(a: Bytes, b: Bytes, c: Bytes)
    requires Leq(a, b) && Leq(b, c)
    ensures Leq(a, c)
  {
    if a != [] && a[0] == b[0] == c[0] {
      LeqOn(a[1..], b[1..], c[1..]);
    }
  }

  ghost predicate Ordering<T(!new)>(leq: (T, T) -> bool) {
    && (forall a, b :: leq(a, b) || leq(b, a))
    && (forall a, b :: leq(a, b) && leq(b, a) ==> a == b)
    && (forall a, b, c :: leq(a, b) && leq(b, c) ==> leq(a, c))
  }

  lemma {:induction false} BytesOrdered()
    ensures Ordering(Leq)
  {
    forall a: Bytes, b: Bytes ensures Leq(a, b) || Leq(b, a) {
      LeqTotal(a, b);
    }
    forall a: Bytes, b: Bytes | Leq(a, b) && Leq(b, a) ensures a == b {
      LeqBoth(a, b);
    }
    forall a: Bytes, b: Bytes, c: Bytes | Leq(a, b) && Leq(b, c) ensures Leq(a, c) {
      LeqOn(a, b, c);
    }
  }

  predicate Sorted<T>(leq: (T, T) -> bool, s: seq<T>) {
    forall i, j | 0 <= i < j < |s| :: leq(s[i], s[j])
  }

  function Insert<T>(leq: (T, T) -> bool, s: seq<T>, x: T): seq<T> {
    if s == [] || leq(s[|s| - 1], x) then s + [x]
    else Insert(leq, s[..|s| - 1], x) + [s[|s| - 1]]
  }

  function Sort<T>(leq: (T, T) -> bool, s: seq<T>): seq<T> {
    if s == [] then [] else Insert(leq, Sort(leq, s[..|s| - 1]), s[|s| - 1])
  }

  lemma {:induction false} InsertIs<T(!new)>(leq: (T, T) -> bool, s: seq<T>, x: T)
    requires Ordering(leq) && Sorted(leq, s)
    ensures Sorted(leq, Insert(leq, s, x)) && multiset(Insert(leq, s, x)) == multiset(s) + multiset{x}
  {
    if s == [] || leq(s[|s| - 1], x) {
      forall i | 0 <= i < |s| ensures leq(s[i], x) {
        assert i < |s| - 1 ==> leq(s[i], s[|s| - 1]);
      }
    } else {
      var l := |s| - 1;
      InsertIs(leq, s[..l], x);
      var r := Insert(leq, s[..l], x);
      assert s == s[..l] + [s[l]];
      AllBefore(leq, s, r, x);
      SortedMore(leq, r, s[l]);
    }
  }

  lemma {:induction false} AllBefore<T(!new)>(leq: (T, T) -> bool, s: seq<T>, r: seq<T>, x: T)
    requires Ordering(leq) && Sorted(leq, s) && s != [] && !leq(s[|s| - 1], x)
    requires multiset(r) == multiset(s[..|s| - 1]) + multiset{x}
    ensures forall i | 0 <= i < |r| :: leq(r[i], s[|s| - 1])
  {
    forall i | 0 <= i < |r| ensures leq(r[i], s[|s| - 1]) {
      assert r[i] in multiset(r);
      assert r[i] == x || r[i] in s[..|s| - 1];
    }
  }

  lemma {:induction false} SortedMore<T>(leq: (T, T) -> bool, r: seq<T>, last: T)
    requires Sorted(leq, r) && forall i | 0 <= i < |r| :: leq(r[i], last)
    ensures Sorted(leq, r + [last])
  {
  }

  lemma {:induction false} SortIs<T(!new)>(leq: (T, T) -> bool, s: seq<T>)
    requires Ordering(leq)
    ensures Sorted(leq, Sort(leq, s)) && multiset(Sort(leq, s)) == multiset(s)
  {
    if s != [] {
      var l := |s| - 1;
      SortIs(leq, s[..l]);
      InsertIs(leq, Sort(leq, s[..l]), s[l]);
      assert s == s[..l] + [s[l]];
    }
  }

  lemma {:induction false} ButLast<T>(a: seq<T>)
    requires a != []
    ensures multiset(a[..|a| - 1]) == multiset(a) - multiset{a[|a| - 1]}
  {
    assert a == a[..|a| - 1] + [a[|a| - 1]];
  }

  lemma {:induction false} SameLast<T(!new)>(leq: (T, T) -> bool, a: seq<T>, b: seq<T>)
    requires Ordering(leq) && Sorted(leq, a) && Sorted(leq, b) && a != [] && b != [] && multiset(a) == multiset(b)
    ensures a[|a| - 1] == b[|b| - 1]
  {
    LastIsGreatest(leq, a, b);
    LastIsGreatest(leq, b, a);
  }

  lemma {:induction false} SameSize<T>(a: seq<T>, b: seq<T>)
    requires multiset(a) == multiset(b)
    ensures |a| == |b|
  {
    assert |multiset(a)| == |a| && |multiset(b)| == |b|;
  }

  lemma {:induction false} SortedFirst<T>(leq: (T, T) -> bool, a: seq<T>)
    requires Sorted(leq, a) && a != []
    ensures Sorted(leq, a[..|a| - 1])
  {
  }

  lemma {:induction false} LastBack<T>(a: seq<T>, b: seq<T>)
    requires a != [] && |a| == |b| && a[..|a| - 1] == b[..|b| - 1] && a[|a| - 1] == b[|b| - 1]
    ensures a == b
  {
    assert a == a[..|a| - 1] + [a[|a| - 1]];
    assert b == b[..|b| - 1] + [b[|b| - 1]];
  }

  /** The same elements sort to the same sequence. */
  lemma {:induction false} SortedOnce<T(!new)>(leq: (T, T) -> bool, a: seq<T>, b: seq<T>)
    requires Ordering(leq) && Sorted(leq, a) && Sorted(leq, b) && multiset(a) == multiset(b)
    ensures a == b
  {
    SameSize(a, b);
    if a != [] {
      var l := |a| - 1;
      SameLast(leq, a, b);
      ButLast(a);
      ButLast(b);
      SortedFirst(leq, a);
      SortedFirst(leq, b);
      SortedOnce(leq, a[..l], b[..l]);
      LastBack(a, b);
    }
  }

  lemma {:induction false} LastIsGreatest<T(!new)>(leq: (T, T) -> bool, a: seq<T>, b: seq<T>)
    requires Ordering(leq) && Sorted(leq, a) && a != [] && b != [] && multiset(a) == multiset(b)
    ensures leq(b[|b| - 1], a[|a| - 1])
  {
    assert b[|b| - 1] in multiset(b);
    var i :| 0 <= i < |a| && a[i] == b[|b| - 1];
    assert i < |a| - 1 ==> leq(a[i], a[|a| - 1]);
    assert leq(a[i], a[i]);
  }

  /** Rearranged, a sequence sorts to the same. */
  lemma {:induction false} SortRearranged<T(!new)>(leq: (T, T) -> bool, a: seq<T>, b: seq<T>)
    requires Ordering(leq) && multiset(a) == multiset(b)
    ensures Sort(leq, a) == Sort(leq, b)
  {
    SortIs(leq, a);
    SortIs(leq, b);
    SortedOnce(leq, Sort(leq, a), Sort(leq, b));
  }
}
