/** Connection records, as the registry and MAIN's store hold them (registry.go), and how the two stores
are compared. A value is taken as `norm` leaves it: a number is its text. */
module ConnRecords {
  import opened Maps

  datatype Val = Null | Bool(b: bool) | Text(s: string)

  type Rec = map<string, Val>

  type Store = map<string, Rec>

  const LAST_READ := "hls_last_read"
  const HLS_END := "hls_end"

  predicate IsDigits(s: string) {
    s != "" && forall i | 0 <= i < |s| :: '0' <= s[i] <= '9'
  }

  function Digits(s: string): nat
    requires forall i | 0 <= i < |s| :: '0' <= s[i] <= '9'
  {
    if s == "" then 0 else Digits(s[..|s| - 1]) * 10 + (s[|s| - 1] - '0') as nat
  }

  /** A decimal integer's value; 0 for any other text (registry.go, `intOf`, `num`). */
  function IntOf(v: Val): int {
    match v
    case Null => 0
    case Bool(b) => if b then 1 else 0
    case Text(s) =>
      if IsDigits(s) then Digits(s) as int
      else if s != "" && s[0] == '-' && IsDigits(s[1..]) then 0 - Digits(s[1..]) as int
      else 0
  }

  function Field(r: Rec, k: string): Val {
    if k in r then r[k] else Null
  }

  /** hls_end is a number other than 0; a bool prints as no number. */
  predicate Ended(r: Rec) {
    Field(r, HLS_END).Text? && IntOf(Field(r, HLS_END)) != 0
  }

  predicate Is(r: Rec, k: string, s: string) {
    Field(r, k) == Text(s)
  }

  /** A finished TS request: no later request needs its record. */
  predicate EndedTS(r: Rec) {
    Is(r, "container", "ts") && Ended(r)
  }

  predicate Open(m: Store, u: string) {
    u in m && !Ended(m[u])
  }

  /** The records say the same but for hls_last_read. */
  predicate AgreeBut(a: Rec, b: Rec) {
    a - {LAST_READ} == b - {LAST_READ}
  }

  predicate MirrorAt(conns: Store, main: Store, u: string) {
    && (Open(conns, u) <==> Open(main, u))
    && (Open(conns, u) ==> AgreeBut(conns[u], main[u]))
  }

  /** A viewer is open here exactly when it is in MAIN's store, and the records agree. */
  ghost predicate Mirrors(conns: Store, main: Store) {
    forall u :: MirrorAt(conns, main, u)
  }

  // ---------------------------------------------------------------- sameBut

  /** registry.go's `sameBut`, for hls_last_read: it counts the keys, and compares those of a but one. */
  predicate SameBut(a: Rec, b: Rec) {
    |a| == |b| && forall k | k in a && k != LAST_READ :: k in b && b[k] == a[k]
  }

  /** The new record drops hls_last_read, which the old one has. */
  predicate DropsLastRead(a: Rec, b: Rec) {
    LAST_READ in a && LAST_READ !in b
  }

  lemma {:induction false} SizeBut(r: Rec)
    ensures |r - {LAST_READ}| == |r| - if LAST_READ in r then 1 else 0
  {
    assert (r - {LAST_READ}).Keys == r.Keys - {LAST_READ};
    assert |r.Keys| == |r|;
    assert |(r - {LAST_READ}).Keys| == |r - {LAST_READ}|;
  }

  lemma {:induction false} SubsetOfSize(a: set<string>, b: set<string>)
    requires a <= b && |a| == |b|
    ensures a == b
  {
    var d := b - a;
    assert b == a + d && a !! d;
    assert |b| == |a| + |d|;
  }

  /** Records sameBut takes for equal agree on everything but hls_last_read exactly when the new one does
      not drop it: dropping it while another key comes leaves their number. */
  lemma {:induction false} SameButAgreesIff(a: Rec, b: Rec)
    requires SameBut(a, b)
    ensures AgreeBut(a, b) <==> !DropsLastRead(a, b)
  {
    var x, y := a - {LAST_READ}, b - {LAST_READ};
    SizeBut(a);
    SizeBut(b);
    assert x.Keys <= y.Keys;
    assert |x.Keys| == |x| && |y.Keys| == |y|;
    if !DropsLastRead(a, b) {
      if LAST_READ !in a && LAST_READ in b {
        assert |x| > |y|;
        SetSize(x.Keys, y.Keys);
      }
      SubsetOfSize(x.Keys, y.Keys);
      assert x == y;
    }
  }

  lemma {:induction false} SetSize(a: set<string>, b: set<string>)
    requires a <= b
    ensures |a| <= |b|
  {
    assert b == a + (b - a);
  }

  // ---------------------------------------------------------------- the digest

  /** A connection's owner, as MAIN writes it too. */
  function Owner(r: Rec): string {
    var id := IntOf(Field(r, "user_id"));
    if id != 0 then "u:" + Print(id)
    else "h:" + Print(IntOf(Field(r, "hmac_id"))) + ":" + Ident(Field(r, "hmac_identifier"))
  }

  function Ident(v: Val): string {
    match v
    case Null => ""
    case Bool(b) => if b then "true" else "false"
    case Text(s) => s
  }

  function Print(n: int): string {
    if n < 0 then "-" + PrintNat(-n) else PrintNat(n)
  }

  function PrintNat(n: nat): string {
    if n < 10 then ["0123456789"[n]] else PrintNat(n / 10) + ["0123456789"[n % 10]]
  }

  /** The open viewers and their owners. */
  function Owners(m: Store): map<string, string> {
    map u | u in m && !Ended(m[u]) :: Owner(m[u])
  }

  datatype Digest = Digest(count: nat, users: nat, xor: bv64)

  /** The XOR of every viewer's hash, in any order. */
  ghost function XorOf(hash: (string, string) -> bv64, m: map<string, string>): bv64
    decreases |m|
  {
    if m == map[] then 0
    else
      var u :| u in m;
      Less(m, u);
      hash(u, m[u]) ^ XorOf(hash, m - {u})
  }

  lemma {:induction false} Less(m: map<string, string>, u: string)
    requires u in m
    ensures |m - {u}| < |m|
  {
    assert (m - {u}).Keys == m.Keys - {u};
    assert |m.Keys| == |m| && |(m - {u}).Keys| == |m - {u}|;
  }

  lemma {:induction false} XorSwaps(a: bv64, b: bv64, c: bv64)
    ensures a ^ (b ^ c) == b ^ (a ^ c)
  {
  }

  lemma {:induction false} XorOne(hash: (string, string) -> bv64, m: map<string, string>) returns (v: string)
    requires m != map[]
    ensures v in m && XorOf(hash, m) == hash(v, m[v]) ^ XorOf(hash, m - {v})
  {
    v :| v in m && XorOf(hash, m) == hash(v, m[v]) ^ XorOf(hash, m - {v});
  }

  /** Whichever viewer is taken out first. */
  lemma {:induction false} XorAny(hash: (string, string) -> bv64, m: map<string, string>, u: string)
    requires u in m
    ensures XorOf(hash, m) == hash(u, m[u]) ^ XorOf(hash, m - {u})
    decreases |m|
  {
    var v := XorOne(hash, m);
    if v != u {
      var a, b := m - {v}, m - {u};
      TwoLess(m, u, v);
      XorAny(hash, a, u);
      XorAny(hash, b, v);
      XorSwaps(hash(v, m[v]), hash(u, m[u]), XorOf(hash, a - {u}));
    }
  }

  lemma {:induction false} TwoLess(m: map<string, string>, u: string, v: string)
    requires u in m && v in m && u != v
    ensures var a, b := m - {v}, m - {u};
            && u in a && v in b && a[u] == m[u] && b[v] == m[v] && a - {u} == b - {v}
            && |a| < |m| && |b| < |m|
  {
    Less(m, v);
    Less(m, u);
  }

  /** Of viewers and their owners, whatever order they come in. */
  ghost function Summary(hash: (string, string) -> bv64, owners: map<string, string>): Digest {
    Digest(|owners|, |owners.Values|, XorOf(hash, owners))
  }

  ghost function DigestOf(hash: (string, string) -> bv64, m: Store): Digest {
    Summary(hash, Owners(m))
  }

  lemma {:induction false} OneMore(hash: (string, string) -> bv64, m: map<string, string>, u: string, o: string)
    requires u !in m
    ensures |m[u := o]| == |m| + 1 && m[u := o].Values == m.Values + {o}
    ensures XorOf(hash, m[u := o]) == hash(u, o) ^ XorOf(hash, m)
  {
    var m' := m[u := o];
    assert m' - {u} == m;
    XorAny(hash, m', u);
    OneMoreValue(m, u, o);
  }

  lemma {:induction false} OneMoreValue(m: map<string, string>, u: string, o: string)
    requires u !in m
    ensures |m[u := o]| == |m| + 1 && m[u := o].Values == m.Values + {o}
  {
    var m' := m[u := o];
    assert m'.Keys == m.Keys + {u} && |m'.Keys| == |m'| && |m.Keys| == |m|;
    forall v | v in m.Values + {o} ensures v in m'.Values {
      if v in m.Values {
        var k :| k in m && m[k] == v;
        assert m'[k] == v;
      } else {
        assert m'[u] == v;
      }
    }
  }

  function Among(owners: map<string, string>, rest: set<string>): map<string, string> {
    map u | u in owners && u !in rest :: owners[u]
  }

  lemma {:induction false} AmongNext(owners: map<string, string>, rest: set<string>, u: string)
    requires u in rest && u in owners
    ensures u !in Among(owners, rest) && Among(owners, rest - {u}) == Among(owners, rest)[u := owners[u]]
  {
  }

  /** registry.go's `digestOf`, over the open viewers in whatever order the map gives them. */
  method Summarise(hash: (string, string) -> bv64, owners: map<string, string>) returns (d: Digest)
    ensures d == Summary(hash, owners)
  {
    var users: set<string>, x: bv64, n := {}, 0, 0;
    var rest := owners.Keys;
    while rest != {}
      invariant rest <= owners.Keys && n == |Among(owners, rest)| && users == Among(owners, rest).Values
      invariant x == XorOf(hash, Among(owners, rest))
      decreases |rest|
    {
      var u :| u in rest;
      AmongNext(owners, rest, u);
      OneMore(hash, Among(owners, rest), u, owners[u]);
      n, users, x := n + 1, users + {owners[u]}, hash(u, owners[u]) ^ x;
      rest := rest - {u};
    }
    assert Among(owners, rest) == owners;
    d := Digest(n, |users|, x);
  }

  method ComputeDigest(hash: (string, string) -> bv64, m: Store) returns (d: Digest)
    ensures d == DigestOf(hash, m)
  {
    d := Summarise(hash, Owners(m));
  }

  lemma {:induction false} OwnerBut(a: Rec, b: Rec)
    requires AgreeBut(a, b)
    ensures Owner(a) == Owner(b)
  {
    assert forall k | k != LAST_READ ::
        Field(a, k) == Field(a - {LAST_READ}, k) && Field(b, k) == Field(b - {LAST_READ}, k);
  }

  /** Stores that mirror each other have the same digest. */
  lemma {:induction false} MirrorsDigest(hash: (string, string) -> bv64, conns: Store, main: Store)
    requires Mirrors(conns, main)
    ensures DigestOf(hash, conns) == DigestOf(hash, main)
  {
    forall u ensures u in Owners(conns) <==> u in Owners(main)
      ensures u in Owners(conns) ==> Owners(conns)[u] == Owners(main)[u]
    {
      assert MirrorAt(conns, main, u);
      if Open(conns, u) {
        OwnerBut(conns[u], main[u]);
      }
    }
    assert Owners(conns) == Owners(main);
  }
}
