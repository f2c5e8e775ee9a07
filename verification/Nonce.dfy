/** The two-bucket nonce cache (dataplane.go) and the window a proof is accepted in (relayauth.go): for how
long a spent nonce is refused, and whether that covers the window. Times are in nanoseconds on a clock
that does not go back; the window is judged on the same clock in whole milliseconds (MainNowMs). */
module Nonce {
  import opened Maps

  const NONCE_WINDOW := 180_000_000_000
  const MAX_NONCES := 100000
  const RELAY_WINDOW_MS := 90_000
  const MILLISECOND := 1_000_000

  // ---------------------------------------------------------------- the cache

  datatype Cache = Cache(live: set<string>, previous: set<string>, rotated: Opt<int>)

  const EMPTY := Cache({}, {}, None)

  /** The buckets as a use at `now` finds them. */
  function Rotate(c: Cache, now: int): Cache {
    if c.rotated.None? then c.(rotated := Some(now))
    else
      var age := now - c.rotated.v;
      if age < NONCE_WINDOW then c
      else Cache({}, if age >= 2 * NONCE_WINDOW then {} else c.live, Some(now))
  }

  predicate Takes(c: Cache, nonce: string) {
    nonce !in c.live && nonce !in c.previous && |c.live| < MAX_NONCES
  }

  function Use(c: Cache, nonce: string, now: int): Cache {
    var r := Rotate(c, now);
    if Takes(r, nonce) then r.(live := r.live + {nonce}) else r
  }

  class NonceCache {
    var live: set<string>
    var previous: set<string>
    var rotated: Opt<int>

    function Value(): Cache
      reads this
    {
      Cache(live, previous, rotated)
    }

    constructor ()
      ensures Value() == EMPTY
    {
      live, previous, rotated := {}, {}, None;
    }

    /** Whether the nonce has not been seen, which it then is; a full bucket says no. */
    method Fresh(nonce: string, now: int) returns (ok: bool)
      modifies this
      ensures Value() == Use(old(Value()), nonce, now)
      ensures ok <==> Takes(Rotate(old(Value()), now), nonce)
    {
      if rotated.None? {
        rotated := Some(now);
      }
      if now - rotated.v >= NONCE_WINDOW {
        if now - rotated.v >= 2 * NONCE_WINDOW {
          previous := {};
        } else {
          previous := live;
        }
        live := {};
        rotated := Some(now);
      }
      if nonce in live {
        return false;
      }
      if nonce in previous {
        return false;
      }
      if |live| >= MAX_NONCES {
        return false;
      }
      live := live + {nonce};
      ok := true;
    }
  }

  // ---------------------------------------------------------------- every history

  /** A request: when its proof's time was checked, and when its nonce was used, later on. */
  datatype Req = Req(nonce: string, checked: int, at: int)

  /** Nonces are used one after the other (the cache's lock), on a clock that does not go back. */
  predicate Timely(rs: seq<Req>) {
    && (forall i | 0 <= i < |rs| :: rs[i].checked <= rs[i].at)
    && (forall i, j | 0 <= i < j < |rs| :: rs[i].at <= rs[j].at)
  }

  /** The cache before request n. */
  function Before(rs: seq<Req>, n: nat): Cache
    requires n <= |rs|
  {
    if n == 0 then EMPTY else Use(Before(rs, n - 1), rs[n - 1].nonce, rs[n - 1].at)
  }

  predicate Fresh(rs: seq<Req>, n: nat)
    requires n < |rs|
  {
    Takes(Rotate(Before(rs, n), rs[n].at), rs[n].nonce)
  }

  /** A nonce taken at t is in the live bucket since it was emptied, or in the one before, or so old that
      the bucket after it was emptied a whole window later. */
  predicate Remembers(c: Cache, nonce: string, t: int) {
    && c.rotated.Some? && t - c.rotated.v < NONCE_WINDOW
    && (t >= c.rotated.v ==> nonce in c.live)
    && (t < c.rotated.v ==> nonce in c.previous || t + NONCE_WINDOW < c.rotated.v)
  }

  lemma {:induction false} UseRemembers(c: Cache, other: string, now: int, nonce: string, t: int)
    requires Remembers(c, nonce, t) && now >= t && now >= c.rotated.v
    ensures Remembers(Rotate(c, now), nonce, t) && Remembers(Use(c, other, now), nonce, t)
    ensures Rotate(c, now).rotated.v <= now && Use(c, other, now).rotated.v <= now
  {
  }

  lemma {:induction false} Rotated(rs: seq<Req>, n: nat)
    requires Timely(rs) && 0 < n <= |rs|
    ensures Before(rs, n).rotated.Some? && Before(rs, n).rotated.v <= rs[n - 1].at
    ensures rs[n - 1].at - Before(rs, n).rotated.v < NONCE_WINDOW
  {
    if n > 1 {
      Rotated(rs, n - 1);
      assert rs[n - 2].at <= rs[n - 1].at;
    }
  }

  lemma {:induction false} StillRemembers(rs: seq<Req>, i: nat, n: nat)
    requires Timely(rs) && i < n <= |rs| && Fresh(rs, i)
    ensures Remembers(Before(rs, n), rs[i].nonce, rs[i].at)
  {
    Rotated(rs, n);
    if n > i + 1 {
      StillRemembers(rs, i, n - 1);
      Rotated(rs, n - 1);
      assert rs[i].at <= rs[n - 2].at <= rs[n - 1].at;
      UseRemembers(Before(rs, n - 1), rs[n - 1].nonce, rs[n - 1].at, rs[i].nonce, rs[i].at);
    } else if i > 0 {
      Rotated(rs, i);
      assert rs[i - 1].at <= rs[i].at;
    }
  }

  /** Within the window, a repeat is refused, whatever came before and between. */
  lemma {:induction false} RepeatRefused(rs: seq<Req>, i: nat, j: nat)
    requires Timely(rs) && i < j < |rs| && rs[i].nonce == rs[j].nonce && Fresh(rs, i)
    requires rs[j].at - rs[i].at <= NONCE_WINDOW
    ensures !Fresh(rs, j)
  {
    StillRemembers(rs, i, j);
    Rotated(rs, j);
    assert rs[j - 1].at <= rs[j].at && rs[i].at <= rs[j].at;
    UseRemembers(Before(rs, j), rs[j].nonce, rs[j].at, rs[i].nonce, rs[i].at);
  }

  /** Requests i and j are one nonce's, used at t1 and at t2, and both taken. */
  predicate BothTaken(rs: seq<Req>, i: nat, j: nat, t1: int, t2: int) {
    && Timely(rs) && i < j < |rs| && rs[i].nonce == rs[j].nonce && rs[i].at == t1 && rs[j].at == t2
    && Fresh(rs, i) && Fresh(rs, j)
  }

  /** Whatever the requests, one nonce's uses at t1 and at t2 are not both taken. */
  ghost predicate NeverBoth(t1: int, t2: int) {
    forall rs: seq<Req>, i: nat, j: nat :: !BothTaken(rs, i, j, t1, t2)
  }

  /** Past the window there are requests after which a repeat is taken: the nonce comes just before the
      live bucket is due to be emptied. */
  lemma {:induction false} RepeatTaken(first: Req, again: Req) returns (rs: seq<Req>)
    requires first.checked <= first.at && again.checked <= again.at && first.nonce == again.nonce
    requires again.at - first.at > NONCE_WINDOW
    ensures Timely(rs) && |rs| == 4 && rs[1] == first && rs[3] == again && Fresh(rs, 1) && Fresh(rs, 3)
  {
    var n, t := first.nonce, first.at;
    var r, a, b := t + 1 - NONCE_WINDOW, n + "a", n + "b";
    rs := [Req(a, r, r), first, Req(b, t + 1, t + 1), again];
    assert |a| == |n| + 1 && |b| == |n| + 1 && a[|n|] != b[|n|];
    Emptied(n, a, b, t, again.at);
    assert Before(rs, 1) == Use(Before(rs, 0), a, r) && Before(rs, 2) == Use(Before(rs, 1), n, t);
    assert Before(rs, 3) == Use(Before(rs, 2), b, t + 1);
  }

  /** A nonce used just before the live bucket is emptied is in neither a window later. */
  lemma {:induction false} Emptied(n: string, a: string, b: string, t: int, later: int)
    requires a != n && b != n && a != b && later - t > NONCE_WINDOW
    ensures var r := t + 1 - NONCE_WINDOW;
            var c1 := Use(EMPTY, a, r);
            var c3 := Use(Use(c1, n, t), b, t + 1);
            Takes(Rotate(c1, t), n) && Takes(Rotate(c3, later), n)
  {
    var r := t + 1 - NONCE_WINDOW;
    var c1 := Cache({a}, {}, Some(r));
    assert Use(EMPTY, a, r) == c1;
    var c2 := Use(c1, n, t);
    assert c2 == Cache({a, n}, {}, Some(r));
    assert Use(c2, b, t + 1) == Cache({b}, {a, n}, Some(t + 1));
  }

  /** A repeat is refused for every history of requests exactly when it comes within the window. */
  lemma {:induction false} NeverBothIff(t1: int, t2: int)
    requires t1 <= t2
    ensures NeverBoth(t1, t2) <==> t2 - t1 <= NONCE_WINDOW
  {
    if t2 - t1 <= NONCE_WINDOW {
      forall rs: seq<Req>, i: nat, j: nat ensures !BothTaken(rs, i, j, t1, t2) {
        if BothTaken(rs, i, j, t1, t2) {
          RepeatRefused(rs, i, j);
        }
      }
    } else {
      var rs := RepeatTaken(Req("n", t1, t1), Req("n", t2, t2));
      assert BothTaken(rs, 1, 3, t1, t2);
    }
  }

  /** Both buckets stay bounded. */
  lemma {:induction false} Bounded(rs: seq<Req>, n: nat)
    requires n <= |rs|
    ensures |Before(rs, n).live| <= MAX_NONCES && |Before(rs, n).previous| <= MAX_NONCES
  {
    if n > 0 {
      Bounded(rs, n - 1);
    }
  }

  // ---------------------------------------------------------------- proofs

  /** A proof that a request is a peer's: what it signs, when it says it was made, and its nonce. */
  datatype Proof = Proof(nonce: string, tsMs: int, signed: bool)

  /** MAIN's clock in milliseconds at t, so far off from this machine's. */
  function NowMs(t: int, offset: int): int {
    (t + offset) / MILLISECOND
  }

  /** VerifyRelayAuth: the signature is right and the time within the window. */
  predicate Verified(p: Proof, nowMs: int) {
    p.signed && !(p.tsMs - nowMs > RELAY_WINDOW_MS || nowMs - p.tsMs > RELAY_WINDOW_MS)
  }

  /** The last instant at which the proof's time is within the window. */
  function LastInstant(p: Proof, offset: int): int {
    (p.tsMs + RELAY_WINDOW_MS + 1) * MILLISECOND - 1 - offset
  }

  lemma {:induction false} LastInstantIs(p: Proof, offset: int, t: int)
    ensures NowMs(t, offset) - p.tsMs <= RELAY_WINDOW_MS <==> t <= LastInstant(p, offset)
    ensures NowMs(LastInstant(p, offset), offset) == p.tsMs + RELAY_WINDOW_MS
  {
    var n := t + offset;
    assert n == n / MILLISECOND * MILLISECOND + n % MILLISECOND;
  }

  /** Request i shows the proof, and is served. */
  predicate Accepted(p: Proof, rs: seq<Req>, i: nat, offset: int)
    requires i < |rs|
  {
    rs[i].nonce == p.nonce && Verified(p, NowMs(rs[i].checked, offset)) && Fresh(rs, i)
  }

  /** The proof, accepted at `first`, is accepted again by a request that uses its nonce so long after its
      time was checked. */
  predicate AgainIn(p: Proof, rs: seq<Req>, i: nat, j: nat, first: Req, delay: int, offset: int) {
    && Timely(rs) && i < j < |rs| && rs[i] == first && rs[j].at - rs[j].checked == delay
    && Accepted(p, rs, i, offset) && Accepted(p, rs, j, offset)
  }

  ghost predicate MayBeAccepted(p: Proof, first: Req, delay: int, offset: int) {
    exists rs: seq<Req>, i: nat, j: nat :: AgainIn(p, rs, i, j, first, delay, offset)
  }

  /** No proof is accepted twice, but for this: once accepted, a proof can be accepted again exactly when its
      time is still within the window (at the last instant it is, and so long after that its nonce is used)
      past the time its nonce is remembered for. */
  lemma {:induction false} AcceptedAgainIff(p: Proof, first: Req, delay: int, offset: int)
    requires first.checked <= first.at && first.nonce == p.nonce && Verified(p, NowMs(first.checked, offset))
             && delay >= 0
    ensures MayBeAccepted(p, first, delay, offset) <==> LastInstant(p, offset) + delay > first.at + NONCE_WINDOW
  {
    var last := LastInstant(p, offset);
    if MayBeAccepted(p, first, delay, offset) {
      var rs: seq<Req>, i: nat, j: nat :| AgainIn(p, rs, i, j, first, delay, offset);
      LastInstantIs(p, offset, rs[j].checked);
      if rs[j].at - rs[i].at <= NONCE_WINDOW {
        RepeatRefused(rs, i, j);
      }
    }
    if last + delay > first.at + NONCE_WINDOW {
      var again := Req(p.nonce, last, last + delay);
      LastInstantIs(p, offset, last);
      var rs := RepeatTaken(first, again);
      assert AgainIn(p, rs, 1, 3, first, delay, offset);
    }
  }

  /** Where one instant serves both the time check and the nonce, only a proof made the whole window ahead
      of MAIN's clock can be accepted again, unless it came in the last nanosecond of its millisecond. */
  lemma {:induction false} AtOnceAgainIff(p: Proof, t: int, offset: int)
    requires Verified(p, NowMs(t, offset))
    ensures MayBeAccepted(p, Req(p.nonce, t, t), 0, offset) <==>
            p.tsMs == NowMs(t, offset) + RELAY_WINDOW_MS && (t + offset) % MILLISECOND != MILLISECOND - 1
  {
    AcceptedAgainIff(p, Req(p.nonce, t, t), 0, offset);
    var n := t + offset;
    assert n == n / MILLISECOND * MILLISECOND + n % MILLISECOND;
  }

  /** A proof accepted twice is so past the nonce window, and less than a millisecond past it, but for how
      much longer the repeat's nonce was used after its check than the first's. */
  lemma {:induction false} AcceptedTwiceWithin(p: Proof, rs: seq<Req>, i: nat, j: nat, offset: int)
    requires Timely(rs) && i < j < |rs| && Accepted(p, rs, i, offset) && Accepted(p, rs, j, offset)
    ensures NONCE_WINDOW < rs[j].at - rs[i].at
    ensures rs[j].at - rs[i].at <
            NONCE_WINDOW + MILLISECOND + (rs[j].at - rs[j].checked) - (rs[i].at - rs[i].checked)
  {
    if rs[j].at - rs[i].at <= NONCE_WINDOW {
      RepeatRefused(rs, i, j);
    }
    var n, m := rs[i].checked + offset, rs[j].checked + offset;
    assert n == n / MILLISECOND * MILLISECOND + n % MILLISECOND;
    assert m == m / MILLISECOND * MILLISECOND + m % MILLISECOND;
  }

  /** It does happen, on clocks of whole milliseconds too: a proof made 90 s ahead of MAIN's clock, shown
      again 180 s later by a request whose nonce is used 50 ms after its time was checked. */
  lemma {:induction false} AcceptedTwiceHappens() returns (p: Proof, rs: seq<Req>)
    ensures Timely(rs) && |rs| == 4 && Accepted(p, rs, 1, 0) && Accepted(p, rs, 3, 0)
    ensures rs[1].checked % MILLISECOND == rs[3].checked % MILLISECOND == 0
    ensures rs[3].at == rs[1].at + NONCE_WINDOW + 50 * MILLISECOND
  {
    var t1 := 1_000_000 * MILLISECOND;
    var t2 := t1 + NONCE_WINDOW;
    p := Proof("n", 1_000_000 + RELAY_WINDOW_MS, true);
    rs := RepeatTaken(Req("n", t1, t1), Req("n", t2, t2 + 50 * MILLISECOND));
    assert NowMs(t1, 0) == 1_000_000 && NowMs(t2, 0) == 1_000_000 + 2 * RELAY_WINDOW_MS;
  }
}
