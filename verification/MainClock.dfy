/** MAIN's clock as the node can vouch for it (mainclock.go), over every sequence of statements, saves,
restarts and reboots, and the lease fence judged by it (leasefence.go). MAIN's own clock does not go back,
and does not run slower than this machine's CLOCK_MONOTONIC. */
module MainClock {
  import opened Maps

  const MILLISECOND := 1_000_000

  datatype Mark = Mark(mainMs: int, monoNs: int, boot: string)

  /** What the state keeps of the clock. */
  datatype Saved = Saved(seenMs: int, mark: Opt<Mark>)

  /** MAIN's time as an anchor at atMono extrapolates it; 0 without one. */
  function Extrapolated(atMs: int, atMono: int, mono: int): int {
    if atMs <= 0 then 0 else atMs + (if mono > atMono then mono - atMono else 0) / MILLISECOND
  }

  function Max(a: int, b: int): int {
    if a > b then a else b
  }

  /** Where a saved clock is taken up: of this boot, the time since the mark is counted too. */
  function TakenUp(saved: Saved, mono: int, boot: string): int {
    if saved.mark.Some? && saved.mark.v.mainMs > 0 then
      var k := saved.mark.v;
      var on := boot != "" && boot == k.boot && mono >= k.monoNs;
      Max(saved.seenMs, k.mainMs + if on then (mono - k.monoNs) / MILLISECOND else 0)
    else saved.seenMs
  }

  /** A time on MAIN's clock in milliseconds that MAIN's clock has reached. */
  predicate Reached(ms: int, mainNs: int) {
    ms * MILLISECOND <= mainNs
  }

  class NodeClock {
    var seenMs: int
    var atMs: int
    var atMono: int
    /** What was last saved. */
    var saved: Saved
    /** This machine's CLOCK_MONOTONIC, and its boot. */
    var mono: int
    var boot: string
    /** MAIN's true time, in nanoseconds. */
    ghost var mainNs: int

    function NowMs(): int
      reads this
    {
      Extrapolated(atMs, atMono, mono)
    }

    /** The anchor extrapolates to no more than MAIN's true time, and to no less than MAIN was seen to say;
        so does what was saved. */
    ghost predicate Valid()
      reads this
    {
      && (atMs > 0 ==> atMono <= mono && atMs * MILLISECOND + (mono - atMono) <= mainNs)
      && 0 <= seenMs <= NowMs()
      && 0 <= saved.seenMs && (saved.seenMs > 0 ==> Reached(saved.seenMs, mainNs))
      && (saved.mark.Some? ==>
            var k := saved.mark.v;
            && k.mainMs > 0 && Reached(k.mainMs, mainNs)
            && (k.boot == boot != "" ==> k.monoNs <= mono && k.mainMs * MILLISECOND + (mono - k.monoNs) <= mainNs))
    }

    constructor (mono: int, boot: string, ghost mainNs: int)
      ensures Valid() && NowMs() == 0 && seenMs == 0 && this.mono == mono && this.boot == boot && this.mainNs == mainNs
    {
      seenMs, atMs, atMono, saved := 0, 0, 0, Saved(0, None);
      this.mono, this.boot, this.mainNs := mono, boot, mainNs;
    }

    /** MAIN's time as the node has it is never ahead of MAIN's, and never below what MAIN was last seen to
        say. */
    lemma NeverAhead()
      requires Valid()
      ensures NowMs() > 0 ==> Reached(NowMs(), mainNs)
      ensures seenMs <= NowMs()
    {
    }

    /** Time passes; MAIN's clock is no slower. */
    method Passes(ns: nat, ghost mainNs': int)
      requires Valid() && mainNs' >= mainNs + ns
      modifies this`mono, this`mainNs
      ensures Valid() && mono == old(mono) + ns && mainNs == mainNs'
      ensures NowMs() >= old(NowMs())
    {
      mono, mainNs := mono + ns, mainNs';
    }

    /** An authenticated statement of MAIN's time: its own number, said some time before now. */
    method Heard(mainMs: int)
      requires Valid() && (mainMs > 0 ==> Reached(mainMs, mainNs))
      modifies this`seenMs, this`atMs, this`atMono
      ensures Valid() && seenMs == (if mainMs > 0 then Max(old(seenMs), mainMs) else old(seenMs))
      ensures NowMs() == if mainMs > 0 && mainMs > old(seenMs) then mainMs else old(NowMs())
    {
      if mainMs <= 0 {
        return;
      }
      if mainMs <= seenMs {
        return;
      }
      seenMs, atMs, atMono := mainMs, mainMs, mono;
    }

    /** Saves the clock in the state. */
    method Save()
      requires Valid()
      modifies this`saved
      ensures Valid() && saved.seenMs == seenMs
      ensures saved.mark == if NowMs() > 0 then Some(Mark(NowMs(), mono, boot)) else None
    {
      NeverAhead();
      saved := Saved(seenMs, if NowMs() > 0 then Some(Mark(NowMs(), mono, boot)) else None);
    }

    /** Restores the clock a state kept. */
    method Resume()
      requires Valid()
      modifies this`seenMs, this`atMs, this`atMono
      ensures Valid() && seenMs == Max(old(seenMs), saved.seenMs)
              && NowMs() == Max(old(NowMs()), TakenUp(saved, mono, boot))
    {
      seenMs := Max(seenMs, saved.seenMs);
      var at := saved.seenMs;
      if saved.mark.Some? && saved.mark.v.mainMs > 0 {
        var k := saved.mark.v;
        var from := k.mainMs;
        if boot != "" && boot == k.boot && mono >= k.monoNs {
          from := from + (mono - k.monoNs) / MILLISECOND;
        }
        at := Max(at, from);
      }
      if at > NowMs() {
        atMs, atMono := at, mono;
      }
    }

    /** The agent starts again within the same boot, with what was saved. */
    method Restart()
      requires Valid()
      modifies this`seenMs, this`atMs, this`atMono
      ensures Valid() && seenMs == saved.seenMs && NowMs() == Max(0, TakenUp(saved, mono, boot))
    {
      seenMs, atMs, atMono := 0, 0, 0;
      Resume();
    }

    /** The machine starts again: another boot, its monotonic clock anywhere, MAIN's time gone on. */
    method Reboot(mono': int, boot': string, ghost mainNs': int)
      requires Valid() && mainNs' >= mainNs && (saved.mark.Some? ==> saved.mark.v.boot != boot')
      modifies this
      ensures Valid() && mono == mono' && boot == boot' && mainNs == mainNs' && saved == old(saved)
      ensures seenMs == saved.seenMs
      ensures NowMs() == Max(saved.seenMs, if saved.mark.Some? then saved.mark.v.mainMs else 0)
    {
      seenMs, atMs, atMono := 0, 0, 0;
      mono, boot, mainNs := mono', boot', mainNs';
      Resume();
    }
  }

  /** Against a clock never restarted, one that was saved at `saved` and taken up at `taken` in the same
      boot, MAIN saying nothing since the save, is behind by a millisecond at most as it is taken up, by two
      at most ever after, and never ahead. */
  lemma {:induction false} RestartLoses(
      atMs: int, atMono: int, saved: int, taken: int, now: int, boot: string, seenMs: int)
    requires atMs > 0 && boot != "" && atMono <= saved <= taken <= now && seenMs <= Extrapolated(atMs, atMono, saved)
    ensures var mark := Mark(Extrapolated(atMs, atMono, saved), saved, boot);
            var up := TakenUp(Saved(seenMs, Some(mark)), taken, boot);
            && Extrapolated(atMs, atMono, taken) - 1 <= up <= Extrapolated(atMs, atMono, taken)
            && Extrapolated(atMs, atMono, now) - 2 <= Extrapolated(up, taken, now) <= Extrapolated(atMs, atMono, now)
  {
    var x, y, z := saved - atMono, taken - saved, now - taken;
    FloorsAdd(x, y);
    FloorsAdd(x + y, z);
  }

  lemma {:induction false} FloorsAdd(x: nat, y: nat)
    ensures (x + y) / MILLISECOND - 1 <= x / MILLISECOND + y / MILLISECOND <= (x + y) / MILLISECOND
  {
  }

  /** The bound of two is met: half milliseconds lost at the save, as it is taken up, and after. */
  lemma {:induction false} RestartLosesTwo()
    ensures var h := MILLISECOND - 1;
            var mark := Mark(Extrapolated(1, 0, h), h, "b");
            Extrapolated(TakenUp(Saved(0, Some(mark)), 2 * h, "b"), 2 * h, 3 * h) == Extrapolated(1, 0, 3 * h) - 2
  {
  }

  // ---------------------------------------------------------------- the lease fence

  const DRAIN_MIN_DEFAULT := 10
  const DRAIN_MIN_MAX := 60

  /** A settings value as `settingInt` reads it: an integer, or none. */
  datatype Settings = Settings(fence: Opt<int>, drainMin: Opt<int>)

  function DrainMin(s: Settings): (m: int)
    ensures 0 <= m <= DRAIN_MIN_MAX
  {
    if s.drainMin.Some? && 0 <= s.drainMin.v <= DRAIN_MIN_MAX then s.drainMin.v else DRAIN_MIN_DEFAULT
  }

  /** What the judgement is made from: the node's mode, the replica's settings, the lease's end, and MAIN's
      clock as the node has it. */
  datatype Judged = Judged(mode: int, settings: Opt<Settings>, leaseExp: int, mainMs: int)

  predicate LeaseFenced(j: Judged) {
    if j.mode < 1 then false
    else if j.settings.None? then false
    else if j.settings.v.fence != Some(1) then false
    else if j.leaseExp <= 0 then false
    else if j.mainMs <= 0 then false
    else !(j.mainMs / 1000 < j.leaseExp + DrainMin(j.settings.v) * 60)
  }

  predicate RefusesNewSessions(j: Judged) {
    if j.mode < 1 then false
    else if j.settings.None? || j.settings.v.fence != Some(1) then false
    else if j.leaseExp <= 0 then false
    else if j.mainMs <= 0 then false
    else j.mainMs / 1000 >= j.leaseExp
  }

  const SECOND := 1_000_000_000

  /** A node that drops its viewers takes no new ones either. */
  lemma {:induction false} FencedRefuses(j: Judged)
    requires LeaseFenced(j)
    ensures RefusesNewSessions(j)
  {
  }

  /** Judged by the node's clock, no viewer is dropped before the lease's drain is over, and none refused
      before the lease is, on MAIN's own clock. */
  lemma {:induction false} NeverFencedEarly(c: NodeClock, j: Judged)
    requires c.Valid() && j.mainMs == c.NowMs()
    ensures LeaseFenced(j) ==> c.mainNs >= (j.leaseExp + DrainMin(j.settings.v) * 60) * SECOND
    ensures RefusesNewSessions(j) ==> c.mainNs >= j.leaseExp * SECOND
  {
    c.NeverAhead();
  }
}
