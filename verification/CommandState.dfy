/** What the agent saves of its commands, with the loops that keep it (sealed.go, artefact.go), proved
against the functions the command machine is stated with. */
module CommandState {
  import opened Maps
  import opened CommandWorld
  import opened CommandSafety

  datatype SealedCmd = SealedCmd(cmd: Cmd, ok: bool, acked: bool)

  /** The cmd_ids run from denials, and when each expires. */
  function Kept(cmds: seq<SealedCmd>): map<string, int> {
    if cmds == [] then map[]
    else
      var k := cmds[|cmds| - 1];
      Kept(cmds[..|cmds| - 1])[k.cmd.id := k.cmd.exp]
  }

  function Cmds(ks: seq<SealedCmd>): (r: seq<Cmd>)
    ensures |r| == |ks| && forall i | 0 <= i < |ks| :: r[i] == ks[i].cmd
  {
    seq(|ks|, i requires 0 <= i < |ks| => ks[i].cmd)
  }

  /** No cmd_id is kept twice. */
  predicate DistinctKept(ks: seq<SealedCmd>) {
    forall i, j | 0 <= i < j < |ks| :: ks[i].cmd.id != ks[j].cmd.id
  }

  lemma {:induction false} KeptHas(ks: seq<SealedCmd>, id: string)
    ensures id in Kept(ks) <==> exists i | 0 <= i < |ks| :: ks[i].cmd.id == id
  {
    if ks != [] {
      var l := |ks| - 1;
      KeptHas(ks[..l], id);
      if id in Kept(ks[..l]) {
        var i :| 0 <= i < |ks[..l]| && ks[..l][i].cmd.id == id;
        assert ks[i].cmd.id == id;
      } else if ks[l].cmd.id != id {
        forall i | 0 <= i < |ks| ensures ks[i].cmd.id != id {
          assert i < l ==> ks[..l][i] == ks[i];
        }
      }
    }
  }

  lemma {:induction false} KeptMore(ks: seq<SealedCmd>, k: SealedCmd)
    ensures Kept(ks + [k]) == Kept(ks)[k.cmd.id := k.cmd.exp]
  {
    assert (ks + [k])[..|ks|] == ks;
  }

  lemma {:induction false} KeptJoin(a: seq<SealedCmd>, b: seq<SealedCmd>)
    ensures Kept(a + b) == Kept(a) + Ran(Cmds(b))
  {
    if b == [] {
      assert a + b == a;
    } else {
      var l := |b| - 1;
      assert a + b == (a + b[..l]) + [b[l]];
      KeptMore(a + b[..l], b[l]);
      KeptJoin(a, b[..l]);
      assert Cmds(b)[..l] == Cmds(b[..l]);
    }
  }

  /** The entries of a list that have not expired, an acked one marked so. */
  function Remaining(ks: seq<SealedCmd>, now: int, acked: set<string>): seq<SealedCmd> {
    if ks == [] then []
    else
      var k := ks[|ks| - 1];
      Remaining(ks[..|ks| - 1], now, acked)
      + if k.cmd.exp <= now then [] else [if k.cmd.id in acked then k.(acked := true) else k]
  }

  lemma {:induction false} UnexpiredMore(m: map<string, int>, id: string, exp: int, now: int)
    requires id !in m
    ensures Unexpired(m[id := exp], now) == if exp <= now then Unexpired(m, now) else Unexpired(m, now)[id := exp]
  {
  }

  lemma {:induction false} NotKept(ks: seq<SealedCmd>)
    requires ks != [] && DistinctKept(ks)
    ensures ks[|ks| - 1].cmd.id !in Kept(ks[..|ks| - 1]) && DistinctKept(ks[..|ks| - 1])
  {
    KeptHas(ks[..|ks| - 1], ks[|ks| - 1].cmd.id);
  }

  lemma {:induction false} RemainingKeeps(ks: seq<SealedCmd>, now: int, acked: set<string>)
    requires DistinctKept(ks)
    ensures Kept(Remaining(ks, now, acked)) == Unexpired(Kept(ks), now)
  {
    if ks != [] {
      var l := |ks| - 1;
      NotKept(ks);
      RemainingKeeps(ks[..l], now, acked);
      RemainingMore(ks, now, acked, Kept(ks[..l]));
    }
  }

  lemma {:induction false} RemainingMore(ks: seq<SealedCmd>, now: int, acked: set<string>, m: map<string, int>)
    requires ks != [] && m == Kept(ks[..|ks| - 1]) && ks[|ks| - 1].cmd.id !in m
    requires Kept(Remaining(ks[..|ks| - 1], now, acked)) == Unexpired(m, now)
    ensures Kept(Remaining(ks, now, acked)) == Unexpired(Kept(ks), now)
  {
    var k := ks[|ks| - 1];
    var rest := Remaining(ks[..|ks| - 1], now, acked);
    UnexpiredMore(m, k.cmd.id, k.cmd.exp, now);
    KeptMore(rest, if k.cmd.id in acked then k.(acked := true) else k);
    assert rest + [] == rest;
  }

  class State {
    var high: nat
    var sealed: seq<SealedCmd>
    var held: seq<HeldCmd>

    constructor ()
      ensures high == 0 && sealed == [] && held == []
    {
      high, sealed, held := 0, [], [];
    }

    /** The command run from a denial under id, if any. */
    method FindKept(id: string) returns (k: Opt<SealedCmd>)
      ensures k.Some? <==> id in Kept(sealed)
      ensures k.Some? ==> k.v in sealed && k.v.cmd.id == id
    {
      KeptHas(sealed, id);
      for i := 0 to |sealed|
        invariant forall j | 0 <= j < i :: sealed[j].cmd.id != id
      {
        if sealed[i].cmd.id == id {
          return Some(sealed[i]);
        }
      }
      k := None;
    }

    /** Records the commands just run, marks those acked, and drops the expired ones. */
    method KeepSealed(now: int, add: seq<SealedCmd>, acked: set<string>)
      requires DistinctKept(sealed)
      modifies this`sealed
      ensures sealed == Remaining(old(sealed), now, acked) + add
      ensures Kept(sealed) == Unexpired(Kept(old(sealed)), now) + Ran(Cmds(add))
    {
      var out := [];
      for i := 0 to |sealed|
        invariant out == Remaining(sealed[..i], now, acked)
      {
        var k := sealed[i];
        assert sealed[..i + 1][..i] == sealed[..i];
        if k.cmd.exp <= now {
          continue;
        }
        if k.cmd.id in acked {
          k := k.(acked := true);
        }
        out := out + [k];
      }
      assert sealed[..|sealed|] == sealed;
      RemainingKeeps(sealed, now, acked);
      KeptJoin(out, add);
      sealed := out + add;
    }

    /** Keeps a command and raises the high-water past it, in one save. A redelivery changes nothing. */
    method Hold(h: HeldCmd)
      modifies this`held, this`high
      ensures if exists i | 0 <= i < |old(held)| :: old(held)[i].cmd.id == h.cmd.id
              then held == old(held) && high == old(high)
              else held == Insert(old(held), h) && high == if h.cmd.num > old(high) then h.cmd.num else old(high)
    {
      for i := 0 to |held|
        invariant forall j | 0 <= j < i :: held[j].cmd.id != h.cmd.id
      {
        if held[i].cmd.id == h.cmd.id {
          return;
        }
      }
      var at := |held|;
      assert held[..at] == held;
      while at > 0 && held[at - 1].cmd.num > h.cmd.num
        invariant 0 <= at <= |held|
        invariant Insert(held, h) == Insert(held[..at], h) + held[at..]
      {
        assert held[..at][..at - 1] == held[..at - 1];
        assert [held[at - 1]] + held[at..] == held[at - 1..];
        at := at - 1;
      }
      held := held[..at] + [h] + held[at..];
      if h.cmd.num > high {
        high := h.cmd.num;
      }
    }

    method FindRootHeld() returns (found: bool)
      ensures found <==> RootHeld(held)
    {
      for i := 0 to |held|
        invariant forall j | 0 <= j < i :: !(held[j].cmd.root && !held[j].handed)
      {
        if held[i].cmd.root && !held[i].handed {
          return true;
        }
      }
      found := false;
    }

    /** Changes a kept command, or removes it. */
    method UpdateHeld(id: string, change: HeldCmd -> HeldCmd, drop: bool)
      requires forall i, j | 0 <= i < j < |held| :: held[i].cmd.id != held[j].cmd.id
      modifies this`held
      ensures var i := IndexOf(old(held), id);
              held == if i == |old(held)| then old(held)
                      else if drop then old(held)[..i] + old(held)[i + 1..]
                      else old(held)[i := change(old(held)[i])]
    {
      ghost var at := IndexOf(held, id);
      var out := [];
      for i := 0 to |held|
        invariant held == old(held)
        invariant i <= at ==> out == held[..i]
        invariant i > at && drop ==> out == held[..at] + held[at + 1..i]
        invariant i > at && !drop ==> out == held[..at] + [change(held[at])] + held[at + 1..i]
      {
        var k := held[i];
        if k.cmd.id == id {
          IndexIs(held, i);
          if drop {
            continue;
          }
          k := change(k);
        }
        out := out + [k];
      }
      assert held[..|held|] == held && held[at..][..0] == [];
      held := out;
    }
  }
}
