/** The recycled scratch space of `internal/index/workspace.go`: a visited set
kept as 16-bit epoch stamps, and the two heaps of one layer search. */
module Scratch {
  import opened TopK
  import opened Frontier

  /** uint16: the epoch wraps at this many layer searches. */
  const EPOCHS: nat := 0x1_0000

  type Stamp = x: nat | x < EPOCHS

  class Workspace {
    var stamp: array<Stamp>
    var epoch: Stamp
    const cand: Candidates
    var res: Collector?
    var nbuf: seq<nat>

    ghost function Repr(): (r: set<object?>)
      reads this
    {
      {this, stamp, cand, res}
    }

    ghost predicate Valid()
      reads this, Repr()
    {
      && cand.Valid()
      && (res != null ==> res.Valid())
      && forall i :: 0 <= i < stamp.Length ==> stamp[i] <= epoch
    }

    /** The visited set the stamps stand for. */
    ghost function Marked(): (s: set<nat>)
      reads this, stamp
    {
      set i | 0 <= i < stamp.Length && stamp[i] == epoch
    }

    constructor (nodes: nat)
      ensures Valid() && fresh(Repr() - {null})
    {
      stamp := new Stamp[nodes](_ => 0);
      epoch := 0;
      cand := new Candidates();
      res := null;
      nbuf := [];
    }

    /** Readies the workspace: whatever came before, and wherever the epoch
    stands, nothing is marked and both heaps are empty afterwards. */
    method Begin(nodes: nat, ef: nat)
      requires Valid()
      modifies Repr()
      ensures Valid() && fresh(Repr() - old(Repr()))
      ensures nodes <= stamp.Length && Marked() == {}
      ensures cand.View() == []
      ensures res != null && res.View() == [] && res.k == (if ef < 1 then 1 else ef)
    {
      if stamp.Length < nodes {
        stamp := new Stamp[nodes](_ => 0);
        epoch := 0;
      }
      epoch := (epoch + 1) % EPOCHS;
      if epoch == 0 {
        Clear();
        epoch := 1;
      }
      cand.Reset();
      if res == null || res.k != ef {
        res := new Collector(ef);
      } else {
        res.Reset();
      }
    }

    /** The loop that wipes the stamps when the epoch has wrapped. */
    method Clear()
      modifies stamp
      ensures forall i :: 0 <= i < stamp.Length ==> stamp[i] == 0
    {
      var i := 0;
      while i < stamp.Length
        invariant i <= stamp.Length
        invariant forall j :: 0 <= j < i ==> stamp[j] == 0
      {
        stamp[i] := 0;
        i := i + 1;
      }
    }

    predicate Seen(id: nat)
      requires id < stamp.Length
      reads this, stamp
      ensures Seen(id) <==> id in Marked()
    {
      stamp[id] == epoch
    }

    method Mark(id: nat)
      requires Valid() && id < stamp.Length
      modifies stamp
      ensures Valid() && Marked() == old(Marked()) + {id}
    {
      stamp[id] := epoch;
    }
  }
}
