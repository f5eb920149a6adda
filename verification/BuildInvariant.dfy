/** What a sequential build keeps after every insertion. */
module BuildInvariant {
  import opened TopK
  import opened Graph
  import opened Heuristic
  import opened LayerSearch
  import opened Completeness
  import opened Descent
  import opened Build

  /** Within the cap, each neighbour once, never the owner itself. */
  ghost predicate TidyList(par: Params, a: nat, lc: nat, nbs: seq<nat>) {
    |nbs| <= par.CapAt(lc) && NoRepeats(nbs) && a !in nbs
  }

  ghost predicate Tidy(par: Params, links: Links) {
    forall a: nat, lc: nat :: Occupies(links, a, lc) ==> TidyList(par, a, lc, links[a][lc])
  }

  /** No list on layers 0 to lc names id, and id's own lists there are empty. */
  ghost predicate Untouched(links: Links, id: nat, lc: nat) {
    forall a: nat, l: nat :: Occupies(links, a, l) && l <= lc ==> id !in links[a][l] && (a == id ==> links[a][l] == [])
  }

  /** Only layer lc differs. */
  ghost predicate SameBut(l1: Links, l2: Links, lc: nat) {
    && SameShape(l1, l2)
    && forall a: nat, l: nat :: Occupies(l1, a, l) && l != lc ==> l2[a][l] == l1[a][l]
  }

  lemma SetListTidy(par: Params, links: Links, a: nat, lc: nat, nbs: seq<nat>)
    requires Tidy(par, links) && Occupies(links, a, lc) && TidyList(par, a, lc, nbs)
    ensures Tidy(par, SetList(links, a, lc, nbs)) && SameBut(links, SetList(links, a, lc, nbs), lc)
  {
    var r := SetList(links, a, lc, nbs);
    forall b: nat, l: nat | Occupies(r, b, l) ensures TidyList(par, b, l, r[b][l]) {
      assert Occupies(links, b, l);
    }
  }

  lemma LinkStepTidy(ds: Dataset, par: Params, links: Links, other: nat, id: nat, lc: nat)
    requires Buildable(ds, par, links) && Tidy(par, links)
    requires Occupies(links, other, lc) && Occupies(links, id, lc) && other != id
    requires id !in links[other][lc]
    ensures Tidy(par, LinkStep(ds, par, links, other, id, lc))
    ensures SameBut(links, LinkStep(ds, par, links, other, id, lc), lc)
  {
    ListsBelow(links, other, lc);
    LinkedFacts(ds, par, other, lc, links[other][lc], id);
    assert TidyList(par, other, lc, links[other][lc]);
    SetListTidy(par, links, other, lc, Linked(ds, par, other, lc, links[other][lc], id));
  }

  /** The lists of ids[i..] are those of l1; they have not been linked yet. */
  ghost predicate Pending(links: Links, ids: seq<nat>, i: nat, id: nat, lc: nat) {
    forall j :: i <= j < |ids| ==> Occupies(links, ids[j], lc) && ids[j] != id && id !in links[ids[j]][lc]
  }

  lemma LinkStepElsewhere(ds: Dataset, par: Params, links: Links, other: nat, id: nat, lc: nat)
    requires Buildable(ds, par, links) && Occupies(links, other, lc) && Occupies(links, id, lc)
    ensures var r := LinkStep(ds, par, links, other, id, lc);
      SameShape(links, r) && forall a: nat :: a != other && Occupies(links, a, lc) ==> r[a][lc] == links[a][lc]
  {}

  lemma PendingHead(links: Links, ids: seq<nat>, i: nat, id: nat, lc: nat)
    requires Pending(links, ids, i, id, lc) && i < |ids| && NoRepeats(ids)
    ensures Occupies(links, ids[i], lc) && ids[i] != id && id !in links[ids[i]][lc]
    ensures forall j :: i < j < |ids| ==> ids[j] != ids[i]
  {}

  lemma {:induction false} LinkAllTidy(ds: Dataset, par: Params, links: Links, ids: seq<nat>, i: nat, id: nat, lc: nat)
    requires Buildable(ds, par, links) && i <= |ids| && ListWithin(links, ids, lc) && Occupies(links, id, lc)
    requires Tidy(par, links) && NoRepeats(ids) && Pending(links, ids, i, id, lc)
    ensures Tidy(par, LinkAll(ds, par, links, ids, i, id, lc))
    ensures SameBut(links, LinkAll(ds, par, links, ids, i, id, lc), lc)
    decreases |ids| - i
  {
    hide LinkStep, Tidy, WellLinked, NoRepeats;
    if i < |ids| {
      PendingHead(links, ids, i, id, lc);
      LinkStepKeeps(ds, par, links, ids[i], id, lc);
      LinkStepTidy(ds, par, links, ids[i], id, lc);
      var next := LinkStep(ds, par, links, ids[i], id, lc);
      LinkStepElsewhere(ds, par, links, ids[i], id, lc);
      forall j | i + 1 <= j < |ids| ensures next[ids[j]][lc] == links[ids[j]][lc] {
        assert Occupies(links, ids[j], lc);
      }
      LinkAllTidy(ds, par, next, ids, i + 1, id, lc);
      var r := LinkAll(ds, par, links, ids, i, id, lc);
      forall a: nat, l: nat | Occupies(links, a, l) && l != lc ensures r[a][l] == links[a][l] {
        assert Occupies(next, a, l);
      }
    }
  }

  /** What the search proposes: something, each node once, never the new node. */
  lemma FoundFacts(ds: Dataset, par: Params, links: Links, id: nat, lc: nat, ep: nat)
    requires Buildable(ds, par, links) && id < |links| && Occupies(links, ep, lc) && ep != id
    ensures var f := Found(ds, par, links, id, lc, ep);
      && f != [] && NoRepeats(Ids(f)) && id !in Ids(f)
  {
    var q := Query(ds.From(ds.vecs[id]), par.efConstruct, id);
    SearchStaysInLayer(links, lc, q, ep);
    SearchAnswers(Layer(links, lc), q, ep);
  }

  lemma KeepFacts(ds: Dataset, par: Params, found: seq<Result>, id: nat)
    requires IdsWithin(ds, found) && par.Valid()
    requires found != [] && NoRepeats(Ids(found)) && id !in Ids(found)
    ensures var k := Keep(ds, par, found);
      && 1 <= |k| <= par.m && NoRepeats(k) && id !in k && k[0] == found[0].id
  {
    SelectedIds(ds, found, par.m, par.nearestM);
  }

  lemma SameButTrans(l1: Links, l2: Links, l3: Links, lc: nat)
    requires SameBut(l1, l2, lc) && SameBut(l2, l3, lc)
    ensures SameBut(l1, l3, lc)
  {
    forall a: nat, l: nat | Occupies(l1, a, l) && l != lc ensures l3[a][l] == l1[a][l] {
      assert Occupies(l2, a, l);
    }
  }

  lemma NothingLinkedYet(links: Links, keep: seq<nat>, id: nat, lc: nat)
    requires Occupies(links, id, lc) && ListWithin(links, keep, lc) && Untouched(links, id, lc) && id !in keep
    ensures Pending(SetList(links, id, lc, keep), keep, 0, id, lc)
  {
    forall j | 0 <= j < |keep| ensures keep[j] != id && Occupies(links, keep[j], lc) && id !in links[keep[j]][lc] {
      assert Occupies(links, keep[j], lc);
      assert keep[j] in keep;
    }
  }

  /** The new node's list is set and its neighbours linked back. */
  lemma AttachTidy(ds: Dataset, par: Params, links: Links, id: nat, lc: nat, keep: seq<nat>)
    requires Buildable(ds, par, links) && Occupies(links, id, lc) && ListWithin(links, keep, lc)
    requires Tidy(par, links) && Untouched(links, id, lc) && TidyList(par, id, lc, keep)
    ensures var own := SetList(links, id, lc, keep);
      && Buildable(ds, par, own) && Occupies(own, id, lc) && ListWithin(own, keep, lc)
      && Tidy(par, LinkAll(ds, par, own, keep, 0, id, lc))
      && SameBut(links, LinkAll(ds, par, own, keep, 0, id, lc), lc)
  {
    hide LinkAll, Tidy, NoRepeats, WellLinked, Untouched, SameBut, Pending;
    SetListKeepsWellLinked(links, id, lc, keep);
    SetListTidy(par, links, id, lc, keep);
    var own := SetList(links, id, lc, keep);
    NothingLinkedYet(links, keep, id, lc);
    LinkAllTidy(ds, par, own, keep, 0, id, lc);
    SameButTrans(links, own, LinkAll(ds, par, own, keep, 0, id, lc), lc);
  }

  /** One layer of an insertion, on a layer that knows nothing of the node yet. */
  lemma ConnectLayerTidy(ds: Dataset, par: Params, links: Links, id: nat, lc: nat, ep: nat)
    requires Buildable(ds, par, links) && Occupies(links, id, lc) && Occupies(links, ep, lc)
    requires Tidy(par, links) && Untouched(links, id, lc) && ep != id
    ensures var p := ConnectLayer(ds, par, links, id, lc, ep);
      && Tidy(par, p.links) && SameBut(links, p.links, lc) && p.ep != id
  {
    hide LinkAll, Tidy, NoRepeats, WellLinked, Untouched, SameBut, Found, Keep;
    var found := Found(ds, par, links, id, lc, ep);
    FoundFacts(ds, par, links, id, lc, ep);
    var keep := Keep(ds, par, found);
    KeepFacts(ds, par, found, id);
    KeepWithin(links, found, keep, lc);
    AttachTidy(ds, par, links, id, lc, keep);
    assert found[0].id == Ids(found)[0];
  }

  /** x's list in r is its list in links with id linked in. */
  ghost predicate WiredTo(ds: Dataset, par: Params, links: Links, r: Links, x: nat, id: nat, lc: nat) {
    && ds.Valid() && x < ds.Len() && id < ds.Len()
    && Occupies(links, x, lc) && Occupies(r, x, lc) && AllBelow(links[x][lc], ds.Len())
    && r[x][lc] == Linked(ds, par, x, lc, links[x][lc], id)
  }

  lemma StepWires(ds: Dataset, par: Params, links: Links, r: Links, x: nat, id: nat, lc: nat)
    requires Buildable(ds, par, links) && Occupies(links, x, lc) && Occupies(links, id, lc) && Occupies(r, x, lc)
    requires Occupies(LinkStep(ds, par, links, x, id, lc), x, lc)
    requires r[x][lc] == LinkStep(ds, par, links, x, id, lc)[x][lc]
    ensures WiredTo(ds, par, links, r, x, id, lc)
  {
    hide Linked;
    ListsBelow(links, x, lc);
  }

  lemma WiredCarries(ds: Dataset, par: Params, links: Links, next: Links, r: Links, x: nat, id: nat, lc: nat)
    requires Occupies(links, x, lc) && Occupies(next, x, lc) && links[x][lc] == next[x][lc]
    requires WiredTo(ds, par, next, r, x, id, lc)
    ensures WiredTo(ds, par, links, r, x, id, lc)
  {
    hide Linked;
  }

  lemma NotAgain(ids: seq<nat>, i: nat)
    requires NoRepeats(ids) && i < |ids|
    ensures ids[i] !in ids[i + 1..] && forall j :: i < j < |ids| ==> ids[j] != ids[i]
  {}

  /** Each listed node's list has been linked to id, and no other list changed. */
  lemma {:induction false} LinkAllWires(ds: Dataset, par: Params, links: Links, ids: seq<nat>, i: nat, id: nat, lc: nat)
    requires Buildable(ds, par, links) && i <= |ids| && ListWithin(links, ids, lc) && Occupies(links, id, lc)
    requires NoRepeats(ids)
    ensures var r := LinkAll(ds, par, links, ids, i, id, lc);
      && SameShape(links, r)
      && (forall a: nat :: Occupies(links, a, lc) && a !in ids[i..] ==> r[a][lc] == links[a][lc])
      && (forall j :: i <= j < |ids| ==> WiredTo(ds, par, links, r, ids[j], id, lc))
    decreases |ids| - i
  {
    hide LinkStep, WellLinked, WiredTo, NoRepeats;
    if i < |ids| {
      LinkStepKeeps(ds, par, links, ids[i], id, lc);
      var next := LinkStep(ds, par, links, ids[i], id, lc);
      LinkAllWires(ds, par, next, ids, i + 1, id, lc);
      var r := LinkAll(ds, par, links, ids, i, id, lc);
      LinkStepElsewhere(ds, par, links, ids[i], id, lc);
      NotAgain(ids, i);
      forall a: nat | Occupies(links, a, lc) && a !in ids[i..] ensures r[a][lc] == links[a][lc] {
        assert Occupies(next, a, lc) && ids[i] in ids[i..] && a !in ids[i + 1..];
      }
      assert Occupies(next, ids[i], lc);
      StepWires(ds, par, links, r, ids[i], id, lc);
      forall j | i < j < |ids| ensures WiredTo(ds, par, links, r, ids[j], id, lc) {
        assert Occupies(links, ids[j], lc);
        WiredCarries(ds, par, links, next, r, ids[j], id, lc);
      }
    }
  }

  /** What one layer of an insertion does, list by list: the new node gets the
  neighbours kept, each of them has the new node linked in, and no other list
  changes; the nearest found is handed down. */
  lemma ConnectLayerWires(ds: Dataset, par: Params, links: Links, id: nat, lc: nat, ep: nat)
    requires Buildable(ds, par, links) && Occupies(links, id, lc) && Occupies(links, ep, lc)
    requires Untouched(links, id, lc) && ep != id
    ensures var found := Found(ds, par, links, id, lc, ep);
      var keep := Keep(ds, par, found);
      var p := ConnectLayer(ds, par, links, id, lc, ep);
      && found != [] && p.ep == found[0].id
      && p.links[id][lc] == keep && keep != [] && id !in keep
      && (forall x :: x in keep ==> WiredTo(ds, par, links, p.links, x, id, lc))
      && (forall a: nat :: Occupies(links, a, lc) && a != id && a !in keep ==> p.links[a][lc] == links[a][lc])
  {
    hide LinkAll, NoRepeats, WellLinked, Untouched, Found, Keep, WiredTo;
    var found := Found(ds, par, links, id, lc, ep);
    FoundFacts(ds, par, links, id, lc, ep);
    var keep := Keep(ds, par, found);
    KeepFacts(ds, par, found, id);
    KeepWithin(links, found, keep, lc);
    SetListKeepsWellLinked(links, id, lc, keep);
    var own := SetList(links, id, lc, keep);
    LinkAllWires(ds, par, own, keep, 0, id, lc);
    var r := LinkAll(ds, par, own, keep, 0, id, lc);
    assert keep[0..] == keep;
    assert Occupies(own, id, lc);
    forall x | x in keep ensures WiredTo(ds, par, links, r, x, id, lc) {
      var j :| 0 <= j < |keep| && keep[j] == x;
      assert Occupies(links, keep[j], lc);
      WiredCarries(ds, par, links, own, r, keep[j], id, lc);
    }
    forall a: nat | Occupies(links, a, lc) && a != id && a !in keep ensures r[a][lc] == links[a][lc] {
      assert Occupies(own, a, lc);
    }
  }

  lemma UntouchedBelow(l1: Links, l2: Links, id: nat, lc: nat)
    requires Untouched(l1, id, lc) && SameBut(l1, l2, lc) && lc > 0
    ensures Untouched(l2, id, lc - 1)
  {
    forall a: nat, l: nat | Occupies(l2, a, l) && l <= lc - 1
      ensures id !in l2[a][l] && (a == id ==> l2[a][l] == [])
    {
      assert Occupies(l1, a, l);
    }
  }

  lemma {:induction false} ConnectDownTidy(
      ds: Dataset, par: Params, links: Links, id: nat, lc: nat, ep: nat, r: Placed)
    requires Buildable(ds, par, links) && Occupies(links, id, lc) && Occupies(links, ep, lc)
    requires Tidy(par, links) && Untouched(links, id, lc) && ep != id
    requires r == ConnectDown(ds, par, links, id, lc, ep)
    ensures Tidy(par, r.links)
    decreases lc
  {
    hide ConnectLayer;
    if lc == 0 {
      ConnectLayerTidy(ds, par, links, id, lc, ep);
    } else {
      var p := ConnectStepTidy(ds, par, links, id, lc, ep);
      ConnectDownTidy(ds, par, p.links, id, lc - 1, p.ep, r);
    }
  }

  lemma ConnectStepTidy(ds: Dataset, par: Params, links: Links, id: nat, lc: nat, ep: nat) returns (p: Placed)
    requires Buildable(ds, par, links) && Occupies(links, id, lc) && Occupies(links, ep, lc)
    requires Tidy(par, links) && Untouched(links, id, lc) && ep != id && lc > 0
    ensures Buildable(ds, par, p.links) && Occupies(p.links, id, lc - 1) && Occupies(p.links, p.ep, lc - 1)
    ensures Tidy(par, p.links) && Untouched(p.links, id, lc - 1) && p.ep != id
    ensures SameBut(links, p.links, lc)
    ensures ConnectDown(ds, par, links, id, lc, ep) == ConnectDown(ds, par, p.links, id, lc - 1, p.ep)
  {
    hide ConnectLayer;
    p := ConnectDownStep(ds, par, links, id, lc, ep);
    ConnectLayerTidy(ds, par, links, id, lc, ep);
    UntouchedBelow(links, p.links, id, lc);
  }

  lemma PublishUntouched(par: Params, links: Links, id: nat, level: nat, lc: nat)
    requires WellLinked(links) && Tidy(par, links) && id < |links| && links[id] == []
    ensures Tidy(par, Publish(links, id, level)) && Untouched(Publish(links, id, level), id, lc)
  {
    var r := Publish(links, id, level);
    forall a: nat, l: nat | Occupies(r, a, l)
      ensures TidyList(par, a, l, r[a][l]) && id !in r[a][l] && (a == id ==> r[a][l] == [])
    {
      if a != id {
        assert Occupies(links, a, l);
        assert ListWithin(links, links[a][l], l);
      }
    }
  }

  /** Entry is the lowest-numbered of the tallest nodes. */
  ghost predicate EntryIsFirstTallest(ix: Index) {
    forall a :: 0 <= a < ix.entry && a < |ix.links| ==> |ix.links[a]| <= ix.maxLevel
  }

  lemma InsertKeepsTidy(ix: Index, id: nat, level: nat)
    requires Sound(ix) && id < |ix.links| && ix.links[id] == [] && Tidy(ix.par, ix.links)
    ensures Tidy(ix.par, InsertNode(ix, id, level).links)
  {
    PublishKeepsWellLinked(ix.links, id, level);
    var links := Publish(ix.links, id, level);
    var ep := Down(links, ix.ds.From(ix.ds.vecs[id]), ix.entry, ix.maxLevel, level);
    EntryIsNotNew(ix, id, level);
    var start := if level > ix.maxLevel then ix.maxLevel else level;
    PublishUntouched(ix.par, ix.links, id, level, start);
    ConnectDownTidy(ix.ds, ix.par, links, id, start, ep, ConnectDown(ix.ds, ix.par, links, id, start, ep));
  }

  /** The descent never arrives at the node being inserted. */
  lemma EntryIsNotNew(ix: Index, id: nat, level: nat)
    requires Sound(ix) && id < |ix.links| && ix.links[id] == []
    ensures var links := Publish(ix.links, id, level);
      WellLinked(links) && Down(links, ix.ds.From(ix.ds.vecs[id]), ix.entry, ix.maxLevel, level) != id
  {
    PublishKeepsWellLinked(ix.links, id, level);
    var links := Publish(ix.links, id, level);
  }

  lemma SeededTidy(ds: Dataset, par: Params, level: nat)
    requires ds.Valid() && par.Valid() && 1 <= ds.Len()
    ensures Tidy(par, Seeded(ds, par, level).links)
  {
    var links := Seeded(ds, par, level).links;
    forall a: nat, lc: nat | Occupies(links, a, lc) ensures TidyList(par, a, lc, links[a][lc]) {
      assert links[a][lc] == [];
    }
  }

  lemma InsertShape(ix: Index, id: nat, level: nat)
    requires Sound(ix) && id < |ix.links| && ix.links[id] == []
    ensures var r := InsertNode(ix, id, level);
      && |r.links| == |ix.links|
      && (forall a :: 0 <= a < |ix.links| && a != id ==> |r.links[a]| == |ix.links[a]|)
      && |r.links[id]| == level + 1
      && (if level > ix.maxLevel then r.entry == id && r.maxLevel == level
          else r.entry == ix.entry && r.maxLevel == ix.maxLevel)
  {
    var p := Publish(ix.links, id, level);
    forall a | 0 <= a < |ix.links| && a != id ensures |InsertNode(ix, id, level).links[a]| == |ix.links[a]| {
      assert p[a] == ix.links[a];
    }
    assert p[id] == NewLevels(level);
  }

  lemma InsertKeepsFirstTallest(ix: Index, id: nat, level: nat)
    requires Sound(ix) && id < |ix.links| && ix.links[id] == [] && EntryIsFirstTallest(ix) && ix.entry < id
    ensures EntryIsFirstTallest(InsertNode(ix, id, level)) && InsertNode(ix, id, level).entry <= id
  {
    hide InsertNode;
    var r := InsertNode(ix, id, level);
    InsertShape(ix, id, level);
    forall a | 0 <= a < r.entry && a < |r.links| ensures |r.links[a]| <= r.maxLevel {
      assert |r.links[a]| == |ix.links[a]|;
    }
  }

  lemma SeededState(ds: Dataset, par: Params, levels: seq<nat>)
    requires ds.Valid() && par.Valid() && |levels| == ds.Len() && 1 <= ds.Len()
    ensures SequentialState(Seeded(ds, par, levels[0]), 1)
    ensures Drawn(Seeded(ds, par, levels[0]).links, levels, 1)
  {
    SeededTidy(ds, par, levels[0]);
  }

  /** Lists within their caps, no neighbour twice, no node its own neighbour,
  edges within occupied layers (by `Sound`), and the entry the lowest-numbered
  node of maximal level among the first n. */
  ghost predicate SequentialState(ix: Index, n: nat) {
    Sound(ix) && Tidy(ix.par, ix.links) && EntryIsFirstTallest(ix) && ix.entry < n
  }

  /** The first n nodes are on the levels drawn for them, the rest on none. */
  ghost predicate Drawn(links: Links, levels: seq<nat>, n: nat) {
    |links| == |levels| && forall a :: 0 <= a < |links| ==> |links[a]| == if a < n then levels[a] + 1 else 0
  }

  lemma DrawnGrows(l1: Links, l2: Links, levels: seq<nat>, n: nat)
    requires 1 <= n <= |levels| && Drawn(l1, levels, n - 1) && |l2| == |l1|
    requires forall a :: 0 <= a < |l1| && a != n - 1 ==> |l2[a]| == |l1[a]|
    requires |l2[n - 1]| == levels[n - 1] + 1
    ensures Drawn(l2, levels, n)
  {}

  lemma BuildOne(ds: Dataset, par: Params, levels: seq<nat>)
    requires ds.Valid() && par.Valid() && |levels| == ds.Len() && 1 <= ds.Len()
    ensures BuildUpTo(ds, par, levels, 1) == Seeded(ds, par, levels[0])
  {}

  /** One more insertion, with everything known about what it started from. */
  lemma BuildStep(ds: Dataset, par: Params, levels: seq<nat>, n: nat) returns (prev: Index)
    requires ds.Valid() && par.Valid() && |levels| == ds.Len() && 2 <= n <= ds.Len()
    ensures prev == BuildUpTo(ds, par, levels, n - 1) && prev.ds == ds && prev.par == par
    ensures SequentialState(prev, n - 1) && Drawn(prev.links, levels, n - 1)
    ensures n - 1 < |prev.links| == |levels| && prev.links[n - 1] == []
    ensures BuildUpTo(ds, par, levels, n) == InsertNode(prev, n - 1, levels[n - 1])
  {
    hide InsertNode;
    prev := BuildUpTo(ds, par, levels, n - 1);
  }

  lemma InsertDrawn(ix: Index, levels: seq<nat>, n: nat)
    requires Sound(ix) && 1 <= n <= |levels| && Drawn(ix.links, levels, n - 1)
    ensures ix.links[n - 1] == []
    ensures Drawn(InsertNode(ix, n - 1, levels[n - 1]).links, levels, n)
  {
    hide InsertNode;
    var level := levels[n - 1];
    InsertShape(ix, n - 1, level);
    DrawnGrows(ix.links, InsertNode(ix, n - 1, level).links, levels, n);
  }

  lemma InsertKeepsState(ix: Index, n: nat, level: nat)
    requires 1 <= n <= |ix.links| && ix.links[n - 1] == [] && SequentialState(ix, n - 1)
    ensures SequentialState(InsertNode(ix, n - 1, level), n)
  {
    hide InsertNode;
    InsertKeepsTidy(ix, n - 1, level);
    InsertKeepsFirstTallest(ix, n - 1, level);
  }

  /** Node 0 seeded, then nodes 1 up to n-1 inserted in ID order at the levels
  drawn for them; the invariant holds after every insertion. */
  ghost function BuildUpTo(ds: Dataset, par: Params, levels: seq<nat>, n: nat): (ix: Index)
    requires ds.Valid() && par.Valid() && |levels| == ds.Len() && 1 <= n <= ds.Len()
    ensures ix.ds == ds && ix.par == par
    ensures SequentialState(ix, n)
    ensures Drawn(ix.links, levels, n)
  {
    if n == 1 then
      SeededState(ds, par, levels);
      Seeded(ds, par, levels[0])
    else
      var prev := BuildUpTo(ds, par, levels, n - 1);
      InsertDrawn(prev, levels, n);
      InsertKeepsState(prev, n, levels[n - 1]);
      InsertNode(prev, n - 1, levels[n - 1])
  }

  /** The entry is a node whose drawn level no earlier node reaches and no
  node exceeds. */
  lemma EntryDrewTheTop(ds: Dataset, par: Params, levels: seq<nat>, n: nat)
    requires ds.Valid() && par.Valid() && |levels| == ds.Len() && 1 <= n <= ds.Len()
    ensures var ix := BuildUpTo(ds, par, levels, n);
      && ix.entry < n && levels[ix.entry] == ix.maxLevel
      && (forall a :: 0 <= a < n ==> levels[a] <= ix.maxLevel)
      && (forall a :: 0 <= a < ix.entry ==> levels[a] < ix.maxLevel)
  {
    var ix := BuildUpTo(ds, par, levels, n);
    forall a | 0 <= a < n ensures levels[a] <= ix.maxLevel && (a < ix.entry ==> levels[a] < ix.maxLevel) {
      assert |ix.links[a]| == levels[a] + 1;
    }
  }
}
