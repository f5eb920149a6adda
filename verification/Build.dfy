/** Inserting one node: `insertAt`, `setOwn`, `link` and `raiseTop` of
`internal/index/hnsw.go`, as functions of the links before. */
module Build {
  import opened TopK
  import opened Graph
  import opened Heuristic
  import opened LayerSearch
  import opened Descent

  datatype Index = Index(ds: Dataset, par: Params, links: Links, entry: nat, maxLevel: nat)

  ghost predicate Buildable(ds: Dataset, par: Params, links: Links) {
    ds.Valid() && par.Valid() && |links| == ds.Len() && WellLinked(links)
  }

  /** An index every walk can be trusted on. */
  ghost predicate Sound(ix: Index) {
    && Buildable(ix.ds, ix.par, ix.links)
    && Occupies(ix.links, ix.entry, ix.maxLevel)
    && |ix.links[ix.entry]| == ix.maxLevel + 1
    && forall a :: 0 <= a < |ix.links| ==> |ix.links[a]| <= ix.maxLevel + 1
  }

  // ---------- Single lists ----------

  ghost predicate AllBelow(nbs: seq<nat>, n: nat) {
    forall j :: 0 <= j < |nbs| ==> nbs[j] < n
  }

  /** The list scored by distance from its owner. */
  function Rank(ds: Dataset, owner: nat, nbs: seq<nat>): (r: seq<Result>)
    requires ds.Valid() && owner < ds.Len() && AllBelow(nbs, ds.Len())
    ensures |r| == |nbs|
    ensures forall i :: 0 <= i < |nbs| ==> r[i] == Result(nbs[i], ds.Between(owner, nbs[i]))
  {
    seq(|nbs|, i requires 0 <= i < |nbs| => Result(nbs[i], ds.Between(owner, nbs[i])))
  }

  lemma SortedMembers(r: seq<Result>, x: Result)
    ensures x in SortAll(r) <==> x in r
  {
    SortAllSorts(r);
    assert x in multiset(SortAll(r)) <==> x in multiset(r);
  }

  lemma IdsOfMembers(s: seq<Result>, x: nat)
    ensures x in Ids(s) <==> exists r :: r in s && r.id == x
  {
    if x in Ids(s) {
      var i :| 0 <= i < |Ids(s)| && Ids(s)[i] == x;
      assert s[i] in s && s[i].id == x;
    }
    if r :| r in s && r.id == x {
      var i :| 0 <= i < |s| && s[i] == r;
      assert Ids(s)[i] == x;
    }
  }

  lemma RankedMembers(ds: Dataset, owner: nat, nbs: seq<nat>, x: nat)
    requires ds.Valid() && owner < ds.Len() && AllBelow(nbs, ds.Len())
    ensures x in Ids(SortAll(Rank(ds, owner, nbs))) <==> x in nbs
  {
    var r := Rank(ds, owner, nbs);
    assert Ids(r) == nbs;
    IdsOfMembers(r, x);
    IdsOfMembers(SortAll(r), x);
    forall y ensures y in SortAll(r) <==> y in r { SortedMembers(r, y); }
  }

  lemma RankedIds(ds: Dataset, owner: nat, nbs: seq<nat>)
    requires ds.Valid() && owner < ds.Len() && AllBelow(nbs, ds.Len())
    ensures var s := SortAll(Rank(ds, owner, nbs));
      && IdsWithin(ds, s)
      && (forall x :: x in Ids(s) <==> x in nbs)
      && (NoRepeats(nbs) ==> NoRepeats(Ids(s)))
  {
    var r := Rank(ds, owner, nbs);
    assert Ids(r) == nbs;
    forall x ensures x in Ids(SortAll(r)) <==> x in nbs { RankedMembers(ds, owner, nbs, x); }
    forall i | 0 <= i < |r| ensures SortAll(r)[i].id < ds.Len() {
      assert Ids(SortAll(r))[i] in nbs;
    }
    if NoRepeats(nbs) { SortedIdsDistinct(r); }
  }

  lemma SortedIdsDistinct(r: seq<Result>)
    requires NoRepeats(Ids(r))
    ensures NoRepeats(Ids(SortAll(r)))
  {
    var s := SortAll(r);
    SortAllSorts(r);
    forall i, j | 0 <= i < j < |s| ensures s[i].id != s[j].id {
      if s[i].id == s[j].id {
        assert s[i] in multiset(r) && s[j] in multiset(r);
        var a :| 0 <= a < |r| && r[a] == s[i];
        var b :| 0 <= b < |r| && r[b] == s[j];
        assert Ids(r)[a] == Ids(r)[b];
        assert a == b;
        TwiceInMultiset(s, i, j);
        OnceInMultiset(r, a);
      }
    }
  }

  lemma TwiceInMultiset(s: seq<Result>, i: nat, j: nat)
    requires i < j < |s| && s[i] == s[j]
    ensures multiset(s)[s[i]] >= 2
  {
    assert s == s[..j] + [s[j]] + s[j + 1..];
    assert s[..j][i] == s[i];
    assert s[i] in multiset(s[..j]);
  }

  lemma OnceInMultiset(r: seq<Result>, a: nat)
    requires a < |r| && NoRepeats(Ids(r))
    ensures multiset(r)[r[a]] <= 1
  {
    assert r == r[..a] + [r[a]] + r[a + 1..];
    forall i | 0 <= i < |r| && i != a ensures r[i] != r[a] {
      assert Ids(r)[i] != Ids(r)[a];
    }
    assert r[a] !in r[..a] && r[a] !in r[a + 1..];
  }

  /** A list cut back to its cap when it is over, and left alone otherwise. */
  ghost function Prune(ds: Dataset, par: Params, owner: nat, lc: nat, nbs: seq<nat>): (r: seq<nat>)
    requires ds.Valid() && owner < ds.Len() && AllBelow(nbs, ds.Len())
  {
    if |nbs| <= par.CapAt(lc) then nbs else
      RankedIds(ds, owner, nbs);
      Ids(Select(ds, SortAll(Rank(ds, owner, nbs)), par.CapAt(lc), par.nearestM))
  }

  lemma PruneFacts(ds: Dataset, par: Params, owner: nat, lc: nat, nbs: seq<nat>)
    requires ds.Valid() && par.Valid() && owner < ds.Len() && AllBelow(nbs, ds.Len())
    ensures var r := Prune(ds, par, owner, lc, nbs);
      && |r| <= par.CapAt(lc)
      && (forall x :: x in r ==> x in nbs)
      && (NoRepeats(nbs) ==> NoRepeats(r))
      && (nbs != [] ==> r != [])
      && (|nbs| <= par.CapAt(lc) ==> r == nbs)
  {
    if |nbs| > par.CapAt(lc) {
      RankedIds(ds, owner, nbs);
      var s := SortAll(Rank(ds, owner, nbs));
      SelectedIds(ds, s, par.CapAt(lc), par.nearestM);
    }
  }

  lemma RankedInOrder(ds: Dataset, owner: nat, nbs: seq<nat>)
    requires ds.Valid() && owner < ds.Len() && AllBelow(nbs, ds.Len())
    ensures var s := SortAll(Rank(ds, owner, nbs));
      && |s| == |nbs| && IdsWithin(ds, s)
      && (forall i :: 0 <= i < |s| ==> s[i].dist == ds.Between(owner, s[i].id))
      && (forall i, j :: 0 <= i <= j < |s| ==> s[i].dist <= s[j].dist)
      && (forall x :: x in nbs ==> exists i :: 0 <= i < |s| && s[i].id == x)
  {
    var r := Rank(ds, owner, nbs);
    var s := SortAll(r);
    SortAllSorts(r);
    RankedIds(ds, owner, nbs);
    assert |multiset(s)| == |multiset(r)|;
    forall i | 0 <= i < |s| ensures s[i].dist == ds.Between(owner, s[i].id) {
      SortedMembers(r, s[i]);
      assert s[i] in r;
    }
    forall x | x in nbs ensures exists i :: 0 <= i < |s| && s[i].id == x {
      assert x in Ids(s);
    }
  }

  lemma RankedForOwner(ds: Dataset, owner: nat, nbs: seq<nat>)
    requires ds.Valid() && owner < ds.Len() && AllBelow(nbs, ds.Len())
    ensures var s := SortAll(Rank(ds, owner, nbs));
      && RankedFor(ds, owner, s) && |s| == |nbs| && (forall x :: x in Ids(s) <==> x in nbs)
  {
    hide SortAll, Rank;
    RankedInOrder(ds, owner, nbs);
    RankedIds(ds, owner, nbs);
    SortAllSorts(Rank(ds, owner, nbs));
  }

  lemma SameCandidates(ds: Dataset, owner: nat, a: seq<nat>, b: seq<nat>, r: seq<nat>, m: nat, nearestM: bool)
    requires IsSelection(ds, owner, a, r, m, nearestM) && forall x :: x in a <==> x in b
    ensures IsSelection(ds, owner, b, r, m, nearestM)
  {
    forall i | 0 <= i < |b| ensures b[i] < ds.Len() && (b[i] !in r ==> Dropped(ds, owner, r, m, nearestM, b[i])) {
      assert b[i] in a;
      var j :| 0 <= j < |a| && a[j] == b[i];
    }
  }

  /** A list over its cap is pruned to a selection, by distance from its owner, of
  as many as the cap allows: `mMax0` on the bottom layer, `mMax` above. */
  lemma PrunedIsSelection(ds: Dataset, par: Params, owner: nat, lc: nat, nbs: seq<nat>)
    requires ds.Valid() && owner < ds.Len() && AllBelow(nbs, ds.Len())
    requires |nbs| > if lc == 0 then par.mMax0 else par.mMax
    ensures IsSelection(ds, owner, nbs, Prune(ds, par, owner, lc, nbs),
                        if lc == 0 then par.mMax0 else par.mMax, par.nearestM)
  {
    hide SortAll, Rank, Select, IsSelection;
    RankedForOwner(ds, owner, nbs);
    var s := SortAll(Rank(ds, owner, nbs));
    SelectIsSelection(ds, owner, s, par.CapAt(lc), par.nearestM);
    SameCandidates(ds, owner, Ids(s), nbs, Prune(ds, par, owner, lc, nbs), par.CapAt(lc), par.nearestM);
  }

  /** A list within its cap is left as it is. */
  lemma UnprunedIsKept(ds: Dataset, par: Params, owner: nat, lc: nat, nbs: seq<nat>)
    requires ds.Valid() && owner < ds.Len() && AllBelow(nbs, ds.Len())
    requires |nbs| <= if lc == 0 then par.mMax0 else par.mMax
    ensures Prune(ds, par, owner, lc, nbs) == nbs
  {}

  /** In the open: a pruned list is in order of distance from its owner and starts
  with the nearest; with the heuristic nothing kept is closer to an earlier pick
  than to the owner, and whatever was dropped is closer to something kept than to
  the owner, or the list is full and it ranks after the last one kept; without it
  the list is full and nothing dropped is closer than anything kept. */
  lemma PrunedIsBest(ds: Dataset, par: Params, owner: nat, lc: nat, nbs: seq<nat>)
    requires ds.Valid() && par.Valid() && owner < ds.Len() && AllBelow(nbs, ds.Len()) && |nbs| > par.CapAt(lc)
    ensures var r := Prune(ds, par, owner, lc, nbs);
      && AllBelow(r, ds.Len()) && r != []
      && (forall x :: x in nbs ==> ds.Between(owner, r[0]) <= ds.Between(owner, x))
      && (forall j, l :: 0 <= j < l < |r| ==> ds.Between(owner, r[j]) <= ds.Between(owner, r[l]))
      && (!par.nearestM ==> forall j, l :: 0 <= j < l < |r| ==> ds.Between(owner, r[l]) <= ds.Between(r[l], r[j]))
      && (!par.nearestM ==> forall x :: x in nbs && x !in r ==>
            (exists j :: 0 <= j < |r| && ds.Between(x, r[j]) < ds.Between(owner, x))
            || (|r| == par.CapAt(lc) && (ds.Between(owner, r[|r| - 1]) < ds.Between(owner, x)
                || (ds.Between(owner, r[|r| - 1]) == ds.Between(owner, x) && r[|r| - 1] < x))))
      && (par.nearestM ==> |r| == par.CapAt(lc))
      && (par.nearestM ==> forall x, j :: x in nbs && x !in r && 0 <= j < |r| ==>
            ds.Between(owner, r[j]) <= ds.Between(owner, x))
  {
    hide SortAll, Rank, SelectFrom;
    RankedInOrder(ds, owner, nbs);
    var s, m := SortAll(Rank(ds, owner, nbs)), par.CapAt(lc);
    SelectedIds(ds, s, m, par.nearestM);
    PrunedIsSelection(ds, par, owner, lc, nbs);
    var r := Prune(ds, par, owner, lc, nbs);
    assert |r| > 0;
    forall x | x in nbs ensures ds.Between(owner, r[0]) <= ds.Between(owner, x) {
      var i :| 0 <= i < |s| && s[i].id == x;
      assert s[0].dist <= s[i].dist;
    }
    forall x | x in nbs && x !in r ensures Dropped(ds, owner, r, m, par.nearestM, x) {
      var i :| 0 <= i < |nbs| && nbs[i] == x;
      assert Dropped(ds, owner, r, m, par.nearestM, nbs[i]);
    }
    if par.nearestM { assert |r| == m; }
  }

  /** What `link` leaves in owner's list: id appended, then pruned. */
  ghost function Linked(ds: Dataset, par: Params, owner: nat, lc: nat, nbs: seq<nat>, id: nat): (r: seq<nat>)
    requires ds.Valid() && owner < ds.Len() && id < ds.Len() && AllBelow(nbs, ds.Len())
  {
    Prune(ds, par, owner, lc, nbs + [id])
  }

  lemma LinkedFacts(ds: Dataset, par: Params, owner: nat, lc: nat, nbs: seq<nat>, id: nat)
    requires ds.Valid() && par.Valid() && owner < ds.Len() && id < ds.Len() && AllBelow(nbs, ds.Len())
    ensures var r := Linked(ds, par, owner, lc, nbs, id);
      && |r| <= par.CapAt(lc) && r != []
      && (forall x :: x in r ==> x in nbs || x == id)
      && (NoRepeats(nbs) && id !in nbs ==> NoRepeats(r))
      && (|nbs| < par.CapAt(lc) ==> r == nbs + [id])
  {
    PruneFacts(ds, par, owner, lc, nbs + [id]);
  }

  // ---------- One layer ----------

  /** `link` into the lists of ids[i..], in order. */
  ghost function LinkAll(ds: Dataset, par: Params, links: Links, ids: seq<nat>, i: nat, id: nat, lc: nat): (r: Links)
    requires Buildable(ds, par, links) && i <= |ids| && ListWithin(links, ids, lc) && Occupies(links, id, lc)
    ensures Buildable(ds, par, r) && SameShape(links, r)
    decreases |ids| - i
  {
    if i == |ids| then links else
      LinkStepKeeps(ds, par, links, ids[i], id, lc);
      LinkAll(ds, par, LinkStep(ds, par, links, ids[i], id, lc), ids, i + 1, id, lc)
  }

  lemma ListsBelow(links: Links, a: nat, lc: nat)
    requires WellLinked(links) && Occupies(links, a, lc)
    ensures AllBelow(links[a][lc], |links|)
  {
    assert ListWithin(links, links[a][lc], lc);
  }

  ghost function LinkStep(ds: Dataset, par: Params, links: Links, other: nat, id: nat, lc: nat): (r: Links)
    requires Buildable(ds, par, links) && Occupies(links, other, lc) && id < |links|
  {
    ListsBelow(links, other, lc);
    SetList(links, other, lc, Linked(ds, par, other, lc, links[other][lc], id))
  }

  lemma LinkStepKeeps(ds: Dataset, par: Params, links: Links, other: nat, id: nat, lc: nat)
    requires Buildable(ds, par, links) && Occupies(links, other, lc) && Occupies(links, id, lc)
    ensures Buildable(ds, par, LinkStep(ds, par, links, other, id, lc))
    ensures SameShape(links, LinkStep(ds, par, links, other, id, lc))
  {
    ListsBelow(links, other, lc);
    var nbs := links[other][lc];
    var r := Linked(ds, par, other, lc, nbs, id);
    LinkedFacts(ds, par, other, lc, nbs, id);
    assert ListWithin(links, nbs, lc);
    forall j | 0 <= j < |r| ensures Occupies(links, r[j], lc) {
      assert r[j] in r;
    }
    SetListKeepsWellLinked(links, other, lc, r);
  }

  /** The neighbours a layer search proposes and the selection keeps. */
  ghost function Found(ds: Dataset, par: Params, links: Links, id: nat, lc: nat, ep: nat): (r: seq<Result>)
    requires Buildable(ds, par, links) && id < |links| && Occupies(links, ep, lc)
    ensures IdsWithin(ds, r)
    ensures forall i :: 0 <= i < |r| ==> Occupies(links, r[i].id, lc)
  {
    var q := Query(ds.From(ds.vecs[id]), par.efConstruct, id);
    SearchStaysInLayer(links, lc, q, ep);
    Search(Layer(links, lc), q, ep)
  }

  ghost function Keep(ds: Dataset, par: Params, found: seq<Result>): (r: seq<nat>)
    requires IdsWithin(ds, found)
    ensures forall x :: x in r ==> x in Ids(found)
  {
    SelectedIds(ds, found, par.m, par.nearestM);
    Ids(Select(ds, found, par.m, par.nearestM))
  }

  datatype Placed = Placed(links: Links, ep: nat)

  /** One layer of an insertion: search, select, set the new node's list, link
  back, and hand the nearest down as the next entry point. */
  ghost function ConnectLayer(ds: Dataset, par: Params, links: Links, id: nat, lc: nat, ep: nat): (r: Placed)
    requires Buildable(ds, par, links) && Occupies(links, id, lc) && Occupies(links, ep, lc)
    ensures Buildable(ds, par, r.links) && SameShape(links, r.links) && Occupies(r.links, r.ep, lc)
  {
    var found := Found(ds, par, links, id, lc, ep);
    if found == [] then Placed(links, ep) else
      var keep := Keep(ds, par, found);
      KeepWithin(links, found, keep, lc);
      SetListKeepsWellLinked(links, id, lc, keep);
      Placed(LinkAll(ds, par, SetList(links, id, lc, keep), keep, 0, id, lc), found[0].id)
  }

  lemma KeepWithin(links: Links, found: seq<Result>, keep: seq<nat>, lc: nat)
    requires forall i :: 0 <= i < |found| ==> Occupies(links, found[i].id, lc)
    requires forall x :: x in keep ==> x in Ids(found)
    ensures ListWithin(links, keep, lc)
  {
    forall j | 0 <= j < |keep| ensures Occupies(links, keep[j], lc) {
      assert keep[j] in Ids(found);
    }
  }

  /** Layers lc down to the bottom. */
  ghost function ConnectDown(ds: Dataset, par: Params, links: Links, id: nat, lc: nat, ep: nat): (r: Placed)
    requires Buildable(ds, par, links) && Occupies(links, id, lc) && Occupies(links, ep, lc)
    ensures Buildable(ds, par, r.links) && SameShape(links, r.links)
    decreases lc
  {
    var p := ConnectLayer(ds, par, links, id, lc, ep);
    if lc == 0 then p else ConnectDown(ds, par, p.links, id, lc - 1, p.ep)
  }

  lemma ConnectDownStep(ds: Dataset, par: Params, links: Links, id: nat, lc: nat, ep: nat) returns (p: Placed)
    requires Buildable(ds, par, links) && Occupies(links, id, lc) && Occupies(links, ep, lc)
    ensures p == ConnectLayer(ds, par, links, id, lc, ep)
    ensures Buildable(ds, par, p.links) && SameShape(links, p.links) && Occupies(p.links, p.ep, lc)
    ensures lc == 0 ==> ConnectDown(ds, par, links, id, lc, ep) == p
    ensures lc > 0 ==> Occupies(p.links, id, lc - 1) && Occupies(p.links, p.ep, lc - 1)
    ensures lc > 0 ==> ConnectDown(ds, par, links, id, lc, ep) == ConnectDown(ds, par, p.links, id, lc - 1, p.ep)
  {
    p := ConnectLayer(ds, par, links, id, lc, ep);
  }

  function NewLevels(top: nat): (r: seq<seq<nat>>)
    ensures |r| == top + 1 && forall l :: 0 <= l <= top ==> r[l] == []
  {
    seq(top + 1, _ => [])
  }

  /** A node made visible on its levels, with nothing linked yet. */
  function Publish(links: Links, id: nat, level: nat): (r: Links)
    requires id < |links|
    ensures |r| == |links| && forall a :: 0 <= a < |links| ==> r[a] == if a == id then NewLevels(level) else links[a]
  {
    links[id := NewLevels(level)]
  }

  lemma PublishKeepsWellLinked(links: Links, id: nat, level: nat)
    requires WellLinked(links) && id < |links| && links[id] == []
    ensures WellLinked(Publish(links, id, level))
  {
    var r := Publish(links, id, level);
    forall a: nat, lc: nat | Occupies(r, a, lc) ensures ListWithin(r, r[a][lc], lc) {
      if a != id {
        assert Occupies(links, a, lc);
        assert ListWithin(links, links[a][lc], lc);
      }
    }
  }

  /** The whole insertion of a node at a given level. */
  ghost function InsertNode(ix: Index, id: nat, level: nat): (r: Index)
    requires Sound(ix) && id < |ix.links| && ix.links[id] == []
    ensures Sound(r) && r.ds == ix.ds && r.par == ix.par
    ensures SameShape(Publish(ix.links, id, level), r.links)
  {
    PublishKeepsWellLinked(ix.links, id, level);
    var links := Publish(ix.links, id, level);
    var ep := Down(links, ix.ds.From(ix.ds.vecs[id]), ix.entry, ix.maxLevel, level);
    var p := ConnectDown(ix.ds, ix.par, links, id, if level > ix.maxLevel then ix.maxLevel else level, ep);
    if level > ix.maxLevel
    then ix.(links := p.links, entry := id, maxLevel := level)
    else ix.(links := p.links)
  }

  /** Node 0 alone, at the level it drew. */
  ghost function Seeded(ds: Dataset, par: Params, level: nat): (ix: Index)
    requires ds.Valid() && par.Valid() && 1 <= ds.Len()
    ensures Sound(ix)
  {
    var none: Links := seq(ds.Len(), _ => []);
    Index(ds, par, Publish(none, 0, level), 0, level)
  }
}
