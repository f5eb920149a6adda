/** Single steps of a search and of an insertion, phrased the way the loops that
take them need. */
module Steps {
  import opened TopK
  import opened Graph
  import opened Heuristic
  import opened LayerSearch
  import opened Completeness
  import opened Descent
  import opened Build

  lemma OfferNothing(s: seq<Result>, k: nat)
    ensures OfferAll([], s[0..0], k) == []
  {}

  lemma OfferNextScored(s: seq<Result>, j: nat, k: nat)
    requires j < |s|
    ensures OfferAll([], s[0..j + 1], k) == Offer(OfferAll([], s[0..j], k), s[j], k)
  {
    var t := s[0..j + 1];
    assert t[..|t| - 1] == s[0..j] && t[|t| - 1] == s[j];
  }

  lemma OfferedAll(s: seq<Result>, k: nat)
    requires |s| == k
    ensures OfferAll([], s[0..k], k) == SortAll(s)
  {
    assert s[0..k] == s;
    BoundedIsBruteForce(s, k);
  }

  lemma SetTwice(links: Links, a: nat, lc: nat, x: seq<nat>, y: seq<nat>)
    requires Occupies(links, a, lc)
    ensures Occupies(SetList(links, a, lc, x), a, lc)
    ensures SetList(SetList(links, a, lc, x), a, lc, y) == SetList(links, a, lc, y)
  {
    assert links[a][lc := x][lc := y] == links[a][lc := y];
  }

  lemma FoundUnfolds(ds: Dataset, par: Params, links: Links, id: nat, lc: nat, ep: nat)
    requires Buildable(ds, par, links) && id < |links| && Occupies(links, ep, lc)
    ensures InRange(Layer(links, lc), ds.Len())
    ensures Found(ds, par, links, id, lc, ep)
         == LayerSearch.Search(Layer(links, lc), Query(ds.From(ds.vecs[id]), par.efConstruct, id), ep)
  {
    LayerIsClosed(links, lc);
  }

  lemma KeepUnfolds(ds: Dataset, par: Params, found: seq<Result>)
    requires IdsWithin(ds, found)
    ensures Keep(ds, par, found) == Ids(Select(ds, found, par.m, par.nearestM))
  {}

  lemma ConnectNothing(ds: Dataset, par: Params, links: Links, id: nat, lc: nat, ep: nat)
    requires Buildable(ds, par, links) && Occupies(links, id, lc) && Occupies(links, ep, lc)
    requires Found(ds, par, links, id, lc, ep) == []
    ensures ConnectLayer(ds, par, links, id, lc, ep) == Placed(links, ep)
  {
    hide Found;
  }

  lemma ConnectSomething(ds: Dataset, par: Params, links: Links, id: nat, lc: nat, ep: nat)
    requires Buildable(ds, par, links) && Occupies(links, id, lc) && Occupies(links, ep, lc)
    requires Found(ds, par, links, id, lc, ep) != []
    ensures var found := Found(ds, par, links, id, lc, ep);
      var keep := Keep(ds, par, found);
      var own := SetList(links, id, lc, keep);
      && Buildable(ds, par, own) && ListWithin(own, keep, lc)
      && ConnectLayer(ds, par, links, id, lc, ep) == Placed(LinkAll(ds, par, own, keep, 0, id, lc), found[0].id)
  {
    hide Found, Keep, LinkAll;
    var found := Found(ds, par, links, id, lc, ep);
    KeepWithin(links, found, Keep(ds, par, found), lc);
    SetListKeepsWellLinked(links, id, lc, Keep(ds, par, found));
  }

  lemma KeepIsShort(ds: Dataset, par: Params, found: seq<Result>)
    requires IdsWithin(ds, found) && par.Valid()
    ensures forall lc: nat :: |Keep(ds, par, found)| <= par.CapAt(lc)
  {
    SelectedIds(ds, found, par.m, par.nearestM);
  }

  lemma WithinBelow(links: Links, nbs: seq<nat>, lc: nat)
    requires ListWithin(links, nbs, lc)
    ensures AllBelow(nbs, |links|)
  {
    forall j | 0 <= j < |nbs| ensures nbs[j] < |links| {
      assert Occupies(links, nbs[j], lc);
    }
  }

  /** Connecting a layer leaves every list on another layer alone. */
  lemma ConnectLeavesBelow(ds: Dataset, par: Params, links: Links, id: nat, lc: nat, ep: nat)
    requires Buildable(ds, par, links) && Occupies(links, id, lc) && Occupies(links, ep, lc)
    ensures forall l :: 0 <= l < lc ==> ConnectLayer(ds, par, links, id, lc, ep).links[id][l] == links[id][l]
  {
    hide LinkAll, Found, Keep;
    var found := Found(ds, par, links, id, lc, ep);
    if found != [] {
      var keep := Keep(ds, par, found);
      KeepWithin(links, found, keep, lc);
      SetListKeepsWellLinked(links, id, lc, keep);
      var own := SetList(links, id, lc, keep);
      LinkAllLeavesOthers(ds, par, own, keep, 0, id, lc);
      forall l | 0 <= l < lc ensures LinkAll(ds, par, own, keep, 0, id, lc)[id][l] == links[id][l] {
        assert Occupies(own, id, l);
      }
    }
  }

  lemma {:induction false} LinkAllLeavesOthers(
      ds: Dataset, par: Params, links: Links, ids: seq<nat>, i: nat, id: nat, lc: nat)
    requires Buildable(ds, par, links) && i <= |ids| && ListWithin(links, ids, lc) && Occupies(links, id, lc)
    ensures forall a: nat, l: nat :: Occupies(links, a, l) && l != lc ==> (
      LinkAll(ds, par, links, ids, i, id, lc)[a][l] == links[a][l])
    decreases |ids| - i
  {
    hide Linked;
    if i < |ids| {
      LinkStepKeeps(ds, par, links, ids[i], id, lc);
      var next := LinkStep(ds, par, links, ids[i], id, lc);
      LinkAllLeavesOthers(ds, par, next, ids, i + 1, id, lc);
      forall a: nat, l: nat | Occupies(links, a, l) && l != lc
        ensures LinkAll(ds, par, links, ids, i, id, lc)[a][l] == links[a][l]
      {
        assert Occupies(next, a, l);
      }
    }
  }

  lemma LayerEntry(links: Links, level: nat, a: nat)
    requires Occupies(links, a, level)
    ensures Layer(links, level)[a] == links[a][level]
  {}

  lemma WalkUnfolds(adj: seq<seq<nat>>, dist: seq<real>, best: nat)
    requires InRange(adj, |dist|) && best < |dist|
    ensures var next := ScanBest(dist, adj[best], 0, best);
      && (next == best ==> Walk(adj, dist, best) == best)
      && (next != best ==> Walk(adj, dist, best) == Walk(adj, dist, next)
                           && |Nearer(dist, next)| < |Nearer(dist, best)|)
  {
    var next := ScanBest(dist, adj[best], 0, best);
    if next != best { NearerShrinks(dist, next, best); }
  }

  lemma ScanStaysInLayer(links: Links, level: nat, dist: seq<real>, best: nat)
    requires WellLinked(links) && |dist| == |links| && Occupies(links, best, level)
    ensures AllBelow(links[best][level], |dist|)
    ensures Occupies(links, ScanBest(dist, links[best][level], 0, best), level)
  {
    ListsBelow(links, best, level);
    assert ListWithin(links, links[best][level], level);
    var next := ScanBest(dist, links[best][level], 0, best);
    if next != best {
      var j :| 0 <= j < |links[best][level]| && links[best][level][j] == next;
    }
  }

  /** A state a search of this layer can be in: sound, and within the layer. */
  ghost predicate Live(links: Links, level: nat, s: State, q: Query) {
    WellLinked(links) && |q.dist| == |links| && WellFormed(s, q) && s.seen <= Occupants(links, level)
  }

  lemma LiveFacts(links: Links, level: nat, s: State, q: Query)
    requires Live(links, level, s, q)
    ensures WellFormed(s, q) && InRange(Layer(links, level), |q.dist|)
  {
    LayerIsClosed(links, level);
  }

  lemma RunOfDone(s: State, q: Query, adj: seq<seq<nat>>)
    requires InRange(adj, |q.dist|) && WellFormed(s, q) && Done(s, q)
    ensures Run(s, q, adj) == s
  {}

  lemma StartInLayer(links: Links, level: nat, q: Query, ep: nat)
    requires WellLinked(links) && |q.dist| == |links| && Occupies(links, ep, level) && 1 <= q.ef
    ensures Live(links, level, Start(q, ep), q)
  {
    StartWellFormed(q, ep);
  }

  lemma NothingQueued(s: State, q: Query)
    requires s.cand == []
    ensures Done(s, q)
  {}

  /** What one turn of the main loop needs and keeps. */
  lemma StepInLayer(links: Links, level: nat, s: State, q: Query)
    requires Live(links, level, s, q) && s.cand != []
    ensures InRange(Layer(links, level), |q.dist|) && Occupies(links, s.cand[0].id, level)
    ensures AllBelow(links[s.cand[0].id][level], |links|) && WellFormed(s, q)
    ensures var t := Expand(s, q, links[s.cand[0].id][level]);
      && Live(links, level, t, q) && WellFormed(t, q)
      && Work(t, |q.dist|) < Work(s, |q.dist|)
      && (!Done(s, q) ==> Run(s, q, Layer(links, level)) == Run(t, q, Layer(links, level)))
  {
    LayerIsClosed(links, level);
    var c := s.cand[0].id;
    assert c in Occupants(links, level);
    var nbs := links[c][level];
    ListsBelow(links, c, level);
    assert Layer(links, level)[c] == nbs;
    ExpandKeepsWellFormed(s, q, nbs);
    ExpandWork(s, q, nbs);
    forall j | 0 <= j < |nbs| ensures nbs[j] in Occupants(links, level) {
      assert ListWithin(links, nbs, level);
    }
    VisitFromStaysInside(s.(cand := s.cand[1..]), q, nbs, 0, Occupants(links, level));
  }
}
