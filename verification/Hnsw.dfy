/** The index as the source keeps it: an object whose lists, packed bottom
layer and entry point are updated in place. Every method is proved against the
function of the old state that specifies it. */
module Hnsw {
  import opened TopK
  import opened Distance
  import opened Graph
  import opened Heuristic
  import opened LayerSearch
  import opened Descent
  import opened Build
  import opened Querying
  import opened Scratch
  import opened Locking
  import opened Packing
  import opened BuildInvariant
  import opened Steps

  /** The heaps and stamps of a workspace stand for the state of one search. */
  ghost predicate InSync(w: Workspace, s: State, q: Query)
    reads w, w.Repr()
  {
    && w.Valid() && w.res != null && w.res.k == q.ef
    && |q.dist| <= w.stamp.Length
    && w.cand.View() == s.cand && w.res.View() == s.res && w.Marked() == s.seen
  }

  class HNSW {
    const ds: Dataset
    const par: Params
    var efSearch: int
    var links: Links
    var bottom: seq<nat>
    var bottomOffsets: seq<nat>
    var entry: nat
    var maxLevel: nat
    var building: bool

    /** The value this object stands for. */
    ghost function Snapshot(): (ix: Index)
      reads this
    {
      Index(ds, par, links, entry, maxLevel)
    }

    /** Lists that can be walked; the packed copy, once made, agrees with them. */
    ghost predicate Walkable()
      reads this
    {
      && Buildable(ds, par, links)
      && (bottomOffsets == [] || Packed(links, bottom, bottomOffsets))
    }

    /** A finished index. */
    ghost predicate Valid()
      reads this
    {
      Walkable() && Sound(Snapshot())
    }

    function Len(): (n: nat)
      reads this
    {
      |links|
    }

    /** The packed slice when there is one, the list otherwise: either way the
    node's list. */
    method Neighbours(id: nat, level: nat) returns (nbs: seq<nat>)
      requires Walkable() && Occupies(links, id, level)
      ensures nbs == links[id][level]
    {
      if level == 0 && bottomOffsets != [] {
        SliceIsList(links, bottom, bottomOffsets, id);
        var lo, hi := bottomOffsets[id], bottomOffsets[id + 1];
        return bottom[lo..hi];
      }
      return links[id][level];
    }

    /** One neighbour of the candidate being expanded. */
    method VisitOne(q: seq<real>, nb: nat, skip: int, w: Workspace, ghost s: State, ghost qq: Query)
      requires ds.Valid() && |q| == ds.dim && nb < ds.Len() && nb < w.stamp.Length
      requires qq.dist == ds.From(q) && qq.skip == skip && 1 <= qq.ef
      requires InSync(w, s, qq)
      modifies w.Repr()
      ensures w.Repr() == old(w.Repr()) && w.nbuf == old(w.nbuf)
      ensures InSync(w, Visit(s, qq, nb), qq)
    {
      hide SortAll, L2Squared, Insert, Offer;
      if w.Seen(nb) { return; }
      w.Mark(nb);
      var nd := L2Squared(q, ds.vecs[nb]);
      var worst, full := w.res.Worst();
      if full && nd >= worst { return; }
      w.cand.Push(Result(nb, nd));
      if nb != skip { w.res.Add(nb, nd); }
    }

    /** The loop over the neighbours of the candidate being expanded. */
    method VisitAll(q: seq<real>, skip: int, w: Workspace, ghost s: State, ghost qq: Query)
      requires ds.Valid() && |q| == ds.dim && AllBelow(w.nbuf, ds.Len()) && ds.Len() <= w.stamp.Length
      requires qq.dist == ds.From(q) && qq.skip == skip && 1 <= qq.ef
      requires InSync(w, s, qq)
      modifies w.Repr()
      ensures w.Repr() == old(w.Repr())
      ensures InSync(w, VisitFrom(s, qq, old(w.nbuf), 0), qq)
    {
      hide Visit;
      ghost var t := s;
      ghost var nbs := w.nbuf;
      var i := 0;
      while i < |w.nbuf|
        invariant w.nbuf == nbs && i <= |nbs|
        invariant w.Repr() == old(w.Repr())
        invariant InSync(w, t, qq)
        invariant VisitFrom(t, qq, nbs, i) == VisitFrom(s, qq, nbs, 0)
      {
        VisitOne(q, w.nbuf[i], skip, w, t, qq);
        t := Visit(t, qq, nbs[i]);
        i := i + 1;
      }
    }

    /** One turn of the main loop: take the nearest candidate off, stop if it
    cannot help any more, otherwise look at its neighbours. */
    method ExpandNearest(q: seq<real>, level: nat, skip: int, w: Workspace, ghost s: State, ghost qq: Query)
      returns (done: bool)
      requires Walkable() && |q| == ds.dim
      requires qq.dist == ds.From(q) && qq.skip == skip && 1 <= qq.ef
      requires InSync(w, s, qq) && w.cand.items != []
      requires s.cand != [] && Occupies(links, s.cand[0].id, level)
      modifies w.Repr()
      ensures w.Repr() == old(w.Repr())
      ensures done <==> Done(s, qq)
      ensures done ==> w.Valid() && w.res != null && w.res.View() == s.res
      ensures AllBelow(links[s.cand[0].id][level], ds.Len())
      ensures !done ==> InSync(w, Expand(s, qq, links[s.cand[0].id][level]), qq)
    {
      hide SortAll, VisitFrom;
      ListsBelow(links, s.cand[0].id, level);
      var c := w.cand.Pop();
      var worst, full := w.res.Worst();
      if full && c.dist > worst { return true; }
      w.nbuf := Neighbours(c.id, level);
      VisitAll(q, skip, w, s.(cand := s.cand[1..]), qq);
      return false;
    }

    /** The entry point is marked, queued and, unless skipped, offered. */
    method Open(q: seq<real>, ep: nat, skip: int, w: Workspace, ghost qq: Query)
      requires ds.Valid() && |q| == ds.dim && ep < ds.Len()
      requires qq.dist == ds.From(q) && qq.skip == skip && 1 <= qq.ef
      requires InSync(w, State([], [], {}), qq)
      modifies w.Repr()
      ensures w.Repr() == old(w.Repr())
      ensures InSync(w, Start(qq, ep), qq)
    {
      hide L2Squared, Offer;
      assert Insert([], Scored(qq, ep)) == [Scored(qq, ep)];
      var d := L2Squared(q, ds.vecs[ep]);
      w.Mark(ep);
      w.cand.Push(Result(ep, d));
      if ep != skip { w.res.Add(ep, d); }
    }

    /** The main loop: expand until nothing queued can help. */
    method Drain(q: seq<real>, level: nat, skip: int, w: Workspace, ghost start: State, ghost qq: Query)
      requires Walkable() && |q| == ds.dim
      requires qq.dist == ds.From(q) && qq.skip == skip && 1 <= qq.ef
      requires InSync(w, start, qq) && Live(links, level, start, qq)
      modifies w.Repr()
      ensures w.Repr() == old(w.Repr()) && w.Valid() && w.res != null
      ensures InRange(Layer(links, level), |qq.dist|) && WellFormed(start, qq)
      ensures w.res.View() == Run(start, qq, Layer(links, level)).res
    {
      hide Expand, Layer, WellFormed, Done, SortAll, Run, Live, Occupies;
      LiveFacts(links, level, start, qq);
      ghost var adj := Layer(links, level);
      ghost var s := start;
      var done := false;
      while !done && |w.cand.items| > 0
        invariant w.Repr() == old(w.Repr()) && w.Valid() && w.res != null && w.res.View() == s.res
        invariant !done ==> InSync(w, s, qq)
        invariant Live(links, level, s, qq) && WellFormed(s, qq)
        invariant Run(s, qq, adj) == Run(start, qq, adj)
        invariant done ==> Done(s, qq)
        decreases !done, Work(s, |qq.dist|)
      {
        StepInLayer(links, level, s, qq);
        done := ExpandNearest(q, level, skip, w, s, qq);
        if !done { s := Expand(s, qq, links[s.cand[0].id][level]); }
      }
      if !done { NothingQueued(s, qq); }
      RunOfDone(s, qq, adj);
    }

    /** Best-first search of one layer: the answer is the specified one whatever
    the workspace was used for before. */
    method SearchLayer(q: seq<real>, ep: nat, width: nat, level: nat, skip: int, w: Workspace)
      returns (res: seq<Result>)
      requires Walkable() && |q| == ds.dim && Occupies(links, ep, level) && 1 <= width
      requires w.Valid()
      modifies w.Repr()
      ensures w.Valid() && fresh(w.Repr() - old(w.Repr()))
      ensures InRange(Layer(links, level), ds.Len())
      ensures res == LayerSearch.Search(Layer(links, level), Query(ds.From(q), width, skip), ep)
    {
      hide Start, Run, Layer, SortAll;
      var ef := width;
      if ef > Len() { ef := Len(); }
      w.Begin(Len(), ef);
      ghost var qq := Query(ds.From(q), ef, skip);
      Open(q, ep, skip, w, qq);
      StartInLayer(links, level, qq, ep);
      Drain(q, level, skip, w, Start(qq, ep), qq);
      res := w.res.Results();
    }

    // ---------- Queries ----------

    /** The greedy walk on one layer. */
    method Descend(q: seq<real>, ep: nat, level: nat, w: Workspace) returns (best: nat)
      requires Walkable() && |q| == ds.dim && Occupies(links, ep, level)
      modifies w`nbuf
      ensures best == Hop(links, ds.From(q), ep, level)
    {
      hide L2Squared, Layer;
      ghost var dist := ds.From(q);
      ghost var adj := Layer(links, level);
      LayerIsClosed(links, level);
      best := ep;
      var bestDist := L2Squared(q, ds.vecs[ep]);
      var improved := true;
      while improved
        invariant Occupies(links, best, level) && bestDist == dist[best]
        invariant improved ==> Walk(adj, dist, best) == Walk(adj, dist, ep)
        invariant !improved ==> best == Walk(adj, dist, ep)
        decreases |Nearer(dist, best)|, improved
      {
        w.nbuf := Neighbours(best, level);
        ListsBelow(links, best, level);
        LayerEntry(links, level, best);
        ghost var from := best;
        best, bestDist, improved := Scan(q, w.nbuf, best, bestDist);
        WalkUnfolds(adj, dist, from);
        ScanStaysInLayer(links, level, dist, from);
      }
    }

    /** One pass over a neighbour list. */
    method Scan(q: seq<real>, nbs: seq<nat>, from: nat, fromDist: real)
      returns (best: nat, bestDist: real, improved: bool)
      requires ds.Valid() && |q| == ds.dim && AllBelow(nbs, ds.Len()) && from < ds.Len()
      requires fromDist == ds.From(q)[from]
      ensures best == ScanBest(ds.From(q), nbs, 0, from) && bestDist == ds.From(q)[best]
      ensures improved <==> best != from
    {
      hide L2Squared;
      best, bestDist, improved := from, fromDist, false;
      var i := 0;
      while i < |nbs|
        invariant i <= |nbs| && best < ds.Len() && bestDist == ds.From(q)[best]
        invariant ScanBest(ds.From(q), nbs, i, best) == ScanBest(ds.From(q), nbs, 0, from)
        invariant improved <==> best != from
        invariant improved ==> bestDist < fromDist
      {
        var d := L2Squared(q, ds.vecs[nbs[i]]);
        if d < bestDist { best, bestDist, improved := nbs[i], d, true; }
        i := i + 1;
      }
    }

    /** A query, through whatever workspace the pool hands out. */
    method Search(q: seq<real>, k: int, w: Workspace) returns (a: Answer)
      requires Valid() && w.Valid()
      modifies w.Repr()
      ensures a == Knn(Snapshot(), efSearch, q, k)
      ensures w.Valid() && fresh(w.Repr() - old(w.Repr()))
    {
      hide Hop, LayerSearch.Search, Layer;
      if |q| != ds.dim { return WrongDimension; }
      if k < 1 { return BadK; }
      var ef := efSearch;
      if ef < k { ef := k; }
      var ep, lc := entry, maxLevel;
      while lc > 0
        invariant 0 <= lc && Occupies(links, ep, lc)
        invariant Down(links, ds.From(q), ep, lc, 0) == Down(links, ds.From(q), entry, maxLevel, 0)
        invariant w.Valid() && w.Repr() == old(w.Repr())
      {
        ep := Descend(q, ep, lc, w);
        lc := lc - 1;
      }
      var res := SearchLayer(q, ep, ef, 0, -1, w);
      if |res| > k { res := res[..k]; }
      return Hits(res);
    }

    // ---------- Building ----------

    /** A list over its cap is ranked by distance from its owner and selected
    from; one within its cap is left alone. */
    method Trim(owner: nat, level: nat, nbs: seq<nat>) returns (r: seq<nat>)
      requires ds.Valid() && owner < ds.Len() && AllBelow(nbs, ds.Len())
      ensures r == Prune(ds, par, owner, level, nbs)
    {
      hide L2Squared, SortAll, OfferAll;
      if |nbs| <= par.CapAt(level) { return nbs; }
      ghost var scored := Rank(ds, owner, nbs);
      var ranked := new Collector(|nbs|);
      OfferNothing(scored, |nbs|);
      var j := 0;
      while j < |nbs|
        invariant j <= |nbs| && ranked.Valid() && fresh(ranked)
        invariant ranked.View() == OfferAll([], scored[0..j], |nbs|)
      {
        OfferNextScored(scored, j, |nbs|);
        ranked.Add(nbs[j], L2Squared(ds.vecs[owner], ds.vecs[nbs[j]]));
        j := j + 1;
      }
      OfferedAll(scored, |nbs|);
      RankedIds(ds, owner, nbs);
      var results := ranked.Results();
      var keep := SelectNeighbours(ds, results, par.CapAt(level), par.nearestM);
      return Ids(keep);
    }

    /** Appends id to other's list and prunes it if that takes it over its cap. */
    method Link(other: nat, id: nat, level: nat)
      requires Walkable() && Occupies(links, other, level) && Occupies(links, id, level)
      modifies this`links
      ensures links == LinkStep(ds, par, old(links), other, id, level)
    {
      ghost var before := links;
      ListsBelow(links, other, level);
      links := SetList(links, other, level, links[other][level] + [id]);
      var trimmed := Trim(other, level, links[other][level]);
      links := SetList(links, other, level, trimmed);
      SetTwice(before, other, level, before[other][level] + [id], trimmed);
    }

    /** Gives a node its own list; while building in parallel, links other
    insertions have already added are preserved. */
    method SetOwn(id: nat, level: nat, nbs: seq<nat>)
      requires Walkable() && Occupies(links, id, level) && AllBelow(nbs, ds.Len())
      modifies this`links
      ensures AllBelow(old(links)[id][level], ds.Len())
      ensures links == SetList(old(links), id, level,
        if building then LockedOwn(ds, par, id, level, old(links)[id][level], nbs) else nbs)
    {
      ListsBelow(links, id, level);
      if !building {
        links := SetList(links, id, level, nbs);
        return;
      }
      var existing, merged, i := links[id][level], nbs, 0;
      while i < |existing|
        invariant i <= |existing| && MergeFrom(merged, existing, i) == MergeFrom(nbs, existing, 0)
      {
        if existing[i] !in merged { merged := merged + [existing[i]]; }
        i := i + 1;
      }
      MergeBelow(nbs, existing, ds.Len());
      merged := Trim(id, level, merged);
      links := SetList(links, id, level, merged);
    }

    /** The reverse links of one layer, in the order the selection gave. */
    method LinkBack(keep: seq<nat>, id: nat, level: nat)
      requires Walkable() && bottomOffsets == [] && ListWithin(links, keep, level) && Occupies(links, id, level)
      modifies this`links
      ensures links == LinkAll(ds, par, old(links), keep, 0, id, level) && Buildable(ds, par, links)
    {
      hide LinkStep;
      var i := 0;
      while i < |keep|
        invariant i <= |keep| && Buildable(ds, par, links)
        invariant ListWithin(links, keep, level) && Occupies(links, id, level)
        invariant LinkAll(ds, par, links, keep, i, id, level) == LinkAll(ds, par, old(links), keep, 0, id, level)
      {
        assert Occupies(links, keep[i], level);
        LinkStepKeeps(ds, par, links, keep[i], id, level);
        Link(keep[i], id, level);
        i := i + 1;
      }
    }

    /** One layer of an insertion. */
    method Connect(id: nat, level: nat, ep: nat, w: Workspace) returns (next: nat)
      requires Walkable() && bottomOffsets == [] && w.Valid()
      requires Occupies(links, id, level) && Occupies(links, ep, level) && links[id][level] == []
      modifies this`links, w.Repr()
      ensures Placed(links, next) == ConnectLayer(ds, par, old(links), id, level, ep)
      ensures w.Valid() && fresh(w.Repr() - old(w.Repr()))
    {
      hide Found, ConnectLayer, Buildable, WellLinked;
      var found := FindFor(id, level, ep, w);
      if |found| == 0 {
        ConnectNothing(ds, par, links, id, level, ep);
        return ep;
      }
      Attach(found, id, level, ep);
      return found[0].id;
    }

    /** The search an insertion makes on one layer, leaving the new node out. */
    method FindFor(id: nat, level: nat, ep: nat, w: Workspace) returns (found: seq<Result>)
      requires Walkable() && w.Valid() && id < |links| && Occupies(links, ep, level)
      modifies w.Repr()
      ensures found == Found(ds, par, links, id, level, ep)
      ensures w.Valid() && fresh(w.Repr() - old(w.Repr()))
    {
      hide LayerSearch.Search, Layer, Found;
      FoundUnfolds(ds, par, links, id, level, ep);
      found := SearchLayer(ds.vecs[id], ep, par.efConstruct, level, id, w);
    }

    /** Selection, own list and reverse links of one layer. */
    method Attach(found: seq<Result>, id: nat, level: nat, ghost ep: nat)
      requires Walkable() && bottomOffsets == []
      requires Occupies(links, id, level) && Occupies(links, ep, level) && links[id][level] == []
      requires found == Found(ds, par, links, id, level, ep) && found != []
      modifies this`links
      ensures Placed(links, found[0].id) == ConnectLayer(ds, par, old(links), id, level, ep)
    {
      hide Select, Found, Keep, LinkAll, Prune, ConnectLayer;
      KeepUnfolds(ds, par, found);
      var kept := SelectNeighbours(ds, found, par.m, par.nearestM);
      var own := Ids(kept);
      ConnectSomething(ds, par, links, id, level, ep);
      KeepIsShort(ds, par, found);
      KeepWithin(links, found, own, level);
      WithinBelow(links, own, level);
      LockedOwnFresh(ds, par, id, level, own);
      SetOwn(id, level, own);
      LinkBack(own, id, level);
    }

    method RaiseTop(id: nat, level: nat)
      modifies this`entry, this`maxLevel
      ensures level > old(maxLevel) ==> entry == id && maxLevel == level
      ensures level <= old(maxLevel) ==> entry == old(entry) && maxLevel == old(maxLevel)
    {
      if level > maxLevel { maxLevel, entry := level, id; }
    }

    /** The whole insertion: whether or not the parallel machinery is on, an
    insertion that nothing overlaps leaves the specified index. */
    method InsertAt(id: nat, level: nat, w: Workspace)
      requires Valid() && bottomOffsets == [] && w.Valid()
      requires id < |links| && links[id] == []
      modifies this`links, this`entry, this`maxLevel, w.Repr()
      ensures Snapshot() == InsertNode(old(Snapshot()), id, level) && Valid()
      ensures w.Valid() && fresh(w.Repr() - old(w.Repr()))
    {
      hide ConnectLayer, Hop, ConnectDown;
      PublishKeepsWellLinked(links, id, level);
      links := Publish(links, id, level);
      var ep := DescendTo(id, level, w);
      var start := if level > maxLevel then maxLevel else level;
      ConnectAll(id, start, ep, w);
      RaiseTop(id, level);
    }

    /** The descent of an insertion, through the layers above the new node. */
    method DescendTo(id: nat, level: nat, w: Workspace) returns (ep: nat)
      requires Walkable() && Occupies(links, entry, maxLevel) && id < ds.Len() && w.Valid()
      modifies w`nbuf
      ensures ep == Down(links, ds.From(ds.vecs[id]), entry, maxLevel, level) && w.Valid()
    {
      hide Hop;
      ep := entry;
      var lc := maxLevel;
      while lc > level
        invariant 0 <= lc && Occupies(links, ep, lc) && w.Valid() && w.Repr() == old(w.Repr())
        invariant Down(links, ds.From(ds.vecs[id]), ep, lc, level)
               == Down(links, ds.From(ds.vecs[id]), entry, maxLevel, level)
      {
        ep := Descend(ds.vecs[id], ep, lc, w);
        lc := lc - 1;
      }
    }

    /** The layers an insertion links, from the top one down. */
    method ConnectAll(id: nat, start: nat, ep: nat, w: Workspace)
      requires Walkable() && bottomOffsets == [] && w.Valid()
      requires Occupies(links, id, start) && Occupies(links, ep, start)
      requires forall l :: 0 <= l <= start ==> links[id][l] == []
      modifies this`links, w.Repr()
      ensures links == ConnectDown(ds, par, old(links), id, start, ep).links && Walkable()
      ensures w.Valid() && fresh(w.Repr() - old(w.Repr()))
    {
      hide ConnectLayer, ConnectDown;
      ghost var goal := ConnectDown(ds, par, links, id, start, ep).links;
      var lc: int, at: nat := start, ep;
      while lc >= 0
        invariant -1 <= lc <= start && Walkable() && bottomOffsets == []
        invariant w.Valid() && fresh(w.Repr() - old(w.Repr()))
        invariant lc < 0 ==> links == goal
        invariant lc >= 0 ==> Occupies(links, id, lc) && Occupies(links, at, lc)
        invariant lc >= 0 ==> ConnectDown(ds, par, links, id, lc, at).links == goal
        invariant lc >= 0 ==> forall l :: 0 <= l <= lc ==> links[id][l] == []
      {
        ghost var p := ConnectDownStep(ds, par, links, id, lc, at);
        ConnectLeavesBelow(ds, par, links, id, lc, at);
        at := Connect(id, lc, at, w);
        lc := lc - 1;
      }
    }

    /** Packs the bottom layer once construction has finished. The lists keep
    their contents; from here on bottom-layer reads use the packed copy. */
    method CompactBottom()
      requires Buildable(ds, par, links) && HasBottom(links)
      modifies this`links, this`bottom, this`bottomOffsets
      ensures links == old(links)
      ensures Packed(links, bottom, bottomOffsets) && Walkable()
    {
      var offsets := Offsets();
      var packed := Fill(offsets);
      bottom, bottomOffsets := packed, offsets;
    }

    /** The copying loop: list by list into one array of the total size. */
    method Fill(offsets: seq<nat>) returns (filled: seq<nat>)
      requires HasBottom(links) && |offsets| == |links| + 1
      requires forall i :: 0 <= i <= |links| ==> offsets[i] == Total(links, i)
      modifies this`links
      ensures links == old(links) && filled == Concat(links, |links|)
    {
      ghost var before := links;
      var packed := new nat[offsets[|links|]];
      var i := 0;
      while i < |links|
        invariant i <= |links| && links == before
        invariant Total(before, i) <= packed.Length == Total(before, |before|)
        invariant packed[..Total(before, i)] == Concat(before, i)
      {
        TotalRises(before, i + 1, |before|);
        PackOne(packed, offsets[i], offsets[i + 1], i);
        i := i + 1;
      }
      filled := packed[..];
    }

    /** Copies one list into its slice and lets the node share the slice. */
    method PackOne(packed: array<nat>, lo: nat, hi: nat, i: nat)
      requires Occupies(links, i, 0) && hi == lo + |links[i][0]| && hi <= packed.Length
      modifies this`links, packed
      ensures links == old(links)
      ensures packed[..hi] == old(packed[..lo]) + old(links)[i][0]
    {
      CopyAt(packed, lo, links[i][0]);
      SetSame(links, i);
      assert packed[lo..hi] == packed[..hi][lo..];
      links := SetList(links, i, 0, packed[lo..hi]);
    }

    /** The running totals of the bottom-list lengths. */
    method Offsets() returns (offsets: seq<nat>)
      requires HasBottom(links)
      ensures |offsets| == |links| + 1
      ensures forall i :: 0 <= i <= |links| ==> offsets[i] == Total(links, i)
    {
      offsets := [0];
      var i := 0;
      while i < |links|
        invariant i <= |links| && |offsets| == i + 1
        invariant forall j :: 0 <= j <= i ==> offsets[j] == Total(links, j)
      {
        offsets := offsets + [offsets[i] + |links[i][0]|];
        i := i + 1;
      }
    }

    /** The index `BuildHNSW` starts from: node 0 alone, on the level it drew. */
    constructor Seed(ds: Dataset, par: Params, efSearch: int, level: nat, building: bool)
      requires ds.Valid() && par.Valid() && 1 <= ds.Len()
      ensures Valid() && Snapshot() == Seeded(ds, par, level)
      ensures bottomOffsets == [] && this.efSearch == efSearch && this.building == building
      ensures this.ds == ds && this.par == par
    {
      this.ds, this.par, this.efSearch, this.building := ds, par, efSearch, building;
      links := Publish(seq(ds.Len(), _ => []), 0, level);
      entry, maxLevel := 0, level;
      bottom, bottomOffsets := [], [];
    }

    /** An index read back from a file, its bottom layer packed already or not. */
    constructor Restore(ix: Index, efSearch: int, bottom: seq<nat>, bottomOffsets: seq<nat>)
      requires Sound(ix) && (bottomOffsets == [] || Packed(ix.links, bottom, bottomOffsets))
      ensures Valid() && Snapshot() == ix && this.efSearch == efSearch && !building
      ensures this.bottom == bottom && this.bottomOffsets == bottomOffsets
    {
      ds, par, links, entry, maxLevel := ix.ds, ix.par, ix.links, ix.entry, ix.maxLevel;
      this.efSearch, this.bottom, this.bottomOffsets := efSearch, bottom, bottomOffsets;
      building := false;
    }
  }

  // ---------- Building a whole index ----------

  /** The caller's settings; zero stands for "use the default" in the caps. */
  datatype Settings = Settings(m: int, mMax: int, mMax0: int, efConstruct: int, efSearch: int, nearestM: bool)

  datatype BuildError =
    | BadDimension | RaggedData | NoVectors | TooManyVectors
    | SmallM | SmallEf | HugeM | CapBelowM

  const MAX_ID: nat := 0x7FFF_FFFF
  const MAX_INT: nat := 0x7FFF_FFFF_FFFF_FFFF

  datatype Checked = Accept(par: Params) | Reject(error: BuildError)

  /** The checks of `BuildHNSW`, in its order, with its defaults filled in. */
  function Check(dim: int, values: nat, s: Settings): (c: Checked)
    ensures c.Accept? ==> c.par.Valid() && 1 <= dim && values % dim == 0 && 1 <= values / dim <= MAX_ID
  {
    if dim < 1 then Reject(BadDimension)
    else if values % dim != 0 then Reject(RaggedData)
    else if values / dim < 1 then Reject(NoVectors)
    else if values / dim > MAX_ID then Reject(TooManyVectors)
    else if s.m < 2 then Reject(SmallM)
    else if s.efConstruct < s.m then Reject(SmallEf)
    else if s.mMax0 == 0 && s.m > MAX_INT / 2 then Reject(HugeM)
    else
      var mMax := if s.mMax == 0 then s.m else s.mMax;
      var mMax0 := if s.mMax0 == 0 then 2 * s.m else s.mMax0;
      if mMax < s.m || mMax0 < s.m then Reject(CapBelowM)
      else Accept(Params(s.m, mMax, mMax0, s.efConstruct, s.nearestM))
  }

  /** Which data and settings can be built from: a whole positive number of vectors,
  no more than 32-bit IDs can name, and sizes in order, where given. */
  ghost predicate Acceptable(dim: int, values: nat, s: Settings) {
    && Countable(dim, values)
    && 2 <= s.m <= s.efConstruct
    && (s.mMax == 0 || s.m <= s.mMax)
    && (if s.mMax0 == 0 then s.m <= 0x3FFF_FFFF_FFFF_FFFF else s.m <= s.mMax0)
  }

  ghost predicate Countable(dim: int, values: nat) {
    exists n: int :: 1 <= n <= 0x7FFF_FFFF && dim >= 1 && Fills(dim, n, values)
  }

  ghost predicate Fills(dim: int, n: int, values: nat) {
    dim * n == values
  }

  lemma Divides(dim: int, values: nat)
    requires dim >= 1
    ensures Countable(dim, values) <==> values % dim == 0 && 1 <= values / dim <= 0x7FFF_FFFF
  {
    if Countable(dim, values) {
      var n :| 1 <= n <= 0x7FFF_FFFF && Fills(dim, n, values);
      DivideExactly(dim, n, values);
    }
    if values % dim == 0 && 1 <= values / dim <= 0x7FFF_FFFF {
      assert Fills(dim, values / dim, values);
    }
  }

  lemma TimesNext(d: nat, k: nat, next: nat)
    requires next == k + 1
    ensures d * next == d * k + d
  {}

  lemma {:induction false} OneMoreTime(d: nat, n: nat, q: nat)
    requires n > q
    ensures d * n >= d * q + d
  {
    TimesNext(d, n - 1, n);
    if n - 1 > q { OneMoreTime(d, n - 1, q); }
  }

  lemma DivideExactly(d: nat, n: nat, v: nat)
    requires d >= 1 && d * n == v
    ensures v / d == n && v % d == 0
  {
    var q := v / d;
    assert v == d * q + v % d;
    if n > q { OneMoreTime(d, n, q); }
    if n < q { OneMoreTime(d, q, n); }
  }

  /** A build is accepted exactly then, with M, efConstruction and the mode as
  given, and the caps as given or, for 0, MMax = M and MMax0 = 2 * M. */
  lemma CheckAccepts(dim: int, values: nat, s: Settings)
    ensures Check(dim, values, s).Accept? <==> Acceptable(dim, values, s)
    ensures Check(dim, values, s).Accept? ==>
      var p := Check(dim, values, s).par;
      && p.m == s.m && p.efConstruct == s.efConstruct && p.nearestM == s.nearestM
      && (s.mMax != 0 ==> p.mMax == s.mMax) && (s.mMax == 0 ==> p.mMax == s.m)
      && (s.mMax0 != 0 ==> p.mMax0 == s.mMax0) && (s.mMax0 == 0 ==> p.mMax0 == s.m + s.m)
  {
    if dim >= 1 { Divides(dim, values); }
  }

  /** What is wrong with the data, or with the settings, by the first check to say so. */
  ghost predicate Refusal(e: BuildError, dim: int, values: nat, s: Settings) {
    match e
    case BadDimension => dim <= 0
    case RaggedData => dim >= 1 && values % dim > 0
    case NoVectors => dim >= 1 && values == 0
    case TooManyVectors => dim >= 1 && values % dim == 0 && values / dim >= 0x8000_0000
    case SmallM => Countable(dim, values) && s.m <= 1
    case SmallEf => Countable(dim, values) && s.m >= 2 && s.efConstruct < s.m
    case HugeM =>
      Countable(dim, values) && s.m >= 2 && s.efConstruct >= s.m && s.mMax0 == 0 && s.m >= 0x4000_0000_0000_0000
    case CapBelowM =>
      && Countable(dim, values) && s.m >= 2 && s.efConstruct >= s.m
      && (s.mMax0 == 0 ==> s.m < 0x4000_0000_0000_0000)
      && ((s.mMax != 0 && s.mMax < s.m) || (s.mMax0 != 0 && s.mMax0 < s.m))
  }

  lemma CheckRefuses(dim: int, values: nat, s: Settings, e: BuildError)
    ensures Check(dim, values, s) == Reject(e) <==> Refusal(e, dim, values, s)
  {
    if dim >= 1 {
      Divides(dim, values);
      assert values == 0 ==> values % dim == 0 && values / dim == 0;
      assert values % dim == 0 && values / dim < 1 ==> values == 0;
    }
  }

  datatype Outcome = Built(index: HNSW) | Refused(error: BuildError)

  /** A build that nothing overlaps, with the levels as drawn: node 0, then the
  rest in ID order, then the bottom layer packed. */
  method BuildHNSW(dim: int, data: seq<real>, s: Settings, levels: seq<nat>, building: bool) returns (r: Outcome)
    requires 1 <= dim ==> |levels| == |data| / dim
    ensures Check(dim, |data|, s).Reject? ==> r == Refused(Check(dim, |data|, s).error)
    ensures Check(dim, |data|, s).Accept? ==> r.Built? && fresh(r.index) && r.index.Valid()
    ensures Check(dim, |data|, s).Accept? ==> r.index.efSearch == s.efSearch && !r.index.building
    ensures Check(dim, |data|, s).Accept? ==>
      var ds := Dataset(dim, Windows(dim, data));
      && ds.Valid() && |levels| == ds.Len()
      && r.index.Snapshot() == BuildUpTo(ds, Check(dim, |data|, s).par, levels, ds.Len())
      && Packed(r.index.links, r.index.bottom, r.index.bottomOffsets)
  {
    var c := Check(dim, |data|, s);
    if c.Reject? { return Refused(c.error); }
    var ds := Dataset(dim, Windows(dim, data));
    CountWindows(dim, data);
    var h := BuildFrom(ds, c.par, s.efSearch, levels, building);
    return Built(h);
  }

  lemma CountWindows<T>(dim: nat, data: seq<T>)
    requires 1 <= dim && |data| % dim == 0
    ensures |Windows(dim, data)| == |data| / dim
  {
    assert |data| == (|data| / dim) * dim;
    WindowCount(dim, data, |data| / dim);
  }

  method BuildFrom(ds: Dataset, par: Params, efSearch: int, levels: seq<nat>, building: bool) returns (h: HNSW)
    requires ds.Valid() && par.Valid() && |levels| == ds.Len() && 1 <= ds.Len()
    ensures fresh(h) && h.Valid() && h.Snapshot() == BuildUpTo(ds, par, levels, ds.Len())
    ensures Packed(h.links, h.bottom, h.bottomOffsets)
    ensures h.efSearch == efSearch && !h.building
  {
    hide InsertNode, BuildUpTo, SequentialState, Drawn, HasBottom;
    h := new HNSW.Seed(ds, par, efSearch, levels[0], building);
    var w := new Workspace(ds.Len());
    BuildOne(ds, par, levels);
    var i := 1;
    while i < ds.Len()
      invariant 1 <= i <= ds.Len()
      invariant fresh(h) && fresh(w) && fresh(w.Repr() - {null}) && w.Valid()
      invariant h.Valid() && h.bottomOffsets == [] && h.efSearch == efSearch
      invariant h.Snapshot() == BuildUpTo(ds, par, levels, i)
    {
      InsertNext(h, w, levels, i);
      i := i + 1;
    }
    h.building := false;
    BuiltHasBottom(ds, par, levels);
    h.CompactBottom();
  }

  /** The next turn of the build loop. */
  method InsertNext(h: HNSW, w: Workspace, levels: seq<nat>, i: nat)
    requires h.ds.Valid() && h.par.Valid() && |levels| == h.ds.Len() && 1 <= i < h.ds.Len()
    requires h.Valid() && h.bottomOffsets == [] && w.Valid()
    requires h.Snapshot() == BuildUpTo(h.ds, h.par, levels, i)
    modifies h, w.Repr()
    ensures h.Valid() && h.bottomOffsets == [] && h.efSearch == old(h.efSearch)
    ensures w.Valid() && fresh(w.Repr() - old(w.Repr()))
    ensures h.Snapshot() == BuildUpTo(h.ds, h.par, levels, i + 1)
  {
    hide InsertNode, BuildUpTo;
    BuildNext(h.ds, h.par, levels, i);
    h.InsertAt(i, levels[i], w);
  }

  lemma BuildNext(ds: Dataset, par: Params, levels: seq<nat>, i: nat)
    requires ds.Valid() && par.Valid() && |levels| == ds.Len() && 1 <= i < ds.Len()
    ensures var prev := BuildUpTo(ds, par, levels, i);
      && Sound(prev) && i < |prev.links| && prev.links[i] == []
      && BuildUpTo(ds, par, levels, i + 1) == InsertNode(prev, i, levels[i])
  {
    var prev := BuildStep(ds, par, levels, i + 1);
  }

  lemma BuiltHasBottom(ds: Dataset, par: Params, levels: seq<nat>)
    requires ds.Valid() && par.Valid() && |levels| == ds.Len() && 1 <= ds.Len()
    ensures HasBottom(BuildUpTo(ds, par, levels, ds.Len()).links)
  {
    hide BuildUpTo, SequentialState;
    var links := BuildUpTo(ds, par, levels, ds.Len()).links;
    assert Drawn(links, levels, ds.Len());
    assert forall a :: 0 <= a < |links| ==> |links[a]| == levels[a] + 1;
  }

  /** The copy of one list into its slice. */
  method CopyAt(packed: array<nat>, lo: nat, nbs: seq<nat>)
    requires lo + |nbs| <= packed.Length
    modifies packed
    ensures packed[..lo + |nbs|] == old(packed[..lo]) + nbs
  {
    var j := 0;
    while j < |nbs|
      invariant j <= |nbs| && packed[..lo + j] == old(packed[..lo]) + nbs[..j]
    {
      packed[lo + j] := nbs[j];
      j := j + 1;
    }
  }

  lemma SetSame(links: Links, a: nat)
    requires Occupies(links, a, 0)
    ensures SetList(links, a, 0, links[a][0]) == links
  {
    assert links[a][0 := links[a][0]] == links[a];
  }
}
