/** What building, saving, loading and searching add up to. */
module EndToEnd {
  import opened TopK
  import opened Graph
  import opened LayerSearch
  import opened Build
  import opened BuildInvariant
  import opened Querying
  import opened Exactness
  import opened LittleEndian
  import opened Packing
  import opened IndexFile
  import opened RoundTrip
  import opened Store
  import FlatSearch
  import Parallel = ParallelBuild
  import EdgesOnce

  /** The bounds the format itself sets: settings and sizes in range, fewer than
  255 levels above the bottom, one level only if flagged so. */
  ghost predicate WithinFormat(im: Image, maxInt: nat) {
    && SettingsFit(im) && SettingsWithin(im, maxInt) && SizesFit(im, maxInt)
    && im.maxLevel < 255 && (im.singleLayer ==> im.maxLevel == 0)
  }

  ghost predicate NoListOutgrowsTheIndex(links: Links) {
    forall a: nat, lc: nat :: Occupies(links, a, lc) ==> |links[a][lc]| <= |links|
  }

  lemma SoundIsStorable(im: Image, maxInt: nat, ix: Index)
    requires WithinFormat(im, maxInt) && Sound(ix)
    requires ix.links == im.links && ix.par == im.par && ix.entry == im.entry && ix.maxLevel == im.maxLevel
    requires HasBottom(im.links) && Parallel.Capped(im.par, im.links)
    ensures Storable(im, maxInt) <==> NoListOutgrowsTheIndex(im.links)
  {}

  /** No list of a sequential build can outgrow the index: it names each other
  node at most once. */
  lemma TidyListsFit(ix: Index)
    requires Sound(ix) && Tidy(ix.par, ix.links)
    ensures Parallel.Capped(ix.par, ix.links) && NoListOutgrowsTheIndex(ix.links)
  {
    forall a: nat, lc: nat | Occupies(ix.links, a, lc)
      ensures |ix.links[a][lc]| <= |ix.links| && |ix.links[a][lc]| <= ix.par.CapAt(lc)
    {
      assert TidyList(ix.par, a, lc, ix.links[a][lc]);
      ListsBelow(ix.links, a, lc);
      RoomForOneMore(ix.links[a][lc], a, |ix.links|);
    }
  }

  lemma BuiltIsStorable(ds: Dataset, levels: seq<nat>, im: Image, maxInt: nat, ix: Index)
    requires ds.Valid() && im.par.Valid() && |levels| == ds.Len() && 1 <= ds.Len()
    requires ix == BuildUpTo(ds, im.par, levels, ds.Len())
    requires ix.links == im.links && ix.entry == im.entry && ix.maxLevel == im.maxLevel
    requires WithinFormat(im, maxInt)
    ensures Storable(im, maxInt) && HasBottom(im.links)
  {
    hide BuildUpTo, WithinFormat, Storable, Sound, Tidy, Parallel.Capped, NoListOutgrowsTheIndex;
    assert Drawn(ix.links, levels, ds.Len());
    TidyListsFit(ix);
    SoundIsStorable(im, maxInt, ix);
  }

  /** Every sequential build within the bounds of the format comes back from its
  file unchanged, whichever way it is loaded, and so answers alike. */
  lemma BuiltIndexSurvivesDisk(ds: Dataset, levels: seq<nat>, im: Image, maxInt: nat, decode: Word -> real)
    requires ds.Valid() && im.par.Valid() && |levels| == ds.Len() && 1 <= ds.Len() && 1 <= im.dim
    requires IndexOf(im, decode) == BuildUpTo(ds, im.par, levels, ds.Len())
    requires WithinFormat(im, maxInt)
    ensures Storable(im, maxInt) && HasBottom(im.links) && Load(Encode(im), maxInt) == Ok(im)
    ensures LoadTwice(Encode(im), Encode(im), maxInt) == Ok(im) <==> Total(im.links, |im.links|) <= maxInt / 4
  {
    hide *;
    IndexOfHas(im, decode);
    BuiltIsStorable(ds, levels, im, maxInt, IndexOf(im, decode));
    StorableIsWritable(im, maxInt);
    SavedLoadsBack(im, maxInt);
    TwoPassesAgree(Encode(im), im, maxInt);
  }

  lemma IndexOfHas(im: Image, decode: Word -> real)
    requires 1 <= im.dim
    ensures var ix := IndexOf(im, decode);
      ix.links == im.links && ix.par == im.par && ix.entry == im.entry && ix.maxLevel == im.maxLevel
  {}

  /** The index an image stands for answers the query as exact search does. */
  ghost predicate AnswersExactly(im: Image, decode: Word -> real, ds: Dataset, q: seq<real>, k: int)
    requires ds.Valid()
  {
    && 1 <= im.dim && Sound(IndexOf(im, decode))
    && Knn(IndexOf(im, decode), im.efSearch, q, k) == FlatSearch.Nearest(ds, q, k)
  }

  /** A small index that has been to disk and back still searches exactly, read in
  one pass, or in two if its packed layer can be allocated. */
  lemma SmallIndexFromDiskIsExact(
      ds: Dataset, levels: seq<nat>, im: Image, maxInt: nat, decode: Word -> real, q: seq<real>, k: int)
    requires ds.Valid() && im.par.Valid() && |levels| == ds.Len() && 1 <= ds.Len() && 1 <= im.dim
    requires IndexOf(im, decode) == BuildUpTo(ds, im.par, levels, ds.Len())
    requires WithinFormat(im, maxInt)
    requires ds.Len() <= im.par.mMax0 + 1 && (ds.Len() <= im.efSearch || ds.Len() <= k)
    ensures SettingsFit(im) && HasBottom(im.links)
    ensures Load(Encode(im), maxInt).Ok?
      && AnswersExactly(Load(Encode(im), maxInt).image, decode, ds, q, k)
    ensures Total(im.links, |im.links|) <= maxInt / 4 ==>
      LoadTwice(Encode(im), Encode(im), maxInt).Ok?
      && AnswersExactly(LoadTwice(Encode(im), Encode(im), maxInt).image, decode, ds, q, k)
  {
    hide BuildUpTo, Load, LoadTwice, Encode, Storable, Total, Knn, FlatSearch.Nearest;
    BuiltIndexSurvivesDisk(ds, levels, im, maxInt, decode);
    SmallIndexIsExact(ds, im.par, levels, im.efSearch, q, k);
  }

  // ---------- Parallel builds ----------

  /** However the workers interleaved, a finished parallel build answers every
  well-posed query: at least one and at most k distinct nodes, nearest first, at
  their true distances, the first no farther than the entry. */
  lemma ParallelBuildAnswers(plan: Parallel.Plan, workers: nat, sched: seq<nat>, efSearch: int, q: seq<real>, k: nat)
    requires plan.Valid() && forall i :: 0 <= i < |sched| ==> sched[i] < workers
    requires Parallel.Finished(plan, EdgesOnce.Reached(plan, workers, sched))
    requires |q| == plan.ds.dim && 1 <= k
    ensures var ix := Parallel.ResultOf(plan, EdgesOnce.Reached(plan, workers, sched));
      && Sound(ix)
      && var a := Knn(ix, efSearch, q, k);
      && a.Hits? && 1 <= |a.results| <= k && Sorted(a.results) && DistinctIds(a.results)
      && (forall i :: 0 <= i < |a.results| ==>
            a.results[i].id < ix.ds.Len() && a.results[i].dist == L2(ix, q, a.results[i].id))
      && a.results[0].dist <= L2(ix, q, ix.entry)
  {
    hide EdgesOnce.Reached, Parallel.Inv, Parallel.Finished, Sound, Knn, L2;
    var st := EdgesOnce.Reached(plan, workers, sched);
    Parallel.FinishedIsSound(plan, st);
    QueryIsAnswered(Parallel.ResultOf(plan, st), efSearch, q, k);
  }

  /** However the workers interleaved, a finished parallel build within the
  bounds of the format comes back from its file unchanged. */
  lemma ParallelBuildSurvivesDisk(plan: Parallel.Plan, workers: nat, sched: seq<nat>, im: Image, maxInt: nat)
    requires plan.Valid() && forall i :: 0 <= i < |sched| ==> sched[i] < workers
    requires Parallel.Finished(plan, EdgesOnce.Reached(plan, workers, sched))
    requires var ix := Parallel.ResultOf(plan, EdgesOnce.Reached(plan, workers, sched));
      im.links == ix.links && im.par == ix.par && im.entry == ix.entry && im.maxLevel == ix.maxLevel
    requires WithinFormat(im, maxInt)
    ensures Storable(im, maxInt) && HasBottom(im.links) && Load(Encode(im), maxInt) == Ok(im)
    ensures LoadTwice(Encode(im), Encode(im), maxInt) == Ok(im) <==> Total(im.links, |im.links|) <= maxInt / 4
  {
    hide Parallel.Inv, Parallel.Finished, Load, LoadTwice, Encode, Storable, WithinFormat, EdgesOnce.Reached, Tidy,
      Sound,
      Parallel.Capped, NoListOutgrowsTheIndex, Total;
    var st := EdgesOnce.Reached(plan, workers, sched);
    var ix := Parallel.ResultOf(plan, st);
    Parallel.FinishedIsSound(plan, st);
    FinishedHasBottom(plan, st);
    EdgesOnce.NoEdgeTwice(plan, workers, sched);
    TidyListsFit(ix);
    SoundIsStorable(im, maxInt, ix);
    FormatSettings(im, maxInt);
    SavedLoadsBack(im, maxInt);
    TwoPassesAgree(Encode(im), im, maxInt);
  }

  lemma FinishedHasBottom(plan: Parallel.Plan, st: Parallel.System)
    requires Parallel.Inv(plan, st) && Parallel.Finished(plan, st)
    ensures HasBottom(st.sh.links)
  {
    forall a | 0 <= a < |st.sh.links| ensures 1 <= |st.sh.links[a]| { Parallel.NodeFinished(plan, st, a); }
  }

  lemma FormatSettings(im: Image, maxInt: nat)
    requires WithinFormat(im, maxInt)
    ensures SettingsFit(im)
  {}
}
