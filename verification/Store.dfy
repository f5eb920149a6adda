/** The loader as a whole, and what holds of every index it returns. Modelled on
`LoadHNSWWithOptions` of `internal/index/store.go`. Decoding a 32-bit word to a
coordinate is a parameter. */
module Store {
  import opened LittleEndian
  import opened Streams
  import opened Graph
  import opened Packing
  import opened Build
  import opened Format
  import opened IndexFile
  import opened RoundTrip
  import opened Loading
  import Querying
  import Hnsw
  import Saving

  // ---------- What a file means ----------

  function Decoded(decode: Word -> real, ws: seq<Word>): (xs: seq<real>)
    ensures |xs| == |ws| && forall i :: 0 <= i < |ws| ==> xs[i] == decode(ws[i])
  {
    if ws == [] then [] else Decoded(decode, ws[..|ws| - 1]) + [decode(ws[|ws| - 1])]
  }

  /** The index an image stands for. */
  function IndexOf(im: Image, decode: Word -> real): (ix: Index)
    requires 1 <= im.dim
  {
    Index(Dataset(im.dim, Windows(im.dim, Decoded(decode, im.data))), im.par, im.links, im.entry, im.maxLevel)
  }

  /** Whatever the format holds is an index every search can be trusted on. */
  lemma StorableIsSound(im: Image, maxInt: nat, decode: Word -> real)
    requires Storable(im, maxInt)
    ensures Sound(IndexOf(im, decode)) && HasBottom(im.links)
  {
    hide Windows, Decoded, WellLinked;
    var xs := Decoded(decode, im.data);
    assert |xs| == |im.links| * im.dim;
    WindowCount(im.dim, xs, |im.links|);
    assert IndexOf(im, decode).ds.Valid();
  }

  /** Any bytes the loader accepts, in one pass or two over inputs however
  different, give an index that answers every well-posed query with at least one
  and at most k distinct nodes, nearest first, at their true distances. */
  lemma LoadedIndexAnswers(
      bs: seq<Byte>, again: seq<Byte>, im: Image, maxInt: nat, decode: Word -> real, q: seq<real>, k: nat)
    requires Load(bs, maxInt) == Ok(im) || LoadTwice(bs, again, maxInt) == Ok(im)
    requires |q| == im.dim && 1 <= k
    ensures 1 <= im.dim && Sound(IndexOf(im, decode))
    ensures var ix := IndexOf(im, decode);
      var a := Querying.Knn(ix, im.efSearch, q, k);
      && a.Hits? && 1 <= |a.results| <= k
      && TopK.Sorted(a.results) && LayerSearch.DistinctIds(a.results)
      && (forall i :: 0 <= i < |a.results| ==>
            a.results[i].id < ix.ds.Len()
            && a.results[i].dist == Querying.L2(ix, q, a.results[i].id))
      && a.results[0].dist <= Querying.L2(ix, q, ix.entry)
  {
    hide Load, LoadTwice, Sound, Querying.Knn, Querying.L2;
    LoadReads(bs, im, maxInt);
    LoadTwiceExact(bs, again, im, maxInt);
    AtLeastOneDimension(im, maxInt);
    StorableIsSound(im, maxInt, decode);
    Querying.QueryIsAnswered(IndexOf(im, decode), im.efSearch, q, k);
  }

  lemma AtLeastOneDimension(im: Image, maxInt: nat)
    requires Storable(im, maxInt)
    ensures 1 <= im.dim
  {}

  // ---------- Loading ----------

  /** The vectors, word by word. */
  method ReadVectors(rd: WordReader, elements: nat) returns (ok: bool, data: array<Word>)
    requires rd.Valid()
    modifies rd, rd.buf, rd.r`pos
    ensures ok <==> elements <= |old(rd.Rest())|
    ensures ok ==> data[..] == old(rd.Rest())[..elements]
  {
    hide WordReader.Rest, WordReader.Valid;
    ghost var ws := rd.Rest();
    data := new Word[elements];
    var i := 0;
    while i < elements
      invariant i <= elements && i <= |ws| && rd.Valid()
      invariant rd.Rest() == ws[i..] && data[..i] == ws[..i]
    {
      var more, v := rd.Next();
      if !more { return false, data; }
      data[i] := v;
      i := i + 1;
    }
    ok := true;
  }

  /** The size of the packed array; none without offsets. */
  function LastOf(offsets: seq<nat>): (n: nat) {
    if offsets == [] then 0 else offsets[|offsets| - 1]
  }

  /** The graph into lists, and into the packed array when offsets are known;
  then the vectors. */
  method ReadRest(r: ByteReader, f: Front, offsets: seq<nat>) returns (res: Loaded, bottom: seq<nat>)
    requires f.Front? && LevelsAgree(f.h, f.levels)
    requires Room(offsets, |f.levels|, LastOf(offsets))
    modifies r`pos
    ensures res == ReadBody(PassFor(offsets), f, Arriving(old(r.Tail())))
    ensures res.Ok? && offsets != [] ==> Packed(res.image.links, bottom, offsets)
  {
    hide ParseGraph, PacksUp, WordReader.Rest, WordReader.Valid, From, Arriving;
    CountLevels(f.h, f.levels);
    var packed := new nat[LastOf(offsets)];
    bottom := [];
    var rd := new WordReader(r);
    var v, links := ReadGraph(rd, f.h.Pars(), f.levels, packed, offsets);
    if v.Bad? { return Failed(v.error), []; }
    bottom := packed[..];
    if offsets != [] { FullyPacked(bottom, offsets, links); }
    var elements := f.h.dim * f.h.count;
    var ok, data := ReadVectors(rd, elements);
    if !ok { return Failed(Truncated), []; }
    res := Ok(ImageOf(f.h, f.seed, links, data[..]));
  }

  lemma FullyPacked(packed: seq<nat>, offsets: seq<nat>, links: Links)
    requires PacksUp(packed, offsets, links) && |offsets| == |links| + 1
    requires |packed| == offsets[|links|]
    ensures Packed(links, packed, offsets)
  {
    assert packed[..Total(links, |links|)] == packed;
  }

  lemma RoomForOffsets(links: Links, n: nat)
    requires HasBottom(links) && n == |links|
    ensures Room(OffsetsTo(links, n), n, LastOf(OffsetsTo(links, n)))
  {
    var offsets := OffsetsTo(links, n);
    forall i | 0 <= i < n ensures SliceFits(offsets, i, offsets[n]) {
      TotalRises(links, i, i + 1);
      TotalRises(links, i + 1, n);
    }
  }

  /** The measuring pass, after which the input is back where the graph began and
  holds whatever it holds by then. */
  method Measure(r: ByteReader, f: Front, now: seq<Byte>, limit: nat) returns (v: Verdict, offsets: seq<nat>)
    requires f.Front? && LevelsAgree(f.h, f.levels)
    modifies r
    ensures EveryNodeHasALevel(f.levels)
    ensures var p := ParseGraph(Measuring(limit), f.h.Pars(), f.levels, Arriving(old(r.Tail())), []);
      Agrees(v, p) && (p.Done? ==> offsets == OffsetsTo(p.value, |p.value|) && offsets != [])
    ensures v == Fine ==> Room(offsets, |f.levels|, LastOf(offsets)) && r.Tail() == From(now, old(r.pos))
  {
    hide ParseGraph, Arriving, WordReader.Rest, WordReader.Valid, OffsetsTo, LevelsAgree, Room, From;
    CountLevels(f.h, f.levels);
    ghost var p := ParseGraph(Measuring(limit), f.h.Pars(), f.levels, Arriving(r.Tail()), []);
    var graphStart := r.pos;
    var rd := new WordReader(r);
    v, offsets := ScanBottomOffsets(rd, f.h.Pars(), f.levels, limit);
    if v.Bad? { return; }
    RoomForOffsets(p.value, |f.levels|);
    r.Rewind(graphStart, now);
  }

  /** The two strategies of the loader. With two passes the graph is measured
  first, the input rewound to where the graph began, and whatever it holds by
  then is read for good. */
  method LoadImage(r: ByteReader, twice: bool, now: seq<Byte>, maxInt: nat)
    returns (res: Loaded, bottom: seq<nat>, offsets: seq<nat>)
    modifies r
    ensures twice ==> res == LoadTwice(old(r.Tail()), From(now, old(r.pos)), maxInt)
    ensures !twice ==> res == Load(old(r.Tail()), maxInt)
    ensures res.Ok? && twice ==> Packed(res.image.links, bottom, offsets) && offsets != []
    ensures res.Ok? && !twice ==> offsets == []
  {
    hide ReadFront, ReadBody, ParseGraph, Arriving, OffsetsTo, LevelsAgree, Packed, HeaderFits, Room, From,
      EveryNodeHasALevel;
    ghost var bytes, start := r.bytes, r.pos;
    var f := ReadHeader(r, maxInt);
    if f.Refused? { return Failed(f.error), [], []; }
    FromFrom(bytes, start, HEAD + f.h.count);
    FromFrom(now, start, HEAD + f.h.count);
    offsets := [];
    if twice {
      var v;
      v, offsets := Measure(r, f, now, maxInt / 4);
      if v.Bad? { return Failed(v.error), [], []; }
    } else {
      NoRoomNeeded(|f.levels|);
    }
    res, bottom := ReadRest(r, f, offsets);
  }

  lemma NoRoomNeeded(n: nat)
    ensures Room([], n, 0)
  {}

  /** Loading yields an index that stands for the image read, ready to search,
  with its bottom layer packed by either strategy. */
  method LoadHNSW(r: ByteReader, twice: bool, now: seq<Byte>, maxInt: nat, decode: Word -> real)
    returns (res: Loaded, h: Hnsw.HNSW?)
    modifies r
    ensures twice ==> res == LoadTwice(old(r.Tail()), From(now, old(r.pos)), maxInt)
    ensures !twice ==> res == Load(old(r.Tail()), maxInt)
    ensures res.Ok? ==> h != null && fresh(h) && h.Valid() && 1 <= res.image.dim
    ensures res.Ok? ==> h.Snapshot() == IndexOf(res.image, decode) && h.efSearch == res.image.efSearch
    ensures res.Ok? ==> Packed(h.links, h.bottom, h.bottomOffsets)
  {
    hide LoadTwice, Load, Sound, Packed, Storable, HasBottom;
    ghost var bs, start := r.Tail(), r.pos;
    h := null;
    var bottom, offsets;
    res, bottom, offsets := LoadImage(r, twice, now, maxInt);
    if res.Failed? { return; }
    LoadReads(bs, res.image, maxInt);
    LoadTwiceExact(bs, From(now, start), res.image, maxInt);
    AtLeastOneDimension(res.image, maxInt);
    StorableIsSound(res.image, maxInt, decode);
    h := new Hnsw.HNSW.Restore(IndexOf(res.image, decode), res.image.efSearch, bottom, offsets);
    if offsets == [] { h.CompactBottom(); }
  }

  /** There is one packed layer for given lists, so both strategies build it. */
  lemma PackingIsUnique(links: Links, b1: seq<nat>, o1: seq<nat>, b2: seq<nat>, o2: seq<nat>)
    requires Packed(links, b1, o1) && Packed(links, b2, o2)
    ensures b1 == b2 && o1 == o2
  {}

  // ---------- Saving ----------

  /** What the file of an index holds: its lists, never the packed copy of them,
  so packing changes no saved byte. */
  function ImageFrom(h: Hnsw.HNSW, singleLayer: bool, seed: Int64, data: seq<Word>): (im: Image)
    reads h
  {
    Image(h.ds.dim, data, h.par, singleLayer, seed, h.efSearch, h.links, h.entry, h.maxLevel)
  }

  /** Saves exactly when settings and level counts fit, and then appends exactly
  the encoding of what the index holds. */
  method SaveHNSW(h: Hnsw.HNSW, singleLayer: bool, seed: Int64, data: seq<Word>, w: Sink) returns (r: Saving.Outcome)
    modifies w
    ensures r.Saved? <==> SettingsFit(ImageFrom(h, singleLayer, seed, data)) && LevelsFit(h.links)
    ensures r.Saved? ==> w.out == old(w.out) + Encode(ImageFrom(h, singleLayer, seed, data))
    ensures !SettingsFit(ImageFrom(h, singleLayer, seed, data)) ==> w.out == old(w.out)
  {
    hide Encode, LevelsFit, SettingsFit, Saving.FirstMisfit;
    r := Saving.Save(w, ImageFrom(h, singleLayer, seed, data));
  }
}
