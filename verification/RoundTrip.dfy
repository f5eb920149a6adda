/** Saving and loading are inverse: which bytes load, as which index, by one
pass or two. Modelled on `internal/index/store.go`. */
module RoundTrip {
  import opened LittleEndian
  import opened Streams
  import opened Graph
  import opened Packing
  import opened Format
  import opened IndexFile

  // ---------- The front: header and level counts ----------

  predicate FrontFits(h: Header, levels: seq<nat>, maxInt: nat) {
    h.version == VERSION && HeaderFits(h, maxInt) && LevelsAgree(h, levels)
  }

  lemma SmallByte(n: nat)
    requires n < 0x100
    ensures ByteOf(n) == n
  {}

  lemma LevelBytesInverse(levels: seq<nat>)
    requires forall i :: 0 <= i < |levels| ==> levels[i] < 0x100
    ensures Naturals(LevelBytes(levels)) == levels
  {
    hide LevelBytes, Naturals, ByteOf;
    var bs := LevelBytes(levels);
    forall i | 0 <= i < |levels| ensures bs[i] == levels[i] {
      SmallByte(levels[i]);
    }
  }

  lemma NaturalsInverse(bs: seq<Byte>)
    ensures LevelBytes(Naturals(bs)) == bs
  {}

  lemma HeaderInverse(bs: seq<Byte>, h: Header)
    requires |bs| == 44
    ensures HeaderOf(Words(bs)) == h <==> bs == Bytes(h.Fields())
  {
    hide Words, Bytes;
    BytesOfWords(bs);
    WordsOfBytes(h.Fields());
    assert bs[..4 * (|bs| / 4)] == bs;
    assert HeaderOf(Words(bs)).Fields() == Words(bs);
    assert HeaderOf(h.Fields()) == h;
  }

  lemma SeedInverse(bs: seq<Byte>, seed: Int64)
    requires |bs| == 8
    ensures SeedOf(bs) == seed <==> bs == SeedBytes(seed)
  {
    SeedRoundTrip(seed);
    SeedIsExact(bs);
  }

  /** A byte string starts with four given blocks when it does so one by one. */
  lemma FourBlocks(bs: seq<Byte>, a: seq<Byte>, b: seq<Byte>, c: seq<Byte>, d: seq<Byte>)
    requires |a| == 8 && |b| == 44 && |c| == 8
    ensures a + b + c + d <= bs
       <==> (|bs| >= 60 + |d| && bs[..8] == a && bs[8..52] == b && bs[52..60] == c && bs[60..60 + |d|] == d)
  {
    if a + b + c + d <= bs {
      var all := a + b + c + d;
      assert all == bs[..60 + |d|];
      assert all[..8] == a && all[8..52] == b && all[52..60] == c && all[60..60 + |d|] == d;
      assert bs[8..52] == all[8..52] && bs[52..60] == all[52..60] && bs[60..60 + |d|] == all[60..60 + |d|];
    }
    if |bs| >= 60 + |d| && bs[..8] == a && bs[8..52] == b && bs[52..60] == c && bs[60..60 + |d|] == d {
      assert bs[..60 + |d|] == bs[..8] + bs[8..52] + bs[52..60] + bs[60..60 + |d|];
    }
  }

  lemma FrontRead(bs: seq<Byte>, h: Header, seed: Int64, levels: seq<nat>, maxInt: nat)
    requires ReadFront(bs, maxInt) == Front(h, seed, levels)
    ensures FrontFits(h, levels, maxInt) && FrontBytes(h, seed, levels) <= bs
  {
    hide Words, Bytes, SeedOf, SeedBytes, HeaderOf, HeaderFits, CheckLevels, LevelFits, Naturals, LevelBytes;
    HeaderInverse(bs[8..52], h);
    SeedInverse(bs[52..HEAD], seed);
    NaturalsInverse(bs[HEAD..HEAD + h.count]);
    FourBlocks(bs, MAGIC, Bytes(h.Fields()), SeedBytes(seed), LevelBytes(levels));
  }

  lemma FrontWritten(bs: seq<Byte>, h: Header, seed: Int64, levels: seq<nat>, maxInt: nat)
    requires FrontFits(h, levels, maxInt) && FrontBytes(h, seed, levels) <= bs
    ensures ReadFront(bs, maxInt) == Front(h, seed, levels)
  {
    hide Words, Bytes, SeedOf, SeedBytes, HeaderOf, HeaderFits, CheckLevels, LevelFits, Naturals, LevelBytes;
    FourBlocks(bs, MAGIC, Bytes(h.Fields()), SeedBytes(seed), LevelBytes(levels));
    HeaderInverse(bs[8..52], h);
    SeedInverse(bs[52..HEAD], seed);
    LevelsAreSmall(h, levels, maxInt);
  }

  /** The front is read as a header, seed and level counts exactly when the bytes
  begin with what is written for them, and they agree with one another. */
  lemma FrontExact(bs: seq<Byte>, h: Header, seed: Int64, levels: seq<nat>, maxInt: nat)
    ensures ReadFront(bs, maxInt) == Front(h, seed, levels)
       <==> (FrontFits(h, levels, maxInt) && FrontBytes(h, seed, levels) <= bs)
  {
    hide ReadFront, FrontFits, FrontBytes;
    if ReadFront(bs, maxInt) == Front(h, seed, levels) { FrontRead(bs, h, seed, levels, maxInt); }
    if FrontFits(h, levels, maxInt) && FrontBytes(h, seed, levels) <= bs { FrontWritten(bs, h, seed, levels, maxInt); }
  }

  lemma LevelsAreSmall(h: Header, levels: seq<nat>, maxInt: nat)
    requires LevelsAgree(h, levels)
    ensures |levels| == h.count && CheckLevels(h, levels, 0).Fine?
    ensures HeaderFits(h, maxInt) ==> Naturals(LevelBytes(levels)) == levels && EveryNodeHasALevel(levels)
  {
    LevelsChecked(h, levels, 0);
    if HeaderFits(h, maxInt) {
      assert forall i :: 0 <= i < |levels| ==> LevelFits(h, levels[i]);
      LevelBytesInverse(levels);
    }
  }

  // ---------- Which indexes the format holds ----------

  ghost predicate ListsBounded(par: Params, links: Links) {
    forall a: nat, lc: nat :: Occupies(links, a, lc) ==>
      |links[a][lc]| <= |links| && |links[a][lc]| <= par.CapAt(lc)
  }

  predicate SettingsWithin(im: Image, maxInt: nat) {
    && im.par.m <= maxInt && im.par.mMax <= maxInt && im.par.mMax0 <= maxInt
    && im.par.efConstruct <= maxInt && im.efSearch <= maxInt
  }

  predicate SizesFit(im: Image, maxInt: nat) {
    && 1 <= im.dim && 1 <= |im.links| <= MAX_COUNT
    && |im.data| == im.dim * |im.links| && |im.data| <= MAX_ELEMENTS && |im.data| <= maxInt / 4
  }

  predicate TopFits(im: Image) {
    && im.entry < |im.links| && im.maxLevel < 255 && (im.singleLayer ==> im.maxLevel == 0)
    && (forall i :: 0 <= i < |im.links| ==> 1 <= |im.links[i]| <= im.maxLevel + 1)
    && |im.links[im.entry]| == im.maxLevel + 1
  }

  /** A well-formed index within the bounds of the format and the platform. */
  ghost predicate Storable(im: Image, maxInt: nat) {
    && SettingsFit(im) && SettingsWithin(im, maxInt) && im.par.Valid()
    && SizesFit(im, maxInt) && TopFits(im)
    && WellLinked(im.links) && ListsBounded(im.par, im.links)
  }

  lemma FittingIsWellLinked(par: Params, links: Links)
    requires HasBottom(links)
    ensures GraphFits(Plain, par, LevelsOf(links), links) <==> (WellLinked(links) && ListsBounded(par, links))
  {
    hide LevelsOf;
    var levels := LevelsOf(links);
    if GraphFits(Plain, par, levels, links) {
      forall a: nat, lc: nat | Occupies(links, a, lc)
        ensures ListWithin(links, links[a][lc], lc) && ListFits(par, levels, lc, links[a][lc])
      {
        assert NodeFits(Plain, par, levels, links[..a], links[a]);
        assert ListFits(par, levels, lc, links[a][lc]);
        forall j | 0 <= j < |links[a][lc]| ensures Occupies(links, links[a][lc][j], lc) {
          assert IdFits(levels, lc, links[a][lc][j]);
        }
      }
    }
    if WellLinked(links) && ListsBounded(par, links) {
      forall i | 0 <= i < |links| ensures NodeFits(Plain, par, levels, links[..i], links[i]) {
        forall lc | 0 <= lc < |links[i]| ensures ListFits(par, levels, lc, links[i][lc]) {
          assert Occupies(links, i, lc);
          assert ListWithin(links, links[i][lc], lc);
        }
      }
    }
  }

  lemma FittingHasLevels(pass: Pass, par: Params, levels: seq<nat>, links: Links)
    requires GraphFits(pass, par, levels, links) && |links| == |levels|
    ensures LevelsOf(links) == levels
  {
    forall i | 0 <= i < |links| ensures LevelsOf(links)[i] == levels[i] {
      assert NodeFits(pass, par, levels, links[..i], links[i]);
    }
  }

  lemma FactorsAreSmall(a: nat, b: nat, bound: nat)
    requires 1 <= a && 1 <= b && a * b <= bound
    ensures a <= bound && b <= bound
  {
    assert a * b == a + a * (b - 1) && a * (b - 1) >= 0;
    assert a * b == b + (a - 1) * b && (a - 1) * b >= 0;
  }

  /** A storable index is described by its header and level counts. */
  lemma StorableFits(im: Image, maxInt: nat)
    requires Storable(im, maxInt)
    ensures var h, levels := HeaderFor(im), LevelsOf(im.links);
      && FrontFits(h, levels, maxInt) && im == ImageOf(h, im.seed, im.links, im.data)
      && |im.links| == |levels| && GraphFits(Plain, h.Pars(), levels, im.links)
      && |im.data| == h.dim * h.count
  {
    hide WellLinked, ListsBounded, GraphFits, LevelsOf;
    FittingIsWellLinked(im.par, im.links);
    FactorsAreSmall(im.dim, |im.links|, MAX_ELEMENTS);
    var h, levels := HeaderFor(im), LevelsOf(im.links);
    assert h.dim == im.dim && h.count == |im.links| && h.entry == im.entry && h.maxLevel == im.maxLevel;
    assert h.Pars() == im.par && h.Single() == im.singleLayer;
    assert HeaderFits(h, maxInt);
    assert forall i :: 0 <= i < |levels| ==> LevelFits(h, levels[i]);
    assert LevelsAgree(h, levels);
  }

  /** What a header, its level counts, a graph that fits them and enough words
  describe is storable, and is written under the same header and counts. */
  lemma FittingIsStorable(h: Header, seed: Int64, levels: seq<nat>, links: Links, data: seq<Word>, maxInt: nat)
    requires FrontFits(h, levels, maxInt)
    requires |links| == |levels| && GraphFits(Plain, h.Pars(), levels, links)
    requires |data| == h.dim * h.count
    ensures var im := ImageOf(h, seed, links, data);
      Storable(im, maxInt) && HeaderFor(im) == h && LevelsOf(links) == levels
  {
    hide WellLinked, ListsBounded, GraphFits, LevelsOf;
    FittingHasLevels(Plain, h.Pars(), levels, links);
    assert forall i :: 0 <= i < |levels| ==> LevelFits(h, levels[i]);
    FittingIsWellLinked(h.Pars(), links);
    var im := ImageOf(h, seed, links, data);
    FactorsAreSmall(h.dim, h.count, MAX_ELEMENTS);
    assert TopFits(im) && SizesFit(im, maxInt);
    FlagsRoundTrip(h.flags);
  }

  lemma FlagsRoundTrip(flags: Word)
    requires flags <= 3
    ensures FlagsOf(flags % 2 != 0, flags / 2 % 2 != 0) == flags
  {}

  // ---------- The body: graph and vectors ----------

  lemma SplitAt(ws: seq<Word>, a: seq<Word>, b: seq<Word>)
    ensures a + b <= ws <==> (a <= ws && b <= ws[|a|..])
  {
    if a + b <= ws {
      assert a == (a + b)[..|a|] <= ws;
      assert b == (a + b)[|a|..];
    }
    if a <= ws && b <= ws[|a|..] {
      assert ws == a + ws[|a|..];
    }
  }

  /** The words hold this graph and these vectors, and both fit the front. */
  predicate BodyFits(pass: Pass, h: Header, seed: Int64, levels: seq<nat>, ws: seq<Word>, im: Image) {
    && im == ImageOf(h, seed, im.links, im.data)
    && |im.links| == |levels| && GraphFits(pass, h.Pars(), levels, im.links)
    && |im.data| == h.dim * h.count && Body(im) <= ws
  }

  lemma BodyRead(pass: Pass, h: Header, seed: Int64, levels: seq<nat>, ws: seq<Word>, im: Image)
    requires LevelsAgree(h, levels) && |levels| < 0x1_0000_0000 && EveryNodeHasALevel(levels)
    requires ReadBody(pass, Front(h, seed, levels), ws) == Ok(im)
    ensures BodyFits(pass, h, seed, levels, ws, im)
  {
    hide ParseGraph, GraphFits, GraphWords;
    var p := ParseGraph(pass, h.Pars(), levels, ws, []);
    GraphExact(pass, h.Pars(), levels, ws, p.value, p.rest);
    SplitAt(ws, GraphWords(im.links), im.data);
  }

  lemma BodyWritten(pass: Pass, h: Header, seed: Int64, levels: seq<nat>, ws: seq<Word>, im: Image)
    requires LevelsAgree(h, levels) && |levels| < 0x1_0000_0000 && EveryNodeHasALevel(levels)
    requires BodyFits(pass, h, seed, levels, ws, im)
    ensures ReadBody(pass, Front(h, seed, levels), ws) == Ok(im)
  {
    hide ParseGraph, GraphFits, GraphWords;
    SplitAt(ws, GraphWords(im.links), im.data);
    var rest := ws[|GraphWords(im.links)|..];
    assert ws == GraphWords(im.links) + rest;
    GraphExact(pass, h.Pars(), levels, ws, im.links, rest);
    assert rest[..|im.data|] == im.data;
  }

  lemma BodyExact(pass: Pass, h: Header, seed: Int64, levels: seq<nat>, ws: seq<Word>, im: Image)
    requires LevelsAgree(h, levels) && |levels| < 0x1_0000_0000 && EveryNodeHasALevel(levels)
    ensures ReadBody(pass, Front(h, seed, levels), ws) == Ok(im) <==> BodyFits(pass, h, seed, levels, ws, im)
  {
    hide ReadBody, BodyFits;
    if ReadBody(pass, Front(h, seed, levels), ws) == Ok(im) { BodyRead(pass, h, seed, levels, ws, im); }
    if BodyFits(pass, h, seed, levels, ws, im) { BodyWritten(pass, h, seed, levels, ws, im); }
  }

  lemma CountIsWord(h: Header, levels: seq<nat>, maxInt: nat)
    requires FrontFits(h, levels, maxInt)
    ensures |levels| == h.count < 0x1_0000_0000 && EveryNodeHasALevel(levels)
  {
    assert forall i :: 0 <= i < |levels| ==> LevelFits(h, levels[i]);
  }

  // ---------- One pass ----------

  lemma ArrivedPrefix(tail: seq<Byte>, ws: seq<Word>)
    ensures ws <= Arriving(tail) <==> (Bytes(ws) <= tail && |ws| <= Delivers(|tail|))
  {
    hide Words, Bytes, Delivers;
    StartsWith(tail, ws);
  }

  /** The words after the front. */
  function Coming(bs: seq<Byte>, count: nat): (ws: seq<Word>) {
    Arriving(From(bs, HEAD + count))
  }

  lemma PlainAsksLeast(pass: Pass, par: Params, levels: seq<nat>, links: Links)
    requires GraphFits(pass, par, levels, links)
    ensures GraphFits(Plain, par, levels, links)
  {
    forall i | 0 <= i < |links| ensures NodeFits(Plain, par, levels, links[..i], links[i]) {
      assert NodeFits(pass, par, levels, links[..i], links[i]);
    }
  }

  lemma ReadingGives(pass: Pass, bs: seq<Byte>, ws: seq<Word>, im: Image, maxInt: nat)
    requires ReadFront(bs, maxInt).Front? && ReadBody(pass, ReadFront(bs, maxInt), ws) == Ok(im)
    ensures Storable(im, maxInt) && FrontOf(im) <= bs && |im.links| == ReadFront(bs, maxInt).h.count
    ensures GraphFits(pass, im.par, LevelsOf(im.links), im.links) && Body(im) <= ws
  {
    hide ReadBody, Storable, ReadFront, FrontFits, FrontBytes, GraphFits, Body;
    var f := ReadFront(bs, maxInt);
    FrontExact(bs, f.h, f.seed, f.levels, maxInt);
    CountIsWord(f.h, f.levels, maxInt);
    BodyExact(pass, f.h, f.seed, f.levels, ws, im);
    PlainAsksLeast(pass, f.h.Pars(), f.levels, im.links);
    FittingIsStorable(f.h, f.seed, f.levels, im.links, im.data, maxInt);
  }

  lemma ReadingTakes(pass: Pass, bs: seq<Byte>, ws: seq<Word>, im: Image, maxInt: nat)
    requires Storable(im, maxInt) && FrontOf(im) <= bs
    requires GraphFits(pass, im.par, LevelsOf(im.links), im.links) && Body(im) <= ws
    ensures ReadFront(bs, maxInt).Front? && ReadBody(pass, ReadFront(bs, maxInt), ws) == Ok(im)
    ensures ReadFront(bs, maxInt) == Front(HeaderFor(im), im.seed, LevelsOf(im.links))
    ensures HeaderFor(im).count == |im.links|
  {
    hide ReadBody, Storable, ReadFront, FrontFits, FrontBytes, GraphFits, Body, HeaderFor;
    StorableFits(im, maxInt);
    var h, levels := HeaderFor(im), LevelsOf(im.links);
    FrontExact(bs, h, im.seed, levels, maxInt);
    CountIsWord(h, levels, maxInt);
    BodyExact(pass, h, im.seed, levels, ws, im);
  }

  lemma StorableIsWritable(im: Image, maxInt: nat)
    ensures Storable(im, maxInt) ==> SettingsFit(im) && LevelsFit(im.links)
  {}

  lemma PlainFits(im: Image, maxInt: nat)
    requires Storable(im, maxInt)
    ensures GraphFits(Plain, im.par, LevelsOf(im.links), im.links)
  {
    FittingIsWellLinked(im.par, im.links);
  }

  /** The loader's verdict in terms of the words that arrive after the front. */
  lemma LoadReads(bs: seq<Byte>, im: Image, maxInt: nat)
    ensures Load(bs, maxInt) == Ok(im)
       <==> (Storable(im, maxInt) && FrontOf(im) <= bs && Body(im) <= Coming(bs, |im.links|))
  {
    hide ReadBody, Storable, ReadFront, FrontOf, GraphFits, Body, HeaderFor;
    StorableIsWritable(im, maxInt);
    if Load(bs, maxInt) == Ok(im) {
      ReadingGives(Plain, bs, Coming(bs, ReadFront(bs, maxInt).h.count), im, maxInt);
    }
    if Storable(im, maxInt) && FrontOf(im) <= bs && Body(im) <= Coming(bs, |im.links|) {
      PlainFits(im, maxInt);
      ReadingTakes(Plain, bs, Coming(bs, |im.links|), im, maxInt);
    }
  }

  /** Exactly which byte strings load as which index: the index is well formed
  and in bounds, its encoding is how the bytes begin, and the reader delivers all
  of its words. */
  lemma LoadExact(bs: seq<Byte>, im: Image, maxInt: nat)
    ensures Load(bs, maxInt) == Ok(im)
       <==> (Storable(im, maxInt) && Encode(im) <= bs
             && |Body(im)| <= Delivers(|bs| - HEAD - |im.links|))
  {
    hide Storable, Load, FrontBytes, Body, Bytes, Delivers, HeaderFor, Arriving;
    StorableIsWritable(im, maxInt);
    LoadReads(bs, im, maxInt);
    if Storable(im, maxInt) {
      BytesSplitAt(bs, FrontOf(im), Bytes(Body(im)));
      ArrivedPrefix(From(bs, HEAD + |im.links|), Body(im));
    }
  }

  lemma BytesSplitAt(bs: seq<Byte>, a: seq<Byte>, b: seq<Byte>)
    ensures a + b <= bs <==> (a <= bs && b <= From(bs, |a|))
  {
    if a + b <= bs {
      assert a == (a + b)[..|a|] <= bs;
      assert b == (a + b)[|a|..];
    }
    if a <= bs && b <= From(bs, |a|) {
      assert bs == a + bs[|a|..];
    }
  }

  /** Saving then loading gives the index back, and does so for the well-formed
  indexes within bounds and no others. */
  lemma SavedLoadsBack(im: Image, maxInt: nat)
    requires SettingsFit(im)
    ensures Load(Encode(im), maxInt) == Ok(im) <==> Storable(im, maxInt)
  {
    hide Storable, Load, Encode, Body;
    LoadExact(Encode(im), im, maxInt);
    EncodingIsWhole(im);
    DeliversWhole(|Body(im)|);
  }

  lemma EncodingIsWhole(im: Image)
    requires SettingsFit(im)
    ensures |Encode(im)| == HEAD + |im.links| + 4 * |Body(im)|
  {
    hide FrontBytes, HeaderFor, Bytes, Body;
  }

  lemma DeliversWhole(words: nat)
    ensures Delivers(4 * words) == words
  {}

  /** Saving what was loaded reproduces how the input began. */
  lemma LoadedSavesBack(bs: seq<Byte>, im: Image, maxInt: nat)
    requires Load(bs, maxInt) == Ok(im)
    ensures SettingsFit(im) && LevelsFit(im.links) && Encode(im) <= bs
  {
    hide Load, Encode, Body, Delivers;
    LoadExact(bs, im, maxInt);
  }

  /** Two encodings of storable indexes never begin the same input. */
  lemma EncodingsDiffer(bs: seq<Byte>, im1: Image, im2: Image, maxInt: nat)
    requires Storable(im1, maxInt) && Storable(im2, maxInt)
    requires Encode(im1) <= bs && Encode(im2) <= bs
    ensures im1 == im2
  {
    hide Storable, Encode;
    StorableIsWritable(im1, maxInt);
    StorableIsWritable(im2, maxInt);
    if |Encode(im1)| <= |Encode(im2)| {
      EncodingsNest(bs, im1, im2, maxInt);
    } else {
      EncodingsNest(bs, im2, im1, maxInt);
    }
  }

  lemma EncodingsNest(bs: seq<Byte>, im1: Image, im2: Image, maxInt: nat)
    requires Storable(im1, maxInt) && Storable(im2, maxInt)
    requires Encode(im1) <= bs && Encode(im2) <= bs && |Encode(im1)| <= |Encode(im2)|
    ensures im1 == im2
  {
    hide Storable, Load, Encode, Body, Delivers;
    StorableIsWritable(im1, maxInt);
    StorableIsWritable(im2, maxInt);
    LoadExact(Encode(im2), im2, maxInt);
    LoadExact(Encode(im2), im1, maxInt);
    EncodingIsWhole(im1);
    EncodingIsWhole(im2);
    SameCount(bs, im1, im2, maxInt);
    DeliversWhole(|Body(im2)|);
  }

  lemma SameCount(bs: seq<Byte>, im1: Image, im2: Image, maxInt: nat)
    requires Storable(im1, maxInt) && Storable(im2, maxInt)
    requires Encode(im1) <= bs && Encode(im2) <= bs
    ensures |im1.links| == |im2.links|
  {
    hide Storable, FrontBytes, ReadFront, Body, Bytes, HeaderFor;
    StorableFits(im1, maxInt);
    StorableFits(im2, maxInt);
    BytesSplitAt(bs, FrontOf(im1), Bytes(Body(im1)));
    BytesSplitAt(bs, FrontOf(im2), Bytes(Body(im2)));
    FrontExact(bs, HeaderFor(im1), im1.seed, LevelsOf(im1.links), maxInt);
    FrontExact(bs, HeaderFor(im2), im2.seed, LevelsOf(im2.links), maxInt);
  }

  /** What follows a saved index is ignored if it is a whole number of words, or
  if the last full buffer already reaches past the index; otherwise odd bytes at
  the end make the file unreadable. */
  lemma TrailingBytes(im: Image, extra: seq<Byte>, maxInt: nat)
    requires Storable(im, maxInt)
    ensures var harmless := |extra| % 4 == 0 || |Body(im)| % 65536 == 0 || |Body(im)| % 65536 + |extra| / 4 >= 65536;
      && (harmless ==> Load(Encode(im) + extra, maxInt) == Ok(im))
      && (!harmless ==> Load(Encode(im) + extra, maxInt).Failed?)
  {
    hide Storable, Load, Encode, Body, Delivers;
    StorableIsWritable(im, maxInt);
    var bs := Encode(im) + extra;
    EncodingIsWhole(im);
    LoadExact(bs, im, maxInt);
    ReachesEnd(|Body(im)|, |extra|);
    var r := Load(bs, maxInt);
    if r.Ok? {
      LoadExact(bs, r.image, maxInt);
      StorableIsWritable(r.image, maxInt);
      EncodingsDiffer(bs, im, r.image, maxInt);
    }
  }

  lemma ReachesEnd(words: nat, extra: nat)
    ensures words <= Delivers(4 * words + extra)
       <==> (extra % 4 == 0 || words % CHUNK == 0 || words % CHUNK + extra / 4 >= CHUNK)
  {
    var q, r, len := words / CHUNK, words % CHUNK, 4 * words + extra;
    assert words == q * CHUNK + r;
    if extra % 4 == 0 {
      assert len % 4 == 0;
    } else {
      var over := (4 * r + extra) / BUFFER;
      assert len == q * BUFFER + (4 * r + extra);
      assert len / BUFFER == q + over;
      assert Delivers(len) == (q + over) * CHUNK;
      assert over >= 1 <==> r + extra / 4 >= CHUNK;
    }
  }

  // ---------- Two passes ----------

  lemma {:induction false} TotalOfPrefix(links: Links, i: nat)
    requires HasBottom(links) && i <= |links|
    ensures Total(links[..i], i) == Total(links, i)
    decreases i
  {
    if i > 0 {
      TotalOfPrefix(links, i - 1);
      TotalOfPrefix(links[..i], i - 1);
      assert links[..i][..i - 1] == links[..i - 1];
    }
  }

  lemma MeasuringAdmits(limit: nat, links: Links, i: nat)
    requires HasBottom(links) && i < |links|
    ensures HasBottom(links[..i])
    ensures Measuring(limit).Admits(links[..i], |links[i][0]|) <==> Total(links, i + 1) <= limit
  {
    TotalOfPrefix(links, i);
  }

  /** The measuring pass accepts what the plain one does, within its limit. */
  lemma MeasuringFits(limit: nat, par: Params, levels: seq<nat>, links: Links)
    requires HasBottom(links)
    ensures GraphFits(Measuring(limit), par, levels, links)
       <==> (GraphFits(Plain, par, levels, links) && Total(links, |links|) <= limit)
  {
    hide Pass.Admits, ListFits, Total;
    if GraphFits(Measuring(limit), par, levels, links) {
      PlainAsksLeast(Measuring(limit), par, levels, links);
      NothingHeld(links);
      if links != [] {
        var i := |links| - 1;
        assert NodeFits(Measuring(limit), par, levels, links[..i], links[i]);
        MeasuringAdmits(limit, links, i);
      }
    }
    if GraphFits(Plain, par, levels, links) && Total(links, |links|) <= limit {
      forall i | 0 <= i < |links| ensures NodeFits(Measuring(limit), par, levels, links[..i], links[i]) {
        assert NodeFits(Plain, par, levels, links[..i], links[i]);
        MeasuringAdmits(limit, links, i);
        TotalRises(links, i + 1, |links|);
      }
    }
  }

  lemma NothingHeld(links: Links)
    requires HasBottom(links)
    ensures Total(links, 0) == 0
  {}

  ghost predicate SameBottomLengths(l1: Links, l2: Links)
    requires HasBottom(l1) && HasBottom(l2)
  {
    |l1| == |l2| && forall i :: 0 <= i < |l1| ==> |l1[i][0]| == |l2[i][0]|
  }

  /** The repeating pass accepts what the plain one does, when every bottom list
  is as long as the first pass found it. */
  lemma RepeatingFits(first: Links, par: Params, levels: seq<nat>, links: Links)
    requires HasBottom(first) && HasBottom(links) && |first| == |links|
    ensures GraphFits(Repeating(OffsetsTo(first, |first|)), par, levels, links)
       <==> (GraphFits(Plain, par, levels, links) && SameBottomLengths(first, links))
  {
    var offsets := OffsetsTo(first, |first|);
    if GraphFits(Repeating(offsets), par, levels, links) {
      PlainAsksLeast(Repeating(offsets), par, levels, links);
      forall i | 0 <= i < |links| ensures |first[i][0]| == |links[i][0]| {
        assert NodeFits(Repeating(offsets), par, levels, links[..i], links[i]);
        assert offsets[i + 1] == Total(first, i) + |first[i][0]|;
      }
    }
    if GraphFits(Plain, par, levels, links) && SameBottomLengths(first, links) {
      forall i | 0 <= i < |links| ensures NodeFits(Repeating(offsets), par, levels, links[..i], links[i]) {
        assert NodeFits(Plain, par, levels, links[..i], links[i]);
        assert offsets[i + 1] == Total(first, i) + |first[i][0]|;
      }
    }
  }

  /** The first read of the input held some graph that fits the same levels and
  whose bottom lists have the same lengths. */
  ghost predicate FirstReadAgrees(bs: seq<Byte>, im: Image)
    requires HasBottom(im.links)
  {
    exists first: Links :: GraphFits(Plain, im.par, LevelsOf(im.links), first)
      && HasBottom(first) && SameBottomLengths(first, im.links)
      && GraphWords(first) <= Coming(bs, |im.links|)
  }

  lemma SameBottomSameTotal(l1: Links, l2: Links)
    requires HasBottom(l1) && HasBottom(l2) && SameBottomLengths(l1, l2)
    ensures Total(l1, |l1|) == Total(l2, |l2|)
  {
    SameLengthsSameTotals(l1, l2, |l1|);
  }

  lemma StorableHasBottom(im: Image, maxInt: nat)
    requires Storable(im, maxInt)
    ensures HasBottom(im.links) && EveryNodeHasALevel(LevelsOf(im.links)) && |im.links| < 0x1_0000_0000
  {}

  /** The graph a plain or measuring pass finds. */
  lemma FirstPass(bs: seq<Byte>, h: Header, levels: seq<nat>, limit: nat, first: Links)
    requires |levels| == h.count && EveryNodeHasALevel(levels)
    ensures var p := ParseGraph(Measuring(limit), h.Pars(), levels, Coming(bs, h.count), []);
      (p.Done? && p.value == first)
       <==> (|first| == |levels| && GraphFits(Plain, h.Pars(), levels, first) && HasBottom(first)
             && Total(first, |first|) <= limit && GraphWords(first) <= Coming(bs, h.count))
  {
    hide ParseGraph, GraphFits, GraphWords, Arriving, From, Coming;
    var ws := Coming(bs, h.count);
    var p := ParseGraph(Measuring(limit), h.Pars(), levels, ws, []);
    if p.Done? {
      GraphExact(Measuring(limit), h.Pars(), levels, ws, p.value, p.rest);
    }
    if HasBottom(first) { MeasuringFits(limit, h.Pars(), levels, first); }
    if GraphWords(first) <= ws {
      var rest := ws[|GraphWords(first)|..];
      assert ws == GraphWords(first) + rest;
      GraphExact(Measuring(limit), h.Pars(), levels, ws, first, rest);
    }
  }

  lemma TwiceGives(bs: seq<Byte>, again: seq<Byte>, im: Image, maxInt: nat)
    requires LoadTwice(bs, again, maxInt) == Ok(im)
    ensures Storable(im, maxInt) && FrontOf(im) <= bs && HasBottom(im.links)
    ensures Total(im.links, |im.links|) <= maxInt / 4
    ensures FirstReadAgrees(bs, im) && Body(im) <= Coming(again, |im.links|)
  {
    hide ReadBody, Storable, ReadFront, FrontOf, GraphFits, Body, HeaderFor, ParseGraph, HeaderFits, OffsetsTo,
      GraphWords, Arriving, From;
    var f := ReadFront(bs, maxInt);
    var p := ParseGraph(Measuring(maxInt / 4), f.h.Pars(), f.levels, Coming(bs, f.h.count), []);
    CountLevels(f.h, f.levels);
    FirstPass(bs, f.h, f.levels, maxInt / 4, p.value);
    var first := p.value;
    var pass := Repeating(OffsetsTo(first, |first|));
    ReadingGives(pass, bs, Coming(again, f.h.count), im, maxInt);
    StorableHasBottom(im, maxInt);
    RepeatingFits(first, im.par, LevelsOf(im.links), im.links);
    SameBottomSameTotal(first, im.links);
    ReadingTakesFront(pass, bs, Coming(again, f.h.count), im, maxInt);
  }

  lemma CountLevels(h: Header, levels: seq<nat>)
    requires LevelsAgree(h, levels)
    ensures |levels| == h.count && EveryNodeHasALevel(levels)
  {
    assert forall i :: 0 <= i < |levels| ==> LevelFits(h, levels[i]);
  }

  lemma ReadingTakesFront(pass: Pass, bs: seq<Byte>, ws: seq<Word>, im: Image, maxInt: nat)
    requires ReadFront(bs, maxInt).Front? && ReadBody(pass, ReadFront(bs, maxInt), ws) == Ok(im)
    ensures im.par == ReadFront(bs, maxInt).h.Pars() && LevelsOf(im.links) == ReadFront(bs, maxInt).levels
  {
    hide *;
    ReadingGives(pass, bs, ws, im, maxInt);
    ReadingTakes(pass, bs, ws, im, maxInt);
    StorableIsWritable(im, maxInt);
    HeaderHasPars(im);
  }

  lemma HeaderHasPars(im: Image)
    requires SettingsFit(im)
    ensures HeaderFor(im).Pars() == im.par
  {}

  lemma TwiceTakes(bs: seq<Byte>, again: seq<Byte>, im: Image, maxInt: nat, first: Links)
    requires Storable(im, maxInt) && FrontOf(im) <= bs && HasBottom(im.links)
    requires Total(im.links, |im.links|) <= maxInt / 4 && Body(im) <= Coming(again, |im.links|)
    requires GraphFits(Plain, im.par, LevelsOf(im.links), first) && HasBottom(first)
    requires SameBottomLengths(first, im.links) && GraphWords(first) <= Coming(bs, |im.links|)
    ensures LoadTwice(bs, again, maxInt) == Ok(im)
  {
    hide ReadBody, Storable, ReadFront, FrontOf, GraphFits, Body, HeaderFor, ParseGraph, HeaderFits, OffsetsTo,
      GraphWords, Arriving, From;
    StorableHasBottom(im, maxInt);
    PlainFits(im, maxInt);
    RepeatingFits(first, im.par, LevelsOf(im.links), im.links);
    ReadingTakes(Repeating(OffsetsTo(first, |first|)), bs, Coming(again, |im.links|), im, maxInt);
    StorableIsWritable(im, maxInt);
    HeaderHasPars(im);
    SameBottomSameTotal(first, im.links);
    FirstPass(bs, HeaderFor(im), LevelsOf(im.links), maxInt / 4, first);
  }

  /** Which index two passes load, however the input changes in between: what the
  second read holds, if it is well formed and in bounds, its packed layer can be
  allocated, and its bottom lists are as long as the first read found them. */
  lemma LoadTwiceExact(bs: seq<Byte>, again: seq<Byte>, im: Image, maxInt: nat)
    ensures LoadTwice(bs, again, maxInt) == Ok(im)
       <==> (Storable(im, maxInt) && FrontOf(im) <= bs && HasBottom(im.links)
             && Total(im.links, |im.links|) <= maxInt / 4
             && FirstReadAgrees(bs, im) && Body(im) <= Coming(again, |im.links|))
  {
    hide LoadTwice, Storable, FrontOf, Total, Body, Coming, HasBottom, GraphFits, LevelsOf, GraphWords,
      SameBottomLengths;
    StorableIsWritable(im, maxInt);
    if LoadTwice(bs, again, maxInt) == Ok(im) { TwiceGives(bs, again, im, maxInt); }
    if Storable(im, maxInt) && FrontOf(im) <= bs && HasBottom(im.links)
      && Total(im.links, |im.links|) <= maxInt / 4
      && FirstReadAgrees(bs, im) && Body(im) <= Coming(again, |im.links|)
    {
      var first: Links :| GraphFits(Plain, im.par, LevelsOf(im.links), first)
        && HasBottom(first) && SameBottomLengths(first, im.links)
        && GraphWords(first) <= Coming(bs, |im.links|);
      TwiceTakes(bs, again, im, maxInt, first);
    }
  }

  /** On an input that does not change, two passes load what one pass loads,
  except an index whose packed layer the platform could not allocate. */
  lemma TwoPassesAgree(bs: seq<Byte>, im: Image, maxInt: nat)
    ensures LoadTwice(bs, bs, maxInt) == Ok(im)
       <==> (Load(bs, maxInt) == Ok(im) && HasBottom(im.links) && Total(im.links, |im.links|) <= maxInt / 4)
  {
    hide LoadTwice, Load, Storable, FrontOf, Total, Coming, HasBottom, GraphFits, LevelsOf, GraphWords;
    LoadReads(bs, im, maxInt);
    LoadTwiceExact(bs, bs, im, maxInt);
    StorableIsWritable(im, maxInt);
    if Load(bs, maxInt) == Ok(im) {
      StorableHasBottom(im, maxInt);
      PlainFits(im, maxInt);
      SplitAt(Coming(bs, |im.links|), GraphWords(im.links), im.data);
    }
  }

  // ---------- And they refuse alike ----------

  lemma {:induction false} NodeMeasured(
      limit: nat, par: Params, levels: seq<nat>, before: Links, ws: seq<Word>, per: seq<seq<nat>>)
    requires HasBottom(before) && |before| < |levels|
    ensures var p := ParseNode(Measuring(limit), par, levels, before, ws, per);
      p == ParseNode(Plain, par, levels, before, ws, per) || p == Fail(GraphTooLarge)
    decreases levels[|before|] - |per|
  {
    hide ParseIds, Total;
    if |per| < levels[|before|] {
      var p := ParseList(Plain, par, levels, before, |per|, ws);
      if p.Done? { NodeMeasured(limit, par, levels, before, p.rest, per + [p.value]); }
    }
  }

  lemma {:induction false} GraphMeasured(limit: nat, par: Params, levels: seq<nat>, ws: seq<Word>, links: Links)
    requires HasBottom(links) && EveryNodeHasALevel(levels)
    ensures var p := ParseGraph(Measuring(limit), par, levels, ws, links);
      p == ParseGraph(Plain, par, levels, ws, links) || p == Fail(GraphTooLarge)
    decreases |levels| - |links|
  {
    hide ParseNode;
    if |links| < |levels| {
      NodeMeasured(limit, par, levels, links, ws, []);
      var p := ParseNode(Plain, par, levels, links, ws, []);
      if p.Done? { GraphMeasured(limit, par, levels, p.rest, links + [p.value]); }
    }
  }

  /** What a measured graph holds is read again as it was. */
  lemma MeasuredRepeats(limit: nat, par: Params, levels: seq<nat>, ws: seq<Word>)
    requires EveryNodeHasALevel(levels) && |levels| < 0x1_0000_0000
    ensures var p := ParseGraph(Measuring(limit), par, levels, ws, []);
      p.Done? ==> ParseGraph(Repeating(OffsetsTo(p.value, |p.value|)), par, levels, ws, []) == p
  {
    hide ParseGraph, GraphFits, GraphWords, OffsetsTo;
    var p := ParseGraph(Measuring(limit), par, levels, ws, []);
    if p.Done? {
      GraphExact(Measuring(limit), par, levels, ws, p.value, p.rest);
      MeasuringFits(limit, par, levels, p.value);
      RepeatingFits(p.value, par, levels, p.value);
      GraphExact(Repeating(OffsetsTo(p.value, |p.value|)), par, levels, ws, p.value, p.rest);
    }
  }

  /** On an unchanging input two passes return what one pass returns, the error
  included, unless they stop at the limit on the packed layer. */
  lemma TwoPassesSayTheSame(bs: seq<Byte>, maxInt: nat)
    ensures LoadTwice(bs, bs, maxInt) == Load(bs, maxInt) || LoadTwice(bs, bs, maxInt) == Failed(GraphTooLarge)
  {
    hide ParseGraph, ReadFront, Arriving, From, OffsetsTo, HeaderFits;
    var f := ReadFront(bs, maxInt);
    if f.Front? {
      var ws := Arriving(From(bs, HEAD + f.h.count));
      CountLevels(f.h, f.levels);
      CountFits(f.h, maxInt);
      GraphMeasured(maxInt / 4, f.h.Pars(), f.levels, ws, []);
      MeasuredRepeats(maxInt / 4, f.h.Pars(), f.levels, ws);
    }
  }

  lemma CountFits(h: Header, maxInt: nat)
    requires HeaderFits(h, maxInt)
    ensures h.count < 0x1_0000_0000
  {}
}
