/** `Save` of `internal/index/store.go`, step by step, proved to write exactly
the specified bytes. */
module Saving {
  import opened LittleEndian
  import opened Streams
  import opened Graph
  import opened Format
  import opened IndexFile

  datatype Outcome = Saved | NotSaved(error: SaveError)

  const ORDER: seq<Setting> := [M, MMax, MMax0, EfConstruction, EfSearch]

  function ValueOf(im: Image, s: Setting): (n: int) {
    match s
    case M => im.par.m
    case MMax => im.par.mMax
    case MMax0 => im.par.mMax0
    case EfConstruction => im.par.efConstruct
    case EfSearch => im.efSearch
  }

  /** This setting does not fit and those checked before it do. */
  ghost predicate FirstMisfit(im: Image, s: Setting) {
    && !FitsWord(ValueOf(im, s))
    && exists i :: (0 <= i < |ORDER| && ORDER[i] == s
                    && forall j :: 0 <= j < i ==> FitsWord(ValueOf(im, ORDER[j])))
  }

  /** The first of the five settings that does not fit, if any. */
  method CheckSettings(im: Image) returns (r: Outcome)
    ensures r.Saved? <==> SettingsFit(im)
    ensures r.NotSaved? ==> r.error.Unrepresentable? && FirstMisfit(im, r.error.setting)
  {
    var i := 0;
    while i < |ORDER|
      invariant i <= |ORDER| && forall j :: 0 <= j < i ==> FitsWord(ValueOf(im, ORDER[j]))
    {
      if !FitsWord(ValueOf(im, ORDER[i])) { return NotSaved(Unrepresentable(ORDER[i])); }
      i := i + 1;
    }
    assert FitsWord(ValueOf(im, ORDER[0])) && FitsWord(ValueOf(im, ORDER[1])) && FitsWord(ValueOf(im, ORDER[2]));
    assert FitsWord(ValueOf(im, ORDER[3])) && FitsWord(ValueOf(im, ORDER[4]));
    r := Saved;
  }

  /** Which settings are refused, and in which order they are looked at. */
  lemma MisfitIs(im: Image, s: Setting)
    ensures FirstMisfit(im, s) <==>
      match s
      case M => im.par.m > 0xFFFF_FFFF
      case MMax => im.par.m <= 0xFFFF_FFFF && im.par.mMax > 0xFFFF_FFFF
      case MMax0 => im.par.m <= 0xFFFF_FFFF && im.par.mMax <= 0xFFFF_FFFF && im.par.mMax0 > 0xFFFF_FFFF
      case EfConstruction =>
        && im.par.m <= 0xFFFF_FFFF && im.par.mMax <= 0xFFFF_FFFF && im.par.mMax0 <= 0xFFFF_FFFF
        && im.par.efConstruct > 0xFFFF_FFFF
      case EfSearch =>
        && im.par.m <= 0xFFFF_FFFF && im.par.mMax <= 0xFFFF_FFFF && im.par.mMax0 <= 0xFFFF_FFFF
        && im.par.efConstruct <= 0xFFFF_FFFF && !(0 <= im.efSearch <= 0xFFFF_FFFF)
  {
    assert ORDER[0] == M && ORDER[1] == MMax && ORDER[2] == MMax0 && ORDER[3] == EfConstruction && ORDER[4] == EfSearch;
    if FirstMisfit(im, s) {
      var i :| 0 <= i < |ORDER| && ORDER[i] == s && forall j :: 0 <= j < i ==> FitsWord(ValueOf(im, ORDER[j]));
      assert 0 < i ==> FitsWord(ValueOf(im, ORDER[0]));
      assert 1 < i ==> FitsWord(ValueOf(im, ORDER[1]));
      assert 2 < i ==> FitsWord(ValueOf(im, ORDER[2]));
      assert 3 < i ==> FitsWord(ValueOf(im, ORDER[3]));
    }
  }

  /** Which indexes can be saved. */
  lemma SavableIs(im: Image)
    ensures (SettingsFit(im) && LevelsFit(im.links)) <==>
      (im.par.m <= 0xFFFF_FFFF && im.par.mMax <= 0xFFFF_FFFF && im.par.mMax0 <= 0xFFFF_FFFF
       && im.par.efConstruct <= 0xFFFF_FFFF && 0 <= im.efSearch <= 0xFFFF_FFFF
       && forall a :: 0 <= a < |im.links| ==> |im.links[a]| <= 255)
  {}

  lemma AppendWord(ws: seq<Word>, v: Word)
    ensures Bytes(ws + [v]) == Bytes(ws) + WordBytes(v)
  {}

  /** Words one at a time, straight to the output. */
  method WriteFields(w: Sink, ws: seq<Word>)
    modifies w
    ensures w.out == old(w.out) + Bytes(ws)
  {
    hide Bytes, WordBytes;
    NoBytes();
    var i := 0;
    while i < |ws|
      invariant i <= |ws| && w.out == old(w.out) + Bytes(ws[..i])
    {
      AppendWord(ws[..i], ws[i]);
      assert ws[..i + 1] == ws[..i] + [ws[i]];
      w.Write(WordBytes(ws[i]));
      i := i + 1;
    }
    assert ws[..i] == ws;
  }

  lemma NoBytes()
    ensures Bytes([]) == []
  {}

  /** One byte per node, failing at the first with more levels than it holds. */
  method WriteLevels(w: Sink, links: Links) returns (r: Outcome)
    modifies w
    ensures r.Saved? <==> LevelsFit(links)
    ensures r.Saved? ==> w.out == old(w.out) + LevelBytes(LevelsOf(links))
    ensures r.NotSaved? ==> r.error.TooManyLevels? && r.error.levels > 255
    ensures r.NotSaved? ==> exists i :: 0 <= i < |links| && |links[i]| == r.error.levels && LevelsFit(links[..i])
  {
    hide LevelBytes, LevelsOf, ByteOf;
    var i := 0;
    while i < |links|
      invariant i <= |links| && LevelsFit(links[..i])
      invariant w.out == old(w.out) + LevelBytes(LevelsOf(links))[..i]
    {
      if |links[i]| > 255 { return NotSaved(TooManyLevels(|links[i]|)); }
      w.Write([ByteOf(|links[i]|)]);
      i := i + 1;
    }
    assert links[..i] == links;
    r := Saved;
  }

  /** Words one at a time through the buffered writer. */
  method PutWords(ww: WordWriter, ws: seq<Word>)
    requires ww.Valid()
    modifies ww, ww.buf, ww.w
    ensures ww.Valid() && ww.Written() == old(ww.Written()) + Bytes(ws)
  {
    hide Bytes, WordBytes, WordWriter.Written;
    NoBytes();
    var i := 0;
    while i < |ws|
      invariant i <= |ws| && ww.Valid() && ww.Written() == old(ww.Written()) + Bytes(ws[..i])
    {
      AppendWord(ws[..i], ws[i]);
      assert ws[..i + 1] == ws[..i] + [ws[i]];
      ww.Put(ws[i]);
      i := i + 1;
    }
    assert ws[..i] == ws;
  }

  method PutList(ww: WordWriter, nbs: seq<nat>)
    requires ww.Valid()
    modifies ww, ww.buf, ww.w
    ensures ww.Valid() && ww.Written() == old(ww.Written()) + Bytes(ListWords(nbs))
  {
    hide Bytes, WordBytes, WordWriter.Written, IdWords, ToWord;
    NoBytes();
    AppendWord([], ToWord(|nbs|));
    assert [] + [ToWord(|nbs|)] == [ToWord(|nbs|)] == ListWords(nbs)[..1];
    ww.Put(ToWord(|nbs|));
    var i := 0;
    while i < |nbs|
      invariant i <= |nbs| && ww.Valid() && ww.Written() == old(ww.Written()) + Bytes(ListWords(nbs)[..1 + i])
    {
      AppendWord(ListWords(nbs)[..1 + i], ToWord(nbs[i]));
      assert ListWords(nbs)[..1 + i + 1] == ListWords(nbs)[..1 + i] + [ToWord(nbs[i])];
      ww.Put(ToWord(nbs[i]));
      i := i + 1;
    }
    assert ListWords(nbs)[..1 + i] == ListWords(nbs);
  }

  method PutNode(ww: WordWriter, per: seq<seq<nat>>)
    requires ww.Valid()
    modifies ww, ww.buf, ww.w
    ensures ww.Valid() && ww.Written() == old(ww.Written()) + Bytes(NodeWords(per))
  {
    hide Bytes, WordWriter.Written, ListWords;
    NoBytes();
    var i := 0;
    while i < |per|
      invariant i <= |per| && ww.Valid() && ww.Written() == old(ww.Written()) + Bytes(NodeWords(per[..i]))
    {
      BytesConcat(NodeWords(per[..i]), ListWords(per[i]));
      assert per[..i + 1][..i] == per[..i];
      PutList(ww, per[i]);
      i := i + 1;
    }
    assert per[..i] == per;
  }

  method PutGraph(ww: WordWriter, links: Links)
    requires ww.Valid()
    modifies ww, ww.buf, ww.w
    ensures ww.Valid() && ww.Written() == old(ww.Written()) + Bytes(GraphWords(links))
  {
    hide Bytes, WordWriter.Written, NodeWords;
    NoBytes();
    var i := 0;
    while i < |links|
      invariant i <= |links| && ww.Valid() && ww.Written() == old(ww.Written()) + Bytes(GraphWords(links[..i]))
    {
      BytesConcat(GraphWords(links[..i]), NodeWords(links[i]));
      assert links[..i + 1][..i] == links[..i];
      PutNode(ww, links[i]);
      i := i + 1;
    }
    assert links[..i] == links;
  }

  method WriteBody(w: Sink, im: Image)
    modifies w
    ensures w.out == old(w.out) + Bytes(Body(im))
  {
    hide Bytes, GraphWords;
    BytesConcat(GraphWords(im.links), im.data);
    var ww := new WordWriter(w);
    PutGraph(ww, im.links);
    PutWords(ww, im.data);
    ww.Flush();
  }

  /** Saving succeeds exactly when the settings and level counts fit, and then
  appends exactly the encoding. */
  method Save(w: Sink, im: Image) returns (r: Outcome)
    modifies w
    ensures r.Saved? <==> SettingsFit(im) && LevelsFit(im.links)
    ensures r.Saved? ==> w.out == old(w.out) + Encode(im)
    ensures !SettingsFit(im) ==> r.error.Unrepresentable? && FirstMisfit(im, r.error.setting) && w.out == old(w.out)
    ensures SettingsFit(im) && r.NotSaved? ==> r.error.TooManyLevels?
  {
    hide Bytes, SeedBytes, Body, LevelBytes, LevelsOf, LevelsFit, SettingsFit, FirstMisfit;
    r := CheckSettings(im);
    if r.NotSaved? { return; }
    w.Write(MAGIC);
    WriteFields(w, HeaderFor(im).Fields());
    w.Write(SeedBytes(im.seed));
    r := WriteLevels(w, im.links);
    if r.NotSaved? { return; }
    WriteBody(w, im);
  }
}
