/** `LoadHNSWWithOptions` and `scanBottomOffsets` of `internal/index/store.go`,
step by step: every loop is proved to reach the specified verdict, and every
write into the packed array to stay inside its slice. */
module Loading {
  import opened LittleEndian
  import opened Streams
  import opened Graph
  import opened Packing
  import opened Format
  import opened IndexFile

  // ---------- The front ----------

  lemma OneMoreWord(bs: seq<Byte>, b: seq<Byte>)
    requires |bs| % 4 == 0 && |b| == 4
    ensures Words(bs + b) == Words(bs) + [WordOf(b)]
  {
    WordsConcat(bs, b);
    assert b[..4] == b;
    assert Words(b[4..]) == [];
  }

  /** Eleven words, each read whole. */
  method ReadFields(r: ByteReader) returns (ok: bool, head: seq<Word>)
    modifies r`pos
    ensures ok <==> 44 <= |old(r.Tail())|
    ensures ok ==> |head| == 11 && head == Words(old(r.Tail())[..44])
    ensures ok ==> r.Tail() == old(r.Tail())[44..] && r.pos == old(r.pos) + 44
  {
    hide Words, WordOf, From;
    ghost var tail := r.Tail();
    head := [];
    NoWords();
    while |head| < 11
      invariant |head| <= 11 && 4 * |head| <= |tail| && head == Words(tail[..4 * |head|])
      invariant r.Tail() == tail[4 * |head|..] && r.pos == old(r.pos) + 4 * |head|
    {
      ghost var at := 4 * |head|;
      var more, b := r.Read(4);
      if !more { return false, head; }
      OneMoreWord(tail[..at], b);
      assert tail[..at + 4] == tail[..at] + b;
      head := head + [WordOf(b)];
    }
    ok := true;
  }

  lemma NoWords()
    ensures Words([]) == []
  {}

  /** The loop over the level counts and the check of the entry. */
  method CheckEveryLevel(h: Header, levels: seq<nat>) returns (v: Verdict)
    requires |levels| == h.count && h.entry < h.count
    ensures v == CheckLevels(h, levels, 0)
  {
    var i := 0;
    while i < |levels|
      invariant i <= |levels| && CheckLevels(h, levels, i) == CheckLevels(h, levels, 0)
    {
      if levels[i] == 0 || levels[i] > h.maxLevel + 1 { return Bad(BadLevelCount(i)); }
      i := i + 1;
    }
    if levels[h.entry] != h.maxLevel + 1 { return Bad(EntryNotOnTop); }
    v := Fine;
  }

  method ReadHeader(r: ByteReader, maxInt: nat) returns (f: Front)
    modifies r`pos
    ensures f == ReadFront(old(r.Tail()), maxInt)
    ensures f.Front? ==> r.pos == old(r.pos) + HEAD + f.h.count
  {
    hide Words, SeedOf, CheckHeader, CheckLevels, HeaderOf, Naturals, LevelsAgree, HeaderFits, From;
    ghost var bs := r.Tail();
    var ok, magic := r.Read(8);
    if !ok { return Refused(Truncated); }
    if magic != MAGIC { return Refused(NotAnIndex); }
    var whole, head := ReadFields(r);
    if !whole { return Refused(Truncated); }
    assert bs[8..][..44] == bs[8..52] && bs[8..][44..] == bs[52..];
    var h := HeaderOf(head);
    if h.version != VERSION { return Refused(OtherVersion); }
    var some, s := r.Read(8);
    if !some { return Refused(Truncated); }
    assert bs[52..][..8] == bs[52..HEAD] && bs[52..][8..] == bs[HEAD..];
    var v := CheckHeader(h, maxInt);
    if v.Bad? { return Refused(v.error); }
    FineHeader(h, maxInt);
    var all, counts := r.Read(h.count);
    if !all { return Refused(Truncated); }
    assert bs[HEAD..][..h.count] == bs[HEAD..HEAD + h.count];
    var levels := Naturals(counts);
    v := CheckEveryLevel(h, levels);
    if v.Bad? { return Refused(v.error); }
    f := Front(h, SeedOf(s), levels);
  }

  lemma FineHeader(h: Header, maxInt: nat)
    requires CheckHeader(h, maxInt).Fine?
    ensures h.entry < h.count
  {}

  // ---------- One list ----------

  /** A parse and the verdict of the loop that performs it agree. */
  ghost predicate Agrees<T>(v: Verdict, p: Parsed<T>) {
    (p.Fail? ==> v == Bad(p.error)) && (p.Done? ==> v == Fine)
  }

  /** Reads and checks the IDs of one list into a slice of nbs, and nowhere else. */
  method ReadIds(rd: WordReader, par: Params, levels: seq<nat>, node: nat, lc: nat, nbs: array<nat>, lo: nat, size: nat)
    returns (v: Verdict)
    requires rd.Valid() && lo + size <= nbs.Length
    modifies rd, rd.buf, rd.r`pos, nbs
    ensures var p := ParseIds(par, levels, node, lc, size, old(rd.Rest()), []);
      Agrees(v, p) && (p.Done? ==> rd.Valid() && rd.Rest() == p.rest && nbs[lo..lo + size] == p.value)
    ensures nbs[..lo] == old(nbs[..lo]) && nbs[lo + size..] == old(nbs[lo + size..])
  {
    hide WordReader.Rest, WordReader.Valid;
    ghost var ws := rd.Rest();
    var j := 0;
    while j < size
      invariant j <= size && rd.Valid()
      invariant ParseIds(par, levels, node, lc, size, rd.Rest(), nbs[lo..lo + j])
        == ParseIds(par, levels, node, lc, size, ws, [])
      invariant nbs[..lo] == old(nbs[..lo]) && nbs[lo + size..] == old(nbs[lo + size..])
    {
      var ok, id := rd.Next();
      if !ok { return Bad(Truncated); }
      if id >= |levels| { return Bad(NoSuchNode(node, lc)); }
      if levels[id] <= lc { return Bad(NotOnLayer(node, lc)); }
      ghost var got := nbs[lo..lo + j];
      nbs[lo + j] := id;
      assert nbs[lo..lo + (j + 1)] == got + [id];
      j := j + 1;
    }
    v := Fine;
  }

  function PassFor(offsets: seq<nat>): (pass: Pass) {
    if offsets == [] then Plain else Repeating(offsets)
  }

  /** Without offsets the lists go to arrays of their own; with them, bottom
  lists go to their slices of the packed array. */
  ghost predicate Room(offsets: seq<nat>, nodes: nat, length: nat) {
    offsets == []
    || (|offsets| == nodes + 1 && offsets[0] == 0
        && forall i :: 0 <= i < nodes ==> SliceFits(offsets, i, length))
  }

  ghost predicate SliceFits(offsets: seq<nat>, i: nat, length: nat)
    requires i + 1 < |offsets|
  {
    offsets[i] <= offsets[i + 1] <= length
  }

  /** Slice n holds nbs and nothing before it has changed. */
  ghost predicate Filled(before: seq<nat>, after: seq<nat>, offsets: seq<nat>, n: nat, nbs: seq<nat>) {
    offsets != [] ==> (
      && n + 1 < |offsets| && offsets[n] <= offsets[n + 1] <= |after| == |before|
      && after[..offsets[n]] == before[..offsets[n]] && after[offsets[n]..offsets[n + 1]] == nbs)
  }

  /** Reads one list, checking its length before anything is stored. */
  method ReadList(
      rd: WordReader, par: Params, levels: seq<nat>, links: Links, lc: nat, packed: array<nat>, offsets: seq<nat>)
    returns (v: Verdict, nbs: seq<nat>)
    requires rd.Valid() && HasBottom(links) && |links| < |levels| && Room(offsets, |levels|, packed.Length)
    modifies rd, rd.buf, rd.r`pos, packed
    ensures var p := ParseList(PassFor(offsets), par, levels, links, lc, old(rd.Rest()));
      Agrees(v, p) && (p.Done? ==> rd.Valid() && rd.Rest() == p.rest && nbs == p.value)
    ensures v == Fine && lc == 0 ==> Filled(old(packed[..]), packed[..], offsets, |links|, nbs)
    ensures lc > 0 || offsets == [] ==> packed[..] == old(packed[..])
  {
    hide WordReader.Rest, WordReader.Valid, ParseIds;
    var n := |links|;
    assert offsets != [] ==> SliceFits(offsets, n, packed.Length);
    var ok, size := rd.Next();
    if !ok { return Bad(Truncated), []; }
    if size > |levels| || size > par.CapAt(lc) { return Bad(BadLength(n, lc)), []; }
    if lc == 0 && offsets != [] {
      var lo, hi := offsets[n], offsets[n + 1];
      if size != hi - lo { return Bad(LengthChanged(n)), []; }
      v := ReadIds(rd, par, levels, n, lc, packed, lo, size);
      nbs := packed[lo..hi];
    } else {
      var own := new nat[size];
      v := ReadIds(rd, par, levels, n, lc, own, 0, size);
      nbs := own[..];
      assert own[0..0 + size] == nbs;
    }
  }

  /** Reads one node's lists from the bottom layer up. */
  method ReadNode(rd: WordReader, par: Params, levels: seq<nat>, links: Links, packed: array<nat>, offsets: seq<nat>)
    returns (v: Verdict, per: seq<seq<nat>>)
    requires rd.Valid() && HasBottom(links) && |links| < |levels| && Room(offsets, |levels|, packed.Length)
    requires EveryNodeHasALevel(levels)
    modifies rd, rd.buf, rd.r`pos, packed
    ensures var p := ParseNode(PassFor(offsets), par, levels, links, old(rd.Rest()), []);
      Agrees(v, p) && (p.Done? ==> rd.Valid() && rd.Rest() == p.rest && per == p.value)
    ensures v == Fine ==> per != [] && Filled(old(packed[..]), packed[..], offsets, |links|, per[0])
  {
    hide WordReader.Rest, WordReader.Valid, ParseList;
    ghost var pass, ws := PassFor(offsets), rd.Rest();
    per := [];
    while |per| < levels[|links|]
      invariant rd.Valid()
      invariant ParseNode(pass, par, levels, links, rd.Rest(), per) == ParseNode(pass, par, levels, links, ws, [])
      invariant per == [] ==> packed[..] == old(packed[..])
      invariant per != [] ==> Filled(old(packed[..]), packed[..], offsets, |links|, per[0])
      decreases levels[|links|] - |per|
    {
      var nbs;
      v, nbs := ReadList(rd, par, levels, links, |per|, packed, offsets);
      if v.Bad? { return; }
      per := per + [nbs];
    }
    v := Fine;
  }

  /** The packed array holds the bottom lists of the nodes read so far. */
  ghost predicate PacksUp(packed: seq<nat>, offsets: seq<nat>, links: Links) {
    offsets != [] ==> (
      && HasBottom(links) && |links| < |offsets| && Total(links, |links|) <= |packed|
      && (forall i :: 0 <= i <= |links| ==> offsets[i] == Total(links, i))
      && packed[..Total(links, |links|)] == Concat(links, |links|))
  }

  lemma NothingPacked(packed: seq<nat>, offsets: seq<nat>)
    requires offsets != [] ==> offsets[0] == 0
    ensures PacksUp(packed, offsets, [])
  {}

  lemma PacksOneMore(before: seq<nat>, after: seq<nat>, offsets: seq<nat>, links: Links, per: seq<seq<nat>>)
    requires PacksUp(before, offsets, links) && HasBottom(links) && per != []
    requires Filled(before, after, offsets, |links|, per[0])
    ensures PacksUp(after, offsets, links + [per])
  {
    if offsets != [] {
      var more := links + [per];
      TotalsKept(links, more);
      SamePrefix(links, more, |links|);
      assert offsets[|links| + 1] == Total(more, |more|);
      assert after[..offsets[|links| + 1]] == after[..offsets[|links|]] + per[0];
    }
  }

  lemma TotalsKept(links: Links, more: Links)
    requires links <= more && HasBottom(more)
    ensures HasBottom(links) && forall i :: 0 <= i <= |links| ==> Total(more, i) == Total(links, i)
  {
    SamePrefix(links, more, 0);
    forall i | 0 <= i <= |links| ensures Total(more, i) == Total(links, i) { SamePrefix(links, more, i); }
  }

  lemma {:induction false} SamePrefix(links: Links, more: Links, i: nat)
    requires links <= more && HasBottom(more) && i <= |links|
    ensures HasBottom(links)
    ensures Total(more, i) == Total(links, i) && Concat(more, i) == Concat(links, i)
  {
    assert forall j :: 0 <= j < |links| ==> links[j] == more[j];
    if i > 0 { SamePrefix(links, more, i - 1); }
  }

  /** Reads the whole graph. */
  method ReadGraph(rd: WordReader, par: Params, levels: seq<nat>, packed: array<nat>, offsets: seq<nat>)
    returns (v: Verdict, links: Links)
    requires rd.Valid() && EveryNodeHasALevel(levels) && Room(offsets, |levels|, packed.Length)
    modifies rd, rd.buf, rd.r`pos, packed
    ensures var p := ParseGraph(PassFor(offsets), par, levels, old(rd.Rest()), []);
      Agrees(v, p) && (p.Done? ==> rd.Valid() && rd.Rest() == p.rest && links == p.value)
    ensures v == Fine ==> |links| == |levels| && PacksUp(packed[..], offsets, links)
  {
    hide WordReader.Rest, WordReader.Valid, ParseNode, PacksUp, Filled;
    ghost var pass, ws := PassFor(offsets), rd.Rest();
    links := [];
    NothingPacked(packed[..], offsets);
    while |links| < |levels|
      invariant rd.Valid() && HasBottom(links) && |links| <= |levels|
      invariant ParseGraph(pass, par, levels, rd.Rest(), links) == ParseGraph(pass, par, levels, ws, [])
      invariant PacksUp(packed[..], offsets, links)
    {
      var per;
      ghost var before := packed[..];
      v, per := ReadNode(rd, par, levels, links, packed, offsets);
      if v.Bad? { return; }
      PacksOneMore(before, packed[..], offsets, links, per);
      links := links + [per];
    }
    v := Fine;
  }

  // ---------- The first of two passes ----------

  /** Reads and checks the IDs of one list without keeping them. */
  method ScanIds(rd: WordReader, par: Params, levels: seq<nat>, node: nat, lc: nat, size: nat)
    returns (v: Verdict, ghost ids: seq<nat>)
    requires rd.Valid()
    modifies rd, rd.buf, rd.r`pos
    ensures var p := ParseIds(par, levels, node, lc, size, old(rd.Rest()), []);
      Agrees(v, p) && (p.Done? ==> rd.Valid() && rd.Rest() == p.rest && ids == p.value)
  {
    hide WordReader.Rest, WordReader.Valid;
    ghost var ws := rd.Rest();
    ids := [];
    var j := 0;
    while j < size
      invariant j <= size && |ids| == j && rd.Valid()
      invariant ParseIds(par, levels, node, lc, size, rd.Rest(), ids) == ParseIds(par, levels, node, lc, size, ws, [])
    {
      var ok, id := rd.Next();
      if !ok { return Bad(Truncated), ids; }
      if id >= |levels| { return Bad(NoSuchNode(node, lc)), ids; }
      if levels[id] <= lc { return Bad(NotOnLayer(node, lc)), ids; }
      ids := ids + [id];
      j := j + 1;
    }
    v := Fine;
  }

  /** Checks one list and, on the bottom layer, that the packed array may still
  grow by it. */
  method ScanList(
      rd: WordReader, par: Params, levels: seq<nat>, ghost links: Links, i: nat, lc: nat, start: nat, limit: nat)
    returns (v: Verdict, size: nat, ghost nbs: seq<nat>)
    requires rd.Valid() && HasBottom(links) && |links| == i < |levels| && start == Total(links, i)
    modifies rd, rd.buf, rd.r`pos
    ensures var p := ParseList(Measuring(limit), par, levels, links, lc, old(rd.Rest()));
      Agrees(v, p) && (p.Done? ==> rd.Valid() && rd.Rest() == p.rest && nbs == p.value && size == |nbs|)
  {
    hide WordReader.Rest, WordReader.Valid;
    nbs := [];
    var ok, w := rd.Next();
    size := w;
    if !ok { return Bad(Truncated), 0, []; }
    if size > |levels| || size > par.CapAt(lc) { return Bad(BadLength(i, lc)), 0, []; }
    if lc == 0 && start + size > limit { return Bad(GraphTooLarge), 0, []; }
    IdsLength(par, levels, i, lc, size, rd.Rest(), []);
    v, nbs := ScanIds(rd, par, levels, i, lc, size);
  }

  lemma {:induction false} IdsLength(
      par: Params, levels: seq<nat>, node: nat, lc: nat, size: nat, ws: seq<Word>, ids: seq<nat>)
    requires |ids| <= size
    ensures var p := ParseIds(par, levels, node, lc, size, ws, ids); p.Done? ==> |p.value| == size
    decreases size - |ids|
  {
    if |ids| < size && ws != [] { IdsLength(par, levels, node, lc, size, ws[1..], ids + [ws[0]]); }
  }

  /** Checks one node's lists and yields where the next one's slice begins. */
  method ScanNode(rd: WordReader, par: Params, levels: seq<nat>, ghost links: Links, i: nat, start: nat, limit: nat)
    returns (v: Verdict, end: nat, ghost per: seq<seq<nat>>)
    requires rd.Valid() && HasBottom(links) && |links| == i < |levels| && start == Total(links, i)
    requires EveryNodeHasALevel(levels)
    modifies rd, rd.buf, rd.r`pos
    ensures var p := ParseNode(Measuring(limit), par, levels, links, old(rd.Rest()), []);
      Agrees(v, p) && (p.Done? ==> rd.Valid() && rd.Rest() == p.rest && per == p.value)
    ensures v == Fine ==> per != [] && end == start + |per[0]|
  {
    hide WordReader.Rest, WordReader.Valid, ParseList, Total;
    ghost var pass, ws := Measuring(limit), rd.Rest();
    per := [];
    end := start;
    var lc := 0;
    while lc < levels[i]
      invariant rd.Valid() && |per| == lc <= levels[i]
      invariant ParseNode(pass, par, levels, links, rd.Rest(), per) == ParseNode(pass, par, levels, links, ws, [])
      invariant per != [] ==> end == start + |per[0]|
    {
      var size;
      ghost var nbs;
      v, size, nbs := ScanList(rd, par, levels, links, i, lc, start, limit);
      if v.Bad? { return; }
      if lc == 0 { end := start + size; }
      per := per + [nbs];
      lc := lc + 1;
    }
    v := Fine;
  }

  /** The first pass keeps nothing but where each node's slice will begin. */
  method ScanBottomOffsets(rd: WordReader, par: Params, levels: seq<nat>, limit: nat)
    returns (v: Verdict, offsets: seq<nat>)
    requires rd.Valid() && EveryNodeHasALevel(levels)
    modifies rd, rd.buf, rd.r`pos
    ensures var p := ParseGraph(Measuring(limit), par, levels, old(rd.Rest()), []);
      Agrees(v, p) && (p.Done? ==> |p.value| == |levels| && offsets == OffsetsTo(p.value, |levels|))
  {
    hide WordReader.Rest, WordReader.Valid, ParseNode, OffsetsTo, Total;
    ghost var pass, ws := Measuring(limit), rd.Rest();
    ghost var links: Links := [];
    NoOffsets();
    offsets := [0];
    var i := 0;
    while i < |levels|
      invariant rd.Valid() && HasBottom(links) && |links| == i <= |levels|
      invariant ParseGraph(pass, par, levels, rd.Rest(), links) == ParseGraph(pass, par, levels, ws, [])
      invariant offsets == OffsetsTo(links, i)
    {
      var end;
      ghost var per;
      v, end, per := ScanNode(rd, par, levels, links, i, offsets[i], limit);
      if v.Bad? { return; }
      OneMoreOffset(links, per);
      offsets := offsets + [end];
      links := links + [per];
      i := i + 1;
    }
    v := Fine;
  }

  lemma NoOffsets()
    ensures OffsetsTo([], 0) == [0]
  {}

  lemma OneMoreOffset(links: Links, per: seq<seq<nat>>)
    requires HasBottom(links) && per != []
    ensures HasBottom(links + [per])
    ensures OffsetsTo(links + [per], |links + [per]|) == OffsetsTo(links, |links|) + [Total(links, |links|) + |per[0]|]
  {
    var more := links + [per];
    LastOffset(links, more, |more|);
  }

  lemma LastOffset(links: Links, more: Links, n: nat)
    requires n == |more| > 0 && HasBottom(more) && links == more[..n - 1]
    ensures OffsetsTo(more, n) == OffsetsTo(links, n - 1) + [Total(links, n - 1) + |more[n - 1][0]|]
  {
    TotalsKept(links, more);
    OffsetsKept(links, more, n - 1);
  }

  lemma {:induction false} OffsetsKept(links: Links, more: Links, n: nat)
    requires HasBottom(links) && HasBottom(more) && n <= |links| <= |more|
    requires forall i :: 0 <= i <= |links| ==> Total(more, i) == Total(links, i)
    ensures OffsetsTo(more, n) == OffsetsTo(links, n)
  {
    hide Total;
    if n > 0 { OffsetsKept(links, more, n - 1); }
  }
}
