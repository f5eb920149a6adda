/** The file format byte by byte, as the comment at the head of
`internal/index/store.go` lays it out: what `Save` writes and what the loader
takes, said by positions and values alone. */
module Layout {
  import opened LittleEndian
  import opened Streams
  import opened Graph
  import opened Packing
  import opened Format
  import opened IndexFile
  import opened RoundTrip

  // ---------- The layout ----------

  /** The 32-bit value v at a position, low byte first. */
  ghost predicate WordAt(bs: seq<Byte>, at: nat, v: int) {
    && at + 4 <= |bs| && 0 <= v < 0x1_0000_0000
    && bs[at] == v % 256 && bs[at + 1] == v / 256 % 256
    && bs[at + 2] == v / 65536 % 256 && bs[at + 3] == v / 16777216
  }

  /** "FASTVEC" and the byte 1. */
  ghost predicate MagicAt(bs: seq<Byte>) {
    && 8 <= |bs| && bs[0] == 70 && bs[1] == 65 && bs[2] == 83 && bs[3] == 84
    && bs[4] == 86 && bs[5] == 69 && bs[6] == 67 && bs[7] == 1
  }

  /** A signed 64-bit value in two's complement, low byte first. */
  ghost predicate SeedAt(bs: seq<Byte>, at: nat, seed: int) {
    && at + 8 <= |bs|
    && bs[at] == seed % 256 && bs[at + 1] == seed / 0x100 % 256
    && bs[at + 2] == seed / 0x1_0000 % 256 && bs[at + 3] == seed / 0x100_0000 % 256
    && bs[at + 4] == seed / 0x1_0000_0000 % 256 && bs[at + 5] == seed / 0x100_0000_0000 % 256
    && bs[at + 6] == seed / 0x1_0000_0000_0000 % 256 && bs[at + 7] == seed / 0x100_0000_0000_0000 % 256
  }

  ghost predicate HeadAt(bs: seq<Byte>, im: Image) {
    && MagicAt(bs)
    && WordAt(bs, 8, 1)
    && WordAt(bs, 12, im.dim) && WordAt(bs, 16, |im.links|)
    && WordAt(bs, 20, im.par.m) && WordAt(bs, 24, im.par.mMax) && WordAt(bs, 28, im.par.mMax0)
    && WordAt(bs, 32, im.par.efConstruct) && WordAt(bs, 36, im.efSearch)
    && WordAt(bs, 40, im.maxLevel) && WordAt(bs, 44, im.entry)
    && WordAt(bs, 48, (if im.singleLayer then 1 else 0) + (if im.par.nearestM then 2 else 0))
    && SeedAt(bs, 52, im.seed)
  }

  ghost predicate LevelsAt(bs: seq<Byte>, at: nat, links: Links) {
    at + |links| <= |bs| && forall a :: 0 <= a < |links| ==> bs[at + a] == |links[a]|
  }

  /** A list: its length, then its IDs. */
  ghost predicate ListAt(bs: seq<Byte>, at: nat, nbs: seq<nat>) {
    WordAt(bs, at, |nbs|) && forall j :: 0 <= j < |nbs| ==> WordAt(bs, at + 4 + 4 * j, nbs[j])
  }

  /** The bytes that these lists of a node take. */
  ghost function ListBytes(per: seq<seq<nat>>): (n: nat) {
    if per == [] then 0 else ListBytes(per[..|per| - 1]) + 4 + 4 * |per[|per| - 1]|
  }

  /** The bytes that these nodes take. */
  ghost function NodeBytes(links: Links): (n: nat) {
    if links == [] then 0 else NodeBytes(links[..|links| - 1]) + ListBytes(links[|links| - 1])
  }

  /** A node: its lists from the bottom layer up, each right behind the one before. */
  ghost predicate NodeAt(bs: seq<Byte>, at: nat, per: seq<seq<nat>>) {
    if per == [] then at <= |bs|
    else
      var below := per[..|per| - 1];
      NodeAt(bs, at, below) && ListAt(bs, at + ListBytes(below), per[|per| - 1])
  }

  /** The graph: the nodes in ID order, each right behind the one before. */
  ghost predicate GraphAt(bs: seq<Byte>, at: nat, links: Links) {
    if links == [] then at <= |bs|
    else
      var before := links[..|links| - 1];
      GraphAt(bs, at, before) && NodeAt(bs, at + NodeBytes(before), links[|links| - 1])
  }

  ghost predicate WordsAt(bs: seq<Byte>, at: nat, ws: seq<Word>) {
    at + 4 * |ws| <= |bs| && forall i :: 0 <= i < |ws| ==> WordAt(bs, at + 4 * i, ws[i])
  }

  /** The bytes begin with the index laid out: the header, one byte per node for its
  level count, every list of every node, then the vectors. */
  ghost predicate LaidOut(bs: seq<Byte>, im: Image) {
    && HeadAt(bs, im)
    && LevelsAt(bs, 60, im.links)
    && GraphAt(bs, 60 + |im.links|, im.links)
    && WordsAt(bs, 60 + |im.links| + NodeBytes(im.links), im.data)
  }

  /** Nothing in the index is too large for its place. */
  ghost predicate Writable(im: Image) {
    && im.dim < 0x1_0000_0000 && |im.links| < 0x1_0000_0000
    && im.par.m < 0x1_0000_0000 && im.par.mMax < 0x1_0000_0000 && im.par.mMax0 < 0x1_0000_0000
    && im.par.efConstruct < 0x1_0000_0000 && 0 <= im.efSearch < 0x1_0000_0000
    && im.maxLevel < 0x1_0000_0000 && im.entry < 0x1_0000_0000
    && (forall a :: 0 <= a < |im.links| ==> |im.links[a]| < 256)
    && forall a: nat, lc: nat :: Occupies(im.links, a, lc) ==> SmallList(im.links[a][lc])
  }

  ghost predicate SmallList(nbs: seq<nat>) {
    |nbs| < 0x1_0000_0000 && forall j :: 0 <= j < |nbs| ==> nbs[j] < 0x1_0000_0000
  }

  // ---------- Words ----------

  lemma WordAtIsBytes(bs: seq<Byte>, at: nat, v: Word)
    requires at + 4 <= |bs|
    ensures WordAt(bs, at, v) <==> bs[at..at + 4] == WordBytes(v)
  {
    var w1: int := v / 0x100;
    var w2: int := w1 / 0x100;
    assert w2 == v / 65536 && w2 / 0x100 == v / 16777216;
    assert w2 / 0x100 % 256 == v / 16777216;
    var s := bs[at..at + 4];
    assert s[0] == bs[at] && s[1] == bs[at + 1] && s[2] == bs[at + 2] && s[3] == bs[at + 3];
  }

  lemma WordsAtSplit(bs: seq<Byte>, at: nat, a: seq<Word>, b: seq<Word>)
    ensures WordsAt(bs, at, a + b) <==> (WordsAt(bs, at, a) && WordsAt(bs, at + 4 * |a|, b))
  {
    hide WordAt;
    var c := a + b;
    if WordsAt(bs, at, c) {
      forall i | 0 <= i < |a| ensures WordAt(bs, at + 4 * i, a[i]) { assert a[i] == c[i]; }
      forall i | 0 <= i < |b| ensures WordAt(bs, at + 4 * |a| + 4 * i, b[i]) {
        assert b[i] == c[|a| + i] && at + 4 * (|a| + i) == at + 4 * |a| + 4 * i;
      }
    }
    if WordsAt(bs, at, a) && WordsAt(bs, at + 4 * |a|, b) {
      forall i | 0 <= i < |c| ensures WordAt(bs, at + 4 * i, c[i]) {
        if i >= |a| { assert at + 4 * |a| + 4 * (i - |a|) == at + 4 * i; }
      }
    }
  }

  lemma {:induction false} WordsAtIsBytes(bs: seq<Byte>, at: nat, ws: seq<Word>)
    ensures WordsAt(bs, at, ws) <==> (at + 4 * |ws| <= |bs| && bs[at..at + 4 * |ws|] == Bytes(ws))
  {
    hide WordAt, WordBytes;
    if ws != [] && at + 4 * |ws| <= |bs| {
      var n := |ws| - 1;
      var init, last := ws[..n], ws[n];
      assert ws == init + [last];
      WordsAtIsBytes(bs, at, init);
      WordsAtSplit(bs, at, init, [last]);
      OneWordAt(bs, at + 4 * n, last);
      WordAtIsBytes(bs, at + 4 * n, last);
      assert bs[at..at + 4 * |ws|] == bs[at..at + 4 * n] + bs[at + 4 * n..at + 4 * n + 4];
      assert Bytes(ws) == Bytes(init) + WordBytes(last);
      assert |bs[at..at + 4 * n]| == |Bytes(init)|;
      SameHalves(bs[at..at + 4 * n], bs[at + 4 * n..at + 4 * n + 4], Bytes(init), WordBytes(last));
    }
  }

  lemma OneWordAt(bs: seq<Byte>, at: nat, w: Word)
    ensures WordsAt(bs, at, [w]) <==> WordAt(bs, at, w)
  {
    if WordsAt(bs, at, [w]) { assert WordAt(bs, at + 4 * 0, [w][0]); }
  }

  lemma SameHalves(a: seq<Byte>, b: seq<Byte>, c: seq<Byte>, d: seq<Byte>)
    requires |a| == |c|
    ensures a + b == c + d <==> (a == c && b == d)
  {
    if a + b == c + d {
      assert a == (a + b)[..|a|] && c == (c + d)[..|a|];
      assert b == (a + b)[|a|..] && d == (c + d)[|a|..];
    }
  }

  // ---------- Lists, nodes, graph ----------

  lemma ListAtIsWords(bs: seq<Byte>, at: nat, nbs: seq<nat>)
    requires SmallList(nbs)
    ensures ListAt(bs, at, nbs) <==> WordsAt(bs, at, ListWords(nbs))
  {
    hide WordAt;
    var ws := ListWords(nbs);
    assert |ws| == 1 + |nbs|;
    if ListAt(bs, at, nbs) {
      forall i | 0 <= i < |ws| ensures WordAt(bs, at + 4 * i, ws[i]) {
        if i > 0 { assert at + 4 + 4 * (i - 1) == at + 4 * i; }
      }
      LastWordFits(bs, at, ws);
    }
    if WordsAt(bs, at, ws) {
      assert WordAt(bs, at + 4 * 0, ws[0]);
      forall j | 0 <= j < |nbs| ensures WordAt(bs, at + 4 + 4 * j, nbs[j]) {
        assert WordAt(bs, at + 4 * (j + 1), ws[j + 1]);
        assert at + 4 * (j + 1) == at + 4 + 4 * j;
      }
    }
  }

  lemma LastWordFits(bs: seq<Byte>, at: nat, ws: seq<Word>)
    requires ws != [] && forall i :: 0 <= i < |ws| ==> WordAt(bs, at + 4 * i, ws[i])
    ensures at + 4 * |ws| <= |bs|
  {
    assert WordAt(bs, at + 4 * (|ws| - 1), ws[|ws| - 1]);
  }

  lemma {:induction false} NodeAtIsWords(bs: seq<Byte>, at: nat, per: seq<seq<nat>>)
    requires SmallNode(per)
    ensures 4 * |NodeWords(per)| == ListBytes(per)
    ensures NodeAt(bs, at, per) <==> WordsAt(bs, at, NodeWords(per))
  {
    hide ListAt, ListWords, SmallList, WordsAt;
    if per == [] {
      NoWordsAt(bs, at);
    } else {
      var n := |per| - 1;
      NodeAtIsWords(bs, at, per[..n]);
      WordsAtSplit(bs, at, NodeWords(per[..n]), ListWords(per[n]));
      ListAtIsWords(bs, at + 4 * |NodeWords(per[..n])|, per[n]);
      ListWordCount(per[n]);
    }
  }

  lemma NoWordsAt(bs: seq<Byte>, at: nat)
    ensures WordsAt(bs, at, []) <==> at <= |bs|
  {}

  lemma ListWordCount(nbs: seq<nat>)
    ensures |ListWords(nbs)| == 1 + |nbs|
  {}

  ghost predicate SmallLists(links: Links) {
    forall a :: 0 <= a < |links| ==> SmallNode(links[a])
  }

  ghost predicate SmallNode(per: seq<seq<nat>>) {
    forall lc :: 0 <= lc < |per| ==> SmallList(per[lc])
  }

  lemma {:induction false} GraphAtIsWords(bs: seq<Byte>, at: nat, links: Links)
    requires SmallLists(links)
    ensures 4 * |GraphWords(links)| == NodeBytes(links)
    ensures GraphAt(bs, at, links) <==> WordsAt(bs, at, GraphWords(links))
  {
    hide NodeAt, NodeWords, SmallNode, WordsAt, ListBytes;
    if links == [] {
      NoWordsAt(bs, at);
    } else {
      var n := |links| - 1;
      GraphAtIsWords(bs, at, links[..n]);
      WordsAtSplit(bs, at, GraphWords(links[..n]), NodeWords(links[n]));
      NodeAtIsWords(bs, at + 4 * |GraphWords(links[..n])|, links[n]);
    }
  }

  // ---------- The front ----------

  lemma MagicIs(bs: seq<Byte>)
    requires 8 <= |bs|
    ensures MagicAt(bs) <==> bs[..8] == MAGIC
  {
    var b := bs[..8];
    assert b[0] == bs[0] && b[1] == bs[1] && b[2] == bs[2] && b[3] == bs[3];
    assert b[4] == bs[4] && b[5] == bs[5] && b[6] == bs[6] && b[7] == bs[7];
  }

  lemma ElevenWords(bs: seq<Byte>, ws: seq<Word>)
    requires |ws| == 11 && 52 <= |bs|
    ensures WordsAt(bs, 8, ws) <==>
      (WordAt(bs, 8, ws[0]) && WordAt(bs, 12, ws[1]) && WordAt(bs, 16, ws[2]) && WordAt(bs, 20, ws[3])
       && WordAt(bs, 24, ws[4]) && WordAt(bs, 28, ws[5]) && WordAt(bs, 32, ws[6]) && WordAt(bs, 36, ws[7])
       && WordAt(bs, 40, ws[8]) && WordAt(bs, 44, ws[9]) && WordAt(bs, 48, ws[10]))
  {
    hide WordAt;
    if WordsAt(bs, 8, ws) {
      assert WordAt(bs, 8 + 4 * 0, ws[0]) && WordAt(bs, 8 + 4 * 1, ws[1]) && WordAt(bs, 8 + 4 * 2, ws[2]);
      assert WordAt(bs, 8 + 4 * 3, ws[3]) && WordAt(bs, 8 + 4 * 4, ws[4]) && WordAt(bs, 8 + 4 * 5, ws[5]);
      assert WordAt(bs, 8 + 4 * 6, ws[6]) && WordAt(bs, 8 + 4 * 7, ws[7]) && WordAt(bs, 8 + 4 * 8, ws[8]);
      assert WordAt(bs, 8 + 4 * 9, ws[9]) && WordAt(bs, 8 + 4 * 10, ws[10]);
    }
  }

  lemma Quotient(n: int, d: int, q: int, r: int)
    requires d > 0 && n == d * q + r && 0 <= r < d
    ensures n / d == q
  {
    var k := n / d - q;
    assert d * (n / d) + n % d == d * q + r;
    assert d * k == r - n % d;
    AtLeastOnce(d, k);
  }

  lemma AtLeastOnce(d: int, k: int)
    requires d > 0
    ensures k >= 1 ==> d * k >= d
    ensures k <= -1 ==> d * k <= -d
  {
    if k >= 1 { assert d * k == d + d * (k - 1); }
    if k <= -1 { assert d * k == -d + d * (k + 1); }
  }

  lemma LowBits(a: int, z: int)
    ensures (256 * a + z) % 256 == z % 256
  {}

  lemma LowByte1(hi: nat, lo: nat)
    ensures (0x1_0000_0000 * hi + lo) / 0x100 % 256 == lo / 256 % 256
  {
    Quotient(0x1_0000_0000 * hi + lo, 0x100, 0x100_0000 * hi + lo / 256, lo % 256);
    LowBits(0x1_0000 * hi, lo / 256);
  }

  lemma LowByte2(hi: nat, lo: nat)
    ensures (0x1_0000_0000 * hi + lo) / 0x1_0000 % 256 == lo / 65536 % 256
  {
    Quotient(0x1_0000_0000 * hi + lo, 0x1_0000, 0x1_0000 * hi + lo / 65536, lo % 65536);
    LowBits(0x100 * hi, lo / 65536);
  }

  lemma LowByte3(hi: nat, lo: nat)
    requires lo < 0x1_0000_0000
    ensures (0x1_0000_0000 * hi + lo) / 0x100_0000 % 256 == lo / 16777216
  {
    Quotient(0x1_0000_0000 * hi + lo, 0x100_0000, 0x100 * hi + lo / 16777216, lo % 16777216);
    LowBits(hi, lo / 16777216);
  }

  lemma LowHalf(u: nat)
    requires u < 0x1_0000_0000_0000_0000
    ensures var lo: int := u % 0x1_0000_0000;
      && lo % 256 == u % 256 && lo / 256 % 256 == u / 0x100 % 256
      && lo / 65536 % 256 == u / 0x1_0000 % 256 && lo / 16777216 == u / 0x100_0000 % 256
  {
    var hi: int, lo: int := u / 0x1_0000_0000, u % 0x1_0000_0000;
    LowByte1(hi, lo);
    LowByte2(hi, lo);
    LowByte3(hi, lo);
  }

  lemma HighHalf(u: nat)
    requires u < 0x1_0000_0000_0000_0000
    ensures var hi: int := u / 0x1_0000_0000;
      && hi / 256 == u / 0x100_0000_0000
      && hi / 65536 == u / 0x1_0000_0000_0000 && hi / 16777216 == u / 0x100_0000_0000_0000
  {}

  /** Adding a multiple of 256 * d leaves the byte above d alone. */
  lemma SameByte(seed: int, u: int, d: int, m: int)
    requires d > 0 && u == seed + d * (256 * m)
    ensures u / d % 256 == seed / d % 256
  {
    var q, r := seed / d, seed % d;
    assert seed == d * q + r;
    assert d * (q + 256 * m) == d * q + d * (256 * m);
    Quotient(u, d, q + 256 * m, r);
    LowBits(m, q);
  }

  /** Adding 2^64 changes none of the eight bytes. */
  lemma TwosComplement(seed: Int64, u: nat)
    requires u == if seed < 0 then seed + 0x1_0000_0000_0000_0000 else seed
    ensures seed % 256 == u % 256 && seed / 0x100 % 256 == u / 0x100 % 256
    ensures seed / 0x1_0000 % 256 == u / 0x1_0000 % 256 && seed / 0x100_0000 % 256 == u / 0x100_0000 % 256
    ensures seed / 0x1_0000_0000 % 256 == u / 0x1_0000_0000 % 256
    ensures seed / 0x100_0000_0000 % 256 == u / 0x100_0000_0000 % 256
    ensures seed / 0x1_0000_0000_0000 % 256 == u / 0x1_0000_0000_0000 % 256
    ensures seed / 0x100_0000_0000_0000 % 256 == u / 0x100_0000_0000_0000 % 256
  {
    if seed < 0 {
      LowBits(0x100_0000_0000_0000, seed);
      SameByte(seed, u, 0x100, 0x1_0000_0000_0000);
      SameByte(seed, u, 0x1_0000, 0x100_0000_0000);
      SameByte(seed, u, 0x100_0000, 0x1_0000_0000);
      SameByte(seed, u, 0x1_0000_0000, 0x100_0000);
      SameByte(seed, u, 0x100_0000_0000, 0x1_0000);
      SameByte(seed, u, 0x1_0000_0000_0000, 0x100);
      SameByte(seed, u, 0x100_0000_0000_0000, 1);
    }
  }

  /** The two words of a seed, and its eight bytes. */
  lemma HalvesAreSeed(bs: seq<Byte>, seed: Int64, u: nat, lo: Word, hi: Word)
    requires 60 <= |bs| && u == (if seed < 0 then seed + 0x1_0000_0000_0000_0000 else seed)
    requires lo == u % 0x1_0000_0000 && hi == u / 0x1_0000_0000
    ensures SeedAt(bs, 52, seed) <==> (WordAt(bs, 52, lo) && WordAt(bs, 56, hi))
  {
    LowHalf(u);
    HighHalf(u);
    TwosComplement(seed, u);
    TopByte(u);
  }

  lemma TopByte(u: nat)
    requires u < 0x1_0000_0000_0000_0000
    ensures u / 0x100_0000_0000_0000 % 256 == u / 0x100_0000_0000_0000
  {}

  lemma SeedIs(bs: seq<Byte>, seed: Int64)
    requires 60 <= |bs|
    ensures SeedAt(bs, 52, seed) <==> bs[52..60] == SeedBytes(seed)
  {
    hide SeedAt, WordAt, WordBytes;
    var u: nat := if seed < 0 then seed + 0x1_0000_0000_0000_0000 else seed;
    var lo: Word, hi: Word := u % 0x1_0000_0000, u / 0x1_0000_0000;
    HalvesAreSeed(bs, seed, u, lo, hi);
    WordAtIsBytes(bs, 52, lo);
    WordAtIsBytes(bs, 56, hi);
    SameHalves(bs[52..56], bs[56..60], WordBytes(lo), WordBytes(hi));
    assert bs[52..60] == bs[52..56] + bs[56..60];
  }

  lemma LevelsAre(bs: seq<Byte>, links: Links)
    requires 60 + |links| <= |bs| && forall a :: 0 <= a < |links| ==> |links[a]| < 256
    ensures LevelsAt(bs, 60, links) <==> bs[60..60 + |links|] == LevelBytes(LevelsOf(links))
  {
    hide ByteOf, LevelBytes, LevelsOf;
    var got, want := bs[60..60 + |links|], LevelBytes(LevelsOf(links));
    forall a | 0 <= a < |links| ensures got[a] == bs[60 + a] && want[a] == |links[a]| {
      SmallByte(|links[a]|);
    }
  }

  lemma HeadIsFront(bs: seq<Byte>, im: Image)
    requires Writable(im)
    ensures SettingsFit(im)
    ensures (HeadAt(bs, im) && LevelsAt(bs, 60, im.links)) <==> FrontOf(im) <= bs
  {
    hide Bytes, SeedBytes, LevelBytes, LevelsOf, MagicAt, SeedAt, WordAt, WordsAt, LevelsAt, ToWord, FlagsOf;
    var h := HeaderFor(im);
    HeaderValues(im);
    FourBlocks(bs, MAGIC, Bytes(h.Fields()), SeedBytes(im.seed), LevelBytes(LevelsOf(im.links)));
    if |bs| >= 60 + |im.links| {
      MagicIs(bs);
      ElevenWords(bs, h.Fields());
      WordsAtIsBytes(bs, 8, h.Fields());
      SeedIs(bs, im.seed);
      LevelsAre(bs, im.links);
    } else {
      LevelsNeedRoom(bs, im.links);
    }
  }

  lemma LevelsNeedRoom(bs: seq<Byte>, links: Links)
    requires |bs| < 60 + |links|
    ensures !LevelsAt(bs, 60, links)
  {}

  lemma HeaderValues(im: Image)
    requires Writable(im)
    ensures SettingsFit(im)
    ensures var h := HeaderFor(im);
      && h.version == 1 && h.dim == im.dim && h.count == |im.links|
      && h.m == im.par.m && h.mMax == im.par.mMax && h.mMax0 == im.par.mMax0
      && h.efConstruct == im.par.efConstruct && h.efSearch == im.efSearch
      && h.maxLevel == im.maxLevel && h.entry == im.entry
      && h.flags == (if im.singleLayer then 1 else 0) + (if im.par.nearestM then 2 else 0)
  {}

  // ---------- The whole file ----------

  lemma WritableIsSmall(im: Image)
    requires Writable(im)
    ensures SmallLists(im.links)
  {
    forall a, lc | 0 <= a < |im.links| && 0 <= lc < |im.links[a]| ensures SmallList(im.links[a][lc]) {
      assert Occupies(im.links, a, lc);
    }
  }

  lemma FromIs(bs: seq<Byte>, at: nat, b: seq<Byte>)
    ensures b <= From(bs, at) && at <= |bs| <==> (at + |b| <= |bs| && bs[at..at + |b|] == b)
  {
    if at <= |bs| && b <= From(bs, at) { assert From(bs, at)[..|b|] == bs[at..at + |b|]; }
    if at + |b| <= |bs| && bs[at..at + |b|] == b { assert From(bs, at)[..|b|] == bs[at..at + |b|]; }
  }

  /** What is written of an index is its layout: a byte string begins with the one
  exactly when it is laid out as the other. */
  lemma EncodingIsLayout(bs: seq<Byte>, im: Image)
    requires Writable(im)
    ensures SettingsFit(im) && (LaidOut(bs, im) <==> Encode(im) <= bs)
  {
    hide HeadAt, LevelsAt, GraphAt, WordsAt, FrontBytes, HeaderFor, Bytes, GraphWords, NodeBytes, Writable, From;
    HeadIsFront(bs, im);
    WritableIsSmall(im);
    var at := 60 + |im.links|;
    GraphAtIsWords(bs, at, im.links);
    WordsAtSplit(bs, at, GraphWords(im.links), im.data);
    WordsAtIsBytes(bs, at, Body(im));
    BytesSplitAt(bs, FrontOf(im), Bytes(Body(im)));
    FromIs(bs, at, Bytes(Body(im)));
  }

  /** How long a saved index is. */
  lemma EncodingLength(im: Image)
    requires Writable(im)
    ensures SettingsFit(im) && |Encode(im)| == 60 + |im.links| + NodeBytes(im.links) + 4 * |im.data|
  {
    hide HeaderFor, FrontBytes, Bytes, GraphWords, NodeBytes;
    HeaderValues(im);
    WritableIsSmall(im);
    GraphAtIsWords([], 0, im.links);
  }

  // ---------- What loads ----------

  /** The bounds the loader checks, in numbers: at least one vector and dimension;
  no more than 2^31 coordinates, and a quarter of the platform's largest int; IDs
  of 31 bits; 2 <= M, and M no more than the caps and efConstruction; the settings
  and the platform; fewer than 255 levels above the bottom; the entry on the top
  level, nobody above it; lists no longer than their caps or the node count, of
  nodes that occupy the layer. */
  ghost predicate Loadable(im: Image, maxInt: nat) {
    && 1 <= im.dim && 1 <= |im.links| <= 0x7FFF_FFFF
    && |im.data| == im.dim * |im.links| && |im.data| <= 0x8000_0000 && 4 * |im.data| <= maxInt
    && 2 <= im.par.m && im.par.m <= im.par.mMax && im.par.m <= im.par.mMax0 && im.par.m <= im.par.efConstruct
    && im.par.mMax <= 0xFFFF_FFFF && im.par.mMax0 <= 0xFFFF_FFFF && im.par.efConstruct <= 0xFFFF_FFFF
    && 0 <= im.efSearch <= 0xFFFF_FFFF
    && im.par.mMax <= maxInt && im.par.mMax0 <= maxInt && im.par.efConstruct <= maxInt && im.efSearch <= maxInt
    && im.entry < |im.links| && im.maxLevel <= 254 && (im.singleLayer ==> im.maxLevel == 0)
    && (forall a :: 0 <= a < |im.links| ==> 1 <= |im.links[a]| <= im.maxLevel + 1)
    && |im.links[im.entry]| == im.maxLevel + 1
    && forall a: nat, lc: nat :: Occupies(im.links, a, lc) ==> LoadableList(im, im.links[a][lc], lc)
  }

  ghost predicate LoadableList(im: Image, nbs: seq<nat>, lc: nat) {
    && |nbs| <= |im.links| && |nbs| <= (if lc == 0 then im.par.mMax0 else im.par.mMax)
    && forall j :: 0 <= j < |nbs| ==> nbs[j] < |im.links| && lc < |im.links[nbs[j]]|
  }

  lemma StorableIsLoadable(im: Image, maxInt: nat)
    ensures Storable(im, maxInt) <==> Loadable(im, maxInt)
  {
    if Storable(im, maxInt) {
      forall a: nat, lc: nat | Occupies(im.links, a, lc) ensures LoadableList(im, im.links[a][lc], lc) {
        assert ListWithin(im.links, im.links[a][lc], lc);
      }
    }
    if Loadable(im, maxInt) {
      forall a: nat, lc: nat | Occupies(im.links, a, lc)
        ensures ListWithin(im.links, im.links[a][lc], lc)
        ensures |im.links[a][lc]| <= |im.links| && |im.links[a][lc]| <= im.par.CapAt(lc)
      {
        assert LoadableList(im, im.links[a][lc], lc);
      }
    }
  }

  lemma LoadableIsWritable(im: Image, maxInt: nat)
    requires Loadable(im, maxInt)
    ensures Writable(im)
  {
    FactorsAreSmall(im.dim, |im.links|, 0x8000_0000);
    forall a: nat, lc: nat | Occupies(im.links, a, lc) ensures SmallList(im.links[a][lc]) {
      assert LoadableList(im, im.links[a][lc], lc);
    }
  }

  /** Exactly the byte strings that load: an index within the bounds, laid out at
  their beginning, all of whose words arrive. With a whole number of words behind
  the level counts all of them do; otherwise only whole blocks of 65536. */
  lemma FileFormat(bs: seq<Byte>, im: Image, maxInt: nat)
    ensures Load(bs, maxInt) == Ok(im) <==>
      (Loadable(im, maxInt) && LaidOut(bs, im)
       && var len := |bs| - 60 - |im.links|;
          NodeBytes(im.links) + 4 * |im.data| <= (if len % 4 == 0 then len else len / 262144 * 262144))
  {
    hide Storable, Loadable, LaidOut, Load, Encode, Writable, NodeBytes;
    LoadExact(bs, im, maxInt);
    StorableIsLoadable(im, maxInt);
    if Loadable(im, maxInt) {
      LoadableIsWritable(im, maxInt);
      EncodingIsLayout(bs, im);
      EncodingLength(im);
      EncodingIsWhole(im);
      if LaidOut(bs, im) { Arrives(|bs| - 60 - |im.links|, |Body(im)|); }
    }
  }

  lemma Arrives(len: nat, words: nat)
    ensures words <= Delivers(len) <==> 4 * words <= (if len % 4 == 0 then len else len / 262144 * 262144)
  {}

  // ---------- What is refused, and why ----------

  ghost predicate SizesInRange(h: Header, maxInt: nat) {
    && h.dim >= 1 && h.count >= 1 && h.count < 0x8000_0000
    && h.dim * h.count <= 0x8000_0000 && 4 * (h.dim * h.count) <= maxInt
  }

  ghost predicate CapsInOrder(h: Header) {
    h.m >= 2 && h.m <= h.mMax && h.m <= h.mMax0 && h.m <= h.efConstruct
  }

  ghost predicate WithinPlatform(h: Header, maxInt: nat) {
    h.mMax <= maxInt && h.mMax0 <= maxInt && h.efConstruct <= maxInt && h.efSearch <= maxInt
  }

  /** Why a header is refused: the first of the checks, in this order, that fails. */
  ghost predicate HeaderFault(e: LoadError, h: Header, maxInt: nat) {
    match e
    case NoVectors => h.dim == 0 || h.count == 0
    case TooLarge => h.dim >= 1 && h.count >= 1 && !SizesInRange(h, maxInt)
    case SmallM => SizesInRange(h, maxInt) && h.m <= 1
    case CapBelowM => SizesInRange(h, maxInt) && h.m >= 2 && !CapsInOrder(h)
    case ParameterTooLarge => SizesInRange(h, maxInt) && CapsInOrder(h) && !WithinPlatform(h, maxInt)
    case EntryOutOfRange =>
      SizesInRange(h, maxInt) && CapsInOrder(h) && WithinPlatform(h, maxInt) && h.entry >= h.count
    case BadMaxLevel =>
      && SizesInRange(h, maxInt) && CapsInOrder(h) && WithinPlatform(h, maxInt) && h.entry < h.count
      && (h.maxLevel >= 255 || (h.flags % 2 == 1 && h.maxLevel > 0))
    case UnknownFlags =>
      && SizesInRange(h, maxInt) && CapsInOrder(h) && WithinPlatform(h, maxInt) && h.entry < h.count
      && h.maxLevel < 255 && (h.flags % 2 == 1 ==> h.maxLevel == 0) && h.flags >= 4
    case _ => false
  }

  lemma HeaderRefuses(h: Header, maxInt: nat, e: LoadError)
    ensures CheckHeader(h, maxInt) == Bad(e) <==> HeaderFault(e, h, maxInt)
  {
    assert h.dim * h.count > maxInt / 4 <==> 4 * (h.dim * h.count) > maxInt;
  }

  /** Why level counts are refused: the first node on no level or above the top,
  or else an entry that is not on top. */
  ghost predicate LevelFault(e: LoadError, h: Header, levels: seq<nat>)
    requires |levels| == h.count && h.entry < h.count
  {
    match e
    case BadLevelCount(i) =>
      && i < |levels| && (levels[i] == 0 || levels[i] > h.maxLevel + 1)
      && forall j :: 0 <= j < i ==> 1 <= levels[j] <= h.maxLevel + 1
    case EntryNotOnTop =>
      (forall j :: 0 <= j < |levels| ==> 1 <= levels[j] <= h.maxLevel + 1) && levels[h.entry] <= h.maxLevel
    case _ => false
  }

  lemma {:induction false} LevelsRefuse(h: Header, levels: seq<nat>, i: nat, e: LoadError)
    requires |levels| == h.count && h.entry < h.count && i <= |levels|
    requires forall j :: 0 <= j < i ==> 1 <= levels[j] <= h.maxLevel + 1
    ensures CheckLevels(h, levels, i) == Bad(e) <==> LevelFault(e, h, levels)
    decreases |levels| - i
  {
    if i < |levels| && LevelFits(h, levels[i]) { LevelsRefuse(h, levels, i + 1, e); }
  }

  /** Bytes that are not those of an index, or of another version, are told apart
  from those that end too soon. */
  lemma FrontRefuses(bs: seq<Byte>, maxInt: nat)
    ensures ReadFront(bs, maxInt) == Refused(NotAnIndex) <==> |bs| >= 8 && !MagicAt(bs)
    ensures ReadFront(bs, maxInt) == Refused(OtherVersion) <==> MagicAt(bs) && |bs| >= 52 && !WordAt(bs, 8, 1)
    ensures |bs| < 8 || (MagicAt(bs) && |bs| < 52) || (MagicAt(bs) && |bs| < 60 && WordAt(bs, 8, 1))
      ==> ReadFront(bs, maxInt) == Refused(Truncated)
  {
    hide Words, WordAt, MagicAt, WordsAt, HeaderFits, Naturals, SeedOf;
    if |bs| >= 8 { MagicIs(bs); }
    if |bs| >= 52 {
      var ws := Words(bs[8..52]);
      VersionIs(bs, ws);
      HeaderErrors(HeaderOf(ws), maxInt);
      var n: nat := HeaderOf(ws).count;
      if |bs| >= HEAD + n { LevelErrors(HeaderOf(ws), Naturals(bs[HEAD..HEAD + n]), maxInt); }
    }
  }

  lemma VersionIs(bs: seq<Byte>, ws: seq<Word>)
    requires |bs| >= 52 && ws == Words(bs[8..52])
    ensures |ws| == 11 && (ws[0] == 1 <==> WordAt(bs, 8, 1))
  {
    FirstWord(bs[8..52]);
    assert bs[8..52][..4] == bs[8..12];
    WordAtIsBytes(bs, 8, 1);
    BytesOfWord(bs[8..12]);
    WordOfBytes(1);
    assert ws[0] == WordOf(bs[8..12]);
  }

  lemma HeaderErrors(h: Header, maxInt: nat)
    ensures var v := CheckHeader(h, maxInt); v.Bad? ==> v.error != NotAnIndex && v.error != OtherVersion
  {}

  lemma LevelErrors(h: Header, levels: seq<nat>, maxInt: nat)
    requires |levels| == h.count
    ensures HeaderFits(h, maxInt) ==>
      CheckLevels(h, levels, 0) != Bad(NotAnIndex) && CheckLevels(h, levels, 0) != Bad(OtherVersion)
  {
    if h.entry < h.count {
      LevelsRefuse(h, levels, 0, NotAnIndex);
      LevelsRefuse(h, levels, 0, OtherVersion);
    }
  }

  /** Why the IDs of a list are refused: all before one fit, and there that one is
  missing, is no node, or does not occupy the layer. */
  ghost predicate IdsFault(e: LoadError, levels: seq<nat>, node: nat, lc: nat, size: nat, ws: seq<Word>, j: nat) {
    && j < size && j <= |ws| && (forall i :: 0 <= i < j ==> IdFits(levels, lc, ws[i]))
    && (if j == |ws| then e == Truncated
        else if ws[j] >= |levels| then e == NoSuchNode(node, lc)
        else levels[ws[j]] <= lc && e == NotOnLayer(node, lc))
  }

  lemma {:induction false} IdsRefuse(
      par: Params, levels: seq<nat>, node: nat, lc: nat, size: nat, ws: seq<Word>, ids: seq<nat>) returns (j: nat)
    requires |ids| <= size && ParseIds(par, levels, node, lc, size, ws, ids).Fail?
    ensures IdsFault(ParseIds(par, levels, node, lc, size, ws, ids).error, levels, node, lc, size - |ids|, ws, j)
    decreases size - |ids|
  {
    j := 0;
    if ws != [] && IdFits(levels, lc, ws[0]) {
      j := IdsRefuse(par, levels, node, lc, size, ws[1..], ids + [ws[0]]);
      j := j + 1;
    }
  }

  /** Why a list is refused. */
  lemma ListRefuses(pass: Pass, par: Params, levels: seq<nat>, before: Links, lc: nat, ws: seq<Word>) returns (j: nat)
    requires HasBottom(before) && ParseList(pass, par, levels, before, lc, ws).Fail?
    ensures var e := ParseList(pass, par, levels, before, lc, ws).error;
      if ws == [] then e == Truncated
      else if ws[0] > |levels| || ws[0] > (if lc == 0 then par.mMax0 else par.mMax) then e == BadLength(|before|, lc)
      else if lc == 0 && !pass.Admits(before, ws[0]) then
        e == if pass.Measuring? then GraphTooLarge else LengthChanged(|before|)
      else IdsFault(e, levels, |before|, lc, ws[0], ws[1..], j)
  {
    hide Pass.Admits, IdsFault;
    j := 0;
    if ws != [] && ws[0] <= |levels| && ws[0] <= par.CapAt(lc) && (lc == 0 ==> pass.Admits(before, ws[0])) {
      j := IdsRefuse(par, levels, |before|, lc, ws[0], ws[1..], []);
    }
  }

  /** Where a node's lists, and a graph, are refused: at the first list that is. */
  lemma {:induction false} NodeRefuses(
      pass: Pass, par: Params, levels: seq<nat>, before: Links, ws: seq<Word>, per: seq<seq<nat>>)
    returns (read: seq<seq<nat>>, rest: seq<Word>)
    requires HasBottom(before) && |before| < |levels| < 0x1_0000_0000
    requires ParseNode(pass, par, levels, before, ws, per).Fail?
    ensures per <= read && |read| < levels[|before|] && NodeWords(per) + ws == NodeWords(read) + rest
    ensures ParseList(pass, par, levels, before, |read|, rest)
         == Fail(ParseNode(pass, par, levels, before, ws, per).error)
    decreases levels[|before|] - |per|
  {
    hide ParseList, ListWords, ListFits, Pass.Admits;
    var p := ParseList(pass, par, levels, before, |per|, ws);
    if p.Fail? {
      read, rest := per, ws;
    } else {
      ListExact(pass, par, levels, before, |per|, ws, p.value, p.rest);
      var more := per + [p.value];
      assert more[..|more| - 1] == per;
      read, rest := NodeRefuses(pass, par, levels, before, p.rest, more);
      assert NodeWords(per) + (ListWords(p.value) + p.rest) == (NodeWords(per) + ListWords(p.value)) + p.rest;
    }
  }

  lemma {:induction false} GraphRefuses(pass: Pass, par: Params, levels: seq<nat>, ws: seq<Word>, links: Links)
    returns (read: Links, per: seq<seq<nat>>, rest: seq<Word>)
    requires HasBottom(links) && EveryNodeHasALevel(levels) && |links| <= |levels| < 0x1_0000_0000
    requires ParseGraph(pass, par, levels, ws, links).Fail?
    ensures links <= read && |read| < |levels| && HasBottom(read) && |per| < levels[|read|]
    ensures GraphWords(links) + ws == GraphWords(read) + NodeWords(per) + rest
    ensures ParseList(pass, par, levels, read, |per|, rest) == Fail(ParseGraph(pass, par, levels, ws, links).error)
    decreases |levels| - |links|
  {
    hide ParseNode, NodeWords, NodeFits, ParseList;
    var p := ParseNode(pass, par, levels, links, ws, []);
    if p.Fail? {
      NoLists();
      read := links;
      per, rest := NodeRefuses(pass, par, levels, links, ws, []);
      assert NodeWords([]) + ws == ws;
      assert GraphWords(links) + (NodeWords(per) + rest) == GraphWords(links) + NodeWords(per) + rest;
    } else {
      NodeExact(pass, par, levels, links, ws, p.value, p.rest);
      var more := links + [p.value];
      assert more[..|more| - 1] == links;
      read, per, rest := GraphRefuses(pass, par, levels, p.rest, more);
      assert GraphWords(links) + (NodeWords(p.value) + p.rest) == (GraphWords(links) + NodeWords(p.value)) + p.rest;
    }
  }

  lemma NoLists()
    ensures NodeWords([]) == []
  {}
}
