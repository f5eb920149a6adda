/** The whole index file: header, level counts, graph and vectors. What `Save`
writes of an index and what `LoadHNSWWithOptions` reads back, as functions on
bytes, from `internal/index/store.go`. Vectors stay the 32-bit words they are
stored as. */
module IndexFile {
  import opened LittleEndian
  import opened Streams
  import opened Graph
  import opened Packing
  import opened Format

  const MAGIC: seq<Byte> := [70, 65, 83, 84, 86, 69, 67, 1]
  const VERSION: Word := 1
  const MAX_ELEMENTS := 0x8000_0000
  const MAX_COUNT := 0x7FFF_FFFF
  const MAX_WORD := 0xFFFF_FFFF
  const HEAD := 60

  /** Everything about an index that its file holds. */
  datatype Image = Image(
    dim: nat, data: seq<Word>, par: Params, singleLayer: bool, seed: Int64,
    efSearch: int, links: Links, entry: nat, maxLevel: nat)

  datatype Header = Header(
    version: Word, dim: Word, count: Word, m: Word, mMax: Word, mMax0: Word,
    efConstruct: Word, efSearch: Word, maxLevel: Word, entry: Word, flags: Word) {

    function Fields(): (ws: seq<Word>)
      ensures |ws| == 11
    {
      [version, dim, count, m, mMax, mMax0, efConstruct, efSearch, maxLevel, entry, flags]
    }

    function Pars(): (p: Params) {
      Params(m, mMax, mMax0, efConstruct, flags / 2 % 2 != 0)
    }

    function Single(): bool {
      flags % 2 != 0
    }
  }

  function HeaderOf(ws: seq<Word>): (h: Header)
    requires |ws| == 11
  {
    Header(ws[0], ws[1], ws[2], ws[3], ws[4], ws[5], ws[6], ws[7], ws[8], ws[9], ws[10])
  }

  // ---------- Writing ----------

  datatype Setting = M | MMax | MMax0 | EfConstruction | EfSearch
  datatype SaveError = Unrepresentable(setting: Setting) | TooManyLevels(levels: nat)

  predicate FitsWord(n: int) {
    0 <= n <= MAX_WORD
  }

  /** Only these five settings are checked before anything is written. */
  predicate SettingsFit(im: Image) {
    && FitsWord(im.par.m) && FitsWord(im.par.mMax) && FitsWord(im.par.mMax0)
    && FitsWord(im.par.efConstruct) && FitsWord(im.efSearch)
  }

  predicate LevelsFit(links: Links) {
    forall i :: 0 <= i < |links| ==> |links[i]| <= 255
  }

  function FlagsOf(singleLayer: bool, nearestM: bool): (f: Word) {
    (if singleLayer then 1 else 0) + (if nearestM then 2 else 0)
  }

  function HeaderFor(im: Image): (h: Header)
    requires SettingsFit(im)
  {
    Header(VERSION, ToWord(im.dim), ToWord(|im.links|), im.par.m, im.par.mMax, im.par.mMax0,
           im.par.efConstruct, im.efSearch, ToWord(im.maxLevel), ToWord(im.entry),
           FlagsOf(im.singleLayer, im.par.nearestM))
  }

  /** How many levels each node occupies. */
  function LevelsOf(links: Links): (levels: seq<nat>)
    ensures |levels| == |links| && forall i :: 0 <= i < |links| ==> levels[i] == |links[i]|
  {
    if links == [] then [] else LevelsOf(links[..|links| - 1]) + [|links[|links| - 1]|]
  }

  function LevelBytes(levels: seq<nat>): (bs: seq<Byte>)
    ensures |bs| == |levels| && forall i :: 0 <= i < |levels| ==> bs[i] == ByteOf(levels[i])
  {
    if levels == [] then [] else LevelBytes(levels[..|levels| - 1]) + [ByteOf(levels[|levels| - 1])]
  }

  function FrontBytes(h: Header, seed: Int64, levels: seq<nat>): (bs: seq<Byte>)
    ensures |bs| == HEAD + |levels|
  {
    MAGIC + Bytes(h.Fields()) + SeedBytes(seed) + LevelBytes(levels)
  }

  function FrontOf(im: Image): (bs: seq<Byte>)
    requires SettingsFit(im)
    ensures |bs| == HEAD + |im.links|
  {
    FrontBytes(HeaderFor(im), im.seed, LevelsOf(im.links))
  }

  function Body(im: Image): (ws: seq<Word>) {
    GraphWords(im.links) + im.data
  }

  function Encode(im: Image): (bs: seq<Byte>)
    requires SettingsFit(im)
  {
    FrontOf(im) + Bytes(Body(im))
  }

  // ---------- Reading ----------

  datatype Verdict = Fine | Bad(error: LoadError)

  /** The header checks, in the order they are made. `maxInt` is the largest
  `int` of the platform. */
  function CheckHeader(h: Header, maxInt: nat): (v: Verdict)
    ensures v.Fine? <==> HeaderFits(h, maxInt)
  {
    if h.dim == 0 || h.count == 0 then Bad(NoVectors)
    else if h.dim * h.count > MAX_ELEMENTS || h.dim * h.count > maxInt / 4 || h.count > MAX_COUNT then Bad(TooLarge)
    else if h.m < 2 then Bad(SmallM)
    else if h.mMax < h.m || h.mMax0 < h.m || h.efConstruct < h.m then Bad(CapBelowM)
    else if h.m > maxInt || h.mMax > maxInt || h.mMax0 > maxInt || h.efConstruct > maxInt || h.efSearch > maxInt
      then Bad(ParameterTooLarge)
    else if h.entry >= h.count then Bad(EntryOutOfRange)
    else if h.maxLevel >= 255 || (h.Single() && h.maxLevel != 0) then Bad(BadMaxLevel)
    else if h.flags > 3 then Bad(UnknownFlags)
    else Fine
  }

  predicate HeaderFits(h: Header, maxInt: nat) {
    && 1 <= h.dim && 1 <= h.count <= MAX_COUNT
    && h.dim * h.count <= MAX_ELEMENTS && h.dim * h.count <= maxInt / 4
    && h.Pars().Valid()
    && h.m <= maxInt && h.mMax <= maxInt && h.mMax0 <= maxInt && h.efConstruct <= maxInt && h.efSearch <= maxInt
    && h.entry < h.count && h.maxLevel < 255 && (h.Single() ==> h.maxLevel == 0) && h.flags <= 3
  }

  predicate LevelFits(h: Header, n: nat) {
    1 <= n <= h.maxLevel + 1
  }

  /** The level counts, from node i on; then that the entry is on top. */
  function CheckLevels(h: Header, levels: seq<nat>, i: nat): (v: Verdict)
    requires |levels| == h.count && h.entry < h.count && i <= |levels|
    decreases |levels| - i
  {
    if i < |levels| then
      if LevelFits(h, levels[i]) then CheckLevels(h, levels, i + 1) else Bad(BadLevelCount(i))
    else if levels[h.entry] == h.maxLevel + 1 then Fine else Bad(EntryNotOnTop)
  }

  predicate LevelsAgree(h: Header, levels: seq<nat>) {
    && |levels| == h.count && h.entry < h.count
    && (forall i :: 0 <= i < |levels| ==> LevelFits(h, levels[i]))
    && levels[h.entry] == h.maxLevel + 1
  }

  lemma {:induction false} LevelsChecked(h: Header, levels: seq<nat>, i: nat)
    requires |levels| == h.count && h.entry < h.count && i <= |levels|
    requires forall j :: 0 <= j < i ==> LevelFits(h, levels[j])
    ensures CheckLevels(h, levels, i).Fine? <==> LevelsAgree(h, levels)
    decreases |levels| - i
  {
    if i < |levels| && LevelFits(h, levels[i]) { LevelsChecked(h, levels, i + 1); }
  }

  function Naturals(bs: seq<Byte>): (levels: seq<nat>)
    ensures |levels| == |bs| && forall i :: 0 <= i < |bs| ==> levels[i] == bs[i]
  {
    if bs == [] then [] else Naturals(bs[..|bs| - 1]) + [bs[|bs| - 1]]
  }

  datatype Front = Front(h: Header, seed: Int64, levels: seq<nat>) | Refused(error: LoadError)

  function ReadFront(bs: seq<Byte>, maxInt: nat): (f: Front)
    ensures f.Front? ==> HeaderFits(f.h, maxInt) && LevelsAgree(f.h, f.levels)
  {
    if |bs| < 8 then Refused(Truncated)
    else if bs[..8] != MAGIC then Refused(NotAnIndex)
    else if |bs| < 52 then Refused(Truncated)
    else
      var h := HeaderOf(Words(bs[8..52]));
      if h.version != VERSION then Refused(OtherVersion)
      else if |bs| < HEAD then Refused(Truncated)
      else if CheckHeader(h, maxInt).Bad? then Refused(CheckHeader(h, maxInt).error)
      else if |bs| < HEAD + h.count then Refused(Truncated)
      else
        var levels := Naturals(bs[HEAD..HEAD + h.count]);
        LevelsChecked(h, levels, 0);
        if CheckLevels(h, levels, 0).Bad? then Refused(CheckLevels(h, levels, 0).error)
        else Front(h, SeedOf(bs[52..HEAD]), levels)
  }

  datatype Loaded = Ok(image: Image) | Failed(error: LoadError)

  function ImageOf(h: Header, seed: Int64, links: Links, data: seq<Word>): (im: Image) {
    Image(h.dim, data, h.Pars(), h.Single(), seed, h.efSearch, links, h.entry, h.maxLevel)
  }

  /** The graph, then as many vector words as the header announces. Nothing is
  asked of what follows them. */
  function ReadBody(pass: Pass, f: Front, ws: seq<Word>): (r: Loaded)
    requires f.Front? && LevelsAgree(f.h, f.levels)
  {
    match ParseGraph(pass, f.h.Pars(), f.levels, ws, [])
    case Fail(e) => Failed(e)
    case Done(links, rest) =>
      var elements: nat := f.h.dim * f.h.count;
      if |rest| < elements then Failed(Truncated)
      else Ok(ImageOf(f.h, f.seed, links, rest[..elements]))
  }

  /** One pass over the input. */
  function Load(bs: seq<Byte>, maxInt: nat): (r: Loaded) {
    match ReadFront(bs, maxInt)
    case Refused(e) => Failed(e)
    case Front(h, seed, levels) => ReadBody(Plain, Front(h, seed, levels), Arriving(From(bs, HEAD + h.count)))
  }

  function OffsetsTo(links: Links, n: nat): (offsets: seq<nat>)
    requires HasBottom(links) && n <= |links|
    ensures |offsets| == n + 1 && forall i :: 0 <= i <= n ==> offsets[i] == Total(links, i)
  {
    if n == 0 then [0] else OffsetsTo(links, n - 1) + [Total(links, n)]
  }

  /** Two passes over the graph: the first measures the packed layer, the second
  fills it, reading what the input holds by then. */
  function LoadTwice(bs: seq<Byte>, again: seq<Byte>, maxInt: nat): (r: Loaded) {
    match ReadFront(bs, maxInt)
    case Refused(e) => Failed(e)
    case Front(h, seed, levels) =>
      match ParseGraph(Measuring(maxInt / 4), h.Pars(), levels, Arriving(From(bs, HEAD + h.count)), [])
      case Fail(e) => Failed(e)
      case Done(first, _) =>
        ReadBody(Repeating(OffsetsTo(first, |first|)), Front(h, seed, levels), Arriving(From(again, HEAD + h.count)))
  }
}
