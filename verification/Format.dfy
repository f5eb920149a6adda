/** The graph section of the index file: how lists become words, how the loader
reads and checks them back, and that the two are exact inverses. Modelled on
`Save`, `LoadHNSWWithOptions` and `scanBottomOffsets` of
`internal/index/store.go`. */
module Format {
  import opened LittleEndian
  import opened Graph
  import opened Packing

  datatype LoadError =
    | Truncated
    | NotAnIndex
    | OtherVersion
    | NoVectors
    | TooLarge
    | SmallM
    | CapBelowM
    | ParameterTooLarge
    | EntryOutOfRange
    | BadMaxLevel
    | UnknownFlags
    | BadLevelCount(node: nat)
    | EntryNotOnTop
    | BadLength(node: nat, level: nat)
    | NoSuchNode(node: nat, level: nat)
    | NotOnLayer(node: nat, level: nat)
    | GraphTooLarge
    | LengthChanged(node: nat)

  // ---------- Writing ----------

  function IdWords(nbs: seq<nat>): (ws: seq<Word>)
    ensures |ws| == |nbs| && forall j :: 0 <= j < |nbs| ==> ws[j] == ToWord(nbs[j])
  {
    if nbs == [] then [] else IdWords(nbs[..|nbs| - 1]) + [ToWord(nbs[|nbs| - 1])]
  }

  /** One list: its length, then its IDs. */
  function ListWords(nbs: seq<nat>): (ws: seq<Word>) {
    [ToWord(|nbs|)] + IdWords(nbs)
  }

  /** One node: its lists from the bottom layer up. */
  function NodeWords(per: seq<seq<nat>>): (ws: seq<Word>) {
    if per == [] then [] else NodeWords(per[..|per| - 1]) + ListWords(per[|per| - 1])
  }

  function GraphWords(links: Links): (ws: seq<Word>) {
    if links == [] then [] else GraphWords(links[..|links| - 1]) + NodeWords(links[|links| - 1])
  }

  // ---------- Reading ----------

  /** What a pass over the graph asks of a bottom list beyond the format's own
  checks: nothing; that the packed layer stays allocatable; that the list is as
  long as an earlier pass found it. */
  datatype Pass = Plain | Measuring(limit: nat) | Repeating(offsets: seq<nat>) {
    predicate Admits(before: Links, size: nat)
      requires HasBottom(before)
    {
      match this
      case Plain => true
      case Measuring(limit) => Total(before, |before|) + size <= limit
      case Repeating(offsets) => |before| + 1 < |offsets| && offsets[|before|] + size == offsets[|before| + 1]
    }

    function Complaint(node: nat): (e: LoadError) {
      if this.Measuring? then GraphTooLarge else LengthChanged(node)
    }
  }

  datatype Parsed<T> = Done(value: T, rest: seq<Word>) | Fail(error: LoadError)

  function ParseIds(
      par: Params, levels: seq<nat>, node: nat, lc: nat, size: nat, ws: seq<Word>, ids: seq<nat>): (p: Parsed<seq<nat>>)
    decreases size - |ids|
  {
    if |ids| >= size then Done(ids, ws)
    else if ws == [] then Fail(Truncated)
    else if ws[0] >= |levels| then Fail(NoSuchNode(node, lc))
    else if levels[ws[0]] <= lc then Fail(NotOnLayer(node, lc))
    else ParseIds(par, levels, node, lc, size, ws[1..], ids + [ws[0]])
  }

  function ParseList(
      pass: Pass, par: Params, levels: seq<nat>, before: Links, lc: nat, ws: seq<Word>): (p: Parsed<seq<nat>>)
    requires HasBottom(before)
  {
    if ws == [] then Fail(Truncated)
    else if ws[0] > |levels| || ws[0] > par.CapAt(lc) then Fail(BadLength(|before|, lc))
    else if lc == 0 && !pass.Admits(before, ws[0]) then Fail(pass.Complaint(|before|))
    else ParseIds(par, levels, |before|, lc, ws[0], ws[1..], [])
  }

  function ParseNode(
      pass: Pass, par: Params, levels: seq<nat>, before: Links, ws: seq<Word>,
      per: seq<seq<nat>>): (p: Parsed<seq<seq<nat>>>)
    requires HasBottom(before) && |before| < |levels|
    ensures p.Done? ==> |p.value| >= levels[|before|]
    decreases levels[|before|] - |per|
  {
    if |per| >= levels[|before|] then Done(per, ws)
    else
      match ParseList(pass, par, levels, before, |per|, ws)
      case Fail(e) => Fail(e)
      case Done(ids, rest) => ParseNode(pass, par, levels, before, rest, per + [ids])
  }

  function ParseGraph(pass: Pass, par: Params, levels: seq<nat>, ws: seq<Word>, links: Links): (p: Parsed<Links>)
    requires HasBottom(links) && EveryNodeHasALevel(levels)
    ensures p.Done? ==> HasBottom(p.value)
    decreases |levels| - |links|
  {
    if |links| >= |levels| then Done(links, ws)
    else
      match ParseNode(pass, par, levels, links, ws, [])
      case Fail(e) => Fail(e)
      case Done(per, rest) => ParseGraph(pass, par, levels, rest, links + [per])
  }

  predicate EveryNodeHasALevel(levels: seq<nat>) {
    forall i :: 0 <= i < |levels| ==> 1 <= levels[i]
  }

  // ---------- What is accepted ----------

  predicate IdFits(levels: seq<nat>, lc: nat, id: nat) {
    id < |levels| && lc < levels[id]
  }

  predicate ListFits(par: Params, levels: seq<nat>, lc: nat, nbs: seq<nat>) {
    && |nbs| <= |levels| && |nbs| <= par.CapAt(lc)
    && forall j :: 0 <= j < |nbs| ==> IdFits(levels, lc, nbs[j])
  }

  predicate NodeFits(pass: Pass, par: Params, levels: seq<nat>, before: Links, per: seq<seq<nat>>) {
    && HasBottom(before) && |before| < |levels| && |per| == levels[|before|]
    && (forall lc :: 0 <= lc < |per| ==> ListFits(par, levels, lc, per[lc]))
    && (|per| > 0 ==> pass.Admits(before, |per[0]|))
  }

  predicate GraphFits(pass: Pass, par: Params, levels: seq<nat>, links: Links) {
    forall i :: 0 <= i < |links| ==> NodeFits(pass, par, levels, links[..i], links[i])
  }

  // ---------- Reading and writing are inverse ----------

  lemma IdsHead(v: seq<nat>)
    requires v != []
    ensures IdWords(v) == [ToWord(v[0])] + IdWords(v[1..])
  {}

  /** Reading on from `ids` ends with `v`, and leaves `rest`. */
  predicate IdsRead(levels: seq<nat>, lc: nat, size: nat, ws: seq<Word>, ids: seq<nat>, v: seq<nat>, rest: seq<Word>) {
    && |v| == size && ids <= v
    && (forall j :: |ids| <= j < size ==> IdFits(levels, lc, v[j]))
    && ws == IdWords(v[|ids|..]) + rest
  }

  lemma IdsReadStep(levels: seq<nat>, lc: nat, size: nat, ws: seq<Word>, ids: seq<nat>, v: seq<nat>, rest: seq<Word>)
    requires |levels| < 0x1_0000_0000 && |ids| < size
    ensures IdsRead(levels, lc, size, ws, ids, v, rest)
       <==> (ws != [] && IdFits(levels, lc, ws[0]) && IdsRead(levels, lc, size, ws[1..], ids + [ws[0]], v, rest))
  {
    hide IdWords;
    if |v| == size && ids <= v {
      IdsHead(v[|ids|..]);
      assert v[|ids|..][1..] == v[|ids| + 1..];
      if IdsRead(levels, lc, size, ws, ids, v, rest) {
        assert IdFits(levels, lc, v[|ids|]);
        assert ws[1..] == IdWords(v[|ids| + 1..]) + rest;
      }
    }
    if ws != [] && IdFits(levels, lc, ws[0]) && IdsRead(levels, lc, size, ws[1..], ids + [ws[0]], v, rest) {
      assert v[|ids|] == (ids + [ws[0]])[|ids|];
      assert ids <= ids + [ws[0]] <= v;
      assert ws == [ws[0]] + ws[1..];
    }
  }

  lemma IdsReadAll(levels: seq<nat>, lc: nat, ws: seq<Word>, ids: seq<nat>, v: seq<nat>, rest: seq<Word>)
    ensures IdsRead(levels, lc, |ids|, ws, ids, v, rest) <==> v == ids && ws == rest
  {
    if |v| == |ids| && ids <= v { assert v == ids; }
  }

  lemma {:induction false} IdsExact(
      par: Params, levels: seq<nat>, node: nat, lc: nat, size: nat, ws: seq<Word>, ids: seq<nat>, v: seq<nat>,
      rest: seq<Word>)
    requires |levels| < 0x1_0000_0000 && |ids| <= size
    ensures ParseIds(par, levels, node, lc, size, ws, ids) == Done(v, rest)
       <==> IdsRead(levels, lc, size, ws, ids, v, rest)
    decreases size - |ids|
  {
    hide IdsRead;
    if |ids| == size {
      IdsReadAll(levels, lc, ws, ids, v, rest);
    } else {
      IdsReadStep(levels, lc, size, ws, ids, v, rest);
      if ws != [] && IdFits(levels, lc, ws[0]) {
        IdsExact(par, levels, node, lc, size, ws[1..], ids + [ws[0]], v, rest);
      }
    }
  }

  lemma ListExact(
      pass: Pass, par: Params, levels: seq<nat>, before: Links, lc: nat, ws: seq<Word>, v: seq<nat>, rest: seq<Word>)
    requires HasBottom(before) && |levels| < 0x1_0000_0000
    ensures ParseList(pass, par, levels, before, lc, ws) == Done(v, rest)
       <==> (ListFits(par, levels, lc, v) && (lc == 0 ==> pass.Admits(before, |v|)) && ws == ListWords(v) + rest)
  {
    hide IdWords, ParseIds, Pass.Admits;
    if ws != [] {
      IdsExact(par, levels, |before|, lc, ws[0], ws[1..], [], v, rest);
      assert v[0..] == v;
      assert ws == [ws[0]] + ws[1..];
      if ws == ListWords(v) + rest && ListFits(par, levels, lc, v) {
        assert ws[0] == |v| && ws[1..] == IdWords(v) + rest;
      }
      if ws[0] == |v| && ws[1..] == IdWords(v) + rest && |v| <= |levels| {
        assert ws == ListWords(v) + rest;
      }
    }
  }

  lemma {:induction false} NodeHead(per: seq<seq<nat>>)
    requires per != []
    ensures NodeWords(per) == ListWords(per[0]) + NodeWords(per[1..])
  {
    hide ListWords;
    if |per| > 1 {
      NodeHead(per[..|per| - 1]);
      assert per[..|per| - 1][1..] == per[1..][..|per| - 2];
    }
  }

  /** The remaining lists of one node. */
  predicate NodeRead(
      pass: Pass, par: Params, levels: seq<nat>, before: Links, ws: seq<Word>, per: seq<seq<nat>>, v: seq<seq<nat>>,
      rest: seq<Word>) {
    && HasBottom(before) && |before| < |levels| && |v| == levels[|before|] && per <= v
    && (forall lc :: |per| <= lc < |v| ==> ListFits(par, levels, lc, v[lc]))
    && (|per| == 0 < |v| ==> pass.Admits(before, |v[0]|))
    && ws == NodeWords(v[|per|..]) + rest
  }

  lemma NodeReadStep(
      pass: Pass, par: Params, levels: seq<nat>, before: Links, ws: seq<Word>, per: seq<seq<nat>>, v: seq<seq<nat>>,
      rest: seq<Word>)
    requires HasBottom(before) && |before| < |levels| < 0x1_0000_0000 && |per| < levels[|before|]
    ensures var p := ParseList(pass, par, levels, before, |per|, ws);
      NodeRead(pass, par, levels, before, ws, per, v, rest)
      <==> (p.Done? && NodeRead(pass, par, levels, before, p.rest, per + [p.value], v, rest))
  {
    hide NodeWords, ListWords, ListFits, Pass.Admits, ParseList;
    var p := ParseList(pass, par, levels, before, |per|, ws);
    if NodeRead(pass, par, levels, before, ws, per, v, rest) {
      NodeHead(v[|per|..]);
      assert v[|per|..][1..] == v[|per| + 1..];
      var tail := NodeWords(v[|per| + 1..]) + rest;
      assert ws == ListWords(v[|per|]) + tail;
      ListExact(pass, par, levels, before, |per|, ws, v[|per|], tail);
    }
    if p.Done? && NodeRead(pass, par, levels, before, p.rest, per + [p.value], v, rest) {
      ListExact(pass, par, levels, before, |per|, ws, p.value, p.rest);
      assert v[|per|] == (per + [p.value])[|per|];
      assert per <= per + [p.value] <= v;
      NodeHead(v[|per|..]);
      assert v[|per|..][1..] == v[|per| + 1..];
    }
  }

  lemma NodeReadAll(
      pass: Pass, par: Params, levels: seq<nat>, before: Links, ws: seq<Word>, per: seq<seq<nat>>, v: seq<seq<nat>>,
      rest: seq<Word>)
    requires HasBottom(before) && |before| < |levels| && |per| == levels[|before|] > 0
    ensures NodeRead(pass, par, levels, before, ws, per, v, rest) <==> v == per && ws == rest
  {
    if |v| == |per| && per <= v { assert v == per; }
  }

  lemma {:induction false} NodeReadExact(
      pass: Pass, par: Params, levels: seq<nat>, before: Links, ws: seq<Word>, per: seq<seq<nat>>, v: seq<seq<nat>>,
      rest: seq<Word>)
    requires HasBottom(before) && |before| < |levels| < 0x1_0000_0000
    requires |per| <= levels[|before|] && levels[|before|] > 0
    ensures ParseNode(pass, par, levels, before, ws, per) == Done(v, rest)
       <==> NodeRead(pass, par, levels, before, ws, per, v, rest)
    decreases levels[|before|] - |per|
  {
    hide NodeRead, ParseList;
    if |per| == levels[|before|] {
      NodeReadAll(pass, par, levels, before, ws, per, v, rest);
    } else {
      NodeReadStep(pass, par, levels, before, ws, per, v, rest);
      var p := ParseList(pass, par, levels, before, |per|, ws);
      if p.Done? {
        NodeReadExact(pass, par, levels, before, p.rest, per + [p.value], v, rest);
      }
    }
  }

  lemma NodeExact(
      pass: Pass, par: Params, levels: seq<nat>, before: Links, ws: seq<Word>, v: seq<seq<nat>>, rest: seq<Word>)
    requires HasBottom(before) && |before| < |levels| < 0x1_0000_0000 && levels[|before|] > 0
    ensures ParseNode(pass, par, levels, before, ws, []) == Done(v, rest)
       <==> NodeFits(pass, par, levels, before, v) && ws == NodeWords(v) + rest
  {
    hide ListFits, NodeWords, Pass.Admits;
    NodeReadExact(pass, par, levels, before, ws, [], v, rest);
    assert v[0..] == v;
  }

  lemma {:induction false} GraphHead(links: Links)
    requires links != []
    ensures GraphWords(links) == NodeWords(links[0]) + GraphWords(links[1..])
  {
    hide NodeWords;
    if |links| > 1 {
      GraphHead(links[..|links| - 1]);
      assert links[..|links| - 1][1..] == links[1..][..|links| - 2];
    }
  }

  /** The remaining nodes of the graph. */
  predicate GraphRead(
      pass: Pass, par: Params, levels: seq<nat>, ws: seq<Word>, links: Links, v: Links, rest: seq<Word>) {
    && |v| == |levels| && links <= v
    && (forall i :: |links| <= i < |v| ==> NodeFits(pass, par, levels, v[..i], v[i]))
    && ws == GraphWords(v[|links|..]) + rest
  }

  lemma GraphReadStep(pass: Pass, par: Params, levels: seq<nat>, ws: seq<Word>, links: Links, v: Links, rest: seq<Word>)
    requires HasBottom(links) && EveryNodeHasALevel(levels) && |links| < |levels| < 0x1_0000_0000
    ensures var p := ParseNode(pass, par, levels, links, ws, []);
      GraphRead(pass, par, levels, ws, links, v, rest)
      <==> (p.Done? && GraphRead(pass, par, levels, p.rest, links + [p.value], v, rest))
  {
    hide NodeWords, GraphWords, NodeFits, ParseNode;
    var p := ParseNode(pass, par, levels, links, ws, []);
    if GraphRead(pass, par, levels, ws, links, v, rest) {
      GraphHead(v[|links|..]);
      assert v[|links|..][1..] == v[|links| + 1..];
      assert v[..|links|] == links;
      var tail := GraphWords(v[|links| + 1..]) + rest;
      assert ws == NodeWords(v[|links|]) + tail;
      NodeExact(pass, par, levels, links, ws, v[|links|], tail);
    }
    if p.Done? && GraphRead(pass, par, levels, p.rest, links + [p.value], v, rest) {
      NodeExact(pass, par, levels, links, ws, p.value, p.rest);
      assert v[|links|] == (links + [p.value])[|links|];
      assert links <= links + [p.value] <= v;
      assert v[..|links|] == links;
      GraphHead(v[|links|..]);
      assert v[|links|..][1..] == v[|links| + 1..];
    }
  }

  lemma GraphReadAll(pass: Pass, par: Params, levels: seq<nat>, ws: seq<Word>, links: Links, v: Links, rest: seq<Word>)
    requires |links| == |levels|
    ensures GraphRead(pass, par, levels, ws, links, v, rest) <==> v == links && ws == rest
  {
    if |v| == |links| && links <= v { assert v == links; }
  }

  lemma {:induction false} GraphReadExact(
      pass: Pass, par: Params, levels: seq<nat>, ws: seq<Word>, links: Links, v: Links, rest: seq<Word>)
    requires HasBottom(links) && EveryNodeHasALevel(levels) && |links| <= |levels| < 0x1_0000_0000
    ensures ParseGraph(pass, par, levels, ws, links) == Done(v, rest)
       <==> GraphRead(pass, par, levels, ws, links, v, rest)
    decreases |levels| - |links|
  {
    hide GraphRead, ParseNode;
    if |links| == |levels| {
      GraphReadAll(pass, par, levels, ws, links, v, rest);
    } else {
      GraphReadStep(pass, par, levels, ws, links, v, rest);
      var p := ParseNode(pass, par, levels, links, ws, []);
      if p.Done? {
        GraphReadExact(pass, par, levels, p.rest, links + [p.value], v, rest);
      }
    }
  }

  /** Reading succeeds with a graph exactly on the words that writing it yields,
  followed by anything, provided the graph fits the levels, caps and pass. */
  lemma GraphExact(pass: Pass, par: Params, levels: seq<nat>, ws: seq<Word>, links: Links, rest: seq<Word>)
    requires EveryNodeHasALevel(levels) && |levels| < 0x1_0000_0000
    ensures ParseGraph(pass, par, levels, ws, []) == Done(links, rest)
       <==> (|links| == |levels| && GraphFits(pass, par, levels, links) && ws == GraphWords(links) + rest)
  {
    hide NodeFits, GraphWords, ParseGraph;
    GraphReadExact(pass, par, levels, ws, [], links, rest);
    assert links[0..] == links;
  }
}
