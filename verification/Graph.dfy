/** The vectors, the layered adjacency lists, and what makes them sound to walk. */
module Graph {
  import opened Distance

  /** The vectors, each of the index's dimension. */
  datatype Dataset = Dataset(dim: nat, vecs: seq<seq<real>>) {
    ghost predicate Valid() {
      1 <= dim && forall i :: 0 <= i < |vecs| ==> |vecs[i]| == dim
    }

    function Len(): (n: nat) {
      |vecs|
    }

    function Between(a: nat, b: nat): (d: real)
      requires Valid() && a < Len() && b < Len()
    {
      L2Squared(vecs[a], vecs[b])
    }

    /** The distance of every vector to q. */
    function From(q: seq<real>): (d: seq<real>)
      requires Valid() && |q| == dim
      ensures |d| == Len()
      ensures forall i :: 0 <= i < Len() ==> d[i] == L2Squared(q, vecs[i])
    {
      FromFirst(q, Len())
    }

    function FromFirst(q: seq<real>, n: nat): (d: seq<real>)
      requires Valid() && |q| == dim && n <= Len()
      ensures |d| == n
      ensures forall i :: 0 <= i < n ==> d[i] == L2Squared(q, vecs[i])
    {
      if n == 0 then [] else FromFirst(q, n - 1) + [L2Squared(q, vecs[n - 1])]
    }

  }

  /** The source keeps one flat slice; vector i is its i-th window. */
  function Windows<T>(dim: nat, data: seq<T>): (w: seq<seq<T>>)
    requires 1 <= dim
    ensures forall i :: 0 <= i < |w| ==> |w[i]| == dim
  {
    if |data| < dim then [] else [data[..dim]] + Windows(dim, data[dim..])
  }

  lemma {:induction false} WindowAt<T>(dim: nat, data: seq<T>, i: nat)
    requires 1 <= dim && i < |Windows(dim, data)|
    ensures 0 <= i * dim && i * dim + dim <= |data|
    ensures Windows(dim, data)[i] == data[i * dim..i * dim + dim]
  {
    if i > 0 {
      WindowAt(dim, data[dim..], i - 1);
      assert (i - 1) * dim + dim == i * dim;
      assert Windows(dim, data)[i] == Windows(dim, data[dim..])[i - 1];
    }
  }

  lemma {:induction false} WindowCount<T>(dim: nat, data: seq<T>, n: nat)
    requires 1 <= dim && |data| == n * dim
    ensures |Windows(dim, data)| == n
  {
    if n > 0 {
      assert (n - 1) * dim + dim == n * dim && 0 <= (n - 1) * dim;
      WindowCount(dim, data[dim..], n - 1);
    }
  }

  /** m neighbours are chosen for a new node; a list may grow to the cap. */
  datatype Params = Params(m: nat, mMax: nat, mMax0: nat, efConstruct: nat, nearestM: bool) {
    /** What `BuildHNSW` and the loader insist on. */
    predicate Valid() {
      2 <= m <= mMax && m <= mMax0 && m <= efConstruct
    }

    function CapAt(level: nat): (c: nat) {
      if level == 0 then mMax0 else mMax
    }
  }

  /** links[node][level] is the node's list at that level; a node not inserted
  yet has no levels. */
  type Links = seq<seq<seq<nat>>>

  predicate Occupies(links: Links, id: nat, level: nat) {
    id < |links| && level < |links[id]|
  }

  /** Every edge stays within the nodes that occupy its layer. */
  ghost predicate WellLinked(links: Links) {
    forall a: nat, lc: nat :: Occupies(links, a, lc) ==> ListWithin(links, links[a][lc], lc)
  }

  ghost predicate ListWithin(links: Links, nbs: seq<nat>, lc: nat) {
    forall j :: 0 <= j < |nbs| ==> Occupies(links, nbs[j], lc)
  }

  /** One layer as adjacency lists; nodes that do not occupy it have none. */
  function Layer(links: Links, lc: nat): (adj: seq<seq<nat>>)
    ensures |adj| == |links|
    ensures forall a :: 0 <= a < |links| ==> adj[a] == if lc < |links[a]| then links[a][lc] else []
  {
    seq(|links|, a requires 0 <= a < |links| => if lc < |links[a]| then links[a][lc] else [])
  }

  function SetList(links: Links, a: nat, lc: nat, nbs: seq<nat>): (r: Links)
    requires Occupies(links, a, lc)
    ensures |r| == |links|
    ensures forall b :: 0 <= b < |links| ==> |r[b]| == |links[b]|
    ensures forall b: nat, l: nat :: Occupies(links, b, l) ==> r[b][l] == if b == a && l == lc then nbs else links[b][l]
  {
    links[a := links[a][lc := nbs]]
  }

  /** Same nodes on the same levels. */
  ghost predicate SameShape(l1: Links, l2: Links) {
    |l1| == |l2| && forall a :: 0 <= a < |l1| ==> |l1[a]| == |l2[a]|
  }

  lemma SetListKeepsWellLinked(links: Links, a: nat, lc: nat, nbs: seq<nat>)
    requires WellLinked(links) && Occupies(links, a, lc) && ListWithin(links, nbs, lc)
    ensures WellLinked(SetList(links, a, lc, nbs)) && SameShape(links, SetList(links, a, lc, nbs))
  {
    var r := SetList(links, a, lc, nbs);
    forall b: nat, l: nat | Occupies(r, b, l) ensures ListWithin(r, r[b][l], l) {
      assert Occupies(links, b, l);
      assert ListWithin(links, links[b][l], l);
    }
  }
}
