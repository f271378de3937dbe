/** `pd.cut` with its defaults (`right=True`, `include_lowest=False`): bin i is
    the right-closed interval (edges[i], edges[i+1]], and a value outside every
    bin becomes a missing cell. */
module Binning {
  import opened Wrappers

  /** A bin edge: a finite number or `float('inf')`. */
  datatype Edge = Finite(v: real) | PosInf

  /** Strict order on edges; nothing lies above +infinity. */
  predicate Less(a: Edge, b: Edge) {
    match (a, b)
    case (Finite(u), Finite(w)) => u < w
    case (Finite(_), PosInf) => true
    case (PosInf, _) => false
  }

  /** The edges strictly increase, as pandas demands of explicit bins. */
  predicate Increasing(edges: seq<Edge>) {
    forall i, j :: 0 <= i < j < |edges| ==> Less(edges[i], edges[j])
  }

  /** `x` lies strictly above edge `e`. */
  predicate Above(x: real, e: Edge) {
    e.Finite? && e.v < x
  }

  /** `x` lies at or below edge `e`. */
  predicate AtMost(x: real, e: Edge) {
    e.PosInf? || x <= e.v
  }

  /** `x` lies in bin `i`, the interval (edges[i], edges[i+1]]. */
  predicate InBin(edges: seq<Edge>, i: int, x: real) {
    0 <= i && i + 1 < |edges| && Above(x, edges[i]) && AtMost(x, edges[i + 1])
  }

  /** Bins of increasing edges do not overlap. */
  lemma BinsDisjoint(edges: seq<Edge>, x: real)
    requires Increasing(edges)
    ensures forall i, j :: InBin(edges, i, x) && InBin(edges, j, x) ==> i == j
  {
    forall i, j | InBin(edges, i, x) && InBin(edges, j, x)
      ensures i == j
    {
      if i < j {
        NoBinAfter(edges, i, j, x);
      } else if j < i {
        NoBinAfter(edges, j, i, x);
      }
    }
  }

  lemma NoBinAfter(edges: seq<Edge>, i: int, j: int, x: real)
    requires Increasing(edges)
    requires i < j
    requires InBin(edges, i, x)
    ensures !InBin(edges, j, x)
  {
  }

  /** Search for the bin of `x` among bins k, k+1, ... */
  function CutFrom(edges: seq<Edge>, x: real, k: nat): (r: Option<nat>)
    ensures r.Some? ==> k <= r.value && InBin(edges, r.value, x)
    ensures r.None? ==> forall i :: k <= i ==> !InBin(edges, i, x)
    decreases |edges| - k
  {
    if k + 1 >= |edges| then None
    else if InBin(edges, k, x) then Some(k)
    else CutFrom(edges, x, k + 1)
  }

  /** Index of the one bin that holds `x`, or `None` when `x` is at or below
      the first edge or above the last. */
  function Cut(edges: seq<Edge>, x: real): (r: Option<nat>)
    requires Increasing(edges)
    ensures forall i :: r == Some(i) <==> InBin(edges, i, x)
    ensures r.None? <==> forall i :: !InBin(edges, i, x)
  {
    BinsDisjoint(edges, x);
    CutFrom(edges, x, 0)
  }

  /** Larger values never land in an earlier bin. */
  lemma CutMonotone(edges: seq<Edge>, x: real, y: real)
    requires Increasing(edges)
    requires x <= y
    requires Cut(edges, x).Some? && Cut(edges, y).Some?
    ensures Cut(edges, x).value <= Cut(edges, y).value
  {
    var i, j := Cut(edges, x).value, Cut(edges, y).value;
    assert InBin(edges, i, x) && InBin(edges, j, y);
  }
}
