/** Integer index arithmetic behind `view(bsz, -1)`, `torch.div` and `fmod_`:
    row-major flattening of a grid and the interleaving done by
    `torch.stack(..., dim=2).view(bsz, -1)`. */
module Indexing {

  /** Euclidean division is determined by quotient and remainder. */
  lemma DivModUnique(p: int, d: int, q: int, r: int)
    requires d > 0 && 0 <= r < d && p == q * d + r
    ensures p / d == q && p % d == r
  {
    var q', r' := p / d, p % d;
    assert p == q' * d + r';
    assert (q - q') * d == r' - r;
    if q - q' >= 1 {
      MulAtLeast(q - q', d);
    } else if q - q' <= -1 {
      MulAtLeast(q' - q, d);
    }
  }

  lemma MulAtLeast(a: int, d: int)
    requires a >= 1 && d > 0
    ensures a * d >= d
  {
  }

  /** A position b·w + j of a grid with rows of width w lies inside the grid. */
  lemma FlatBound(b: int, j: int, n: int, w: int)
    requires 0 <= b < n && 0 <= j < w
    ensures 0 <= b * w + j < n * w
  {
    assert b * w + j < b * w + w == (b + 1) * w;
    assert (b + 1) * w <= n * w by {
      if b + 1 < n { MulAtLeast(n - (b + 1), w); }
    }
  }

  /** p = (p div w)·w + p mod w, with the remainder in [0, w). */
  lemma DivModSplit(p: int, w: int)
    requires w > 0
    ensures p == (p / w) * w + p % w && 0 <= p % w < w
  {
  }

  /** Splitting a flat position p < n·w gives a row below n and a column below w. */
  lemma SplitBound(p: int, n: int, w: int)
    requires w > 0 && 0 <= p < n * w
    ensures 0 <= p / w < n && 0 <= p % w < w
    ensures p == (p / w) * w + p % w
  {
    var q := p / w;
    assert p == q * w + p % w;
    if q < 0 {
      MulAtLeast(-q, w);
    }
  }

  /** Row-major flattening, what `view(bsz, -1)` does to one batch row. */
  function Flatten<T>(g: seq<seq<T>>): seq<T> {
    if g == [] then [] else g[0] + Flatten(g[1..])
  }

  predicate Uniform<T>(g: seq<seq<T>>, w: nat) {
    forall b :: 0 <= b < |g| ==> |g[b]| == w
  }

  lemma {:induction false} FlattenLength<T>(g: seq<seq<T>>, w: nat)
    requires Uniform(g, w)
    ensures |Flatten(g)| == |g| * w
  {
    if g != [] {
      FlattenLength(g[1..], w);
    }
  }

  /** The flat position b·w + j of a grid with rows of width w holds g[b][j]. */
  lemma {:induction false} FlattenAtPair<T>(g: seq<seq<T>>, w: nat, b: int, j: int)
    requires Uniform(g, w) && 0 <= b < |g| && 0 <= j < w
    ensures 0 <= b * w + j < |Flatten(g)| && Flatten(g)[b * w + j] == g[b][j]
  {
    FlattenLength(g, w);
    FlatBound(b, j, |g|, w);
    assert Flatten(g) == g[0] + Flatten(g[1..]);
    if b > 0 {
      FlattenAtPair(g[1..], w, b - 1, j);
      assert (b - 1) * w + j == b * w + j - w;
    }
  }

  /** Element p of the flattened grid is row p div w, column p mod w. */
  lemma FlattenAt<T>(g: seq<seq<T>>, w: nat, p: int)
    requires w > 0 && Uniform(g, w) && 0 <= p < |g| * w
    ensures |Flatten(g)| == |g| * w
    ensures 0 <= p / w < |g| && 0 <= p % w < w
    ensures Flatten(g)[p] == g[p / w][p % w]
  {
    FlattenLength(g, w);
    SplitBound(p, |g|, w);
    FlattenAtPair(g, w, p / w, p % w);
  }

  /** `torch.stack(parts, dim=2).view(bsz, -1)` on one batch row: output
      position j·G + g holds part g's j-th element. */
  function Interleave<T>(parts: seq<seq<T>>, w: nat): (r: seq<T>)
    requires |parts| > 0 && Uniform(parts, w)
    ensures |r| == w * |parts|
  {
    seq(w * |parts|, p requires 0 <= p < w * |parts| =>
          SplitBound(p, w, |parts|); parts[p % |parts|][p / |parts|])
  }

  /** Output position j·G + g of the interleaving holds part g's j-th element. */
  lemma InterleaveAt<T>(parts: seq<seq<T>>, w: nat, g: int, j: int)
    requires |parts| > 0 && Uniform(parts, w)
    requires 0 <= g < |parts| && 0 <= j < w
    ensures 0 <= j * |parts| + g < |Interleave(parts, w)|
    ensures Interleave(parts, w)[j * |parts| + g] == parts[g][j]
  {
    FlatBound(j, g, w, |parts|);
    DivModUnique(j * |parts| + g, |parts|, j, g);
  }

  /** Every output position is j·G + g for exactly one group g and rank j. */
  lemma InterleaveSplit<T>(parts: seq<seq<T>>, w: nat, p: int)
    requires |parts| > 0 && Uniform(parts, w) && 0 <= p < w * |parts|
    ensures 0 <= p % |parts| < |parts| && 0 <= p / |parts| < w
    ensures p == (p / |parts|) * |parts| + p % |parts|
    ensures Interleave(parts, w)[p] == parts[p % |parts|][p / |parts|]
  {
    SplitBound(p, w, |parts|);
  }

  /** `t[g::G]`: every G-th element starting at g. */
  function Strided<T>(s: seq<T>, G: nat, g: nat): (r: seq<T>)
    requires g < G && |s| % G == 0
    ensures |r| == |s| / G
  {
    var n := |s| / G;
    DivModSplit(|s|, G);
    seq(n, b requires 0 <= b < n => FlatBound(b, g, n, G); s[b * G + g])
  }

  /** Element b of the slice `t[g::G]` is t[b·G + g]. */
  lemma StridedAt<T>(s: seq<T>, G: nat, g: nat, b: int)
    requires g < G && |s| % G == 0 && 0 <= b < |s| / G
    ensures 0 <= b * G + g < |s| && Strided(s, G, g)[b] == s[b * G + g]
  {
    DivModSplit(|s|, G);
    FlatBound(b, g, |s| / G, G);
  }

  /** A slice of a grid whose rows have width w has rows of width w. */
  lemma StridedUniform<T>(g: seq<seq<T>>, G: nat, k: nat, w: nat)
    requires k < G && |g| % G == 0 && Uniform(g, w)
    ensures Uniform(Strided(g, G, k), w)
  {
    forall b | 0 <= b < |g| / G ensures |Strided(g, G, k)[b]| == w {
      StridedAt(g, G, k, b);
    }
  }

  /** With one group the slice `t[0::1]` is t itself. */
  lemma StridedOne<T>(s: seq<T>)
    ensures Strided(s, 1, 0) == s
  {
    forall b | 0 <= b < |s| ensures Strided(s, 1, 0)[b] == s[b] {
      StridedAt(s, 1, 0, b);
    }
  }
}
