/** Sampling._sample_topp: nucleus (top-p) truncation of each row of
    probabilities. The row is sorted best first, the sorted prefix whose
    running mass stays below p is kept together with exactly one more
    position (clamped to the last one), and the whole batch is cut to the
    widest kept prefix with the probabilities outside each row's own
    prefix set to 0. */
module TopP {
  import opened Scores
  import opened Ranking

  /** Probabilities read as scores, so that topk's order applies to them. */
  function AsScores(pr: seq<real>): (s: seq<Score>)
    ensures |s| == |pr| && forall v :: 0 <= v < |pr| ==> s[v] == Fin(pr[v])
  {
    seq(|pr|, v requires 0 <= v < |pr| => Fin(pr[v]))
  }

  /** `sorted_indices` of `probs.sort(descending=True)`. */
  function SortDesc(pr: seq<real>): (idx: seq<nat>)
    ensures IsTopK(AsScores(pr), |pr|, idx)
  {
    TopK(AsScores(pr), |pr|)
  }

  /** `sorted_probs`: the probabilities in that order. */
  function SortedProbs(pr: seq<real>): (sp: seq<real>)
    ensures |sp| == |pr|
    ensures forall j :: 0 <= j < |pr| ==> SortDesc(pr)[j] < |pr| && sp[j] == pr[SortDesc(pr)[j]]
  {
    var idx := SortDesc(pr);
    seq(|pr|, j requires 0 <= j < |pr| => pr[idx[j]])
  }

  function Sum(xs: seq<real>): real {
    if |xs| == 0 then 0.0 else Sum(xs[..|xs| - 1]) + xs[|xs| - 1]
  }

  /** `cumsum(dim=2)` on one row: entry j is the mass of positions 0..j. */
  function CumSum(xs: seq<real>): (c: seq<real>)
    ensures |c| == |xs|
  {
    seq(|xs|, j requires 0 <= j < |xs| => Sum(xs[..j + 1]))
  }

  /** `cumsum_probs.lt(p)`. */
  function Below(c: seq<real>, p: real): (m: seq<bool>)
    ensures |m| == |c| && forall j :: 0 <= j < |c| ==> (m[j] <==> c[j] < p)
  {
    seq(|c|, j requires 0 <= j < |c| => c[j] < p)
  }

  /** `mask.cumsum(dim=2)[:, :, -1:]`: how many positions the mask sets. */
  function CountSet(m: seq<bool>): (n: nat)
    ensures n <= |m|
  {
    if |m| == 0 then 0 else CountSet(m[..|m| - 1]) + (if m[|m| - 1] then 1 else 0)
  }

  /** `last_included.clamp_(0, V - 1)`. */
  function LastIncluded(m: seq<bool>): (last: nat)
    requires |m| > 0
    ensures last < |m|
  {
    var n := CountSet(m);
    if n <= |m| - 1 then n else |m| - 1
  }

  /** The mask before the scatter. */
  function BelowMask(pr: seq<real>, p: real): (m: seq<bool>)
    ensures |m| == |pr|
  {
    Below(CumSum(SortedProbs(pr)), p)
  }

  /** `mask.scatter_(2, last_included, 1)`: the kept sorted positions. */
  function Nucleus(pr: seq<real>, p: real): (m: seq<bool>)
    requires |pr| > 0
    ensures |m| == |pr|
    ensures m[Kept(pr, p) - 1]
  {
    var m := BelowMask(pr, p);
    m[LastIncluded(m) := true]
  }

  /** How many sorted positions a row keeps: `last_included + 1`. */
  function Kept(pr: seq<real>, p: real): (n: nat)
    requires |pr| > 0
    ensures 0 < n <= |pr|
  {
    LastIncluded(BelowMask(pr, p)) + 1
  }

  predicate NonNegative(pr: seq<real>) {
    forall v :: 0 <= v < |pr| ==> 0.0 <= pr[v]
  }

  /** With non-negative entries the running sums never decrease. */
  lemma {:induction false} SumMonotone(xs: seq<real>, i: nat, j: nat)
    requires NonNegative(xs) && i <= j <= |xs|
    ensures Sum(xs[..i]) <= Sum(xs[..j])
    decreases j - i
  {
    if i < j {
      SumMonotone(xs, i, j - 1);
      assert xs[..j][..j - 1] == xs[..j - 1];
      assert xs[..j][j - 1] == xs[j - 1];
    }
  }

  /** The entries of a sorted row of probabilities are the row's own. */
  lemma SortedNonNegative(pr: seq<real>)
    requires NonNegative(pr)
    ensures NonNegative(SortedProbs(pr))
  {
  }

  /** Once the running mass reaches p it stays there: the lt-mask of a
      cumulative sum of non-negative entries is a prefix. */
  lemma BelowIsPrefix(xs: seq<real>, p: real, i: nat, j: nat)
    requires NonNegative(xs) && i <= j < |xs|
    requires Below(CumSum(xs), p)[j]
    ensures Below(CumSum(xs), p)[i]
  {
    SumMonotone(xs, i + 1, j + 1);
  }

  /** A mask that is a prefix sets exactly its first CountSet positions. */
  lemma {:induction false} CountPrefix(m: seq<bool>)
    requires forall i, j :: 0 <= i <= j < |m| && m[j] ==> m[i]
    ensures forall j :: 0 <= j < |m| ==> (m[j] <==> j < CountSet(m))
  {
    if |m| > 0 {
      var init := m[..|m| - 1];
      assert forall i, j :: 0 <= i <= j < |init| && init[j] ==> init[i] by {
        forall i, j | 0 <= i <= j < |init| && init[j] ensures init[i] {
          assert init[j] == m[j] && init[i] == m[i];
        }
      }
      CountPrefix(init);
      forall j | 0 <= j < |m| ensures m[j] <==> j < CountSet(m) {
        if j < |m| - 1 {
          assert init[j] == m[j];
          if m[|m| - 1] {
            assert m[j];
          }
        } else if m[j] {
          assert forall i :: 0 <= i < |init| ==> init[i] by {
            forall i | 0 <= i < |init| ensures init[i] {
              assert m[i];
            }
          }
          if |init| > 0 {
            assert init[|init| - 1];
          }
        }
      }
    }
  }

  /** The mask before the scatter is the prefix of the sorted row whose
      running mass stays below p. */
  lemma BelowMaskSet(pr: seq<real>, p: real)
    requires NonNegative(pr)
    ensures var m := BelowMask(pr, p);
            forall j :: 0 <= j < |pr| ==> (m[j] <==> j < CountSet(m))
  {
    var sp := SortedProbs(pr);
    SortedNonNegative(pr);
    var m := BelowMask(pr, p);
    forall i, j | 0 <= i <= j < |m| && m[j] ensures m[i] {
      BelowIsPrefix(sp, p, i, j);
    }
    CountPrefix(m);
  }

  /** The kept positions are exactly the first Kept(pr, p) sorted ones. */
  lemma NucleusIsPrefix(pr: seq<real>, p: real)
    requires |pr| > 0 && NonNegative(pr)
    ensures forall j :: 0 <= j < |pr| ==> (Nucleus(pr, p)[j] <==> j < Kept(pr, p))
  {
    BelowMaskSet(pr, p);
  }

  /** The mask keeps sorted position j exactly when j is the first one or
      the mass of the positions before j is still below p: the prefix with
      mass below p plus exactly one more position, clamped to the row. */
  lemma NucleusKeeps(pr: seq<real>, p: real, j: nat)
    requires |pr| > 0 && NonNegative(pr) && j < |pr|
    ensures Nucleus(pr, p)[j] <==> (j == 0 || CumSum(SortedProbs(pr))[j - 1] < p)
  {
    NucleusIsPrefix(pr, p);
    BelowMaskSet(pr, p);
  }

  /** The kept prefix is the smallest one whose mass reaches p: the kept
      positions hold at least p (unless the whole row is kept) and without
      the last of them the mass is below p. */
  lemma NucleusMass(pr: seq<real>, p: real)
    requires |pr| > 0 && NonNegative(pr)
    ensures var n, c := Kept(pr, p), CumSum(SortedProbs(pr));
            && (n == |pr| || c[n - 1] >= p)
            && (n == 1 || c[n - 2] < p)
  {
    var n, c := Kept(pr, p), CumSum(SortedProbs(pr));
    if n < |pr| {
      NucleusKeeps(pr, p, n);
      NucleusIsPrefix(pr, p);
      var m := BelowMask(pr, p);
      BelowMaskSet(pr, p);
      assert !m[n - 1] || n - 1 < CountSet(m);
      assert CountSet(m) == n - 1;
      assert !m[n - 1];
    }
    if n > 1 {
      NucleusKeeps(pr, p, n - 1);
      NucleusIsPrefix(pr, p);
    }
  }

  /** A full sort lists every position of the row. */
  lemma SortListsAll(pr: seq<real>, v: nat)
    requires v < |pr|
    ensures v in SortDesc(pr)
  {
    var idx := SortDesc(pr);
    if v !in idx {
      var more := idx + [v];
      forall a, b | 0 <= a < b < |more| ensures more[a] != more[b] {
        if b == |idx| {
          assert more[a] == idx[a];
        }
      }
      forall x | x in more ensures x in Range(|pr|) {
        var a :| 0 <= a < |more| && more[a] == x;
        assert Range(|pr|)[x] == x;
      }
      Pigeonhole(more, Range(|pr|));
    }
  }

  /** The kept tokens are the most probable ones: every token outside the
      nucleus is no more probable than any token in it. */
  lemma NucleusMostProbable(pr: seq<real>, p: real, j: nat, v: nat)
    requires |pr| > 0 && NonNegative(pr) && v < |pr| && j < Kept(pr, p)
    requires v !in SortDesc(pr)[..Kept(pr, p)]
    ensures pr[v] <= pr[SortDesc(pr)[j]]
  {
    var idx, xs := SortDesc(pr), AsScores(pr);
    SortListsAll(pr, v);
    var a :| 0 <= a < |idx| && idx[a] == v;
    var n := Kept(pr, p);
    assert forall a' :: 0 <= a' < n ==> idx[..n][a'] == idx[a'];
    assert a >= n;
    DescendingChain(xs, idx, j, a);
  }

  /** The trimmed rows and their indices, as `_sample_topp` returns them. */
  datatype Trimmed = Trimmed(probs: seq<seq<real>>, indices: seq<seq<nat>>)

  /** A batch of probability rows, each with the same positive width. */
  predicate RowsOk(rows: seq<seq<real>>) {
    |rows| > 0 && |rows[0]| > 0 && forall r :: 0 <= r < |rows| ==> |rows[r]| == |rows[0]|
  }

  /** The largest entry (0 for none). */
  function MaxOf(xs: seq<nat>): (m: nat)
    ensures forall i :: 0 <= i < |xs| ==> xs[i] <= m
    ensures |xs| > 0 ==> m in xs
  {
    if |xs| == 0 then 0
    else
      var rest := MaxOf(xs[1..]);
      assert forall i :: 1 <= i < |xs| ==> xs[1..][i - 1] == xs[i];
      if xs[0] >= rest then xs[0] else rest
  }

  /** `last_included.max() + 1`: the widest kept prefix of the batch. */
  function Width(rows: seq<seq<real>>, p: real): (w: nat)
    requires RowsOk(rows)
    ensures w <= |rows[0]|
    ensures forall r :: 0 <= r < |rows| ==> Kept(rows[r], p) <= w
  {
    var kept := seq(|rows|, r requires 0 <= r < |rows| => Kept(rows[r], p));
    assert forall r :: 0 <= r < |rows| ==> kept[r] == Kept(rows[r], p) <= |rows[0]|;
    MaxOf(kept)
  }

  /** One row of `trimed_probs`: its sorted probabilities cut to width w,
      with the positions outside its nucleus set to 0. */
  function TrimRow(pr: seq<real>, p: real, w: nat): (t: seq<real>)
    requires 0 < |pr| && w <= |pr|
    ensures |t| == w
  {
    seq(w, j requires 0 <= j < w => if Nucleus(pr, p)[j] then SortedProbs(pr)[j] else 0.0)
  }

  /** `_sample_topp` on every row of a batch (probabilities given). */
  function SampleTopP(rows: seq<seq<real>>, p: real): (t: Trimmed)
    requires RowsOk(rows)
    ensures |t.probs| == |t.indices| == |rows|
    ensures forall r :: 0 <= r < |rows| ==> |t.probs[r]| == |t.indices[r]| == Width(rows, p)
  {
    var w := Width(rows, p);
    Trimmed(seq(|rows|, r requires 0 <= r < |rows| => TrimRow(rows[r], p, w)),
            seq(|rows|, r requires 0 <= r < |rows| => SortDesc(rows[r])[..w]))
  }

  /** A trimmed row holds the sorted probabilities of its nucleus and 0
      after it. */
  lemma TrimRowAt(pr: seq<real>, p: real, w: nat, j: nat)
    requires 0 < |pr| && NonNegative(pr) && w <= |pr| && j < w
    ensures TrimRow(pr, p, w)[j] == if j < Kept(pr, p) then pr[SortDesc(pr)[j]] else 0.0
  {
    NucleusIsPrefix(pr, p);
  }

  /** Each trimmed row is cut to the batch's widest nucleus; it holds the
      sorted probabilities of its own nucleus and 0 after it, and its indices
      are the vocabulary ids of those sorted positions. */
  lemma SampleTopPAt(rows: seq<seq<real>>, p: real, r: nat, j: nat)
    requires RowsOk(rows) && r < |rows| && NonNegative(rows[r])
    requires j < |SampleTopP(rows, p).probs[r]|
    ensures var t, pr := SampleTopP(rows, p), rows[r];
            && |t.probs[r]| == |t.indices[r]| == Width(rows, p) <= |pr|
            && Kept(pr, p) <= Width(rows, p)
            && t.indices[r][j] == SortDesc(pr)[j] < |pr|
            && t.probs[r][j] == (if j < Kept(pr, p) then pr[SortDesc(pr)[j]] else 0.0)
  {
    TrimRowAt(rows[r], p, Width(rows, p), j);
  }

  /** Some row's nucleus is exactly as wide as the batch's trimmed rows. */
  lemma WidthReached(rows: seq<seq<real>>, p: real) returns (r: nat)
    requires RowsOk(rows)
    ensures r < |rows| && Kept(rows[r], p) == Width(rows, p)
  {
    var kept := seq(|rows|, r requires 0 <= r < |rows| => Kept(rows[r], p));
    var i :| 0 <= i < |kept| && kept[i] == MaxOf(kept);
    r := i;
  }
}
