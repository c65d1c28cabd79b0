/** `torch.topk` on one row: the k best positions, best first.
    The order among equal scores is left open by IsTopK (torch does not
    define it); TopK is one selection that meets the specification. */
module Ranking {
  import opened Scores

  function Range(n: nat): (r: seq<nat>)
    ensures |r| == n && forall i :: 0 <= i < n ==> r[i] == i
  {
    seq(n, i => i)
  }

  predicate InRange(s: seq<nat>, n: nat) {
    forall j :: 0 <= j < |s| ==> s[j] < n
  }

  predicate Distinct(s: seq<nat>) {
    forall a, b :: 0 <= a < b < |s| ==> s[a] != s[b]
  }

  /** Neighbouring selected scores never increase. */
  predicate Descending(xs: seq<Score>, pos: seq<nat>)
    requires InRange(pos, |xs|)
  {
    forall j :: 0 < j < |pos| ==> Le(xs[pos[j]], xs[pos[j - 1]])
  }

  /** pos is a valid answer of topk(xs, k): k distinct positions of xs, best
      first, and no position left out scores strictly above the last one taken. */
  predicate IsTopK(xs: seq<Score>, k: nat, pos: seq<nat>) {
    && |pos| == k
    && InRange(pos, |xs|)
    && Distinct(pos)
    && Descending(xs, pos)
    && (k > 0 ==> forall i :: 0 <= i < |xs| && i !in pos ==> Le(xs[i], xs[pos[k - 1]]))
  }

  /** The state of a selection in progress: sel is chosen (best first), rest
      holds every other position, and nothing in rest beats the last choice. */
  predicate Partial(xs: seq<Score>, sel: seq<nat>, rest: seq<nat>) {
    && InRange(sel, |xs|) && InRange(rest, |xs|)
    && Distinct(sel) && Distinct(rest)
    && (forall a, b :: 0 <= a < |sel| && 0 <= b < |rest| ==> sel[a] != rest[b])
    && |sel| + |rest| == |xs|
    && (forall i :: 0 <= i < |xs| ==> i in sel || i in rest)
    && Descending(xs, sel)
    && (|sel| > 0 ==> forall b :: 0 <= b < |rest| ==> Le(xs[rest[b]], xs[sel[|sel| - 1]]))
  }

  /** Index (into rest) of a best-scoring remaining position; the earliest on ties. */
  function ArgMax(xs: seq<Score>, rest: seq<nat>): (m: nat)
    requires |rest| > 0 && InRange(rest, |xs|)
    ensures m < |rest|
    ensures forall b :: 0 <= b < |rest| ==> Le(xs[rest[b]], xs[rest[m]])
  {
    if |rest| == 1 then 0
    else
      var m := ArgMax(xs, rest[..|rest| - 1]);
      if Le(xs[rest[|rest| - 1]], xs[rest[m]]) then m else |rest| - 1
  }

  function RemoveAt(s: seq<nat>, m: nat): (r: seq<nat>)
    requires m < |s|
    ensures |r| == |s| - 1
    ensures forall j :: 0 <= j < |r| ==> r[j] == s[if j < m then j else j + 1]
  {
    s[..m] + s[m + 1..]
  }

  lemma PartialInit(xs: seq<Score>)
    ensures Partial(xs, [], Range(|xs|))
  {
    var r := Range(|xs|);
    forall i | 0 <= i < |xs| ensures i in r {
      assert r[i] == i;
    }
  }

  /** Moving the best remaining position to the end of sel keeps Partial. */
  lemma SelectStep(xs: seq<Score>, sel: seq<nat>, rest: seq<nat>, m: nat)
    requires Partial(xs, sel, rest) && m < |rest|
    requires forall b :: 0 <= b < |rest| ==> Le(xs[rest[b]], xs[rest[m]])
    ensures Partial(xs, sel + [rest[m]], RemoveAt(rest, m))
  {
    var sel', rest' := sel + [rest[m]], RemoveAt(rest, m);
    forall i | 0 <= i < |xs| ensures i in sel' || i in rest' {
      if i !in sel {
        var b :| 0 <= b < |rest| && rest[b] == i;
        if b < m {
          assert rest'[b] == i;
        } else if b > m {
          assert rest'[b - 1] == i;
        }
      }
    }
  }

  /** Completes a partial selection to k positions. */
  function Select(xs: seq<Score>, k: nat, sel: seq<nat>, rest: seq<nat>): (pos: seq<nat>)
    requires Partial(xs, sel, rest) && |sel| <= k <= |xs|
    ensures IsTopK(xs, k, pos)
    decreases k - |sel|
  {
    if |sel| == k then
      assert forall i :: 0 <= i < |xs| && i !in sel ==> i in rest;
      sel
    else
      var m := ArgMax(xs, rest);
      SelectStep(xs, sel, rest, m);
      Select(xs, k, sel + [rest[m]], RemoveAt(rest, m))
  }

  /** `torch.topk(xs, k)` as positions; the values are xs at those positions. */
  function TopK(xs: seq<Score>, k: nat): (pos: seq<nat>)
    requires k <= |xs|
    ensures IsTopK(xs, k, pos)
  {
    PartialInit(xs);
    Select(xs, k, [], Range(|xs|))
  }

  /** Descending neighbours make the whole selection descending. */
  lemma {:induction false} DescendingChain(xs: seq<Score>, pos: seq<nat>, a: nat, b: nat)
    requires InRange(pos, |xs|) && Descending(xs, pos) && a <= b < |pos|
    ensures Le(xs[pos[b]], xs[pos[a]])
    decreases b - a
  {
    if a < b {
      DescendingChain(xs, pos, a, b - 1);
    }
  }

  /** Every position topk leaves out scores at most every position it takes. */
  lemma TopKDominates(xs: seq<Score>, k: nat, pos: seq<nat>, i: nat, j: nat)
    requires IsTopK(xs, k, pos) && i < |xs| && i !in pos && j < k
    ensures Le(xs[i], xs[pos[j]])
  {
    DescendingChain(xs, pos, j, k - 1);
  }

  /** Pigeonhole: distinct elements all drawn from b are no more than |b|. */
  lemma {:induction false} Pigeonhole(a: seq<nat>, b: seq<nat>)
    requires Distinct(a) && forall x :: x in a ==> x in b
    ensures |a| <= |b|
  {
    if a != [] {
      var n := |a| - 1;
      assert a[n] in a;
      var d :| 0 <= d < |b| && b[d] == a[n];
      var b' := RemoveAt(b, d);
      forall x | x in a[..n] ensures x in b' {
        var c :| 0 <= c < n && a[c] == x;
        assert x in a;
        var e :| 0 <= e < |b| && b[e] == x;
        assert e != d;
        assert b'[if e < d then e else e - 1] == x;
      }
      Pigeonhole(a[..n], b');
    }
  }

  /** Two valid topk answers agree on the j-th score: ties can swap positions
      but never change the score sequence. */
  lemma RankNotAbove(xs: seq<Score>, k: nat, p1: seq<nat>, p2: seq<nat>, j: nat)
    requires IsTopK(xs, k, p1) && IsTopK(xs, k, p2) && j < k
    ensures Le(xs[p1[j]], xs[p2[j]])
  {
    if !Le(xs[p1[j]], xs[p2[j]]) {
      var a, b := p1[..j + 1], p2[..j];
      forall x | x in a ensures x in b {
        var c :| 0 <= c <= j && p1[c] == x;
        DescendingChain(xs, p1, c, j);
        if x !in p2 {
          TopKDominates(xs, k, p2, x, j);
          assert false;
        }
        var d :| 0 <= d < k && p2[d] == x;
        if d >= j {
          DescendingChain(xs, p2, j, d);
          assert false;
        }
        assert b[d] == x;
      }
      Pigeonhole(a, b);
      assert false;
    }
  }

  /** The scores topk returns do not depend on how ties are broken. */
  lemma ScoresDetermined(xs: seq<Score>, k: nat, p1: seq<nat>, p2: seq<nat>)
    requires IsTopK(xs, k, p1) && IsTopK(xs, k, p2)
    ensures forall j :: 0 <= j < k ==> xs[p1[j]] == xs[p2[j]]
  {
    forall j | 0 <= j < k ensures xs[p1[j]] == xs[p2[j]] {
      RankNotAbove(xs, k, p1, p2, j);
      RankNotAbove(xs, k, p2, p1, j);
      LeTotal(xs[p1[j]], xs[p2[j]]);
    }
  }
}
