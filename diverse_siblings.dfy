/** DiverseSiblingsSearch.step: every beam ranks its own k best tokens,
    the sibling of rank j loses (j + 1)·diversity_rate, and a pooled top-k
    over all beams' penalized siblings picks the result. */
module DiverseSiblings {
  import opened Scores
  import opened Ranking
  import opened Indexing
  import opened Results
  import opened Beam

  /** `sibling_score[j]`: what the sibling of rank j (0-based) loses. */
  function SiblingPenalty(rate: real, j: nat): real {
    ((j + 1) as real) * rate
  }

  /** One beam's k best tokens after `s_list[i].sub_(sibling_score)`. */
  function SiblingScores(row: seq<Score>, k: nat, rate: real): (s: seq<Score>)
    requires k <= |row|
    ensures |s| == k
  {
    var top := TopK(row, k);
    seq(k, j requires 0 <= j < k => Shift(row[top[j]], -SiblingPenalty(rate, j)))
  }

  /** The same beam's tokens, `i_list[i].fmod_(vocab_size)`. */
  function SiblingTokens(row: seq<Score>, k: nat, vocab: nat): (s: seq<int>)
    requires k <= |row| && vocab > 0
    ensures |s| == k
  {
    var top := TopK(row, k);
    seq(k, j requires 0 <= j < k => top[j] % vocab)
  }

  /** Rank j of a beam's sibling list: its token and its penalized score. */
  lemma SiblingAt(row: seq<Score>, k: nat, rate: real, j: nat)
    requires k <= |row| && j < k
    ensures var top := TopK(row, k);
            && 0 <= top[j] < |row|
            && SiblingTokens(row, k, |row|)[j] == top[j]
            && SiblingScores(row, k, rate)[j] == Shift(row[top[j]], -SiblingPenalty(rate, j))
  {
    var top := TopK(row, k);
    DivModUnique(top[j], |row|, 0, top[j]);
  }

  /** `torch.stack(s_list, dim=1)` for one batch element: a row per beam. */
  function SiblingGrid(c: Grid, k: nat, rate: real): (s: seq<seq<Score>>)
    requires GridOk(c) && k <= |c[0]|
    ensures |s| == |c| && Uniform(s, k)
  {
    seq(|c|, i requires 0 <= i < |c| => SiblingScores(c[i], k, rate))
  }

  /** `torch.stack(i_list, dim=1)` for one batch element. */
  function TokenGrid(c: Grid, k: nat): (s: seq<seq<int>>)
    requires GridOk(c) && k <= |c[0]|
    ensures |s| == |c| && Uniform(s, k)
  {
    seq(|c|, i requires 0 <= i < |c| => SiblingTokens(c[i], k, |c[0]|))
  }

  /** The flattened sibling lists hold beam·k entries, at least k of them. */
  lemma PooledLength<T>(g: seq<seq<T>>, k: nat)
    requires |g| > 0 && Uniform(g, k)
    ensures |Flatten(g)| == |g| * k && k <= |Flatten(g)|
  {
    FlattenLength(g, k);
    if k > 0 {
      MulAtLeast(|g|, k);
    }
  }

  /** The pooled top-k over the stacked lists: the score and the token at
      each chosen position, and `torch.div(final_indices, k)` as the beam. */
  function Pool(flatS: seq<Score>, flatI: seq<int>, k: nat): (r: Selection)
    requires k <= |flatS| && |flatI| == |flatS|
    ensures |r.scores| == |r.indices| == |r.beams| == k
    ensures forall j :: 0 < j < k ==> Le(r.scores[j], r.scores[j - 1])
  {
    var pos := TopK(flatS, k);
    Selection(seq(k, j requires 0 <= j < k => flatS[pos[j]]),
              seq(k, j requires 0 <= j < k => flatI[pos[j]]),
              seq(k, j requires 0 <= j < k => pos[j] / k))
  }

  /** Entry j of the pooled answer. */
  lemma PoolAt(flatS: seq<Score>, flatI: seq<int>, k: nat, j: nat)
    requires k <= |flatS| && |flatI| == |flatS| && j < k
    ensures var r := Pool(flatS, flatI, k);
            var pos := TopK(flatS, k);
            && |r.scores| == |r.indices| == |r.beams| == k
            && r.scores[j] == flatS[pos[j]] && r.indices[j] == flatI[pos[j]] && r.beams[j] == pos[j] / k
  {
  }

  /** Steps 1 to 4 on one batch element whose lprobs already hold the
      cumulative scores. */
  function SiblingsRow(c: Grid, k: nat, rate: real): (r: Selection)
    requires GridOk(c) && k <= |c[0]|
    ensures |r.scores| == |r.indices| == |r.beams| == k
    ensures forall j :: 0 <= j < k ==> 0 <= r.beams[j] < |c|
  {
    var S := SiblingGrid(c, k, rate);
    PooledLength(S, k);
    PooledLength(TokenGrid(c, k), k);
    var pos := TopK(Flatten(S), k);
    assert forall j :: 0 <= j < k ==> 0 <= pos[j] / k < |c| by {
      forall j | 0 <= j < k ensures 0 <= pos[j] / k < |c| {
        SplitBound(pos[j], |c|, k);
      }
    }
    Pool(Flatten(S), Flatten(TokenGrid(c, k)), k)
  }

  /** Adding the history keeps the shape of a batch element. */
  lemma AddHistoryOk(lp: Grid, hist: History, step: nat)
    requires step > 0 && GridOk(lp) && HistoryOk(hist, |lp|, step)
    ensures GridOk(AddHistory(lp, hist, step)) && |AddHistory(lp, hist, step)[0]| == |lp[0]|
  {
  }

  /** k = min(2·beam, beam·vocab - 1) is well defined: beam·vocab > 0. */
  lemma WidthPositive(t: seq<Grid>, h: seq<History>, step: nat)
    requires BatchOk(t, h, step)
    ensures |t[0]| * |t[0][0]| > 0
  {
    MulAtLeast(|t[0]|, |t[0][0]|);
  }

  /** DiverseSiblingsSearch.step on the whole batch. Step 0 is BeamSearch's
      step; afterwards every beam's topk asks for k of its vocab entries,
      which torch refuses when k exceeds the vocabulary. */
  function SiblingsStep(step: nat, t: seq<Grid>, h: seq<History>, rate: real): (res: Result<seq<Selection>>)
    requires BatchOk(t, h, step)
    ensures res.Err? <==> step > 0 && Min(2 * |t[0]|, |t[0]| * |t[0][0]| - 1) > |t[0][0]|
    ensures res.Err? ==> res.error == TopKOutOfRange
    ensures res.Ok? ==> |res.value| == |t|
    ensures step == 0 ==> forall r :: 0 <= r < |t| ==> res.value[r] == BeamStepRow(0, t[r], h[r])
  {
    var K, V := |t[0]|, |t[0][0]|;
    WidthPositive(t, h, step);
    var k := Count(K, K * V);
    if step == 0 then
      Ok(seq(|t|, r requires 0 <= r < |t| => BeamStepRow(step, t[r], h[r])))
    else if k > V then
      Err(TopKOutOfRange)
    else
      Ok(seq(|t|, r requires 0 <= r < |t| =>
               AddHistoryOk(t[r], h[r], step);
               SiblingsRow(AddHistory(t[r], h[r], step), k, rate)))
  }

  /** The j-th pooled answer: its beam lies in [0, beam), its token is that
      beam's sibling of some rank below k, and its score is that token's
      cumulative score minus the rank's penalty. */
  lemma SiblingsAt(c: Grid, k: nat, rate: real, j: nat) returns (rank: nat)
    requires GridOk(c) && k <= |c[0]| && j < k
    ensures var r := SiblingsRow(c, k, rate);
            && |r.scores| == |r.indices| == |r.beams| == k
            && 0 <= r.beams[j] < |c|
            && rank < k
            && r.indices[j] == TopK(c[r.beams[j]], k)[rank]
            && 0 <= r.indices[j] < |c[0]|
            && r.scores[j] == Shift(c[r.beams[j]][r.indices[j]], -SiblingPenalty(rate, rank))
            && TopK(Flatten(SiblingGrid(c, k, rate)), k)[j] == r.beams[j] * k + rank
  {
    var S, I := SiblingGrid(c, k, rate), TokenGrid(c, k);
    PooledLength(S, k);
    PooledLength(I, k);
    assert SiblingsRow(c, k, rate) == Pool(Flatten(S), Flatten(I), k);
    PoolAt(Flatten(S), Flatten(I), k, j);
    var p := TopK(Flatten(S), k)[j];
    FlattenAt(S, k, p);
    FlattenAt(I, k, p);
    DivModSplit(p, k);
    rank := p % k;
    SiblingAt(c[p / k], k, rate, rank);
  }

  /** A pooled position b·k + i names beam b's sibling of rank i. */
  lemma PoolDecode(c: Grid, k: nat, rate: real, j: nat, b: nat, i: nat)
    requires GridOk(c) && k <= |c[0]| && j < k && b < |c| && i < k
    requires TopK(Flatten(SiblingGrid(c, k, rate)), k)[j] == b * k + i
    ensures var r := SiblingsRow(c, k, rate);
            |r.beams| == |r.indices| == k && r.beams[j] == b && r.indices[j] == TopK(c[b], k)[i]
  {
    var S, I := SiblingGrid(c, k, rate), TokenGrid(c, k);
    PooledLength(S, k);
    PooledLength(I, k);
    assert SiblingsRow(c, k, rate) == Pool(Flatten(S), Flatten(I), k);
    PoolAt(Flatten(S), Flatten(I), k, j);
    var p := b * k + i;
    DivModUnique(p, k, b, i);
    FlattenAt(I, k, p);
    SiblingAt(c[b], k, rate, i);
  }

  /** The result has k entries, its scores never increase and no
      (beam, token) pair is returned twice. */
  lemma SiblingsOrdered(c: Grid, k: nat, rate: real)
    requires GridOk(c) && k <= |c[0]|
    ensures var r := SiblingsRow(c, k, rate);
            && |r.scores| == |r.indices| == |r.beams| == k
            && (forall j :: 0 < j < k ==> Le(r.scores[j], r.scores[j - 1]))
            && (forall i, j :: 0 <= i < j < k ==>
                  r.beams[i] != r.beams[j] || r.indices[i] != r.indices[j])
  {
    var r := SiblingsRow(c, k, rate);
    var S := SiblingGrid(c, k, rate);
    PooledLength(S, k);
    PooledLength(TokenGrid(c, k), k);
    var pos := TopK(Flatten(S), k);
    forall i, j | 0 <= i < j < k
      ensures r.beams[i] != r.beams[j] || r.indices[i] != r.indices[j]
    {
      var ri := SiblingsAt(c, k, rate, i);
      var rj := SiblingsAt(c, k, rate, j);
      if r.beams[i] == r.beams[j] {
        assert pos[i] != pos[j];
        assert ri != rj;
        assert TopK(c[r.beams[i]], k)[ri] != TopK(c[r.beams[i]], k)[rj];
      }
    }
  }

  /** A sibling that was not returned scores, after its penalty, no higher
      than the last one returned. */
  lemma SiblingsBest(c: Grid, k: nat, rate: real, b: nat, rank: nat)
    requires GridOk(c) && k <= |c[0]| && b < |c| && rank < k
    requires var r := SiblingsRow(c, k, rate);
             forall j :: 0 <= j < |r.scores| ==>
               r.beams[j] != b || r.indices[j] != TopK(c[b], k)[rank]
    ensures var r := SiblingsRow(c, k, rate);
            var v := TopK(c[b], k)[rank];
            |r.scores| == k && Le(Shift(c[b][v], -SiblingPenalty(rate, rank)), r.scores[k - 1])
  {
    var S := SiblingGrid(c, k, rate);
    PooledLength(S, k);
    var pos := TopK(Flatten(S), k);
    var p := NotPooled(c, k, rate, b, rank);
    TopKDominates(Flatten(S), k, pos, p, k - 1);
    PoolLast(c, k, rate);
  }

  /** The last score returned is the pooled row at the last chosen position. */
  lemma PoolLast(c: Grid, k: nat, rate: real)
    requires GridOk(c) && 0 < k <= |c[0]|
    ensures var r := SiblingsRow(c, k, rate);
            var flat := Flatten(SiblingGrid(c, k, rate));
            && k <= |flat| && |r.scores| == k
            && r.scores[k - 1] == flat[TopK(flat, k)[k - 1]]
  {
    var S, I := SiblingGrid(c, k, rate), TokenGrid(c, k);
    PooledLength(S, k);
    PooledLength(I, k);
    assert SiblingsRow(c, k, rate) == Pool(Flatten(S), Flatten(I), k);
    PoolAt(Flatten(S), Flatten(I), k, k - 1);
  }

  /** A sibling that was not returned sits at a pooled position the
      pooled topk did not choose. */
  lemma NotPooled(c: Grid, k: nat, rate: real, b: nat, rank: nat) returns (p: nat)
    requires GridOk(c) && k <= |c[0]| && b < |c| && rank < k
    requires var r := SiblingsRow(c, k, rate);
             forall j :: 0 <= j < |r.scores| ==>
               r.beams[j] != b || r.indices[j] != TopK(c[b], k)[rank]
    ensures var flat := Flatten(SiblingGrid(c, k, rate));
            && p < |flat| && k <= |flat| && p !in TopK(flat, k)
            && flat[p] == Shift(c[b][TopK(c[b], k)[rank]], -SiblingPenalty(rate, rank))
  {
    var S := SiblingGrid(c, k, rate);
    PooledLength(S, k);
    var flat := Flatten(S);
    FlatBound(b, rank, |S|, k);
    p := b * k + rank;
    assert p < |flat| && flat[p] == Shift(c[b][TopK(c[b], k)[rank]], -SiblingPenalty(rate, rank)) by {
      FlattenAtPair(S, k, b, rank);
      SiblingAt(c[b], k, rate, rank);
    }
    assert p !in TopK(flat, k) by {
      var pos := TopK(flat, k);
      if p in pos {
        var j :| 0 <= j < k && pos[j] == p;
        PoolDecode(c, k, rate, j, b, rank);
        assert false;
      }
    }
  }

  /** With diversity_rate 0 no sibling loses anything. */
  lemma NoPenalty(row: seq<Score>, k: nat, j: nat)
    requires k <= |row| && j < k
    ensures var top := TopK(row, k);
            0 <= top[j] < |row| && SiblingScores(row, k, 0.0)[j] == row[top[j]]
  {
    SiblingAt(row, k, 0.0, j);
    assert SiblingPenalty(0.0, j) == 0.0;
  }

  /** With diversity_rate 0 a beam's last sibling is its lowest. */
  lemma LastSiblingLowest(row: seq<Score>, k: nat)
    requires 0 < k <= |row|
    ensures var s := SiblingScores(row, k, 0.0);
            forall i :: 0 <= i < k ==> Le(s[k - 1], s[i])
  {
    var top := TopK(row, k);
    forall i | 0 <= i < k ensures Le(SiblingScores(row, k, 0.0)[k - 1], SiblingScores(row, k, 0.0)[i]) {
      NoPenalty(row, k, i);
      NoPenalty(row, k, k - 1);
      DescendingChain(row, top, i, k - 1);
    }
  }

  /** Beam b's last sibling scores no higher than the last pooled answer,
      provided it is beam b's lowest: either one of beam b's siblings was
      left out of the pool (and is below the last answer), or all k of them
      were taken and the last answer is one of them. */
  lemma LastSiblingBelow(S: seq<seq<Score>>, k: nat, b: nat, pos: seq<nat>)
    requires Uniform(S, k) && b < |S| && 0 < k && IsTopK(Flatten(S), k, pos)
    requires forall i :: 0 <= i < k ==> Le(S[b][k - 1], S[b][i])
    ensures Le(S[b][k - 1], Flatten(S)[pos[k - 1]])
  {
    FlatBound(b, 0, |S|, k);
    var mine: seq<nat> := seq(k, i requires 0 <= i < k => b * k + i);
    if i :| 0 <= i < k && mine[i] !in pos {
      SiblingUnpooled(S, k, b, pos, i, mine[i]);
    } else {
      LastPooledIsMine(S, k, b, pos, mine);
      LastPooledSibling(S, k, b, pos);
    }
  }

  /** A sibling of beam b left out of the pool scores no higher than the
      last pooled entry. */
  lemma SiblingUnpooled(S: seq<seq<Score>>, k: nat, b: nat, pos: seq<nat>, i: nat, x: nat)
    requires Uniform(S, k) && b < |S| && i < k && IsTopK(Flatten(S), k, pos)
    requires Le(S[b][k - 1], S[b][i])
    requires x == b * k + i && x !in pos
    ensures Le(S[b][k - 1], Flatten(S)[pos[k - 1]])
  {
    FlattenLength(S, k);
    FlatBound(b, i, |S|, k);
    FlattenAtPair(S, k, b, i);
    TopKDominates(Flatten(S), k, pos, x, k - 1);
    LeTrans(S[b][k - 1], S[b][i], Flatten(S)[pos[k - 1]]);
  }

  /** When the last pooled entry is one of beam b's siblings, beam b's
      lowest sibling is no higher than it. */
  lemma LastPooledSibling(S: seq<seq<Score>>, k: nat, b: nat, pos: seq<nat>)
    requires Uniform(S, k) && b < |S| && 0 < k && IsTopK(Flatten(S), k, pos)
    requires pos[k - 1] < |S| * k && pos[k - 1] / k == b
    requires forall i :: 0 <= i < k ==> Le(S[b][k - 1], S[b][i])
    ensures Le(S[b][k - 1], Flatten(S)[pos[k - 1]])
  {
    FlattenLength(S, k);
    FlattenAt(S, k, pos[k - 1]);
    assert Flatten(S)[pos[k - 1]] == S[b][pos[k - 1] % k];
  }

  /** When all k of beam b's pooled positions b·k + i were chosen, the last
      choice is one of them: a k+1-th distinct position would not fit. */
  lemma LastPooledIsMine(S: seq<seq<Score>>, k: nat, b: nat, pos: seq<nat>, mine: seq<nat>)
    requires Uniform(S, k) && b < |S| && 0 < k && IsTopK(Flatten(S), k, pos)
    requires |mine| == k && forall i :: 0 <= i < k ==> mine[i] == b * k + i && mine[i] in pos
    ensures pos[k - 1] < |S| * k && pos[k - 1] / k == b
  {
    FlattenLength(S, k);
    var last := pos[k - 1];
    SplitBound(last, |S|, k);
    if last / k != b {
      var more := mine + [last];
      forall x, y | 0 <= x < y < |more| ensures more[x] != more[y] {
        if y == k && more[x] == last {
          DivModUnique(last, k, b, x);
        }
      }
      Pigeonhole(more, pos);
      assert false;
    }
  }

  /** A selection whose every (beam, token) pair names its own score in a
      grid. */
  predicate PairsScore(c: Grid, r: Selection, k: nat)
    requires GridOk(c)
  {
    && |r.scores| == k && |r.beams| == k && |r.indices| == k
    && forall j :: 0 <= j < k ==>
         0 <= r.beams[j] < |c| && 0 <= r.indices[j] < |c[0]| && c[r.beams[j]][r.indices[j]] == r.scores[j]
  }

  /** The pairs read as flat positions beam·vocab + token. */
  lemma PairPositions(c: Grid, r: Selection, k: nat) returns (q: seq<nat>)
    requires GridOk(c) && PairsScore(c, r, k)
    ensures |q| == k && InRange(q, |Flatten(c)|)
    ensures forall j :: 0 <= j < k ==> q[j] == r.beams[j] * |c[0]| + r.indices[j] && Flatten(c)[q[j]] == r.scores[j]
  {
    var V, flat := |c[0]|, Flatten(c);
    FlattenLength(c, V);
    forall j | 0 <= j < k
      ensures 0 <= r.beams[j] * V + r.indices[j] < |flat| && flat[r.beams[j] * V + r.indices[j]] == r.scores[j]
    {
      FlattenAtPair(c, V, r.beams[j], r.indices[j]);
    }
    q := seq(k, j requires 0 <= j < k => r.beams[j] * V + r.indices[j]);
  }

  /** A flat position outside the pairs names a pair outside them. */
  lemma OutsidePair(c: Grid, r: Selection, k: nat, q: seq<nat>, x: nat)
    requires GridOk(c) && |r.beams| == k && |r.indices| == k && |q| == k
    requires forall j :: 0 <= j < k ==> q[j] == r.beams[j] * |c[0]| + r.indices[j]
    requires x < |Flatten(c)| && x !in q
    ensures var V := |c[0]|;
            && 0 <= x / V < |c| && 0 <= x % V < V && Flatten(c)[x] == c[x / V][x % V]
            && forall j :: 0 <= j < k ==> r.beams[j] != x / V || r.indices[j] != x % V
  {
    var V := |c[0]|;
    FlattenLength(c, V);
    FlattenAt(c, V, x);
    DivModSplit(x, V);
    forall j | 0 <= j < k ensures r.beams[j] != x / V || r.indices[j] != x % V {
      assert q[j] != x;
    }
  }

  /** k distinct (beam, token) pairs of a grid, in descending order of
      the scores they name, with no pair left out scoring above the last:
      read as positions beam·vocab + token of the flattened grid they are a
      valid topk answer. */
  lemma PairsTopK(c: Grid, r: Selection, k: nat) returns (q: seq<nat>)
    requires GridOk(c) && PairsScore(c, r, k)
    requires forall i, j :: 0 <= i < j < k ==> r.beams[i] != r.beams[j] || r.indices[i] != r.indices[j]
    requires forall j :: 0 < j < k ==> Le(r.scores[j], r.scores[j - 1])
    requires k > 0 ==> forall b, v ::
               (0 <= b < |c| && 0 <= v < |c[0]| &&
                forall j :: 0 <= j < k ==> r.beams[j] != b || r.indices[j] != v) ==> Le(c[b][v], r.scores[k - 1])
    ensures |q| == k && IsTopK(Flatten(c), k, q)
    ensures forall j :: 0 <= j < k ==> q[j] == r.beams[j] * |c[0]| + r.indices[j] && Flatten(c)[q[j]] == r.scores[j]
  {
    var V, flat := |c[0]|, Flatten(c);
    q := PairPositions(c, r, k);
    forall i, j | 0 <= i < j < k ensures q[i] != q[j] {
      if q[i] == q[j] {
        PairUnique(r.beams[i], r.indices[i], r.beams[j], r.indices[j], V);
      }
    }
    assert Distinct(q);
    assert Descending(flat, q);
    if k > 0 {
      forall x | 0 <= x < |flat| && x !in q ensures Le(flat[x], flat[q[k - 1]]) {
        OutsidePair(c, r, k, q, x);
      }
    }
  }

  /** With diversity_rate 0 the pooled (beam, token) pairs, read as
      positions beam·vocab + token of the flattened grid, are a valid topk
      answer over every beam's every token, and score what the grid holds
      there. */
  lemma RateZeroTopK(c: Grid, k: nat) returns (q: seq<nat>)
    requires GridOk(c) && k <= |c[0]|
    ensures var r := SiblingsRow(c, k, 0.0);
            && |q| == k && |r.scores| == |r.beams| == |r.indices| == k
            && IsTopK(Flatten(c), k, q)
            && forall j :: 0 <= j < k ==>
                 q[j] == r.beams[j] * |c[0]| + r.indices[j] && Flatten(c)[q[j]] == r.scores[j]
  {
    var r := SiblingsRow(c, k, 0.0);
    SiblingsOrdered(c, k, 0.0);
    forall j | 0 <= j < k
      ensures 0 <= r.beams[j] < |c| && 0 <= r.indices[j] < |c[0]| && c[r.beams[j]][r.indices[j]] == r.scores[j]
    {
      RateZeroEntry(c, k, j);
    }
    if k > 0 {
      forall b, v | 0 <= b < |c| && 0 <= v < |c[0]| &&
                    (forall j :: 0 <= j < k ==> r.beams[j] != b || r.indices[j] != v)
        ensures Le(c[b][v], r.scores[k - 1])
      {
        RateZeroBelow(c, k, b, v);
      }
    }
    assert PairsScore(c, r, k);
    q := PairsTopK(c, r, k);
  }

  /** With diversity_rate 0 the j-th pooled answer scores what the grid
      holds at its (beam, token). */
  lemma RateZeroEntry(c: Grid, k: nat, j: nat)
    requires GridOk(c) && k <= |c[0]| && j < k
    ensures var r := SiblingsRow(c, k, 0.0);
            && |r.scores| == |r.beams| == |r.indices| == k
            && 0 <= r.beams[j] < |c| && 0 <= r.indices[j] < |c[0]|
            && c[r.beams[j]][r.indices[j]] == r.scores[j]
  {
    var rank := SiblingsAt(c, k, 0.0, j);
    assert SiblingPenalty(0.0, rank) == 0.0;
  }

  /** With diversity_rate 0 a (beam, token) pair that was not returned
      scores no higher than the last one returned. */
  lemma RateZeroBelow(c: Grid, k: nat, b: nat, v: nat)
    requires GridOk(c) && 0 < k <= |c[0]| && b < |c| && v < |c[0]|
    requires var r := SiblingsRow(c, k, 0.0);
             |r.scores| == |r.beams| == |r.indices| == k &&
             forall j :: 0 <= j < k ==> r.beams[j] != b || r.indices[j] != v
    ensures var r := SiblingsRow(c, k, 0.0);
            Le(c[b][v], r.scores[k - 1])
  {
    var r := SiblingsRow(c, k, 0.0);
    var top := TopK(c[b], k);
    if i :| 0 <= i < k && top[i] == v {
      SiblingsBest(c, k, 0.0, b, i);
      assert SiblingPenalty(0.0, i) == 0.0;
    } else {
      UnrankedBelow(c, k, b, v);
    }
  }

  /** With diversity_rate 0 a token outside its beam's own top k scores no
      higher than the last answer. */
  lemma UnrankedBelow(c: Grid, k: nat, b: nat, v: nat)
    requires GridOk(c) && 0 < k <= |c[0]| && b < |c| && v < |c[0]| && v !in TopK(c[b], k)
    ensures var r := SiblingsRow(c, k, 0.0);
            |r.scores| == k && Le(c[b][v], r.scores[k - 1])
  {
    var top := TopK(c[b], k);
    TopKDominates(c[b], k, top, v, k - 1);
    var S := SiblingGrid(c, k, 0.0);
    assert S[b] == SiblingScores(c[b], k, 0.0);
    NoPenalty(c[b], k, k - 1);
    assert S[b][k - 1] == c[b][top[k - 1]];
    LastSiblingLowest(c[b], k);
    PooledLength(S, k);
    var flat := Flatten(S);
    var pos := TopK(flat, k);
    LastSiblingBelow(S, k, b, pos);
    LeTrans(c[b][v], S[b][k - 1], flat[pos[k - 1]]);
    PoolLast(c, k, 0.0);
  }



  /** With diversity_rate 0 a step after the first returns exactly
      BeamSearch's scores, and its (beam, token) pairs are one of the
      answers BeamSearch's topk may give: the two differ at most on ties. */
  lemma SiblingsRateZero(step: nat, t: seq<Grid>, h: seq<History>, r: nat) returns (q: seq<nat>)
    requires BatchOk(t, h, step) && step > 0 && r < |t|
    requires SiblingsStep(step, t, h, 0.0).Ok?
    ensures var d := SiblingsStep(step, t, h, 0.0).value[r];
            var s := BeamStepRow(step, t[r], h[r]);
            && d.scores == s.scores
            && |q| == |d.beams| == |d.indices| == |s.scores|
            && IsTopK(Candidates(step, t[r], h[r]), |s.scores|, q)
            && forall j :: 0 <= j < |q| ==> q[j] == d.beams[j] * |t[0][0]| + d.indices[j]
  {
    var K, V := |t[0]|, |t[0][0]|;
    WidthPositive(t, h, step);
    var k := Count(K, K * V);
    AddHistoryOk(t[r], h[r], step);
    var c := AddHistory(t[r], h[r], step);
    var d := SiblingsStep(step, t, h, 0.0).value[r];
    assert d == SiblingsRow(c, k, 0.0);
    q := RateZeroTopK(c, k);
    var cand := Candidates(step, t[r], h[r]);
    var s := BeamStepRow(step, t[r], h[r]);
    BeamStepShape(step, t[r], h[r]);
    BeamStepPositions(step, t[r], h[r]);
    ScoresDetermined(cand, k, q, TopK(cand, k));
    assert d.scores == s.scores;
  }

  /** Row r of every beam's list: `torch.stack(lists, dim=1)[r]`. */
  function StackAt<T>(lists: seq<seq<seq<T>>>, r: nat): (g: seq<seq<T>>)
    requires forall i :: 0 <= i < |lists| ==> r < |lists[i]|
    ensures |g| == |lists| && forall i :: 0 <= i < |lists| ==> g[i] == lists[i][r]
  {
    seq(|lists|, i requires 0 <= i < |lists| => lists[i][r])
  }

  /** A batch of cumulative lprobs whose beams all hold at least k tokens. */
  predicate SiblingsOk(t: seq<Grid>, k: nat) {
    |t| > 0 && GridOk(t[0]) && k <= |t[0][0]| && forall r :: 0 <= r < |t| ==> Shaped(t[r], |t[0]|, |t[0][0]|)
  }

  /** Every batch element of such a batch is a grid of the first one's shape. */
  lemma SiblingsOkAt(t: seq<Grid>, k: nat, r: nat)
    requires SiblingsOk(t, k) && r < |t|
    ensures GridOk(t[r]) && |t[r]| == |t[0]| && |t[r][0]| == |t[0][0]| && k <= |t[r][0]|
  {
  }

  /** After `lprobs.add_` a batch whose vocabulary holds k tokens is such a batch. */
  lemma AddedSiblingsOk(t: seq<Grid>, h: seq<History>, step: nat, k: nat)
    requires step > 0 && BatchOk(t, h, step) && k <= |t[0][0]|
    ensures var a := AddHistoryBatch(t, h, step);
            SiblingsOk(a, k) && |a[0]| == |t[0]| && |a[0][0]| == |t[0][0]|
  {
    var a := AddHistoryBatch(t, h, step);
    forall r | 0 <= r < |t| ensures Shaped(a[r], |t[0]|, |t[0][0]|) {
      AddHistoryOk(t[r], h[r], step);
    }
  }

  /** `s_list[i]` for the whole batch: beam i's penalized sibling scores. */
  function ScoreColumn(t: seq<Grid>, i: nat, k: nat, rate: real): (col: seq<seq<Score>>)
    requires SiblingsOk(t, k) && i < |t[0]|
    ensures |col| == |t|
  {
    seq(|t|, r requires 0 <= r < |t| => SiblingsOkAt(t, k, r); SiblingScores(t[r][i], k, rate))
  }

  /** `i_list[i]` for the whole batch: beam i's sibling tokens. */
  function TokenColumn(t: seq<Grid>, i: nat, k: nat): (col: seq<seq<int>>)
    requires SiblingsOk(t, k) && i < |t[0]|
    ensures |col| == |t|
  {
    seq(|t|, r requires 0 <= r < |t| => SiblingsOkAt(t, k, r); SiblingTokens(t[r][i], k, |t[r][i]|))
  }

  /** `s_list` once every beam's topk has run. */
  function ScoreLists(t: seq<Grid>, k: nat, rate: real): (lists: seq<seq<seq<Score>>>)
    requires SiblingsOk(t, k)
    ensures |lists| == |t[0]| && forall i :: 0 <= i < |t[0]| ==> |lists[i]| == |t|
  {
    seq(|t[0]|, i requires 0 <= i < |t[0]| => ScoreColumn(t, i, k, rate))
  }

  /** `i_list` once every beam's topk has run. */
  function TokenLists(t: seq<Grid>, k: nat): (lists: seq<seq<seq<int>>>)
    requires SiblingsOk(t, k)
    ensures |lists| == |t[0]| && forall i :: 0 <= i < |t[0]| ==> |lists[i]| == |t|
  {
    seq(|t[0]|, i requires 0 <= i < |t[0]| => TokenColumn(t, i, k))
  }

  /** Stacking the per-beam lists at row r gives that batch element's
      sibling grids. */
  lemma StackColumns(t: seq<Grid>, k: nat, rate: real, r: nat)
    requires SiblingsOk(t, k) && r < |t|
    ensures GridOk(t[r]) && k <= |t[r][0]|
    ensures StackAt(ScoreLists(t, k, rate), r) == SiblingGrid(t[r], k, rate)
    ensures StackAt(TokenLists(t, k), r) == TokenGrid(t[r], k)
  {
    SiblingsOkAt(t, k, r);
    var sList, iList := ScoreLists(t, k, rate), TokenLists(t, k);
    forall i | 0 <= i < |t[0]|
      ensures StackAt(sList, r)[i] == SiblingGrid(t[r], k, rate)[i]
      ensures StackAt(iList, r)[i] == TokenGrid(t[r], k)[i]
    {
    }
  }

  /** `xs[pos]`: the entries of xs at the given positions. */
  function Gather<T>(xs: seq<T>, pos: seq<nat>): (g: seq<T>)
    requires forall j :: 0 <= j < |pos| ==> pos[j] < |xs|
    ensures |g| == |pos| && forall j :: 0 <= j < |pos| ==> g[j] == xs[pos[j]]
  {
    seq(|pos|, j requires 0 <= j < |pos| => xs[pos[j]])
  }

  /** The rows the batch computes are the pooled answers. */
  lemma PoolRow(flatS: seq<Score>, flatI: seq<int>, k: nat, pos: seq<nat>, sel: Selection)
    requires k <= |flatS| && |flatI| == |flatS| && pos == TopK(flatS, k)
    requires sel.scores == Gather(flatS, pos) && sel.indices == Gather(flatI, pos)
    requires |sel.beams| == k && forall j :: 0 <= j < k ==> sel.beams[j] == pos[j] / k
    ensures sel == Pool(flatS, flatI, k)
  {
  }

  /** SiblingsStep after the first step, once every row is known. */
  lemma LaterStep(step: nat, t: seq<Grid>, h: seq<History>, rate: real, out: seq<Selection>)
    requires step > 0 && BatchOk(t, h, step)
    requires Count(|t[0]|, |t[0]| * |t[0][0]|) <= |t[0][0]|
    requires |out| == |t|
    requires var a, k := AddHistoryBatch(t, h, step), Count(|t[0]|, |t[0]| * |t[0][0]|);
             forall r :: 0 <= r < |t| ==> GridOk(a[r]) && k <= |a[r][0]| && out[r] == SiblingsRow(a[r], k, rate)
    ensures SiblingsStep(step, t, h, rate) == Ok(out)
  {
    var a, k := AddHistoryBatch(t, h, step), Count(|t[0]|, |t[0]| * |t[0][0]|);
    var res := SiblingsStep(step, t, h, rate);
    assert res.Ok? && |res.value| == |out|;
    forall r | 0 <= r < |t| ensures res.value[r] == out[r] {
      assert a[r] == AddHistory(t[r], h[r], step);
    }
    assert res.value == out;
  }

  /** `lprobs.add_(scores[:, :, step - 1].unsqueeze(-1))` in place. */
  method AddScores(step: nat, lprobs: array<Grid>, scores: seq<History>)
    requires step > 0 && BatchOk(lprobs[..], scores, step)
    modifies lprobs
    ensures lprobs[..] == AddHistoryBatch(old(lprobs[..]), scores, step)
  {
    forall r | 0 <= r < lprobs.Length {
      lprobs[r] := AddHistory(lprobs[r], scores[r], step);
    }
  }

  /** `torch.topk(..., k)` on every row and `torch.div(final_indices, k)`:
      the chosen positions, their scores and the beam each falls in. */
  method TopKRows(rows: seq<seq<Score>>, k: nat)
    returns (scores: seq<seq<Score>>, pos: seq<seq<nat>>, beams: seq<seq<int>>)
    requires forall r :: 0 <= r < |rows| ==> k <= |rows[r]|
    ensures |scores| == |pos| == |beams| == |rows|
    ensures forall r :: 0 <= r < |rows| ==>
              && pos[r] == TopK(rows[r], k)
              && scores[r] == Gather(rows[r], pos[r])
              && |beams[r]| == k
              && forall j :: 0 <= j < k ==> beams[r][j] == pos[r][j] / k
  {
    pos := seq(|rows|, r requires 0 <= r < |rows| => TopK(rows[r], k));
    scores := seq(|rows|, r requires 0 <= r < |rows| => Gather(rows[r], pos[r]));
    beams := seq(|rows|, r requires 0 <= r < |rows| => seq(k, j requires 0 <= j < k => pos[r][j] / k));
  }

  /** `for i in range(bsz): final_indices[i] = indices[i][final_indices[i]]`. */
  method ReadTokens(indices: seq<seq<int>>, pos: seq<seq<nat>>) returns (tokens: seq<seq<int>>)
    requires |pos| == |indices|
    requires forall r, j :: 0 <= r < |pos| && 0 <= j < |pos[r]| ==> pos[r][j] < |indices[r]|
    ensures |tokens| == |pos| && forall r :: 0 <= r < |pos| ==> tokens[r] == Gather(indices[r], pos[r])
  {
    tokens := pos;
    var r := 0;
    while r < |pos|
      invariant 0 <= r <= |pos| && |tokens| == |pos|
      invariant forall r' :: 0 <= r' < r ==> tokens[r'] == Gather(indices[r'], pos[r'])
      invariant forall r' :: r <= r' < |pos| ==> tokens[r'] == pos[r']
    {
      var row: seq<nat> := pos[r];
      tokens := tokens[r := Gather(indices[r], row)];
      r := r + 1;
    }
  }

  /** `torch.stack(s_list, dim=1).view(bsz, -1)` and the same for the
      tokens: row r is beam-major, k entries per beam. */
  method StackBatch(t: seq<Grid>, k: nat, rate: real, sList: seq<seq<seq<Score>>>, iList: seq<seq<seq<int>>>)
    returns (stacked: seq<seq<Score>>, indices: seq<seq<int>>)
    requires SiblingsOk(t, k)
    requires sList == ScoreLists(t, k, rate) && iList == TokenLists(t, k)
    ensures |stacked| == |indices| == |t|
    ensures forall r :: 0 <= r < |t| ==>
              && GridOk(t[r]) && k <= |t[r][0]|
              && stacked[r] == Flatten(SiblingGrid(t[r], k, rate))
              && indices[r] == Flatten(TokenGrid(t[r], k))
              && k <= |stacked[r]| == |indices[r]|
  {
    var bsz := |t|;
    stacked := seq(bsz, r requires 0 <= r < bsz => Flatten(StackAt(sList, r)));
    indices := seq(bsz, r requires 0 <= r < bsz => Flatten(StackAt(iList, r)));
    forall r | 0 <= r < bsz
      ensures GridOk(t[r]) && k <= |t[r][0]|
      ensures stacked[r] == Flatten(SiblingGrid(t[r], k, rate))
      ensures indices[r] == Flatten(TokenGrid(t[r], k))
      ensures k <= |stacked[r]| == |indices[r]|
    {
      StackColumns(t, k, rate, r);
      PooledLength(StackAt(sList, r), k);
      PooledLength(StackAt(iList, r), k);
    }
  }

  class DiverseSiblingsSearch {
    const diversityRate: real
    const beam: BeamSearch

    constructor(diversityRate: real)
      ensures this.diversityRate == diversityRate && fresh(beam)
    {
      this.diversityRate := diversityRate;
      beam := new BeamSearch();
    }

    /** One search step over the whole batch. Step 0 hands the batch to
        BeamSearch; afterwards the caller's lprobs are made cumulative in
        place before the sibling lists are ranked, so they stay changed even
        when the per-beam topk then fails. */
    method Step(step: nat, lprobs: array<Grid>, scores: seq<History>)
      returns (res: Result<seq<Selection>>)
      requires BatchOk(lprobs[..], scores, step)
      modifies lprobs, beam
      ensures res == SiblingsStep(step, old(lprobs[..]), scores, diversityRate)
      ensures lprobs[..] == if step == 0 then old(lprobs[..])
                            else AddHistoryBatch(old(lprobs[..]), scores, step)
      ensures step > 0 ==> unchanged(beam)
      ensures step == 0 ==>
                && res.Ok? && |beam.scoresBuf| == |beam.indicesBuf| == |beam.beamsBuf| == |res.value|
                && forall r :: 0 <= r < |res.value| ==>
                     && beam.scoresBuf[r] == res.value[r].scores
                     && beam.indicesBuf[r] == res.value[r].indices
                     && beam.beamsBuf[r] == res.value[r].beams
    {
      var bsz, K, V := lprobs.Length, |lprobs[0]|, |lprobs[0][0]|;
      ghost var before := lprobs[..];
      WidthPositive(before, scores, step);
      var k := Min(2 * K, K * V - 1);
      if step == 0 {
        var s, i, b := beam.Step(step, lprobs, scores);
        res := Ok(seq(bsz, r requires 0 <= r < bsz => Selection(s[r], i[r], b[r])));
        assert res.value == SiblingsStep(step, before, scores, diversityRate).value;
        return;
      }
      AddScores(step, lprobs, scores);
      if k > V {
        return Err(TopKOutOfRange);
      }
      var t := lprobs[..];
      AddedSiblingsOk(before, scores, step, k);
      var sList, iList := RankSiblings(t, k);
      var out := PoolBatch(t, k, sList, iList);
      LaterStep(step, before, scores, diversityRate, out);
      res := Ok(out);
    }

    /** Steps 1 to 3: for each beam i, topk over `lprobs[:, i, :]`, the
        tokens reduced modulo the vocabulary and the scores penalized by rank. */
    method RankSiblings(t: seq<Grid>, k: nat)
      returns (sList: seq<seq<seq<Score>>>, iList: seq<seq<seq<int>>>)
      requires SiblingsOk(t, k)
      ensures sList == ScoreLists(t, k, diversityRate) && iList == TokenLists(t, k)
    {
      sList, iList := [], [];
      var i := 0;
      while i < |t[0]|
        invariant 0 <= i <= |t[0]|
        invariant sList == ScoreLists(t, k, diversityRate)[..i]
        invariant iList == TokenLists(t, k)[..i]
      {
        sList := sList + [ScoreColumn(t, i, k, diversityRate)];
        iList := iList + [TokenColumn(t, i, k)];
        i := i + 1;
      }
    }

    /** Step 4: the stacked lists, the pooled topk with `torch.div` by k
        for the beams, and the batch loop that replaces each pooled
        position by the token stored there. */
    method PoolBatch(t: seq<Grid>, k: nat, sList: seq<seq<seq<Score>>>, iList: seq<seq<seq<int>>>)
      returns (out: seq<Selection>)
      requires SiblingsOk(t, k)
      requires sList == ScoreLists(t, k, diversityRate) && iList == TokenLists(t, k)
      ensures |out| == |t|
      ensures forall r :: 0 <= r < |t| ==>
                GridOk(t[r]) && k <= |t[r][0]| && out[r] == SiblingsRow(t[r], k, diversityRate)
    {
      var bsz := |t|;
      var stacked, indices := StackBatch(t, k, diversityRate, sList, iList);
      var finalScores, finalPos, finalBeams := TopKRows(stacked, k);
      var finalIndices := ReadTokens(indices, finalPos);
      out := seq(bsz, r requires 0 <= r < bsz => Selection(finalScores[r], finalIndices[r], finalBeams[r]));
      forall r | 0 <= r < bsz ensures out[r] == SiblingsRow(t[r], k, diversityRate) {
        PoolRow(stacked[r], indices[r], k, finalPos[r], out[r]);
      }
    }
  }
}
