/** BeamSearch.step: top-(2·beam) selection over the flattened
    (beam, vocabulary) grid of one decoding step. */
module Beam {
  import opened Scores
  import opened Ranking
  import opened Indexing

  /** One batch element's log-probabilities: input_beam_size rows of
      vocab_size entries. */
  type Grid = seq<seq<Score>>

  /** One batch element's score history: input_beam_size rows of at least
      `step` cumulative scores. */
  type History = seq<seq<Score>>

  /** The (scores, indices, beams) triple for one batch element. */
  datatype Selection = Selection(scores: seq<Score>, indices: seq<int>, beams: seq<int>)

  function Min(a: int, b: int): int {
    if a <= b then a else b
  }

  predicate Shaped(lp: Grid, beams: nat, vocab: nat) {
    |lp| == beams && Uniform(lp, vocab)
  }

  /** A non-empty beams × vocab grid. */
  predicate GridOk(lp: Grid) {
    |lp| > 0 && |lp[0]| > 0 && Uniform(lp, |lp[0]|)
  }

  predicate HistoryOk(hist: History, beams: nat, step: nat) {
    |hist| == beams && forall b :: 0 <= b < beams ==> |hist[b]| >= step
  }

  /** A whole lprobs tensor (bsz × beams × vocab) and its score history. */
  predicate BatchOk(t: seq<Grid>, h: seq<History>, step: nat) {
    && |t| > 0 && GridOk(t[0])
    && |h| == |t|
    && forall r :: 0 <= r < |t| ==>
         Shaped(t[r], |t[0]|, |t[0][0]|) && HistoryOk(h[r], |t[0]|, step)
  }

  /** `lprobs.add_(scores[:, :, step - 1].unsqueeze(-1))` on one batch element. */
  function AddHistory(lp: Grid, hist: History, step: nat): (r: Grid)
    requires step > 0 && HistoryOk(hist, |lp|, step)
    ensures |r| == |lp|
    ensures forall b :: 0 <= b < |lp| ==> |r[b]| == |lp[b]|
  {
    seq(|lp|, b requires 0 <= b < |lp| =>
          seq(|lp[b]|, v requires 0 <= v < |lp[b]| => Plus(lp[b][v], hist[b][step - 1])))
  }

  /** `lprobs.add_(...)` on the whole batch. */
  function AddHistoryBatch(t: seq<Grid>, h: seq<History>, step: nat): (r: seq<Grid>)
    requires step > 0 && BatchOk(t, h, step)
    ensures |r| == |t|
  {
    seq(|t|, r requires 0 <= r < |t| => AddHistory(t[r], h[r], step))
  }

  /** The score a (beam, token) candidate is ranked on: at step 0 only beam 0
      takes part; afterwards the beam's cumulative score is added. */
  function CandidateScore(step: nat, lp: Grid, hist: History, b: nat, v: nat): Score
    requires GridOk(lp) && HistoryOk(hist, |lp|, step)
    requires b < |lp| && v < |lp[0]|
  {
    if step == 0 then lp[0][v] else Plus(lp[b][v], hist[b][step - 1])
  }

  /** The flat row `lprobs.view(bsz, -1)` that topk ranks. */
  function Candidates(step: nat, lp: Grid, hist: History): (c: seq<Score>)
    requires GridOk(lp) && HistoryOk(hist, |lp|, step)
    ensures |c| == if step == 0 then |lp[0]| else |lp| * |lp[0]|
  {
    if step == 0 then lp[0]
    else
      FlattenLength(AddHistory(lp, hist, step), |lp[0]|);
      Flatten(AddHistory(lp, hist, step))
  }

  /** k = min(2·beam_size, width - 1): one position always stays unselected. */
  function Count(beams: nat, width: nat): nat
    requires width > 0
  {
    Min(2 * beams, width - 1)
  }

  /** Top-k over a flat row of width beams·vocab (or vocab), followed by
      `torch.div` and `fmod_` by vocab_size. */
  function SelectFlat(cand: seq<Score>, beams: nat, vocab: nat): (r: Selection)
    requires vocab > 0 && |cand| > 0
    ensures |r.scores| == |r.indices| == |r.beams| == Count(beams, |cand|)
    ensures forall j :: 0 <= j < |r.indices| ==> 0 <= r.indices[j] < vocab
    ensures forall j :: 0 < j < |r.scores| ==> Le(r.scores[j], r.scores[j - 1])
  {
    var k := Count(beams, |cand|);
    var pos := TopK(cand, k);
    Selection(seq(k, j requires 0 <= j < k => cand[pos[j]]),
              seq(k, j requires 0 <= j < k => pos[j] % vocab),
              seq(k, j requires 0 <= j < k => pos[j] / vocab))
  }

  /** BeamSearch.step on one batch element. */
  function BeamStepRow(step: nat, lp: Grid, hist: History): (r: Selection)
    requires GridOk(lp) && HistoryOk(hist, |lp|, step)
    ensures |r.scores| == |r.indices| == |r.beams| ==
            Min(2 * |lp|, (if step == 0 then |lp[0]| else |lp| * |lp[0]|) - 1)
    ensures forall j :: 0 <= j < |r.indices| ==> 0 <= r.indices[j] < |lp[0]|
    ensures forall j :: 0 < j < |r.scores| ==> Le(r.scores[j], r.scores[j - 1])
  {
    SelectFlat(Candidates(step, lp, hist), |lp|, |lp[0]|)
  }

  /** The candidate (b, v) sits at flat position b·V + v of the ranked row. */
  lemma CandidateAt(step: nat, lp: Grid, hist: History, b: nat, v: nat)
    requires GridOk(lp) && HistoryOk(hist, |lp|, step)
    requires b < (if step == 0 then 1 else |lp|) && v < |lp[0]|
    ensures 0 <= b * |lp[0]| + v < |Candidates(step, lp, hist)|
    ensures Candidates(step, lp, hist)[b * |lp[0]| + v] == CandidateScore(step, lp, hist, b, v)
  {
    if step > 0 {
      FlattenAtPair(AddHistory(lp, hist, step), |lp[0]|, b, v);
    } else {
      assert b * |lp[0]| == 0;
    }
  }

  /** What SelectFlat returns, position by position: the j-th answer of
      topk, split into row (beam) and column (token). */
  lemma SelectFlatAt(cand: seq<Score>, beams: nat, vocab: nat)
    requires vocab > 0 && |cand| > 0
    ensures var r := SelectFlat(cand, beams, vocab);
            var pos := TopK(cand, Count(beams, |cand|));
            && |r.indices| == |r.beams| == |r.scores| == |pos|
            && forall j :: 0 <= j < |pos| ==>
                 && r.beams[j] * vocab + r.indices[j] == pos[j]
                 && 0 <= r.indices[j] < vocab
                 && r.scores[j] == cand[pos[j]]
  {
    var r := SelectFlat(cand, beams, vocab);
    var pos := TopK(cand, Count(beams, |cand|));
    forall j | 0 <= j < |pos| ensures r.beams[j] * vocab + r.indices[j] == pos[j] {
      DivModSplit(pos[j], vocab);
    }
  }

  /** beams·V + indices is exactly the flat position topk chose, and the
      score returned with it is the candidate score at that position. */
  lemma BeamStepPositions(step: nat, lp: Grid, hist: History)
    requires GridOk(lp) && HistoryOk(hist, |lp|, step)
    ensures var r := BeamStepRow(step, lp, hist);
            var cand := Candidates(step, lp, hist);
            var pos := TopK(cand, |r.scores|);
            && |r.scores| <= |cand|
            && |r.indices| == |r.beams| == |r.scores|
            && forall j :: 0 <= j < |r.scores| ==>
                 r.beams[j] * |lp[0]| + r.indices[j] == pos[j] && r.scores[j] == cand[pos[j]]
  {
    var cand := Candidates(step, lp, hist);
    assert BeamStepRow(step, lp, hist) == SelectFlat(cand, |lp|, |lp[0]|);
    SelectFlatAt(cand, |lp|, |lp[0]|);
  }

  /** The j-th returned candidate: its beam, its token and its score. */
  lemma BeamStepAt(step: nat, lp: Grid, hist: History, j: nat)
    requires GridOk(lp) && HistoryOk(hist, |lp|, step)
    requires j < |BeamStepRow(step, lp, hist).scores|
    ensures var r := BeamStepRow(step, lp, hist);
            && |r.indices| == |r.beams| == |r.scores|
            && 0 <= r.beams[j] < (if step == 0 then 1 else |lp|)
            && 0 <= r.indices[j] < |lp[0]|
            && r.scores[j] == CandidateScore(step, lp, hist, r.beams[j], r.indices[j])
  {
    var r := BeamStepRow(step, lp, hist);
    var cand := Candidates(step, lp, hist);
    var V := |lp[0]|;
    BeamStepPositions(step, lp, hist);
    var p := TopK(cand, |r.scores|)[j];
    if step == 0 {
      DivModUnique(p, V, 0, p);
    } else {
      SplitBound(p, |lp|, V);
    }
    CandidateAt(step, lp, hist, r.beams[j], r.indices[j]);
  }

  /** BeamSearch returns exactly min(2·beam, width - 1) candidates, where the
      width is vocab at step 0 and beam·vocab afterwards; every beam lies in
      [0, beam) (all 0 at step 0) and every index in [0, vocab). */
  lemma BeamStepShape(step: nat, lp: Grid, hist: History)
    requires GridOk(lp) && HistoryOk(hist, |lp|, step)
    ensures var r := BeamStepRow(step, lp, hist);
            var k := Min(2 * |lp|, (if step == 0 then |lp[0]| else |lp| * |lp[0]|) - 1);
            && |r.scores| == k && |r.indices| == k && |r.beams| == k
            && (forall j :: 0 <= j < k ==> 0 <= r.indices[j] < |lp[0]|)
            && (forall j :: 0 <= j < k ==> 0 <= r.beams[j] < |lp|)
            && (step == 0 ==> forall j :: 0 <= j < k ==> r.beams[j] == 0)
  {
    var r := BeamStepRow(step, lp, hist);
    forall j | 0 <= j < |r.scores|
      ensures 0 <= r.indices[j] < |lp[0]| && 0 <= r.beams[j] < (if step == 0 then 1 else |lp|)
    {
      BeamStepAt(step, lp, hist, j);
    }
  }

  /** Each returned score is the ranked score of the (beam, token) it names:
      lprobs[0][v] at step 0, lprobs[b][v] + scores[b][step - 1] afterwards. */
  lemma BeamStepScores(step: nat, lp: Grid, hist: History)
    requires GridOk(lp) && HistoryOk(hist, |lp|, step)
    ensures var r := BeamStepRow(step, lp, hist);
            && |r.indices| == |r.scores| && |r.beams| == |r.scores|
            && forall j :: 0 <= j < |r.scores| ==>
                 && 0 <= r.beams[j] < |lp| && 0 <= r.indices[j] < |lp[0]|
                 && r.scores[j] == CandidateScore(step, lp, hist, r.beams[j], r.indices[j])
  {
    var r := BeamStepRow(step, lp, hist);
    forall j | 0 <= j < |r.scores|
      ensures && 0 <= r.beams[j] < |lp| && 0 <= r.indices[j] < |lp[0]|
              && r.scores[j] == CandidateScore(step, lp, hist, r.beams[j], r.indices[j])
    {
      BeamStepAt(step, lp, hist, j);
    }
  }

  /** The (beam, token) pairs are distinct and their scores never increase. */
  lemma BeamStepOrdered(step: nat, lp: Grid, hist: History)
    requires GridOk(lp) && HistoryOk(hist, |lp|, step)
    ensures var r := BeamStepRow(step, lp, hist);
            var k := |r.scores|;
            && |r.indices| == k && |r.beams| == k
            && (forall i, j :: 0 <= i < j < k ==>
                  r.beams[i] != r.beams[j] || r.indices[i] != r.indices[j])
            && (forall j :: 0 < j < k ==> Le(r.scores[j], r.scores[j - 1]))
  {
    var r := BeamStepRow(step, lp, hist);
    var k := |r.scores|;
    BeamStepPositions(step, lp, hist);
    var pos := TopK(Candidates(step, lp, hist), k);
    forall i, j | 0 <= i < j < k
      ensures r.beams[i] != r.beams[j] || r.indices[i] != r.indices[j]
    {
      assert pos[i] != pos[j];
    }
  }

  /** No candidate left out scores strictly above the last one returned:
      at step 0 the candidates are beam 0's tokens, afterwards every
      (beam, token) pair. */
  lemma BeamStepBest(step: nat, lp: Grid, hist: History, b: nat, v: nat)
    requires GridOk(lp) && HistoryOk(hist, |lp|, step)
    requires b < (if step == 0 then 1 else |lp|) && v < |lp[0]|
    requires var r := BeamStepRow(step, lp, hist);
             && |r.scores| > 0 && |r.beams| == |r.indices| == |r.scores|
             && forall j :: 0 <= j < |r.scores| ==> r.beams[j] != b || r.indices[j] != v
    ensures var r := BeamStepRow(step, lp, hist);
            Le(CandidateScore(step, lp, hist, b, v), r.scores[|r.scores| - 1])
  {
    var r := BeamStepRow(step, lp, hist);
    var cand := Candidates(step, lp, hist);
    var V := |lp[0]|;
    var k := |r.scores|;
    BeamStepPositions(step, lp, hist);
    var pos := TopK(cand, k);
    var p := b * V + v;
    CandidateAt(step, lp, hist, b, v);
    if p in pos {
      var j :| 0 <= j < k && pos[j] == p;
      BeamStepAt(step, lp, hist, j);
      PairUnique(r.beams[j], r.indices[j], b, v, V);
      assert false;
    }
  }

  /** A flat position b·V + v with v in [0, V) determines b and v. */
  lemma PairUnique(b1: int, v1: int, b2: int, v2: int, V: nat)
    requires 0 <= v1 < V && 0 <= v2 < V && b1 * V + v1 == b2 * V + v2
    ensures b1 == b2 && v1 == v2
  {
    DivModUnique(b1 * V + v1, V, b1, v1);
    DivModUnique(b2 * V + v2, V, b2, v2);
  }

  /** Ties cannot change the scores: every valid topk answer over the same
      candidates yields exactly the returned score sequence. */
  lemma BeamStepScoresUnique(step: nat, lp: Grid, hist: History, other: seq<nat>)
    requires GridOk(lp) && HistoryOk(hist, |lp|, step)
    requires IsTopK(Candidates(step, lp, hist), |BeamStepRow(step, lp, hist).scores|, other)
    ensures forall j :: 0 <= j < |other| ==>
              Candidates(step, lp, hist)[other[j]] == BeamStepRow(step, lp, hist).scores[j]
  {
    var cand := Candidates(step, lp, hist);
    var k := Count(|lp|, |cand|);
    ScoresDetermined(cand, k, other, TopK(cand, k));
  }

  /** The search object: the three output buffers it keeps between steps. */
  class BeamSearch {
    var scoresBuf: seq<seq<Score>>
    var indicesBuf: seq<seq<int>>
    var beamsBuf: seq<seq<int>>

    constructor()
      ensures scoresBuf == [] && indicesBuf == [] && beamsBuf == []
    {
      scoresBuf, indicesBuf, beamsBuf := [], [], [];
    }

    /** One search step over the whole batch. At step > 0 the caller's
        lprobs are made cumulative in place; the result is what BeamStepRow
        gives for each batch element, and it is also left in the buffers. */
    method Step(step: nat, lprobs: array<Grid>, scores: seq<History>)
      returns (s: seq<seq<Score>>, i: seq<seq<int>>, b: seq<seq<int>>)
      requires BatchOk(lprobs[..], scores, step)
      modifies this, lprobs
      ensures lprobs[..] == if step == 0 then old(lprobs[..])
                            else AddHistoryBatch(old(lprobs[..]), scores, step)
      ensures |s| == |i| == |b| == lprobs.Length
      ensures forall r :: 0 <= r < lprobs.Length ==>
                var sel := BeamStepRow(step, old(lprobs[..])[r], scores[r]);
                s[r] == sel.scores && i[r] == sel.indices && b[r] == sel.beams
      ensures scoresBuf == s && indicesBuf == i && beamsBuf == b
    {
      var bsz, beamSize, vocabSize := lprobs.Length, |lprobs[0]|, |lprobs[0][0]|;
      ghost var before := lprobs[..];
      if step > 0 {
        forall r | 0 <= r < bsz {
          lprobs[r] := AddHistory(lprobs[r], scores[r], step);
        }
      }
      var t := lprobs[..];
      var width := if step == 0 then vocabSize else beamSize * vocabSize;
      var cands := seq(bsz, r requires 0 <= r < bsz =>
                         if step == 0 then t[r][0] else Flatten(t[r]));
      forall r | 0 <= r < bsz
        ensures cands[r] == Candidates(step, before[r], scores[r]) && |cands[r]| == width
      {
      }
      TakeTop(cands, beamSize, vocabSize);
      s, i, b := scoresBuf, indicesBuf, beamsBuf;
    }

    /** topk over each flat row, then `torch.div` into the beam buffer and
        `fmod_` of the index buffer in place. */
    method TakeTop(cands: seq<seq<Score>>, beamSize: nat, vocabSize: nat)
      requires vocabSize > 0 && |cands| > 0 && |cands[0]| > 0
      requires forall r :: 0 <= r < |cands| ==> |cands[r]| == |cands[0]|
      modifies this
      ensures |scoresBuf| == |indicesBuf| == |beamsBuf| == |cands|
      ensures forall r :: 0 <= r < |cands| ==>
                var sel := SelectFlat(cands[r], beamSize, vocabSize);
                scoresBuf[r] == sel.scores && indicesBuf[r] == sel.indices && beamsBuf[r] == sel.beams
    {
      var bsz := |cands|;
      var sels := seq(bsz, r requires 0 <= r < bsz => SelectFlat(cands[r], beamSize, vocabSize));
      scoresBuf := seq(bsz, r requires 0 <= r < bsz => sels[r].scores);
      beamsBuf := seq(bsz, r requires 0 <= r < bsz => sels[r].beams);
      indicesBuf := seq(bsz, r requires 0 <= r < bsz => sels[r].indices);
    }
  }
}
