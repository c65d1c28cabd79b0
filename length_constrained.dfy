/** LengthConstrainedBeamSearch.step: force the end-of-sentence entry by
    per-example length bounds, then run BeamSearch. */
module LengthConstrained {
  import opened Scores
  import opened Indexing
  import opened Results
  import opened Beam

  /** `lprobs[mask, :, eos] = x` on one masked batch element: every beam's
      eos entry becomes x. */
  function SetEos(lp: Grid, eos: nat, x: Score): (r: Grid)
    requires forall b :: 0 <= b < |lp| ==> eos < |lp[b]|
    ensures |r| == |lp| && forall b :: 0 <= b < |lp| ==> |r[b]| == |lp[b]|
  {
    seq(|lp|, b requires 0 <= b < |lp| => lp[b][eos := x])
  }

  /** The eos entry after the three writes, in the order the source makes
      them: below min_len, equal to max_len, above max_len. */
  function MaskedEos(step: nat, minLen: real, maxLen: real, x: Score): (r: Score)
    ensures (step as real) > maxLen ==> r == NegInf
    ensures (step as real) == maxLen ==> r == Fin(0.0)
    ensures (step as real) < minLen && (step as real) < maxLen ==> r == NegInf
    ensures minLen <= (step as real) < maxLen ==> r == x
  {
    var x1 := if (step as real) < minLen then NegInf else x;
    var x2 := if (step as real) == maxLen then Fin(0.0) else x1;
    if (step as real) > maxLen then NegInf else x2
  }

  /** One batch element after the masking. */
  function MaskRow(lp: Grid, eos: nat, step: nat, minLen: real, maxLen: real): (m: Grid)
    requires forall b :: 0 <= b < |lp| ==> eos < |lp[b]|
    ensures |m| == |lp| && forall b :: 0 <= b < |lp| ==> |m[b]| == |lp[b]|
  {
    seq(|lp|, b requires 0 <= b < |lp| => lp[b][eos := MaskedEos(step, minLen, maxLen, lp[b][eos])])
  }

  /** The three writes applied one after the other give MaskRow. */
  lemma ThreeWrites(lp: Grid, eos: nat, step: nat, minLen: real, maxLen: real)
    requires forall b :: 0 <= b < |lp| ==> eos < |lp[b]|
    ensures var x1 := if (step as real) < minLen then SetEos(lp, eos, NegInf) else lp;
            var x2 := if (step as real) == maxLen then SetEos(x1, eos, Fin(0.0)) else x1;
            var x3 := if (step as real) > maxLen then SetEos(x2, eos, NegInf) else x2;
            x3 == MaskRow(lp, eos, step, minLen, maxLen)
  {
    var x1 := if (step as real) < minLen then SetEos(lp, eos, NegInf) else lp;
    var x2 := if (step as real) == maxLen then SetEos(x1, eos, Fin(0.0)) else x1;
    var x3 := if (step as real) > maxLen then SetEos(x2, eos, NegInf) else x2;
    var m := MaskRow(lp, eos, step, minLen, maxLen);
    forall b | 0 <= b < |lp| ensures x3[b] == m[b] {
      var e1 := if (step as real) < minLen then NegInf else lp[b][eos];
      assert x1[b] == lp[b][eos := e1];
      var e2 := if (step as real) == maxLen then Fin(0.0) else e1;
      assert x2[b] == lp[b][eos := e2];
    }
  }

  /** Only the eos column changes. It becomes -inf past max_len, 0 at
      max_len (this write wins over the min_len one), -inf before min_len,
      and keeps its value otherwise. */
  lemma MaskRowEffect(lp: Grid, eos: nat, step: nat, minLen: real, maxLen: real)
    requires forall b :: 0 <= b < |lp| ==> eos < |lp[b]|
    ensures var m := MaskRow(lp, eos, step, minLen, maxLen);
            && |m| == |lp|
            && forall b :: 0 <= b < |lp| ==>
                 && |m[b]| == |lp[b]|
                 && (forall v :: 0 <= v < |lp[b]| && v != eos ==> m[b][v] == lp[b][v])
                 && m[b][eos] == (if (step as real) > maxLen then NegInf
                                  else if (step as real) == maxLen then Fin(0.0)
                                  else if (step as real) < minLen then NegInf
                                  else lp[b][eos])
  {
  }

  /** Before min_len (and away from max_len) eos can only come back with
      score -inf: the model never ends a hypothesis early on its own. */
  lemma NoEarlyEos(step: nat, lp: Grid, hist: History, eos: nat, minLen: real, maxLen: real)
    requires GridOk(lp) && HistoryOk(hist, |lp|, step) && eos < |lp[0]|
    requires (step as real) < minLen && (step as real) != maxLen
    ensures GridOk(MaskRow(lp, eos, step, minLen, maxLen))
    ensures var r := BeamStepRow(step, MaskRow(lp, eos, step, minLen, maxLen), hist);
            forall j :: 0 <= j < |r.scores| && j < |r.indices| && r.indices[j] == eos ==>
              r.scores[j] == NegInf
  {
    var m := MaskRow(lp, eos, step, minLen, maxLen);
    MaskRowEffect(lp, eos, step, minLen, maxLen);
    BeamStepScores(step, m, hist);
  }

  /** At max_len every beam's eos entry is 0 and is what gets ranked. */
  lemma EosAtMaxLen(step: nat, lp: Grid, hist: History, eos: nat, minLen: real, maxLen: real, b: nat)
    requires GridOk(lp) && HistoryOk(hist, |lp|, step) && eos < |lp[0]|
    requires (step as real) == maxLen && b < |lp|
    ensures GridOk(MaskRow(lp, eos, step, minLen, maxLen))
    ensures CandidateScore(step, MaskRow(lp, eos, step, minLen, maxLen), hist, b, eos) ==
            if step == 0 then Fin(0.0) else Plus(Fin(0.0), hist[b][step - 1])
  {
    MaskRowEffect(lp, eos, step, minLen, maxLen);
  }

  class LengthConstrainedBeamSearch {
    const eos: nat
    const minLenA: real
    const minLenB: real
    const maxLenA: real
    const maxLenB: real
    /** None until set_src_lengths is called (the source's -1 placeholder). */
    var srcLengths: Option<seq<nat>>
    const beam: BeamSearch

    constructor(eos: nat, minLenA: real, minLenB: real, maxLenA: real, maxLenB: real)
      ensures this.eos == eos && this.minLenA == minLenA && this.minLenB == minLenB
      ensures this.maxLenA == maxLenA && this.maxLenB == maxLenB
      ensures srcLengths == None && fresh(beam)
    {
      this.eos, this.minLenA, this.minLenB := eos, minLenA, minLenB;
      this.maxLenA, this.maxLenB := maxLenA, maxLenB;
      srcLengths := None;
      beam := new BeamSearch();
    }

    method SetSrcLengths(lengths: seq<nat>)
      modifies this`srcLengths
      ensures srcLengths == Some(lengths)
    {
      srcLengths := Some(lengths);
    }

    function MinLen(srcLen: nat): real {
      minLenA * (srcLen as real) + minLenB
    }

    function MaxLen(srcLen: nat): real {
      maxLenA * (srcLen as real) + maxLenB
    }

    /** The batch after masking: element r is bounded by its own source length. */
    function MaskBatch(t: seq<Grid>, step: nat, lens: seq<nat>): (m: seq<Grid>)
      requires |lens| == |t| && forall r :: 0 <= r < |t| ==> forall b :: 0 <= b < |t[r]| ==> eos < |t[r][b]|
      ensures |m| == |t|
    {
      seq(|t|, r requires 0 <= r < |t| => MaskRow(t[r], eos, step, MinLen(lens[r]), MaxLen(lens[r])))
    }

    /** Lines 106-108: the three masked writes to the eos column, in order. */
    method MaskEos(step: nat, lprobs: array<Grid>, lens: seq<nat>)
      requires |lens| == lprobs.Length
      requires forall r :: 0 <= r < lprobs.Length ==> forall b :: 0 <= b < |lprobs[r]| ==> eos < |lprobs[r][b]|
      modifies lprobs
      ensures lprobs[..] == MaskBatch(old(lprobs[..]), step, lens)
    {
      var bsz := lprobs.Length;
      var minLens := seq(bsz, r requires 0 <= r < bsz => MinLen(lens[r]));
      var maxLens := seq(bsz, r requires 0 <= r < bsz => MaxLen(lens[r]));
      ghost var before := lprobs[..];
      forall r | 0 <= r < bsz && (step as real) < minLens[r] {
        lprobs[r] := SetEos(lprobs[r], eos, NegInf);
      }
      ghost var afterMin := lprobs[..];
      forall r | 0 <= r < bsz && (step as real) == maxLens[r] {
        lprobs[r] := SetEos(lprobs[r], eos, Fin(0.0));
      }
      ghost var afterMax := lprobs[..];
      forall r | 0 <= r < bsz && (step as real) > maxLens[r] {
        lprobs[r] := SetEos(lprobs[r], eos, NegInf);
      }
      forall r | 0 <= r < bsz
        ensures lprobs[r] == MaskRow(before[r], eos, step, minLens[r], maxLens[r])
      {
        assert afterMin[r] == if (step as real) < minLens[r] then SetEos(before[r], eos, NegInf) else before[r];
        assert afterMax[r] == if (step as real) == maxLens[r] then SetEos(afterMin[r], eos, Fin(0.0)) else afterMin[r];
        ThreeWrites(before[r], eos, step, minLens[r], maxLens[r]);
      }
    }

    /** The caller's lprobs are masked in place (and made cumulative by
        BeamSearch at step > 0); the result is BeamSearch's on the masked rows. */
    method Step(step: nat, lprobs: array<Grid>, scores: seq<History>)
      returns (s: seq<seq<Score>>, i: seq<seq<int>>, b: seq<seq<int>>)
      requires BatchOk(lprobs[..], scores, step) && eos < |lprobs[0][0]|
      requires srcLengths.Some? && |srcLengths.value| == lprobs.Length
      modifies lprobs, beam
      ensures var m := MaskBatch(old(lprobs[..]), step, srcLengths.value);
              BatchOk(m, scores, step) &&
              lprobs[..] == if step == 0 then m else AddHistoryBatch(m, scores, step)
      ensures |s| == |i| == |b| == lprobs.Length
      ensures forall r :: 0 <= r < lprobs.Length ==>
                var len := srcLengths.value[r];
                var m := MaskRow(old(lprobs[..])[r], eos, step, MinLen(len), MaxLen(len));
                GridOk(m) &&
                var sel := BeamStepRow(step, m, scores[r]);
                s[r] == sel.scores && i[r] == sel.indices && b[r] == sel.beams
      ensures beam.scoresBuf == s && beam.indicesBuf == i && beam.beamsBuf == b
    {
      ghost var before := lprobs[..];
      MaskEos(step, lprobs, srcLengths.value);
      forall r | 0 <= r < lprobs.Length
        ensures Shaped(lprobs[r], |before[0]|, |before[0][0]|)
      {
        MaskRowEffect(before[r], eos, step, MinLen(srcLengths.value[r]), MaxLen(srcLengths.value[r]));
      }
      assert BatchOk(lprobs[..], scores, step);
      s, i, b := beam.Step(step, lprobs, scores);
    }
  }
}
