/** Sampling.step without its rescoring branch: the rows sampled from, the
    optional top-k or top-p truncation, the drawn positions (a parameter:
    they come from torch.multinomial), their remap to vocabulary ids and the
    beam and score bookkeeping. */
module SamplingSearch {
  import opened Scores
  import opened Ranking
  import opened Results
  import opened Beam
  import opened TopP

  /** Which branch restricts what is sampled from: top-p wins over top-k,
      and neither leaves the whole vocabulary. */
  datatype Truncation = ByMass(p: real) | ByCount(k: nat) | Untruncated

  function TruncationOf(samplingTopk: int, samplingTopp: real): (tr: Truncation)
    ensures tr.ByMass? <==> samplingTopp > 0.0
    ensures tr.ByCount? <==> samplingTopp <= 0.0 && samplingTopk > 0
  {
    if samplingTopp > 0.0 then ByMass(samplingTopp)
    else if samplingTopk > 0 then ByCount(samplingTopk)
    else Untruncated
  }

  /** `probs = lprobs.exp_()` on one score, with exp given: -inf has
      probability 0. */
  function Prob(exp: real -> real, s: Score): real {
    if s.NegInf? then 0.0 else exp(s.v)
  }

  function Probs(exp: real -> real, row: seq<Score>): (pr: seq<real>)
    ensures |pr| == |row| && forall v :: 0 <= v < |row| ==> pr[v] == Prob(exp, row[v])
  {
    seq(|row|, v requires 0 <= v < |row| => Prob(exp, row[v]))
  }

  /** exp never yields a negative probability. */
  ghost predicate ExpOk(exp: real -> real) {
    forall x :: 0.0 <= exp(x)
  }

  lemma ProbsNonNegative(exp: real -> real, row: seq<Score>)
    requires ExpOk(exp)
    ensures NonNegative(Probs(exp, row))
  {
  }

  /** `lprobs[:, ::beam_size, :]` at step 0 keeps beam 0 only; afterwards
      every beam is sampled from. */
  function SampledRows(step: nat, lp: Grid): (rows: Grid)
    requires GridOk(lp)
    ensures |rows| == (if step == 0 then 1 else |lp|) && GridOk(rows) && |rows[0]| == |lp[0]|
    ensures forall i :: 0 <= i < |lp| ==> Source(step, i) < |rows| && rows[Source(step, i)] == lp[Source(step, i)]
  {
    if step == 0 then [lp[0]] else lp
  }

  /** The row slot i is drawn from: at step 0 `probs.expand` gives every
      slot beam 0's row. */
  function Source(step: nat, i: nat): nat {
    if step == 0 then 0 else i
  }

  /** A batch of grids of one shape (the shape part of BatchOk). */
  predicate BatchShaped(t: seq<Grid>) {
    |t| > 0 && GridOk(t[0]) && forall b :: 0 <= b < |t| ==> Shaped(t[b], |t[0]|, |t[0][0]|)
  }

  /** The probability rows one batch element samples from. */
  function ProbRows(exp: real -> real, step: nat, lp: Grid): (rows: seq<seq<real>>)
    requires GridOk(lp)
    ensures RowsOk(rows) && |rows| == |SampledRows(step, lp)| && |rows[0]| == |lp[0]|
    ensures forall i :: 0 <= i < |rows| ==> rows[i] == Probs(exp, SampledRows(step, lp)[i])
  {
    var src := SampledRows(step, lp);
    seq(|src|, i requires 0 <= i < |src| => Probs(exp, src[i]))
  }

  /** Every batch element of such a batch is a grid of the first one's shape. */
  lemma BatchShapedAt(t: seq<Grid>, b: nat)
    requires BatchShaped(t) && b < |t|
    ensures GridOk(t[b]) && |t[b]| == |t[0]| && |t[b][0]| == |t[0][0]|
  {
  }

  /** `last_included.max() + 1` over the whole batch: how many sorted
      positions the trimmed rows keep. */
  function NucleusWidth(exp: real -> real, p: real, step: nat, t: seq<Grid>): (w: nat)
    requires BatchShaped(t)
    ensures w <= |t[0][0]|
    ensures forall b :: 0 <= b < |t| ==> GridOk(t[b]) && Width(ProbRows(exp, step, t[b]), p) <= w
  {
    var widths := seq(|t|, b requires 0 <= b < |t| => BatchShapedAt(t, b); Width(ProbRows(exp, step, t[b]), p));
    var w := MaxOf(widths);
    assert forall b :: 0 <= b < |t| ==> GridOk(t[b]) && Width(ProbRows(exp, step, t[b]), p) == widths[b] <= w by {
      forall b | 0 <= b < |t| ensures GridOk(t[b]) && Width(ProbRows(exp, step, t[b]), p) == widths[b] <= w {
        BatchShapedAt(t, b);
      }
    }
    assert w <= |t[0][0]| by {
      var b :| 0 <= b < |t| && widths[b] == w;
      BatchShapedAt(t, b);
    }
    w
  }

  /** How many positions a draw may come from. */
  function DrawRange(tr: Truncation, exp: real -> real, step: nat, t: seq<Grid>): nat
    requires BatchShaped(t)
  {
    match tr
    case ByMass(p) => NucleusWidth(exp, p, step, t)
    case ByCount(k) => k
    case Untruncated => |t[0][0]|
  }

  /** The multinomial draws: beam_size positions per batch element, each
      in range of the (truncated) row it is drawn from. */
  predicate DrawsOk(tr: Truncation, exp: real -> real, step: nat, t: seq<Grid>, draws: seq<seq<nat>>)
    requires BatchShaped(t)
  {
    && |draws| == |t|
    && (forall b :: 0 <= b < |t| ==> |draws[b]| == |t[0]|)
    && (forall b, i :: 0 <= b < |t| && 0 <= i < |t[0]| ==> draws[b][i] < DrawRange(tr, exp, step, t))
  }

  /** A drawn token and the log of the probability gathered for it. */
  datatype Drawn = Drawn(token: nat, score: Score)

  /** Drawn position d of a row: the vocabulary id `top_indices` maps it to
      and `scores_buf = probs[d].log_()`, with log taken as the inverse of
      exp: the token's log-probability, or -inf where top-p trimmed the
      probability to 0. */
  function Pick(tr: Truncation, exp: real -> real, row: seq<Score>, d: nat): (pk: Drawn)
    requires d < |row|
    requires tr.ByCount? ==> d < tr.k <= |row|
    ensures pk.token < |row|
    ensures pk.score == row[pk.token] || (tr.ByMass? && pk.score == NegInf)
    ensures tr.ByCount? ==> pk.token in TopK(row, tr.k)
  {
    match tr
    case Untruncated => Drawn(d, row[d])
    case ByCount(k) =>
      var top := TopK(row, k);
      Drawn(top[d], row[top[d]])
    case ByMass(p) =>
      var pr := Probs(exp, row);
      var idx := SortDesc(pr);
      Drawn(idx[d], if Nucleus(pr, p)[d] then row[idx[d]] else NegInf)
  }

  /** One batch element's draws lie in the rows they are drawn from. */
  predicate RowDrawsOk(tr: Truncation, lp: Grid, draws: seq<nat>)
    requires GridOk(lp)
  {
    && |draws| == |lp|
    && (forall i :: 0 <= i < |lp| ==> draws[i] < |lp[0]|)
    && (tr.ByCount? ==> tr.k <= |lp[0]| && forall i :: 0 <= i < |lp| ==> draws[i] < tr.k)
  }

  /** Sampling.step on one batch element, given its draws: slot i's token
      and score come from its source row, its beam is 0 at step 0 and i
      afterwards, and after step 0 the beam's previous cumulative score is
      added. */
  function SampleRow(tr: Truncation, exp: real -> real, step: nat, lp: Grid, hist: History, draws: seq<nat>): (s: Selection)
    requires GridOk(lp) && HistoryOk(hist, |lp|, step) && RowDrawsOk(tr, lp, draws)
    ensures |s.scores| == |s.indices| == |s.beams| == |lp|
    ensures forall i :: 0 <= i < |lp| ==> 0 <= s.indices[i] < |lp[0]| && 0 <= s.beams[i] < |lp|
  {
    var K := |lp|;
    var picks := seq(K, i requires 0 <= i < K => Pick(tr, exp, lp[Source(step, i)], draws[i]));
    Selection(seq(K, i requires 0 <= i < K =>
                    if step == 0 then picks[i].score else Plus(picks[i].score, hist[i][step - 1])),
              seq(K, i requires 0 <= i < K => picks[i].token as int),
              seq(K, i requires 0 <= i < K => Source(step, i) as int))
  }

  /** The whole batch. Asking topk for more entries than the vocabulary
      holds is torch's error. */
  function SamplingStep(tr: Truncation, exp: real -> real, step: nat, t: seq<Grid>, h: seq<History>,
                        draws: seq<seq<nat>>): (res: Result<seq<Selection>>)
    requires BatchOk(t, h, step) && DrawsOk(tr, exp, step, t, draws)
    ensures res.Err? <==> tr.ByCount? && tr.k > |t[0][0]|
    ensures res.Err? ==> res.error == TopKOutOfRange
    ensures res.Ok? ==> |res.value| == |t|
  {
    var V := |t[0][0]|;
    if tr.ByCount? && tr.k > V then Err(TopKOutOfRange)
    else
      Ok(seq(|t|, b requires 0 <= b < |t| => SampleRow(tr, exp, step, t[b], h[b], draws[b])))
  }

  /** The step as written: `lprobs = logprob.clone()` runs on every path,
      but logprob is only set by the top-k branch. */
  function SamplingStepAsWritten(tr: Truncation, exp: real -> real, step: nat, t: seq<Grid>, h: seq<History>,
                                 draws: seq<seq<nat>>): (res: Result<seq<Selection>>)
    requires BatchOk(t, h, step) && DrawsOk(tr, exp, step, t, draws)
    ensures res.Ok? <==> tr.ByCount? && tr.k <= |t[0][0]|
    ensures res.Err? ==> res.error == if tr.ByCount? then TopKOutOfRange else NoneHasNoClone
  {
    if tr.ByCount? then SamplingStep(tr, exp, step, t, h, draws) else Err(NoneHasNoClone)
  }

  /** A drawn token is a vocabulary id; its score is its log-probability
      unless top-p trimmed it. */
  lemma PickAt(tr: Truncation, exp: real -> real, row: seq<Score>, d: nat)
    requires d < |row|
    requires tr.ByCount? ==> d < tr.k <= |row|
    requires ExpOk(exp)
    ensures var pk := Pick(tr, exp, row, d);
            && pk.token < |row|
            && (if tr.ByMass? && d >= Kept(Probs(exp, row), tr.p)
                then pk.score == NegInf else pk.score == row[pk.token])
  {
    if tr.ByMass? {
      ProbsNonNegative(exp, row);
      NucleusIsPrefix(Probs(exp, row), tr.p);
    }
  }

  /** With top-p, draw d of slot i reads `_sample_topp`'s output for the
      slot's source row: the token is the trimmed row's index at d, and the
      probability trimmed there is exactly the exp of the returned score,
      so a -inf score stands for a probability zeroed outside the nucleus. */
  lemma PickReadsTopP(exp: real -> real, p: real, step: nat, lp: Grid, i: nat, d: nat)
    requires GridOk(lp) && ExpOk(exp) && i < |lp|
    requires d < Width(ProbRows(exp, step, lp), p)
    ensures var src, t := Source(step, i), SampleTopP(ProbRows(exp, step, lp), p);
            && src < |t.indices| && d < |t.indices[src]| && d < |lp[src]|
            && var pk := Pick(ByMass(p), exp, lp[src], d);
               && pk.token == t.indices[src][d]
               && t.probs[src][d] == Prob(exp, pk.score)
               && (pk.score == NegInf ==> t.probs[src][d] == 0.0)
  {
    var src, rows := Source(step, i), ProbRows(exp, step, lp);
    assert rows[src] == Probs(exp, lp[src]);
    ProbsNonNegative(exp, lp[src]);
    SampleTopPAt(rows, p, src, d);
    PickAt(ByMass(p), exp, lp[src], d);
  }

  /** Every slot of a step's result: its beam is 0 at step 0 and the slot
      itself afterwards, its token is a vocabulary id, and its score is what
      BeamSearch would rank that (beam, token) on — the token's
      log-probability plus the beam's previous cumulative score — except
      for a draw outside its row's nucleus, which scores -inf. */
  lemma SampleRowAt(tr: Truncation, exp: real -> real, step: nat, lp: Grid, hist: History, draws: seq<nat>, i: nat)
    requires GridOk(lp) && HistoryOk(hist, |lp|, step) && RowDrawsOk(tr, lp, draws)
    requires ExpOk(exp) && i < |lp|
    ensures var s := SampleRow(tr, exp, step, lp, hist, draws);
            && |s.scores| == |s.indices| == |s.beams| == |lp|
            && s.beams[i] == (if step == 0 then 0 else i)
            && 0 <= s.indices[i] < |lp[0]|
            && (if tr.ByMass? && draws[i] >= Kept(Probs(exp, lp[s.beams[i]]), tr.p)
                then s.scores[i] == NegInf
                else s.scores[i] == CandidateScore(step, lp, hist, s.beams[i], s.indices[i]))
  {
    var src := Source(step, i);
    PickAt(tr, exp, lp[src], draws[i]);
  }

  /** With top-k truncation the sampled token is one of its row's k best:
      no token outside them scores above it. */
  lemma ByCountBest(exp: real -> real, step: nat, lp: Grid, hist: History, draws: seq<nat>, k: nat, i: nat, v: nat)
    requires GridOk(lp) && HistoryOk(hist, |lp|, step) && RowDrawsOk(ByCount(k), lp, draws)
    requires i < |lp| && v < |lp[0]|
    ensures var s := SampleRow(ByCount(k), exp, step, lp, hist, draws);
            var row := lp[Source(step, i)];
            && |s.indices| == |lp| && 0 <= s.indices[i] < |row|
            && s.indices[i] in TopK(row, k)
            && (v !in TopK(row, k) ==> Le(row[v], row[s.indices[i]]))
  {
    var row := lp[Source(step, i)];
    var top := TopK(row, k);
    if v !in top {
      TopKDominates(row, k, top, v, draws[i]);
    }
  }

  /** With top-p truncation a token sampled from inside the nucleus is at
      least as probable as every token outside it. */
  lemma ByMassBest(exp: real -> real, p: real, step: nat, lp: Grid, hist: History, draws: seq<nat>, i: nat, v: nat)
    requires GridOk(lp) && HistoryOk(hist, |lp|, step) && RowDrawsOk(ByMass(p), lp, draws)
    requires ExpOk(exp) && i < |lp| && v < |lp[0]|
    requires var pr := Probs(exp, lp[Source(step, i)]);
             draws[i] < Kept(pr, p) && v !in SortDesc(pr)[..Kept(pr, p)]
    ensures var s := SampleRow(ByMass(p), exp, step, lp, hist, draws);
            var row := lp[Source(step, i)];
            && |s.indices| == |lp| && 0 <= s.indices[i] < |row|
            && Prob(exp, row[v]) <= Prob(exp, row[s.indices[i]])
  {
    var pr := Probs(exp, lp[Source(step, i)]);
    ProbsNonNegative(exp, lp[Source(step, i)]);
    NucleusMostProbable(pr, p, draws[i], v);
  }

  /** Every draw lies in its source row. */
  lemma DrawsInRow(tr: Truncation, exp: real -> real, step: nat, t: seq<Grid>, h: seq<History>,
                   draws: seq<seq<nat>>, b: nat)
    requires BatchOk(t, h, step) && DrawsOk(tr, exp, step, t, draws) && b < |t|
    requires tr.ByCount? ==> tr.k <= |t[0][0]|
    ensures RowDrawsOk(tr, t[b], draws[b])
  {
    forall i | 0 <= i < |t[b]| ensures draws[b][i] < |t[b][0]| {
      assert draws[b][i] < DrawRange(tr, exp, step, t);
    }
  }

  /** The step succeeds unless top-k asks for more than the vocabulary,
      and then each batch element is SampleRow of its own rows and draws. */
  lemma SamplingStepAt(tr: Truncation, exp: real -> real, step: nat, t: seq<Grid>, h: seq<History>,
                       draws: seq<seq<nat>>, b: nat)
    requires BatchOk(t, h, step) && DrawsOk(tr, exp, step, t, draws) && b < |t|
    ensures SamplingStep(tr, exp, step, t, h, draws).Ok? <==> !(tr.ByCount? && tr.k > |t[0][0]|)
    ensures SamplingStep(tr, exp, step, t, h, draws).Ok? ==>
              RowDrawsOk(tr, t[b], draws[b]) &&
              SamplingStep(tr, exp, step, t, h, draws).value[b] == SampleRow(tr, exp, step, t[b], h[b], draws[b])
  {
    if !(tr.ByCount? && tr.k > |t[0][0]|) {
      DrawsInRow(tr, exp, step, t, h, draws, b);
    }
  }

  /** The as-written step agrees with the corrected one exactly where the
      top-k branch ran; every other configuration fails. */
  lemma AsWrittenOnlyByCount(tr: Truncation, exp: real -> real, step: nat, t: seq<Grid>, h: seq<History>,
                             draws: seq<seq<nat>>)
    requires BatchOk(t, h, step) && DrawsOk(tr, exp, step, t, draws)
    ensures tr.ByCount? ==> SamplingStepAsWritten(tr, exp, step, t, h, draws) == SamplingStep(tr, exp, step, t, h, draws)
    ensures !tr.ByCount? ==> SamplingStepAsWritten(tr, exp, step, t, h, draws) == Err(NoneHasNoClone)
    ensures !tr.ByCount? ==> SamplingStep(tr, exp, step, t, h, draws).Ok?
  {
  }

  /** The default configuration (sampling_topk = -1, sampling_topp = -1.0)
      fails as written on a one-token, one-beam batch at step 0, whatever
      exp is, where the corrected step returns that token. */
  lemma DefaultConfigurationFails(exp: real -> real)
    ensures var t, h, draws := [[[Fin(0.0)]]], [[[]]], [[0]];
            && BatchOk(t, h, 0) && DrawsOk(TruncationOf(-1, -1.0), exp, 0, t, draws)
            && SamplingStepAsWritten(TruncationOf(-1, -1.0), exp, 0, t, h, draws) == Err(NoneHasNoClone)
            && SamplingStep(TruncationOf(-1, -1.0), exp, 0, t, h, draws)
               == Ok([Selection([Fin(0.0)], [0], [0])])
  {
    var t: seq<Grid>, h: seq<History>, draws: seq<seq<nat>> := [[[Fin(0.0)]]], [[[]]], [[0]];
    var tr := TruncationOf(-1, -1.0);
    assert tr == Untruncated;
    assert BatchOk(t, h, 0);
    assert DrawsOk(tr, exp, 0, t, draws);
    var s := SampleRow(tr, exp, 0, t[0], h[0], draws[0]);
    assert s.scores == [Fin(0.0)] && s.indices == [0] && s.beams == [0];
    var res := SamplingStep(tr, exp, 0, t, h, draws);
    assert res.Ok? && |res.value| == 1 && res.value[0] == s;
    assert res.value == [s];
  }

  /** The tensor work of one step: the drawn positions mapped through
      the truncation, the parents' cumulative scores added after step 0,
      and the beam of each draw; row b is SampleRow of row b. */
  method SampleBatch(tr: Truncation, exp: real -> real, step: nat, lprobs: seq<Grid>, scores: seq<History>,
                     draws: seq<seq<nat>>)
    returns (sc: seq<seq<Score>>, ix: seq<seq<int>>, bm: seq<seq<int>>)
    requires BatchOk(lprobs, scores, step) && DrawsOk(tr, exp, step, lprobs, draws)
    requires !(tr.ByCount? && tr.k > |lprobs[0][0]|)
    ensures |sc| == |ix| == |bm| == |lprobs|
    ensures forall b :: 0 <= b < |lprobs| ==>
              RowDrawsOk(tr, lprobs[b], draws[b]) &&
              Selection(sc[b], ix[b], bm[b]) == SampleRow(tr, exp, step, lprobs[b], scores[b], draws[b])
  {
    var bsz, K := |lprobs|, |lprobs[0]|;
    forall b | 0 <= b < bsz
      ensures RowDrawsOk(tr, lprobs[b], draws[b])
    {
      DrawsInRow(tr, exp, step, lprobs, scores, draws, b);
    }
    var picks: seq<seq<Drawn>> := seq(bsz, b requires 0 <= b < bsz =>
                       seq(K, i requires 0 <= i < K => Pick(tr, exp, lprobs[b][Source(step, i)], draws[b][i])));
    ix := seq(bsz, b requires 0 <= b < bsz => seq(K, i requires 0 <= i < K => picks[b][i].token as int));
    bm := seq(bsz, b requires 0 <= b < bsz => seq(K, i requires 0 <= i < K => Source(step, i) as int));
    sc := seq(bsz, b requires 0 <= b < bsz => seq(K, i requires 0 <= i < K =>
                if step == 0 then picks[b][i].score else Plus(picks[b][i].score, scores[b][i][step - 1])));
    forall b | 0 <= b < bsz
      ensures Selection(sc[b], ix[b], bm[b]) == SampleRow(tr, exp, step, lprobs[b], scores[b], draws[b])
    {
      var row := SampleRow(tr, exp, step, lprobs[b], scores[b], draws[b]);
      assert sc[b] == row.scores && ix[b] == row.indices && bm[b] == row.beams;
    }
  }

  /** The search object: its truncation settings and the three output
      buffers it keeps between steps. */
  class Sampling {
    const samplingTopk: int
    const samplingTopp: real
    var scoresBuf: seq<seq<Score>>
    var indicesBuf: seq<seq<int>>
    var beamsBuf: seq<seq<int>>

    constructor(samplingTopk: int, samplingTopp: real)
      ensures this.samplingTopk == samplingTopk && this.samplingTopp == samplingTopp
      ensures scoresBuf == [] && indicesBuf == [] && beamsBuf == []
    {
      this.samplingTopk, this.samplingTopp := samplingTopk, samplingTopp;
      scoresBuf, indicesBuf, beamsBuf := [], [], [];
    }

    /** One step over the batch, given the draws torch.multinomial makes:
        the buffers are set as SamplingStep describes. */
    method Step(step: nat, lprobs: seq<Grid>, scores: seq<History>, exp: real -> real, draws: seq<seq<nat>>)
      returns (res: Result<seq<Selection>>)
      requires BatchOk(lprobs, scores, step)
      requires DrawsOk(TruncationOf(samplingTopk, samplingTopp), exp, step, lprobs, draws)
      modifies this
      ensures res == SamplingStep(TruncationOf(samplingTopk, samplingTopp), exp, step, lprobs, scores, draws)
      ensures res.Ok? ==> |res.value| == |scoresBuf| == |indicesBuf| == |beamsBuf| == |lprobs|
      ensures res.Ok? ==> forall b :: 0 <= b < |lprobs| ==>
                scoresBuf[b] == res.value[b].scores && indicesBuf[b] == res.value[b].indices &&
                beamsBuf[b] == res.value[b].beams
      ensures res.Err? ==> unchanged(this)
    {
      var bsz, V := |lprobs|, |lprobs[0][0]|;
      var tr := TruncationOf(samplingTopk, samplingTopp);
      if tr.ByCount? && tr.k > V {
        return Err(TopKOutOfRange);
      }
      var sc, ix, bm := SampleBatch(tr, exp, step, lprobs, scores, draws);
      scoresBuf, indicesBuf, beamsBuf := sc, ix, bm;
      var out := seq(bsz, b requires 0 <= b < bsz => Selection(sc[b], ix[b], bm[b]));
      ghost var spec := SamplingStep(tr, exp, step, lprobs, scores, draws);
      forall b | 0 <= b < bsz
        ensures spec.Ok? && out[b] == spec.value[b]
      {
        SamplingStepAt(tr, exp, step, lprobs, scores, draws, b);
      }
      assert spec.Ok? && |spec.value| == |out|;
      assert spec.value == out;
      res := Ok(out);
    }
  }
}
