/** DiverseBeamSearch.step with the Hamming diversity penalty: the beams are
    split into G groups, each group runs BeamSearch on its own slice of
    beams, and every later group pays a penalty on the tokens the earlier
    groups chose. */
module DiverseBeam {
  import opened Scores
  import opened Indexing
  import opened Results
  import opened Beam

  /** A positive number of groups. */
  type Pos = n: nat | n > 0 witness 1

  /** The shape every group's input and output share. */
  predicate GroupsOk(lp: Grid, hist: History, step: nat, G: nat) {
    GridOk(lp) && HistoryOk(hist, |lp|, step) && 0 < G && |lp| % G == 0
  }

  /** Group g's slice `lprobs[:, g::G, :]` and `scores[:, g::G, :]` are well shaped. */
  lemma SliceOk(lp: Grid, hist: History, step: nat, G: nat, g: nat)
    requires GroupsOk(lp, hist, step, G) && g < G
    ensures |lp| / G > 0
    ensures GridOk(Strided(lp, G, g)) && |Strided(lp, G, g)[0]| == |lp[0]|
    ensures HistoryOk(Strided(hist, G, g), |lp| / G, step)
  {
    DivModSplit(|lp|, G);
    forall b | 0 <= b < |lp| / G
      ensures |Strided(lp, G, g)[b]| == |lp[0]| && |Strided(hist, G, g)[b]| >= step
    {
      StridedAt(lp, G, g, b);
      StridedAt(hist, G, g, b);
    }
  }

  /** The tokens chosen so far by earlier groups, with multiplicity: what
      `diversity_buf.scatter_add_` accumulates. */
  function Used(groups: seq<Selection>): multiset<int> {
    if groups == [] then multiset{}
    else multiset(groups[0].indices) + Used(groups[1..])
  }

  /** `diversity_buf` after the given groups: for each token of the
      vocabulary, the number of times those groups chose it. */
  function Counts(groups: seq<Selection>, vocab: nat): (c: seq<nat>)
    ensures |c| == vocab
  {
    seq(vocab, v requires 0 <= v < vocab => Used(groups)[v])
  }

  /** The penalty for a token chosen c times: diversity_strength · c. */
  function Weighted(strength: real, c: nat): real {
    strength * (c as real)
  }

  /** `lprobs_g + diversity_strength · diversity_buf`, with diversity_strength
      already negated by the constructor. */
  function Penalize(lp: Grid, counts: seq<nat>, strength: real): (r: Grid)
    requires Uniform(lp, |counts|)
    ensures |r| == |lp| && forall b :: 0 <= b < |lp| ==> |r[b]| == |lp[b]|
  {
    seq(|lp|, b requires 0 <= b < |lp| =>
          seq(|lp[b]|, v requires 0 <= v < |lp[b]| => Shift(lp[b][v], Weighted(strength, counts[v]))))
  }

  /** The grid group g ranks: its slice, penalized unless it is group 0. */
  function GroupInput(lp: Grid, G: nat, g: nat, counts: seq<nat>, strength: real): (gi: Grid)
    requires g < G && |lp| % G == 0 && Uniform(lp, |counts|)
    ensures |gi| == |lp| / G && Uniform(gi, |counts|)
  {
    StridedUniform(lp, G, g, |counts|);
    if g == 0 then Strided(lp, G, g) else Penalize(Strided(lp, G, g), counts, strength)
  }

  lemma GroupInputOk(lp: Grid, hist: History, step: nat, G: nat, g: nat, counts: seq<nat>, strength: real)
    requires GroupsOk(lp, hist, step, G) && g < G && |counts| == |lp[0]|
    ensures var gi := GroupInput(lp, G, g, counts, strength);
            GridOk(gi) && |gi| == |lp| / G && |gi[0]| == |lp[0]| && HistoryOk(Strided(hist, G, g), |gi|, step)
  {
    SliceOk(lp, hist, step, G, g);
  }

  /** What plain BeamSearch would rank candidate (b, v) on, with group g
      standing in for beam 0 at step 0. */
  function BaseScore(step: nat, lp: Grid, hist: History, g: nat, b: nat, v: nat): Score
    requires GridOk(lp) && HistoryOk(hist, |lp|, step) && g < |lp| && b < |lp| && v < |lp[0]|
  {
    if step == 0 then lp[g][v] else Plus(lp[b][v], hist[b][step - 1])
  }

  /** The Hamming penalty on token v for group g: none for group 0. */
  function Penalty(g: nat, counts: seq<nat>, strength: real, v: nat): real
    requires v < |counts|
  {
    if g == 0 then 0.0 else Weighted(strength, counts[v])
  }

  /** The number of candidates each group returns. */
  function GroupCount(step: nat, groupBeams: nat, vocab: nat): int {
    Min(2 * groupBeams, (if step == 0 then vocab else groupBeams * vocab) - 1)
  }

  /** `beams_buf.mul_(G).add_(g)`: slot b of group g is beam b·G + g. */
  function Renamed(beams: seq<int>, G: nat, g: nat): (r: seq<int>)
    ensures |r| == |beams|
  {
    seq(|beams|, j requires 0 <= j < |beams| => beams[j] * G + g)
  }

  /** `diversity_buf.scatter_add_(1, indices, ones)` on one batch element. */
  function ScatterAdd(counts: seq<nat>, indices: seq<int>): (r: seq<nat>)
    ensures |r| == |counts|
  {
    seq(|counts|, v requires 0 <= v < |counts| => counts[v] + multiset(indices)[v])
  }

  /** Group n, penalized by every token the groups before it chose, with
      its beams mapped back to the original numbering. */
  function NextGroup(step: nat, lp: Grid, hist: History, G: nat, strength: real, n: nat): (r: Selection)
    requires GroupsOk(lp, hist, step, G) && n < G
    ensures |r.scores| == |r.indices| == |r.beams| == GroupCount(step, |lp| / G, |lp[0]|)
    decreases n, 2
  {
    var sel := GroupSearch(step, lp, hist, G, strength, n);
    Selection(sel.scores, sel.indices, Renamed(sel.beams, G, n))
  }

  /** BeamSearch's step on group n's penalized slice, beams numbered within the group. */
  function GroupSearch(step: nat, lp: Grid, hist: History, G: nat, strength: real, n: nat): (r: Selection)
    requires GroupsOk(lp, hist, step, G) && n < G
    ensures |r.scores| == |r.indices| == |r.beams| == GroupCount(step, |lp| / G, |lp[0]|)
    decreases n, 1
  {
    var counts := Counts(Groups(step, lp, hist, G, strength, n), |lp[0]|);
    GroupInputOk(lp, hist, step, G, n, counts, strength);
    var gi := GroupInput(lp, G, n, counts, strength);
    BeamStepShape(step, gi, Strided(hist, G, n));
    BeamStepRow(step, gi, Strided(hist, G, n))
  }

  /** Group n's search is BeamSearch's step on lprobs[:, n::G] penalized by
      the counts of the groups before it, a well-formed input. */
  lemma GroupSearchIs(step: nat, lp: Grid, hist: History, G: nat, strength: real, n: nat)
    requires GroupsOk(lp, hist, step, G) && n < G
    ensures var gi := GroupInput(lp, G, n, Counts(Groups(step, lp, hist, G, strength, n), |lp[0]|), strength);
            && GridOk(gi) && |gi| == |lp| / G && |gi[0]| == |lp[0]| && HistoryOk(Strided(hist, G, n), |gi|, step)
            && GroupSearch(step, lp, hist, G, strength, n) == BeamStepRow(step, gi, Strided(hist, G, n))
  {
    var counts := Counts(Groups(step, lp, hist, G, strength, n), |lp[0]|);
    GroupInputOk(lp, hist, step, G, n, counts, strength);
  }

  /** The first n groups, each penalized by the tokens of those before it. */
  function Groups(step: nat, lp: Grid, hist: History, G: nat, strength: real, n: nat): (r: seq<Selection>)
    requires GroupsOk(lp, hist, step, G) && n <= G
    ensures |r| == n
    ensures forall g :: 0 <= g < n ==>
              |r[g].scores| == |r[g].indices| == |r[g].beams| == GroupCount(step, |lp| / G, |lp[0]|)
    decreases n, 0
  {
    if n == 0 then []
    else Groups(step, lp, hist, G, strength, n - 1) + [NextGroup(step, lp, hist, G, strength, n - 1)]
  }

  /** Every group returned w candidates. */
  predicate SameWidth(gs: seq<Selection>, w: nat) {
    forall g :: 0 <= g < |gs| ==> |gs[g].scores| == w && |gs[g].indices| == w && |gs[g].beams| == w
  }

  /** `torch.stack(parts, dim=2).view(bsz, -1)` of the groups' three outputs. */
  function Stack(gs: seq<Selection>, w: nat): (r: Selection)
    requires |gs| > 0 && SameWidth(gs, w)
    ensures |r.scores| == |r.indices| == |r.beams| == w * |gs|
  {
    Selection(Interleave(seq(|gs|, g requires 0 <= g < |gs| => gs[g].scores), w),
              Interleave(seq(|gs|, g requires 0 <= g < |gs| => gs[g].indices), w),
              Interleave(seq(|gs|, g requires 0 <= g < |gs| => gs[g].beams), w))
  }

  /** Position j·G + g of the stack is group g's j-th candidate. */
  lemma StackAt(gs: seq<Selection>, G: nat, w: nat, g: nat, j: nat)
    requires |gs| == G > 0 && SameWidth(gs, w) && g < G && j < w
    ensures var r := Stack(gs, w);
            && 0 <= j * G + g < w * G
            && r.scores[j * G + g] == gs[g].scores[j]
            && r.indices[j * G + g] == gs[g].indices[j]
            && r.beams[j * G + g] == gs[g].beams[j]
  {
    InterleaveAt(seq(|gs|, g requires 0 <= g < |gs| => gs[g].scores), w, g, j);
    InterleaveAt(seq(|gs|, g requires 0 <= g < |gs| => gs[g].indices), w, g, j);
    InterleaveAt(seq(|gs|, g requires 0 <= g < |gs| => gs[g].beams), w, g, j);
  }

  /** DiverseBeamSearch.step on one batch element: G times as many
      candidates as each group returns. */
  function DiverseRow(step: nat, lp: Grid, hist: History, G: nat, strength: real): (r: Selection)
    requires GroupsOk(lp, hist, step, G)
    ensures |r.scores| == |r.indices| == |r.beams| == G * GroupCount(step, |lp| / G, |lp[0]|)
  {
    var gs := Groups(step, lp, hist, G, strength, G);
    Stack(gs, |gs[0].scores|)
  }

  /** The step's row is the stack of the G groups, each of the same width. */
  lemma DiverseRowIs(step: nat, lp: Grid, hist: History, G: nat, strength: real)
    returns (gs: seq<Selection>, w: nat)
    requires GroupsOk(lp, hist, step, G)
    ensures gs == Groups(step, lp, hist, G, strength, G) && |gs| == G
    ensures w == GroupCount(step, |lp| / G, |lp[0]|) && SameWidth(gs, w)
    ensures DiverseRow(step, lp, hist, G, strength) == Stack(gs, w)
  {
    gs := Groups(step, lp, hist, G, strength, G);
    w := |gs[0].scores|;
  }

  /** The whole step: ValueError unless the beam size is a multiple of G. */
  function DiverseStep(step: nat, t: seq<Grid>, h: seq<History>, G: nat, strength: real): (res: Result<seq<Selection>>)
    requires BatchOk(t, h, step) && G > 0
    ensures res.Err? <==> |t[0]| % G != 0
    ensures res.Err? ==> res.error == GroupsDoNotDivideBeam
    ensures res.Ok? ==> |res.value| == |t|
  {
    if |t[0]| % G != 0 then Err(GroupsDoNotDivideBeam)
    else Ok(seq(|t|, r requires 0 <= r < |t| => DiverseRow(step, t[r], h[r], G, strength)))
  }

  /** `diversity_buf` after the first n groups, for every batch element. */
  function CountsAt(step: nat, t: seq<Grid>, h: seq<History>, G: nat, strength: real, n: nat): (c: seq<seq<nat>>)
    requires BatchOk(t, h, step) && G > 0 && |t[0]| % G == 0 && n <= G
    ensures |c| == |t| && forall r :: 0 <= r < |t| ==> |c[r]| == |t[0][0]|
  {
    seq(|t|, r requires 0 <= r < |t| => Counts(Groups(step, t[r], h[r], G, strength, n), |t[0][0]|))
  }

  /** Group n's output, for every batch element. */
  function GroupAt(step: nat, t: seq<Grid>, h: seq<History>, G: nat, strength: real, n: nat): (c: seq<Selection>)
    requires BatchOk(t, h, step) && G > 0 && |t[0]| % G == 0 && n < G
    ensures |c| == |t|
  {
    seq(|t|, r requires 0 <= r < |t| => NextGroup(step, t[r], h[r], G, strength, n))
  }

  /** The three output tensors of a step, each with one row per batch element. */
  function ScoresOf(rows: seq<Selection>): (c: seq<seq<Score>>)
    ensures |c| == |rows| && forall r :: 0 <= r < |rows| ==> c[r] == rows[r].scores
  {
    seq(|rows|, r requires 0 <= r < |rows| => rows[r].scores)
  }

  function IndicesOf(rows: seq<Selection>): (c: seq<seq<int>>)
    ensures |c| == |rows| && forall r :: 0 <= r < |rows| ==> c[r] == rows[r].indices
  {
    seq(|rows|, r requires 0 <= r < |rows| => rows[r].indices)
  }

  function BeamsOf(rows: seq<Selection>): (c: seq<seq<int>>)
    ensures |c| == |rows| && forall r :: 0 <= r < |rows| ==> c[r] == rows[r].beams
  {
    seq(|rows|, r requires 0 <= r < |rows| => rows[r].beams)
  }

  /** Groups are built one after another: the first g of n groups are the
      first g groups, and group g is penalized by exactly those. */
  lemma GroupsAt(step: nat, lp: Grid, hist: History, G: nat, strength: real, n: nat, g: nat)
    requires GroupsOk(lp, hist, step, G) && g < n <= G
    ensures Groups(step, lp, hist, G, strength, n)[g] == NextGroup(step, lp, hist, G, strength, g)
  {
    var k := n;
    while k > g + 1
      invariant g < k <= n
      invariant Groups(step, lp, hist, G, strength, n)[g] == Groups(step, lp, hist, G, strength, k)[g]
    {
      GroupsSnoc(step, lp, hist, G, strength, k - 1);
      SnocAt(Groups(step, lp, hist, G, strength, k - 1), NextGroup(step, lp, hist, G, strength, k - 1), g);
      k := k - 1;
    }
    GroupsSnoc(step, lp, hist, G, strength, g);
    SnocAt(Groups(step, lp, hist, G, strength, g), NextGroup(step, lp, hist, G, strength, g), g);
  }

  lemma SnocAt<T>(s: seq<T>, x: T, i: nat)
    requires i <= |s|
    ensures (s + [x])[i] == if i < |s| then s[i] else x
  {
  }

  /** Entry (b, v) of group g's input is entry (b·G + g, v) of lprobs,
      shifted by the penalty on v (none for group 0). */
  lemma GroupInputAt(lp: Grid, G: nat, g: nat, counts: seq<nat>, strength: real, b: nat, v: nat)
    requires g < G && |lp| % G == 0 && b < |lp| / G && Uniform(lp, |counts|) && v < |counts|
    ensures 0 <= b * G + g < |lp|
    ensures var gi := GroupInput(lp, G, g, counts, strength);
            b < |gi| && v < |gi[b]| &&
            gi[b][v] == Shift(lp[b * G + g][v], Penalty(g, counts, strength, v))
  {
    StridedAt(lp, G, g, b);
    StridedUniform(lp, G, g, |counts|);
    var sl := Strided(lp, G, g);
    if g > 0 {
      assert GroupInput(lp, G, g, counts, strength)[b][v] == Shift(sl[b][v], Weighted(strength, counts[v]));
    } else {
      assert GroupInput(lp, G, g, counts, strength)[b][v] == sl[b][v];
    }
  }

  /** Slot b of group g is beam b·G + g of the whole search. */
  lemma SlotFacts(b: nat, g: nat, G: nat, K: nat)
    requires g < G && K % G == 0 && b < K / G
    ensures 0 <= b * G + g < K && (b * G + g) % G == g
  {
    DivModSplit(K, G);
    FlatBound(b, g, K / G, G);
    DivModUnique(b * G + g, G, b, g);
  }

  /** Group g's j-th candidate comes from slot b' of the group, which
      `beams_buf.mul_(G).add_(g)` renames to beam b'·G + g. */
  lemma NextGroupSlot(step: nat, lp: Grid, hist: History, G: nat, strength: real, g: nat, j: nat)
    returns (b': nat)
    requires GroupsOk(lp, hist, step, G) && g < G && j < GroupCount(step, |lp| / G, |lp[0]|)
    ensures b' < |lp| / G && (step == 0 ==> b' == 0)
    ensures NextGroup(step, lp, hist, G, strength, g).beams[j] == b' * G + g
  {
    GroupSearchIs(step, lp, hist, G, strength, g);
    var gi := GroupInput(lp, G, g, Counts(Groups(step, lp, hist, G, strength, g), |lp[0]|), strength);
    var sh := Strided(hist, G, g);
    BeamStepShape(step, gi, sh);
    BeamStepAt(step, gi, sh, j);
    b' := GroupSearch(step, lp, hist, G, strength, g).beams[j];
  }

  /** The beam of group g's j-th candidate is congruent to g modulo G and
      lies in [0, beam); at step 0 it is g itself. */
  lemma NextGroupBeam(step: nat, lp: Grid, hist: History, G: nat, strength: real, g: nat, j: nat)
    requires GroupsOk(lp, hist, step, G) && g < G && j < GroupCount(step, |lp| / G, |lp[0]|)
    ensures var b := NextGroup(step, lp, hist, G, strength, g).beams[j];
            0 <= b < |lp| && b % G == g && (step == 0 ==> b == g)
  {
    var b' := NextGroupSlot(step, lp, hist, G, strength, g, j);
    var b := NextGroup(step, lp, hist, G, strength, g).beams[j];
    BeamOfSlot(b', g, G, |lp|, b);
  }

  /** Slot b' of group g ranks token v on the plain BeamSearch score of
      beam b'·G + g, shifted by the group's penalty on v. */
  lemma GroupCandidate(step: nat, lp: Grid, hist: History, G: nat, strength: real, g: nat, counts: seq<nat>, b': nat, v: nat)
    requires GroupsOk(lp, hist, step, G) && g < G && |counts| == |lp[0]| && b' < |lp| / G && v < |lp[0]|
    ensures 0 <= b' * G + g < |lp| && g < |lp|
    ensures var gi := GroupInput(lp, G, g, counts, strength);
            GridOk(gi) && HistoryOk(Strided(hist, G, g), |gi|, step) && b' < |gi| &&
            CandidateScore(step, gi, Strided(hist, G, g), b', v) ==
            Shift(BaseScore(step, lp, hist, g, b' * G + g, v), Penalty(g, counts, strength, v))
  {
    GroupInputOk(lp, hist, step, G, g, counts, strength);
    SlotFacts(b', g, G, |lp|);
    SlotFacts(0, g, G, |lp|);
    var b := b' * G + g;
    var pen := Penalty(g, counts, strength, v);
    if step == 0 {
      GroupInputAt(lp, G, g, counts, strength, 0, v);
    } else {
      GroupInputAt(lp, G, g, counts, strength, b', v);
      StridedAt(hist, G, g, b');
      PlusShift(lp[b][v], hist[b][step - 1], pen);
    }
  }

  /** The beam b·G + g of slot b of group g lies in [0, K) and is g modulo G. */
  lemma BeamOfSlot(b: nat, g: nat, G: nat, K: nat, beam: int)
    requires g < G && K % G == 0 && b < K / G && beam == b * G + g
    ensures 0 <= beam < K && beam % G == g && (b == 0 ==> beam == g)
  {
    SlotFacts(b, g, G, K);
  }

  /** Candidate j of group g: its token lies in [0, vocab), and its score
      is the plain BeamSearch score of that (beam, token) shifted by the
      penalty -diversity_strength · (times the earlier groups chose the
      token); group 0 is never penalized. */
  lemma NextGroupAt(step: nat, lp: Grid, hist: History, G: nat, strength: real, g: nat, j: nat)
    requires GroupsOk(lp, hist, step, G) && g < G && j < GroupCount(step, |lp| / G, |lp[0]|)
    ensures var s := NextGroup(step, lp, hist, G, strength, g);
            var counts := Counts(Groups(step, lp, hist, G, strength, g), |lp[0]|);
            var b := s.beams[j];
            var v := s.indices[j];
            && 0 <= b < |lp| && g < |lp| && 0 <= v < |lp[0]|
            && s.scores[j] == Shift(BaseScore(step, lp, hist, g, b, v), Penalty(g, counts, strength, v))
  {
    var counts := Counts(Groups(step, lp, hist, G, strength, g), |lp[0]|);
    GroupSearchIs(step, lp, hist, G, strength, g);
    var gi := GroupInput(lp, G, g, counts, strength);
    var sh := Strided(hist, G, g);
    BeamStepShape(step, gi, sh);
    BeamStepAt(step, gi, sh, j);
    var sel := GroupSearch(step, lp, hist, G, strength, g);
    GroupCandidate(step, lp, hist, G, strength, g, counts, sel.beams[j], sel.indices[j]);
  }

  /** Output position j·G + g is group g's j-th candidate. */
  lemma DiverseRowSlot(step: nat, lp: Grid, hist: History, G: nat, strength: real, g: nat, j: nat)
    requires GroupsOk(lp, hist, step, G) && g < G && j < GroupCount(step, |lp| / G, |lp[0]|)
    ensures var r := DiverseRow(step, lp, hist, G, strength);
            var s := NextGroup(step, lp, hist, G, strength, g);
            var p := j * G + g;
            && |r.scores| == |r.indices| == |r.beams|
            && 0 <= p < |r.scores|
            && r.scores[p] == s.scores[j] && r.indices[p] == s.indices[j] && r.beams[p] == s.beams[j]
  {
    var gs, w := DiverseRowIs(step, lp, hist, G, strength);
    GroupsAt(step, lp, hist, G, strength, G, g);
    StackAt(gs, G, w, g, j);
  }

  /** Output position j·G + g holds group g's j-th candidate: its beam is
      congruent to g modulo G (g itself at step 0), and its score is the
      plain BeamSearch score shifted by the penalty on its token for the
      tokens groups 0..g-1 chose. */
  lemma DiverseRowAt(step: nat, lp: Grid, hist: History, G: nat, strength: real, g: nat, j: nat)
    requires GroupsOk(lp, hist, step, G) && g < G && j < GroupCount(step, |lp| / G, |lp[0]|)
    ensures var r := DiverseRow(step, lp, hist, G, strength);
            var p := j * G + g;
            && |r.scores| == |r.indices| == |r.beams|
            && 0 <= p < |r.scores|
            && var b := r.beams[p];
               var v := r.indices[p];
               && 0 <= b < |lp| && g < |lp| && b % G == g && (step == 0 ==> b == g)
               && 0 <= v < |lp[0]|
               && r.scores[p] == Shift(BaseScore(step, lp, hist, g, b, v),
                                       Penalty(g, Counts(Groups(step, lp, hist, G, strength, g), |lp[0]|), strength, v))
  {
    DiverseRowSlot(step, lp, hist, G, strength, g, j);
    NextGroupAt(step, lp, hist, G, strength, g, j);
    NextGroupBeam(step, lp, hist, G, strength, g, j);
  }

  /** `scatter_add_` of one more group adds one count per token it chose. */
  lemma {:induction false} UsedSnoc(gs: seq<Selection>, x: Selection)
    ensures Used(gs + [x]) == Used(gs) + multiset(x.indices)
  {
    if gs != [] {
      assert (gs + [x])[1..] == gs[1..] + [x];
      UsedSnoc(gs[1..], x);
    } else {
      assert ([] + [x])[1..] == [];
    }
  }

  /** The counts after group n are the counts before it plus its tokens. */
  lemma CountsNext(step: nat, lp: Grid, hist: History, G: nat, strength: real, n: nat)
    requires GroupsOk(lp, hist, step, G) && n < G
    ensures var before := Counts(Groups(step, lp, hist, G, strength, n), |lp[0]|);
            Counts(Groups(step, lp, hist, G, strength, n + 1), |lp[0]|) ==
            ScatterAdd(before, NextGroup(step, lp, hist, G, strength, n).indices)
  {
    var prev := Groups(step, lp, hist, G, strength, n);
    var x := NextGroup(step, lp, hist, G, strength, n);
    assert Groups(step, lp, hist, G, strength, n + 1) == prev + [x];
    CountsSnoc(prev, x, |lp[0]|);
  }

  lemma CountsSnoc(gs: seq<Selection>, x: Selection, vocab: nat)
    ensures Counts(gs + [x], vocab) == ScatterAdd(Counts(gs, vocab), x.indices)
  {
    UsedSnoc(gs, x);
    forall v | 0 <= v < vocab
      ensures Counts(gs + [x], vocab)[v] == Counts(gs, vocab)[v] + multiset(x.indices)[v]
    {
      assert Used(gs + [x])[v] == Used(gs)[v] + multiset(x.indices)[v];
    }
  }

  /** With no penalty the slice is ranked unchanged. */
  lemma PenalizeZero(lp: Grid, counts: seq<nat>)
    requires Uniform(lp, |counts|)
    ensures Penalize(lp, counts, 0.0) == lp
  {
    forall b | 0 <= b < |lp| ensures Penalize(lp, counts, 0.0)[b] == lp[b] {
      forall v | 0 <= v < |lp[b]| ensures Penalize(lp, counts, 0.0)[b][v] == lp[b][v] {
        assert Weighted(0.0, counts[v]) == 0.0;
      }
    }
  }

  /** Group 0, and every group when the diversity strength is 0, is plain
      BeamSearch on its slice `lprobs[:, g::G, :]`. */
  lemma GroupIsBeamSearch(step: nat, lp: Grid, hist: History, G: nat, strength: real, g: nat)
    requires GroupsOk(lp, hist, step, G) && g < G && (g == 0 || strength == 0.0)
    ensures var sl := Strided(lp, G, g);
            GridOk(sl) && HistoryOk(Strided(hist, G, g), |sl|, step) &&
            var plain := BeamStepRow(step, sl, Strided(hist, G, g));
            var s := NextGroup(step, lp, hist, G, strength, g);
            s.scores == plain.scores && s.indices == plain.indices
  {
    SliceOk(lp, hist, step, G, g);
    var counts := Counts(Groups(step, lp, hist, G, strength, g), |lp[0]|);
    StridedUniform(lp, G, g, |counts|);
    if g > 0 {
      PenalizeZero(Strided(lp, G, g), counts);
    }
    assert GroupInput(lp, G, g, counts, strength) == Strided(lp, G, g);
    GroupSearchIs(step, lp, hist, G, strength, g);
  }

  lemma MulCancel(a: int, b: int, G: nat)
    requires G > 0 && a != b
    ensures a * G != b * G
  {
    if a < b { MulAtLeast(b - a, G); } else { MulAtLeast(a - b, G); }
  }

  /** Within group n the candidates come best first. */
  lemma NextGroupDescending(step: nat, lp: Grid, hist: History, G: nat, strength: real, n: nat, j: nat)
    requires GroupsOk(lp, hist, step, G) && n < G && 0 < j < GroupCount(step, |lp| / G, |lp[0]|)
    ensures var s := NextGroup(step, lp, hist, G, strength, n);
            Le(s.scores[j], s.scores[j - 1])
  {
    GroupSearchIs(step, lp, hist, G, strength, n);
    var gi := GroupInput(lp, G, n, Counts(Groups(step, lp, hist, G, strength, n), |lp[0]|), strength);
    BeamStepOrdered(step, gi, Strided(hist, G, n));
  }

  /** Group n never returns the same (beam, token) pair twice. */
  lemma NextGroupDistinct(step: nat, lp: Grid, hist: History, G: nat, strength: real, n: nat, i: nat, j: nat)
    requires GroupsOk(lp, hist, step, G) && n < G && i < j < GroupCount(step, |lp| / G, |lp[0]|)
    ensures var s := NextGroup(step, lp, hist, G, strength, n);
            s.beams[i] != s.beams[j] || s.indices[i] != s.indices[j]
  {
    GroupSearchIs(step, lp, hist, G, strength, n);
    var gi := GroupInput(lp, G, n, Counts(Groups(step, lp, hist, G, strength, n), |lp[0]|), strength);
    BeamStepOrdered(step, gi, Strided(hist, G, n));
    var sel := GroupSearch(step, lp, hist, G, strength, n);
    if sel.beams[i] != sel.beams[j] {
      MulCancel(sel.beams[i], sel.beams[j], G);
    }
  }

  /** In the interleaved output each group's candidates still come best
      first: position j·G + g never beats position (j-1)·G + g. */
  lemma DiverseRowGroupOrder(step: nat, lp: Grid, hist: History, G: nat, strength: real, g: nat, j: nat)
    requires GroupsOk(lp, hist, step, G) && g < G && 0 < j < GroupCount(step, |lp| / G, |lp[0]|)
    ensures var r := DiverseRow(step, lp, hist, G, strength);
            0 <= (j - 1) * G + g < j * G + g < |r.scores| &&
            Le(r.scores[j * G + g], r.scores[(j - 1) * G + g])
  {
    var gs, w := DiverseRowIs(step, lp, hist, G, strength);
    GroupsAt(step, lp, hist, G, strength, G, g);
    NextGroupDescending(step, lp, hist, G, strength, g, j);
    StackOrder(gs, G, w, g, j);
  }

  lemma StackOrder(gs: seq<Selection>, G: nat, w: nat, g: nat, j: nat)
    requires |gs| == G > 0 && SameWidth(gs, w) && g < G && 0 < j < w
    requires Le(gs[g].scores[j], gs[g].scores[j - 1])
    ensures var r := Stack(gs, w);
            0 <= (j - 1) * G + g < j * G + g < |r.scores| &&
            Le(r.scores[j * G + g], r.scores[(j - 1) * G + g])
  {
    StackAt(gs, G, w, g, j);
    StackAt(gs, G, w, g, j - 1);
    assert (j - 1) * G + g < j * G + g;
  }

  /** Positions p < q of a stack of groups whose own pairs are distinct
      name different (beam, token) pairs, as long as beams of different
      groups differ modulo the number of groups. */
  lemma StackDistinct(gs: seq<Selection>, w: nat, p: nat, q: nat)
    requires |gs| > 0 && SameWidth(gs, w) && p < q < w * |gs|
    requires forall g, i, j :: 0 <= g < |gs| && 0 <= i < j < w ==>
               gs[g].beams[i] != gs[g].beams[j] || gs[g].indices[i] != gs[g].indices[j]
    requires forall g, i :: 0 <= g < |gs| && 0 <= i < w ==> gs[g].beams[i] % |gs| == g
    ensures var r := Stack(gs, w);
            r.beams[p] != r.beams[q] || r.indices[p] != r.indices[q]
  {
    var G := |gs|;
    SplitBound(p, w, G);
    SplitBound(q, w, G);
    var g1, j1, g2, j2 := p % G, p / G, q % G, q / G;
    StackAt(gs, G, w, g1, j1);
    StackAt(gs, G, w, g2, j2);
    if g1 == g2 && j2 < j1 {
      MulAtLeast(j1 - j2, G);
    }
  }

  /** Two output positions never name the same (beam, token) pair. */
  lemma DiverseRowDistinct(step: nat, lp: Grid, hist: History, G: nat, strength: real)
    requires GroupsOk(lp, hist, step, G)
    ensures var r := DiverseRow(step, lp, hist, G, strength);
            |r.beams| == |r.indices| == |r.scores| &&
            forall p, q :: 0 <= p < q < |r.scores| ==> r.beams[p] != r.beams[q] || r.indices[p] != r.indices[q]
  {
    var gs, w := DiverseRowIs(step, lp, hist, G, strength);
    forall g, i, j | 0 <= g < G && 0 <= i < j < w
      ensures gs[g].beams[i] != gs[g].beams[j] || gs[g].indices[i] != gs[g].indices[j]
    {
      GroupsAt(step, lp, hist, G, strength, G, g);
      NextGroupDistinct(step, lp, hist, G, strength, g, i, j);
    }
    forall g, i | 0 <= g < G && 0 <= i < w ensures gs[g].beams[i] % G == g {
      GroupsAt(step, lp, hist, G, strength, G, g);
      NextGroupBeam(step, lp, hist, G, strength, g, i);
    }
    var r := Stack(gs, w);
    forall p, q | 0 <= p < q < |r.scores| ensures r.beams[p] != r.beams[q] || r.indices[p] != r.indices[q] {
      StackDistinct(gs, w, p, q);
    }
  }

  /** Before the first group nothing has been chosen. */
  lemma CountsEmpty(vocab: nat)
    ensures Counts([], vocab) == seq(vocab, v requires 0 <= v < vocab => 0)
  {
    forall v | 0 <= v < vocab ensures Counts([], vocab)[v] == 0 {
      assert Used([]) == multiset{};
    }
  }

  /** `diversity_buf.zero_()`: the counts before the first group. */
  lemma CountsAtStart(step: nat, t: seq<Grid>, h: seq<History>, G: nat, strength: real)
    requires BatchOk(t, h, step) && G > 0 && |t[0]| % G == 0
    ensures CountsAt(step, t, h, G, strength, 0) ==
            seq(|t|, r requires 0 <= r < |t| => seq(|t[0][0]|, v requires 0 <= v < |t[0][0]| => 0))
  {
    CountsEmpty(|t[0][0]|);
  }

  /** What one group's BeamSearch step returns, once its beams are
      renamed, is the next group of the model. */
  lemma NextGroupIs(step: nat, lp: Grid, hist: History, G: nat, strength: real, g: nat,
                    s: seq<Score>, i: seq<int>, b: seq<int>)
    requires GroupsOk(lp, hist, step, G) && g < G
    requires var gi := GroupInput(lp, G, g, Counts(Groups(step, lp, hist, G, strength, g), |lp[0]|), strength);
             && GridOk(gi) && HistoryOk(Strided(hist, G, g), |gi|, step)
             && var sel := BeamStepRow(step, gi, Strided(hist, G, g));
                s == sel.scores && i == sel.indices && b == sel.beams
    ensures Selection(s, i, Renamed(b, G, g)) == NextGroup(step, lp, hist, G, strength, g)
  {
    GroupSearchIs(step, lp, hist, G, strength, g);
  }

  /** The groups' outputs of one pass, every batch element's beams renamed. */
  function Regroup(s: seq<seq<Score>>, i: seq<seq<int>>, b: seq<seq<int>>, G: nat, g: nat): (c: seq<Selection>)
    requires |s| == |i| == |b|
    ensures |c| == |b|
  {
    seq(|b|, r requires 0 <= r < |b| => Selection(s[r], i[r], Renamed(b[r], G, g)))
  }

  /** `scatter_add_` on every batch element. */
  function AddCounts(counts: seq<seq<nat>>, indices: seq<seq<int>>): (c: seq<seq<nat>>)
    requires |counts| == |indices|
    ensures |c| == |counts|
  {
    seq(|counts|, r requires 0 <= r < |counts| => ScatterAdd(counts[r], indices[r]))
  }

  /** One pass of the group loop over the batch: BeamSearch on the penalized
      slices gives group g, and adding its tokens gives the counts after it. */
  lemma GroupPass(step: nat, t: seq<Grid>, h: seq<History>, G: nat, strength: real, g: nat,
                  inputs: seq<Grid>, hs: seq<History>, s: seq<seq<Score>>, i: seq<seq<int>>, b: seq<seq<int>>)
    requires BatchOk(t, h, step) && G > 0 && |t[0]| % G == 0 && g < G
    requires |inputs| == |hs| == |s| == |i| == |b| == |t|
    requires forall r :: 0 <= r < |t| ==>
               && inputs[r] == GroupInput(t[r], G, g, CountsAt(step, t, h, G, strength, g)[r], strength)
               && hs[r] == Strided(h[r], G, g)
    requires BatchOk(inputs, hs, step)
    requires forall r :: 0 <= r < |t| ==>
               && s[r] == BeamStepRow(step, inputs[r], hs[r]).scores
               && i[r] == BeamStepRow(step, inputs[r], hs[r]).indices
               && b[r] == BeamStepRow(step, inputs[r], hs[r]).beams
    ensures Regroup(s, i, b, G, g) == GroupAt(step, t, h, G, strength, g)
    ensures AddCounts(CountsAt(step, t, h, G, strength, g), i) == CountsAt(step, t, h, G, strength, g + 1)
  {
    var sel, model := Regroup(s, i, b, G, g), GroupAt(step, t, h, G, strength, g);
    var before := CountsAt(step, t, h, G, strength, g);
    var added, next := AddCounts(before, i), CountsAt(step, t, h, G, strength, g + 1);
    forall r | 0 <= r < |t| ensures sel[r] == model[r] && added[r] == next[r] {
      NextGroupIs(step, t[r], h[r], G, strength, g, s[r], i[r], b[r]);
      CountsNext(step, t[r], h[r], G, strength, g);
    }
  }

  /** Row r of every group's output so far, in group order. */
  function Column(groups: seq<seq<Selection>>, r: nat): (c: seq<Selection>)
    requires forall g :: 0 <= g < |groups| ==> r < |groups[g]|
    ensures |c| == |groups| && forall g :: 0 <= g < |groups| ==> c[g] == groups[g][r]
  {
    seq(|groups|, g requires 0 <= g < |groups| => groups[g][r])
  }

  lemma ColumnSnoc(groups: seq<seq<Selection>>, sel: seq<Selection>, r: nat)
    requires forall g :: 0 <= g < |groups| ==> r < |groups[g]|
    requires r < |sel|
    ensures Column(groups + [sel], r) == Column(groups, r) + [sel[r]]
  {
  }

  /** The loop of the step builds the same groups as the model. */
  lemma GroupsSnoc(step: nat, lp: Grid, hist: History, G: nat, strength: real, n: nat)
    requires GroupsOk(lp, hist, step, G) && n < G
    ensures Groups(step, lp, hist, G, strength, n + 1) ==
            Groups(step, lp, hist, G, strength, n) + [NextGroup(step, lp, hist, G, strength, n)]
  {
  }

  /** The loop's invariant on the groups kept so far, one batch element per column. */
  predicate ColumnsAre(step: nat, t: seq<Grid>, h: seq<History>, G: nat, strength: real,
                       groups: seq<seq<Selection>>, n: nat)
    requires BatchOk(t, h, step) && G > 0 && |t[0]| % G == 0 && n <= G
  {
    && |groups| == n
    && (forall k :: 0 <= k < n ==> |groups[k]| == |t|)
    && (forall r :: 0 <= r < |t| ==> Column(groups, r) == Groups(step, t[r], h[r], G, strength, n))
  }

  /** Keeping the next group's output extends the invariant by one group. */
  lemma ColumnsNext(step: nat, t: seq<Grid>, h: seq<History>, G: nat, strength: real,
                    groups: seq<seq<Selection>>, n: nat, sel: seq<Selection>)
    requires BatchOk(t, h, step) && G > 0 && |t[0]| % G == 0 && n < G
    requires ColumnsAre(step, t, h, G, strength, groups, n)
    requires sel == GroupAt(step, t, h, G, strength, n)
    ensures ColumnsAre(step, t, h, G, strength, groups + [sel], n + 1)
  {
    forall r | 0 <= r < |t|
      ensures Column(groups + [sel], r) == Groups(step, t[r], h[r], G, strength, n + 1)
    {
      ColumnSnoc(groups, sel, r);
      GroupsSnoc(step, t[r], h[r], G, strength, n);
    }
  }

  /** The groups' outputs of every batch element are stacked side by side. */
  predicate Stackable(groups: seq<seq<Selection>>, bsz: nat) {
    && |groups| > 0
    && (forall k :: 0 <= k < |groups| ==> |groups[k]| == bsz)
    && (forall r :: 0 <= r < bsz ==> SameWidth(Column(groups, r), |groups[0][r].scores|))
  }

  function StackRows(groups: seq<seq<Selection>>, bsz: nat): (rows: seq<Selection>)
    requires Stackable(groups, bsz)
    ensures |rows| == bsz
  {
    seq(bsz, r requires 0 <= r < bsz => Stack(Column(groups, r), |groups[0][r].scores|))
  }

  /** Once every group is kept, stacking them is the model's step. */
  lemma StackRowsIsStep(step: nat, t: seq<Grid>, h: seq<History>, G: nat, strength: real,
                        groups: seq<seq<Selection>>)
    requires BatchOk(t, h, step) && G > 0 && |t[0]| % G == 0
    requires ColumnsAre(step, t, h, G, strength, groups, G)
    ensures Stackable(groups, |t|)
    ensures DiverseStep(step, t, h, G, strength) == Ok(StackRows(groups, |t|))
  {
    forall r | 0 <= r < |t| ensures SameWidth(Column(groups, r), |groups[0][r].scores|) {
      assert Column(groups, r)[0] == groups[0][r];
    }
    var rows := StackRows(groups, |t|);
    var model := seq(|t|, r requires 0 <= r < |t| => DiverseRow(step, t[r], h[r], G, strength));
    forall r | 0 <= r < |t| ensures rows[r] == model[r] {
      assert Column(groups, r)[0] == groups[0][r];
    }
    assert model == rows;
  }

  /** Whether `lprobs[:, 0::G, :].contiguous()` returns a view of the caller's
      lprobs rather than a copy. A strided slice of a packed bsz × K × V tensor is
      contiguous only when every dimension longer than one keeps a packed stride:
      with one group, or with one sentence whose K beams form K groups of one. */
  predicate SharesStorage(bsz: nat, beams: nat, G: nat) {
    G == 1 || (bsz == 1 && beams == G)
  }

  /** The caller's lprobs after the step. Through a shared group-0 slice,
      BeamSearch's in-place `add_` of the history (step > 0) reaches the
      beams of group 0 and no other entry. */
  function AfterStep(step: nat, t: seq<Grid>, h: seq<History>, G: Pos): (r: seq<Grid>)
    requires BatchOk(t, h, step)
    ensures |r| == |t| && BatchOk(r, h, step)
  {
    if step == 0 || !SharesStorage(|t|, |t[0]|, G) then t
    else if G == 1 then AddHistoryBatch(t, h, step)
    else [t[0][0 := AddHistory(t[0], h[0], step)[0]]]
  }

  /** Entry by entry: the beams of group 0 have the history added when the
      slice shares storage, and every other entry is the caller's. */
  lemma AfterStepAt(step: nat, t: seq<Grid>, h: seq<History>, G: Pos, k: nat, j: nat)
    requires BatchOk(t, h, step) && k < |t| && j < |t[k]|
    ensures AfterStep(step, t, h, G)[k][j] ==
              if step > 0 && SharesStorage(|t|, |t[0]|, G) && j % G == 0
              then AddHistory(t[k], h[k], step)[j] else t[k][j]
  {
    if step > 0 && SharesStorage(|t|, |t[0]|, G) && G > 1 && j > 0 {
      DivModUnique(j, G, 0, j);
    }
  }

  /** The slices of groups g > 0 do not see the sharing. */
  lemma AfterStepSlices(step: nat, t: seq<Grid>, h: seq<History>, G: Pos, g: nat, k: nat)
    requires BatchOk(t, h, step) && |t[0]| % G == 0 && 0 < g < G && k < |t|
    ensures Strided(AfterStep(step, t, h, G)[k], G, g) == Strided(t[k], G, g)
  {
    var a := AfterStep(step, t, h, G);
    forall b | 0 <= b < |t[k]| / G ensures Strided(a[k], G, g)[b] == Strided(t[k], G, g)[b] {
      StridedAt(a[k], G, g, b);
      StridedAt(t[k], G, g, b);
      DivModUnique(b * G + g, G, b, g);
      AfterStepAt(step, t, h, G, k, b * G + g);
    }
  }

  /** With one sentence and K = G, group 0's slice is beam 0 alone, so the
      history BeamSearch adds to the slice is the history of the caller's beam 0. */
  lemma SharedSliceAdd(step: nat, t: seq<Grid>, h: seq<History>, G: Pos, counts: seq<nat>, strength: real)
    requires BatchOk(t, h, step) && step > 0 && |t| == 1 && |t[0]| == G && |counts| == |t[0][0]|
    ensures var gi := GroupInput(t[0], G, 0, counts, strength);
            var hg := Strided(h[0], G, 0);
            |gi| == 1 && HistoryOk(hg, 1, step) &&
            [t[0][0 := AddHistory(gi, hg, step)[0]]] == AfterStep(step, t, h, G)
  {
    StridedAt(t[0], G, 0, 0);
    StridedAt(h[0], G, 0, 0);
    var gi := GroupInput(t[0], G, 0, counts, strength);
    var hg := Strided(h[0], G, 0);
    assert AddHistory(gi, hg, step)[0] == AddHistory(t[0], h[0], step)[0];
    var a := AfterStep(step, t, h, G);
    if G == 1 {
      assert a[0] == t[0][0 := AddHistory(t[0], h[0], step)[0]];
    }
  }

  class DiverseBeamSearch {
    const numGroups: Pos
    /** The constructor stores the diversity strength negated. */
    const diversityStrength: real
    /** Per batch element, how often each token was chosen by earlier groups. */
    var diversityBuf: seq<seq<nat>>
    var scoresBuf: seq<seq<Score>>
    var indicesBuf: seq<seq<int>>
    var beamsBuf: seq<seq<int>>
    const beam: BeamSearch

    constructor(numGroups: Pos, diversityStrength: real)
      ensures this.numGroups == numGroups && this.diversityStrength == -diversityStrength
      ensures diversityBuf == [] && scoresBuf == [] && indicesBuf == [] && beamsBuf == []
      ensures fresh(beam)
    {
      this.numGroups := numGroups;
      this.diversityStrength := -diversityStrength;
      diversityBuf, scoresBuf, indicesBuf, beamsBuf := [], [], [], [];
      beam := new BeamSearch();
    }

    /** `lprobs[:, g::G, :]` (penalized for g > 0) and `scores[:, g::G, :]`.
        With one group the slice of group 0 is the caller's tensor itself. */
    method GroupInputs(step: nat, lprobs: array<Grid>, scores: seq<History>, g: nat)
      returns (lpG: array<Grid>, hG: seq<History>)
      requires BatchOk(lprobs[..], scores, step) && |lprobs[0]| % numGroups == 0 && g < numGroups
      requires |diversityBuf| == lprobs.Length
      requires forall r :: 0 <= r < lprobs.Length ==> |diversityBuf[r]| == |lprobs[0][0]|
      ensures if numGroups == 1 then lpG == lprobs && hG == scores else fresh(lpG)
      ensures lpG.Length == lprobs.Length && |hG| == lprobs.Length
      ensures forall r :: 0 <= r < lprobs.Length ==>
                lpG[r] == GroupInput(lprobs[r], numGroups, g, diversityBuf[r], diversityStrength) &&
                hG[r] == Strided(scores[r], numGroups, g)
      ensures BatchOk(lpG[..], hG, step)
    {
      var bsz, G := lprobs.Length, numGroups;
      hG := seq(bsz, r requires 0 <= r < bsz => Strided(scores[r], G, g));
      if G == 1 {
        lpG := lprobs;
        forall r | 0 <= r < bsz
          ensures lpG[r] == GroupInput(lprobs[r], G, g, diversityBuf[r], diversityStrength) && hG[r] == scores[r]
        {
          StridedOne(lprobs[r]);
          StridedOne(scores[r]);
        }
        assert hG == scores;
      } else {
        var t, buf := lprobs[..], diversityBuf;
        var rows := seq(bsz, r requires 0 <= r < bsz => GroupInput(t[r], G, g, buf[r], diversityStrength));
        lpG := new Grid[bsz](r requires 0 <= r < bsz => rows[r]);
      }
      forall r | 0 <= r < bsz
        ensures Shaped(lpG[r], |lprobs[0]| / G, |lprobs[0][0]|) && HistoryOk(hG[r], |lprobs[0]| / G, step)
      {
        GroupInputOk(lprobs[r], scores[r], step, G, g, diversityBuf[r], diversityStrength);
      }
    }

    /** The bookkeeping after group g's BeamSearch step: the beams renamed
        in BeamSearch's own buffer, the group's output kept, the counts updated. */
    method RecordGroup(g: nat, s: seq<seq<Score>>, i: seq<seq<int>>, b: seq<seq<int>>)
      returns (sel: seq<Selection>)
      requires |s| == |i| == |b| == |diversityBuf|
      modifies this, beam
      ensures |beam.beamsBuf| == |b| && forall r :: 0 <= r < |b| ==> beam.beamsBuf[r] == Renamed(b[r], numGroups, g)
      ensures sel == Regroup(s, i, b, numGroups, g)
      ensures diversityBuf == AddCounts(old(diversityBuf), i)
      ensures scoresBuf == old(scoresBuf) && indicesBuf == old(indicesBuf) && beamsBuf == old(beamsBuf)
      ensures beam.scoresBuf == old(beam.scoresBuf) && beam.indicesBuf == old(beam.indicesBuf)
    {
      var bsz := |b|;
      var renamed := seq(bsz, r requires 0 <= r < bsz => Renamed(b[r], numGroups, g));
      beam.beamsBuf := renamed;
      sel := Regroup(s, i, b, numGroups, g);
      diversityBuf := AddCounts(diversityBuf, i);
    }

    /** BeamSearch's step on group g's slices of the batch. */
    method SearchGroup(step: nat, lprobs: array<Grid>, scores: seq<History>, g: nat)
      returns (ghost inputs: seq<Grid>, hG: seq<History>, s: seq<seq<Score>>, i: seq<seq<int>>, b: seq<seq<int>>)
      requires BatchOk(lprobs[..], scores, step) && |lprobs[0]| % numGroups == 0 && g < numGroups
      requires |diversityBuf| == lprobs.Length
      requires forall r :: 0 <= r < lprobs.Length ==> |diversityBuf[r]| == |lprobs[0][0]|
      modifies beam, lprobs
      ensures |inputs| == |hG| == |s| == |i| == |b| == lprobs.Length
      ensures forall r :: 0 <= r < lprobs.Length ==>
                inputs[r] == GroupInput(old(lprobs[..])[r], numGroups, g, diversityBuf[r], diversityStrength) &&
                hG[r] == Strided(scores[r], numGroups, g)
      ensures BatchOk(inputs, hG, step)
      ensures forall r :: 0 <= r < lprobs.Length ==>
                var sel := BeamStepRow(step, inputs[r], hG[r]);
                s[r] == sel.scores && i[r] == sel.indices && b[r] == sel.beams
      ensures lprobs[..] == if g == 0 then AfterStep(step, old(lprobs[..]), scores, numGroups) else old(lprobs[..])
    {
      var lpG;
      lpG, hG := GroupInputs(step, lprobs, scores, g);
      inputs := lpG[..];
      s, i, b := beam.Step(step, lpG, hG);
      if g == 0 && step > 0 && numGroups > 1 && SharesStorage(lprobs.Length, |lprobs[0]|, numGroups) {
        // `lpG` is then a view of beam 0 of the only sentence: what the step
        // added to it is in the caller's lprobs as well.
        SharedSliceAdd(step, lprobs[..], scores, numGroups, diversityBuf[0], diversityStrength);
        lprobs[0] := lprobs[0][0 := lpG[0][0]];
      }
    }

    /** One pass of the group loop. */
    method RunGroup(step: nat, lprobs: array<Grid>, scores: seq<History>, g: nat, ghost before: seq<Grid>)
      returns (sel: seq<Selection>)
      requires BatchOk(before, scores, step) && |before[0]| % numGroups == 0 && g < numGroups
      requires lprobs[..] == if g == 0 then before else AfterStep(step, before, scores, numGroups)
      requires diversityBuf == CountsAt(step, before, scores, numGroups, diversityStrength, g)
      modifies this, beam, lprobs
      ensures sel == GroupAt(step, before, scores, numGroups, diversityStrength, g)
      ensures diversityBuf == CountsAt(step, before, scores, numGroups, diversityStrength, g + 1)
      ensures lprobs[..] == AfterStep(step, before, scores, numGroups)
      ensures scoresBuf == old(scoresBuf) && indicesBuf == old(indicesBuf) && beamsBuf == old(beamsBuf)
    {
      ghost var inputs;
      var hG, s, i, b;
      inputs, hG, s, i, b := SearchGroup(step, lprobs, scores, g);
      if g > 0 {
        forall r | 0 <= r < |before| ensures Strided(AfterStep(step, before, scores, numGroups)[r], numGroups, g) == Strided(before[r], numGroups, g) {
          AfterStepSlices(step, before, scores, numGroups, g, r);
        }
      }
      sel := RecordGroup(g, s, i, b);
      GroupPass(step, before, scores, numGroups, diversityStrength, g, inputs, hG, s, i, b);
    }

    /** The group loop: group g is chosen with the counts of groups 0..g-1. */
    method RunGroups(step: nat, lprobs: array<Grid>, scores: seq<History>)
      returns (groups: seq<seq<Selection>>)
      requires BatchOk(lprobs[..], scores, step) && |lprobs[0]| % numGroups == 0
      modifies this, beam, lprobs
      ensures ColumnsAre(step, old(lprobs[..]), scores, numGroups, diversityStrength, groups, numGroups)
      ensures diversityBuf == CountsAt(step, old(lprobs[..]), scores, numGroups, diversityStrength, numGroups)
      ensures lprobs[..] == AfterStep(step, old(lprobs[..]), scores, numGroups)
      ensures scoresBuf == old(scoresBuf) && indicesBuf == old(indicesBuf) && beamsBuf == old(beamsBuf)
    {
      var bsz, V, G := lprobs.Length, |lprobs[0][0]|, numGroups;
      ghost var before := lprobs[..];
      diversityBuf := seq(bsz, r requires 0 <= r < bsz => seq(V, v requires 0 <= v < V => 0));
      CountsAtStart(step, before, scores, G, diversityStrength);
      groups := [];
      var g: nat := 0;
      while g < G
        invariant 0 <= g <= G
        invariant ColumnsAre(step, before, scores, G, diversityStrength, groups, g)
        invariant diversityBuf == CountsAt(step, before, scores, G, diversityStrength, g)
        invariant lprobs[..] == if g == 0 then before else AfterStep(step, before, scores, G)
        invariant scoresBuf == old(scoresBuf) && indicesBuf == old(indicesBuf) && beamsBuf == old(beamsBuf)
      {
        var sel := RunGroup(step, lprobs, scores, g, before);
        ColumnsNext(step, before, scores, G, diversityStrength, groups, g, sel);
        groups := groups + [sel];
        g := g + 1;
      }
    }

    /** The caller's lprobs change only where group 0's slice shares their
        storage (and step > 0): BeamSearch adds the history to that slice. */
    method Step(step: nat, lprobs: array<Grid>, scores: seq<History>) returns (res: Result<seq<Selection>>)
      requires BatchOk(lprobs[..], scores, step)
      modifies this, beam, lprobs
      ensures res == DiverseStep(step, old(lprobs[..]), scores, numGroups, diversityStrength)
      ensures lprobs[..] == if res.Ok? then AfterStep(step, old(lprobs[..]), scores, numGroups) else old(lprobs[..])
      ensures res.Err? ==> unchanged(this)
      ensures res.Ok? ==>
                && scoresBuf == ScoresOf(res.value)
                && indicesBuf == IndicesOf(res.value)
                && beamsBuf == BeamsOf(res.value)
                && diversityBuf == CountsAt(step, old(lprobs[..]), scores, numGroups, diversityStrength, numGroups)
    {
      if |lprobs[0]| % numGroups != 0 {
        return Err(GroupsDoNotDivideBeam);
      }
      var rows := StackGroups(step, lprobs, scores);
      res := Ok(rows);
    }

    /** The group loop followed by the interleaving `torch.stack(..., dim=2)`. */
    method StackGroups(step: nat, lprobs: array<Grid>, scores: seq<History>) returns (rows: seq<Selection>)
      requires BatchOk(lprobs[..], scores, step) && |lprobs[0]| % numGroups == 0
      modifies this, beam, lprobs
      ensures DiverseStep(step, old(lprobs[..]), scores, numGroups, diversityStrength) == Ok(rows)
      ensures lprobs[..] == AfterStep(step, old(lprobs[..]), scores, numGroups)
      ensures scoresBuf == ScoresOf(rows) && indicesBuf == IndicesOf(rows) && beamsBuf == BeamsOf(rows)
      ensures diversityBuf == CountsAt(step, old(lprobs[..]), scores, numGroups, diversityStrength, numGroups)
    {
      ghost var before := lprobs[..];
      var groups := RunGroups(step, lprobs, scores);
      StackRowsIsStep(step, before, scores, numGroups, diversityStrength, groups);
      rows := StackRows(groups, lprobs.Length);
      scoresBuf, indicesBuf, beamsBuf := ScoresOf(rows), IndicesOf(rows), BeamsOf(rows);
    }
  }
}
