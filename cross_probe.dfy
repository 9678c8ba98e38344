/** The divergence-detection engine of the cross-provider probe
    (src/anomaly_scanner/cross_probe.py): pairwise self-consistency of one
    provider's responses, best-match similarity between two providers,
    the severity rule, and the assembly of the anomaly record. */
module CrossProbe {
  import opened Stats
  import opened Reporting

  // ---------------------------------------------------------------------
  // Pairwise similarity
  // ---------------------------------------------------------------------

  /** A string similarity whose scores lie in [0, 1]. The probe uses
      difflib's matching-block ratio; nothing else about it is assumed here,
      in particular not that it is symmetric. */
  type SimilarityMeasure = f: (string, string) -> real | forall a, b :: 0.0 <= f(a, b) <= 1.0
    witness (a: string, b: string) => 1.0

  /** ProviderRun.seq_sim: the score of one ordered pair of responses. */
  function SeqSim(sim: SimilarityMeasure, a: string, b: string): (r: real)
    ensures 0.0 <= r <= 1.0
  {
    sim(a, b)
  }

  // ---------------------------------------------------------------------
  // Intra-provider consistency (ProviderRun.from_responses)
  // ---------------------------------------------------------------------

  /** The score of responses i and j of one provider, i < j. */
  datatype PairScore = PairScore(i: nat, j: nat, score: real)

  /** One provider's responses with their pairwise scores and summary. */
  datatype ProviderRun = ProviderRun(
    name: string,
    responses: seq<string>,
    pairwise: seq<PairScore>,
    meanSimilarity: real,
    minSimilarity: real)

  /** The scores of (i, i+1), ..., (i, j-1), in that order. */
  function Row(sim: SimilarityMeasure, r: seq<string>, i: nat, j: nat): seq<PairScore>
    requires i < j <= |r|
    decreases j
  {
    if j == i + 1 then []
    else Row(sim, r, i, j - 1) + [PairScore(i, j - 1, SeqSim(sim, r[i], r[j - 1]))]
  }

  /** The scores of every pair whose first index is below i, in the order
      the nested loops produce them. */
  function PairsBefore(sim: SimilarityMeasure, r: seq<string>, i: nat): seq<PairScore>
    requires i <= |r|
  {
    if i == 0 then [] else PairsBefore(sim, r, i - 1) + Row(sim, r, i - 1, |r|)
  }

  /** All pairwise scores of a list of responses. */
  function Pairwise(sim: SimilarityMeasure, r: seq<string>): seq<PairScore>
  {
    PairsBefore(sim, r, |r|)
  }

  function Scores(ps: seq<PairScore>): seq<real>
  {
    seq(|ps|, k requires 0 <= k < |ps| => ps[k].score)
  }

  /** The scores, or the single default score 1.0 when there are none. */
  function OrOne(xs: seq<real>): seq<real>
  {
    if xs == [] then [1.0] else xs
  }

  /** The ProviderRun that from_responses builds. */
  function RunOf(sim: SimilarityMeasure, name: string, responses: seq<string>): ProviderRun
  {
    var ps := Pairwise(sim, responses);
    var scores := OrOne(Scores(ps));
    ProviderRun(name, responses, ps, Mean(scores), Min(scores))
  }

  /** ProviderRun.from_responses: score every pair i < j with two nested
      loops, then summarise the scores. */
  method FromResponses(sim: SimilarityMeasure, name: string, responses: seq<string>)
    returns (run: ProviderRun)
    ensures run == RunOf(sim, name, responses)
  {
    var sims: seq<PairScore> := [];
    var n := |responses|;
    for i := 0 to n
      invariant sims == PairsBefore(sim, responses, i)
    {
      for j := i + 1 to n
        invariant sims == PairsBefore(sim, responses, i) + Row(sim, responses, i, j)
      {
        sims := sims + [PairScore(i, j, SeqSim(sim, responses[i], responses[j]))];
      }
    }
    var scores := Scores(sims);
    if scores == [] {
      scores := [1.0];
    }
    run := ProviderRun(name, responses, sims, Mean(scores), Min(scores));
  }

  /** Lexicographic order on index pairs. */
  predicate LexLess(p: PairScore, q: PairScore)
  {
    p.i < q.i || (p.i == q.i && p.j < q.j)
  }

  ghost predicate LexOrdered(ps: seq<PairScore>)
  {
    forall k, l {:trigger LexLess(ps[k], ps[l])} :: 0 <= k < l < |ps| ==> LexLess(ps[k], ps[l])
  }

  lemma {:induction false} RowLength(sim: SimilarityMeasure, r: seq<string>, i: nat, j: nat)
    requires i < j <= |r|
    ensures |Row(sim, r, i, j)| == j - i - 1
  {
    if j > i + 1 {
      RowLength(sim, r, i, j - 1);
    }
  }

  lemma {:induction false} RowShape(sim: SimilarityMeasure, r: seq<string>, i: nat, j: nat)
    requires i < j <= |r|
    ensures |Row(sim, r, i, j)| == j - i - 1
    ensures forall k :: 0 <= k < j - i - 1 ==>
      Row(sim, r, i, j)[k] == PairScore(i, i + 1 + k, SeqSim(sim, r[i], r[i + 1 + k]))
  {
    if j > i + 1 {
      RowShape(sim, r, i, j - 1);
    }
  }

  lemma {:induction false} PairsBeforeCount(sim: SimilarityMeasure, r: seq<string>, i: nat)
    requires i <= |r|
    ensures 2 * |PairsBefore(sim, r, i)| == i * (2 * |r| - i - 1)
  {
    if i > 0 {
      var left, row := PairsBefore(sim, r, i - 1), Row(sim, r, i - 1, |r|);
      assert 2 * |left| == (i - 1) * (2 * |r| - (i - 1) - 1) by { PairsBeforeCount(sim, r, i - 1); }
      assert |row| == |r| - (i - 1) - 1 by { RowLength(sim, r, i - 1, |r|); }
      CountStep(i, |r|);
    }
  }

  lemma CountStep(i: int, n: int)
    ensures (i - 1) * (2 * n - (i - 1) - 1) + 2 * (n - (i - 1) - 1) == i * (2 * n - i - 1)
  {
    var m := 2 * n - i;
    assert (i - 1) * m == i * m - m;
    assert i * (m - 1) == i * m - i;
  }

  /** Every entry of ps is a pair i < j < |r| with the score of responses
      i and j. */
  ghost predicate Scored(ps: seq<PairScore>, sim: SimilarityMeasure, r: seq<string>)
  {
    forall p {:trigger p in ps} :: p in ps ==> p.i < p.j < |r| && p.score == SeqSim(sim, r[p.i], r[p.j])
  }

  lemma ScoredJoin(left: seq<PairScore>, right: seq<PairScore>, sim: SimilarityMeasure, r: seq<string>)
    requires Scored(left, sim, r) && Scored(right, sim, r)
    ensures Scored(left + right, sim, r)
  {
  }

  lemma RowEntries(sim: SimilarityMeasure, r: seq<string>, i: nat, j: nat)
    requires i < j <= |r|
    ensures Scored(Row(sim, r, i, j), sim, r)
  {
    var row := Row(sim, r, i, j);
    RowShape(sim, r, i, j);
    forall p | p in row
      ensures p.i < p.j < |r| && p.score == SeqSim(sim, r[p.i], r[p.j])
    {
      var k :| 0 <= k < |row| && row[k] == p;
    }
  }

  lemma {:induction false} PairsBeforeEntries(sim: SimilarityMeasure, r: seq<string>, i: nat)
    requires i <= |r|
    ensures Scored(PairsBefore(sim, r, i), sim, r)
  {
    if i > 0 {
      var left, row := PairsBefore(sim, r, i - 1), Row(sim, r, i - 1, |r|);
      assert Scored(left, sim, r) by { PairsBeforeEntries(sim, r, i - 1); }
      assert Scored(row, sim, r) by { RowEntries(sim, r, i - 1, |r|); }
      ScoredJoin(left, row, sim, r);
    }
  }


  /** A row is ordered by its second index. */
  lemma RowOrdered(sim: SimilarityMeasure, r: seq<string>, i: nat, j: nat)
    requires i < j <= |r|
    ensures LexOrdered(Row(sim, r, i, j))
  {
    RowShape(sim, r, i, j);
  }

  /** Joining an ordered list whose first indices are below c to an ordered
      list whose first indices are all c gives an ordered list. */
  lemma JoinOrdered(left: seq<PairScore>, right: seq<PairScore>, c: nat)
    requires LexOrdered(left) && LexOrdered(right)
    requires FirstBelow(left, c) && FirstIs(right, c)
    ensures LexOrdered(left + right)
  {
    var all := left + right;
    forall k, l | 0 <= k < l < |all|
      ensures LexLess(all[k], all[l])
    {
      if l < |left| {
        assert all[k] == left[k] && all[l] == left[l];
        assert LexLess(left[k], left[l]);
      } else if k >= |left| {
        assert all[k] == right[k - |left|] && all[l] == right[l - |left|];
        assert LexLess(right[k - |left|], right[l - |left|]);
      } else {
        assert all[k] == left[k] && left[k] in left;
        assert all[l] == right[l - |left|] && right[l - |left|] in right;
      }
    }
  }

  ghost predicate FirstBelow(ps: seq<PairScore>, c: nat)
  {
    forall p {:trigger p in ps} :: p in ps ==> p.i < c
  }

  ghost predicate FirstIs(ps: seq<PairScore>, c: nat)
  {
    forall p {:trigger p in ps} :: p in ps ==> p.i == c
  }

  lemma FirstJoin(left: seq<PairScore>, right: seq<PairScore>, c: nat)
    requires FirstBelow(left, c) && FirstIs(right, c)
    ensures FirstBelow(left + right, c + 1)
  {
  }

  lemma RowFirst(sim: SimilarityMeasure, r: seq<string>, i: nat, j: nat)
    requires i < j <= |r|
    ensures FirstIs(Row(sim, r, i, j), i)
  {
    var row := Row(sim, r, i, j);
    RowShape(sim, r, i, j);
    forall p | p in row
      ensures p.i == i
    {
      var k :| 0 <= k < |row| && row[k] == p;
    }
  }

  lemma {:induction false} PairsBeforeFirst(sim: SimilarityMeasure, r: seq<string>, i: nat)
    requires i <= |r|
    ensures FirstBelow(PairsBefore(sim, r, i), i)
  {
    if i > 0 {
      var left, row := PairsBefore(sim, r, i - 1), Row(sim, r, i - 1, |r|);
      assert FirstBelow(left, i - 1) by { PairsBeforeFirst(sim, r, i - 1); }
      assert FirstIs(row, i - 1) by { RowFirst(sim, r, i - 1, |r|); }
      FirstJoin(left, row, i - 1);
    }
  }

  lemma {:induction false} PairsBeforeOrdered(sim: SimilarityMeasure, r: seq<string>, i: nat)
    requires i <= |r|
    ensures LexOrdered(PairsBefore(sim, r, i))
  {
    if i > 0 {
      var left, row := PairsBefore(sim, r, i - 1), Row(sim, r, i - 1, |r|);
      assert LexOrdered(left) by { PairsBeforeOrdered(sim, r, i - 1); }
      assert FirstBelow(left, i - 1) by { PairsBeforeFirst(sim, r, i - 1); }
      assert LexOrdered(row) by { RowOrdered(sim, r, i - 1, |r|); }
      assert FirstIs(row, i - 1) by { RowFirst(sim, r, i - 1, |r|); }
      JoinOrdered(left, row, i - 1);
    }
  }

  /** ps holds the pair (a, b) with the score of responses a and b. */
  ghost predicate HasPair(ps: seq<PairScore>, sim: SimilarityMeasure, r: seq<string>, a: nat, b: nat)
  {
    a < b < |r| && PairScore(a, b, SeqSim(sim, r[a], r[b])) in ps
  }

  /** Row (i, j) holds the pair (i, b) for every i < b < j. */
  lemma RowContains(sim: SimilarityMeasure, r: seq<string>, i: nat, j: nat)
    requires i < j <= |r|
    ensures forall b :: i < b < j ==> HasPair(Row(sim, r, i, j), sim, r, i, b)
  {
    var row := Row(sim, r, i, j);
    RowShape(sim, r, i, j);
    forall b | i < b < j
      ensures HasPair(row, sim, r, i, b)
    {
      assert row[b - i - 1] == PairScore(i, b, SeqSim(sim, r[i], r[b]));
    }
  }

  lemma {:induction false} PairsBeforeComplete(sim: SimilarityMeasure, r: seq<string>, i: nat)
    requires i <= |r|
    ensures forall a: nat, b: nat :: a < i && a < b < |r| ==> HasPair(PairsBefore(sim, r, i), sim, r, a, b)
  {
    if i > 0 {
      var left, row := PairsBefore(sim, r, i - 1), Row(sim, r, i - 1, |r|);
      assert forall a: nat, b: nat :: a < i - 1 && a < b < |r| ==> HasPair(left, sim, r, a, b) by {
        PairsBeforeComplete(sim, r, i - 1);
      }
      var c: nat := i - 1;
      assert forall b: nat :: c < b < |r| ==> HasPair(row, sim, r, c, b) by {
        RowContains(sim, r, i - 1, |r|);
      }
      forall a: nat, b: nat | a < i && a < b < |r|
        ensures HasPair(left + row, sim, r, a, b)
      {
        if a < i - 1 {
          assert HasPair(left, sim, r, a, b);
        } else {
          assert HasPair(row, sim, r, a, b);
        }
      }
    }
  }

  /** The pairwise list holds n*(n-1)/2 entries, each a pair i < j < n with
      the score of responses i and j, strictly increasing in (i, j), and
      every such pair occurs. */
  lemma PairwiseShape(sim: SimilarityMeasure, r: seq<string>)
    ensures |Pairwise(sim, r)| == |r| * (|r| - 1) / 2
    ensures forall p :: p in Pairwise(sim, r) ==>
      p.i < p.j < |r| && p.score == SeqSim(sim, r[p.i], r[p.j])
    ensures LexOrdered(Pairwise(sim, r))
    ensures forall a, b :: 0 <= a < b < |r| ==>
      PairScore(a, b, SeqSim(sim, r[a], r[b])) in Pairwise(sim, r)
  {
    var n := |r|;
    PairsBeforeCount(sim, r, n);
    assert 2 * |Pairwise(sim, r)| == n * (n - 1);
    PairsBeforeEntries(sim, r, n);
    assert Scored(Pairwise(sim, r), sim, r);
    PairsBeforeOrdered(sim, r, n);
    PairsBeforeComplete(sim, r, n);
    forall a, b | 0 <= a < b < |r|
      ensures PairScore(a, b, SeqSim(sim, r[a], r[b])) in Pairwise(sim, r)
    {
      assert HasPair(Pairwise(sim, r), sim, r, a, b);
    }
  }

  /** With fewer than two responses there are no pairs and both summary
      figures default to 1.0; with two or more the summary is taken over the
      pairwise scores alone. */
  lemma DegenerateRun(sim: SimilarityMeasure, name: string, r: seq<string>)
    ensures |r| < 2 <==> RunOf(sim, name, r).pairwise == []
    ensures |r| < 2 ==> RunOf(sim, name, r).meanSimilarity == 1.0
    ensures |r| < 2 ==> RunOf(sim, name, r).minSimilarity == 1.0
    ensures |r| >= 2 ==> RunOf(sim, name, r).meanSimilarity == Mean(Scores(Pairwise(sim, r)))
    ensures |r| >= 2 ==> RunOf(sim, name, r).minSimilarity == Min(Scores(Pairwise(sim, r)))
  {
    PairwiseShape(sim, r);
    if |r| >= 2 {
      assert PairScore(0, 1, SeqSim(sim, r[0], r[1])) in Pairwise(sim, r);
    } else {
      assert Sum([1.0]) == 1.0;
    }
  }

  /** from_responses keeps the name and the responses as given, and
      0 <= min_similarity <= mean_similarity <= 1. */
  lemma ConsistencyBounds(sim: SimilarityMeasure, name: string, r: seq<string>)
    ensures RunOf(sim, name, r).name == name
    ensures RunOf(sim, name, r).responses == r
    ensures 0.0 <= RunOf(sim, name, r).minSimilarity
    ensures RunOf(sim, name, r).minSimilarity <= RunOf(sim, name, r).meanSimilarity
    ensures RunOf(sim, name, r).meanSimilarity <= 1.0
  {
    var ps := Pairwise(sim, r);
    var scores := OrOne(Scores(ps));
    PairwiseShape(sim, r);
    forall x | x in scores
      ensures 0.0 <= x <= 1.0
    {
      var k :| 0 <= k < |scores| && scores[k] == x;
      if ps != [] {
        assert ps[k] in ps && x == ps[k].score;
      }
    }
    MinMeanOrder(scores);
  }

  // ---------------------------------------------------------------------
  // Cross-provider best-match similarity (cross_similarity)
  // ---------------------------------------------------------------------

  /** The best score of x against any of ys (Python's max over a generator). */
  function BestMatch(sim: SimilarityMeasure, x: string, ys: seq<string>): (best: real)
    requires |ys| > 0
    ensures 0.0 <= best <= 1.0
    ensures exists j :: 0 <= j < |ys| && best == sim(x, ys[j])
    ensures forall j :: 0 <= j < |ys| ==> sim(x, ys[j]) <= best
  {
    if |ys| == 1 then sim(x, ys[0])
    else
      var rest := BestMatch(sim, x, ys[1..]);
      assert forall j :: 1 <= j < |ys| ==> ys[j] == ys[1..][j - 1];
      if sim(x, ys[0]) >= rest then sim(x, ys[0]) else rest
  }

  /** For every x in xs, its best score against ys. */
  function BestMatches(sim: SimilarityMeasure, xs: seq<string>, ys: seq<string>): seq<real>
    requires |ys| > 0
  {
    seq(|xs|, k requires 0 <= k < |xs| => BestMatch(sim, xs[k], ys))
  }

  /** The |a| + |b| maxima that cross_similarity averages: a against b
      first, then b against a. */
  function Totals(sim: SimilarityMeasure, a: seq<string>, b: seq<string>): seq<real>
    requires |a| > 0 && |b| > 0
  {
    BestMatches(sim, a, b) + BestMatches(sim, b, a)
  }

  /** The value cross_similarity returns. */
  function CrossScore(sim: SimilarityMeasure, a: seq<string>, b: seq<string>): real
  {
    if |a| == 0 || |b| == 0 then 1.0 else Mean(Totals(sim, a, b))
  }

  /** cross_similarity: two loops collect the best-match scores, whose mean
      is the result; an empty side gives 1.0. */
  method CrossSimilarity(sim: SimilarityMeasure, a: seq<string>, b: seq<string>)
    returns (score: real)
    ensures score == CrossScore(sim, a, b)
  {
    if |a| == 0 || |b| == 0 {
      return 1.0;
    }
    var totals: seq<real> := [];
    for k := 0 to |a|
      invariant totals == BestMatches(sim, a, b)[..k]
    {
      var best := BestMatch(sim, a[k], b);
      totals := totals + [best];
    }
    assert totals == BestMatches(sim, a, b);
    for k := 0 to |b|
      invariant totals == BestMatches(sim, a, b) + BestMatches(sim, b, a)[..k]
    {
      var best := BestMatch(sim, b[k], a);
      totals := totals + [best];
    }
    assert totals == Totals(sim, a, b);
    score := Mean(totals);
  }

  /** For non-empty sides, cross_similarity averages exactly |a| + |b|
      values: first the best score of each a[k] against b, then the best
      score of each b[k] against a (BestMatch's contract says each is the
      maximum over the other side). */
  lemma CrossScoreMaxima(sim: SimilarityMeasure, a: seq<string>, b: seq<string>)
    requires |a| > 0 && |b| > 0
    ensures CrossScore(sim, a, b) == Mean(Totals(sim, a, b))
    ensures |Totals(sim, a, b)| == |a| + |b|
    ensures forall k :: 0 <= k < |a| ==> Totals(sim, a, b)[k] == BestMatch(sim, a[k], b)
    ensures forall k :: 0 <= k < |b| ==> Totals(sim, a, b)[|a| + k] == BestMatch(sim, b[k], a)
  {
  }

  /** Every best-match score lies in [0, 1]. */
  lemma BestMatchesInUnit(sim: SimilarityMeasure, xs: seq<string>, ys: seq<string>)
    requires |ys| > 0
    ensures Within(BestMatches(sim, xs, ys), 0.0, 1.0)
  {
    var bm := BestMatches(sim, xs, ys);
    forall x | x in bm
      ensures 0.0 <= x <= 1.0
    {
      var k :| 0 <= k < |bm| && bm[k] == x;
      assert x == BestMatch(sim, xs[k], ys);
    }
  }

  /** cross_similarity lies in [0, 1], and is 1.0 when either side is empty. */
  lemma CrossScoreBounds(sim: SimilarityMeasure, a: seq<string>, b: seq<string>)
    ensures 0.0 <= CrossScore(sim, a, b) <= 1.0
    ensures |a| == 0 || |b| == 0 ==> CrossScore(sim, a, b) == 1.0
  {
    if |a| > 0 && |b| > 0 {
      BestMatchesInUnit(sim, a, b);
      BestMatchesInUnit(sim, b, a);
      WithinJoin(BestMatches(sim, a, b), BestMatches(sim, b, a), 0.0, 1.0);
      MeanBounds(Totals(sim, a, b), 0.0, 1.0);
    }
  }

  /** cross_similarity(a, b) == cross_similarity(b, a), although the
      similarity itself need not be symmetric: swapping the arguments only
      swaps the two halves of the averaged list. */
  lemma CrossScoreSymmetric(sim: SimilarityMeasure, a: seq<string>, b: seq<string>)
    ensures CrossScore(sim, a, b) == CrossScore(sim, b, a)
  {
    if |a| > 0 && |b| > 0 {
      MeanSwap(BestMatches(sim, a, b), BestMatches(sim, b, a));
    }
  }

  // ---------------------------------------------------------------------
  // Severity classifier (classify)
  // ---------------------------------------------------------------------

  /** Severity levels, ordered none < low < medium < high. */
  datatype Severity = None | Low | Medium | High {
    /** The string the probe uses for the level. */
    function Label(): string
    {
      match this
      case None => "none"
      case Low => "low"
      case Medium => "medium"
      case High => "high"
    }

    function Rank(): nat
    {
      match this
      case None => 0
      case Low => 1
      case Medium => 2
      case High => 3
    }
  }

  /** The fixed cross-similarity bound below which divergence is high,
      independent of the configurable threshold. */
  const HighDivergenceBound: real := 0.60

  /** Some provider's mean self-similarity is below the threshold. */
  predicate AnyInconsistent(within: map<string, ProviderRun>, threshold: real)
  {
    exists p :: p in within.Values && p.meanSimilarity < threshold
  }

  /** classify: first match wins among high, medium, low, none. */
  function Classify(sepCross: real, within: map<string, ProviderRun>, threshold: real): (s: Severity)
    ensures s == High <==> sepCross < HighDivergenceBound
    ensures s == Medium <==> HighDivergenceBound <= sepCross < threshold
    ensures s == Low <==>
      HighDivergenceBound <= sepCross && threshold <= sepCross && AnyInconsistent(within, threshold)
    ensures s == None <==>
      HighDivergenceBound <= sepCross && threshold <= sepCross && !AnyInconsistent(within, threshold)
  {
    if sepCross < HighDivergenceBound then High
    else if sepCross < threshold then Medium
    else if AnyInconsistent(within, threshold) then Low
    else None
  }

  /** The four levels have four distinct labels. */
  lemma LabelsDistinct(s: Severity, t: Severity)
    ensures s.Label() == t.Label() <==> s == t
    ensures s.Label() in {"none", "low", "medium", "high"}
  {
  }

  /** Lowering the cross-provider score never lowers the severity. */
  lemma ClassifyMonotoneInScore(lower: real, higher: real, within: map<string, ProviderRun>, threshold: real)
    requires lower <= higher
    ensures Classify(higher, within, threshold).Rank() <= Classify(lower, within, threshold).Rank()
  {
  }

  /** Raising the threshold never lowers the severity. */
  lemma ClassifyMonotoneInThreshold(sepCross: real, within: map<string, ProviderRun>, t1: real, t2: real)
    requires t1 <= t2
    ensures Classify(sepCross, within, t1).Rank() <= Classify(sepCross, within, t2).Rank()
  {
    if AnyInconsistent(within, t1) {
      var p :| p in within.Values && p.meanSimilarity < t1;
      assert p.meanSimilarity < t2;
    }
  }

  // ---------------------------------------------------------------------
  // The provider runs, keyed by provider name in insertion order
  // ---------------------------------------------------------------------

  /** A Python dict from provider name to run: the keys in insertion order,
      and the entries. */
  datatype RunTable = RunTable(names: seq<string>, runs: map<string, ProviderRun>) {
    ghost predicate Valid()
    {
      && (forall k, l :: 0 <= k < l < |names| ==> names[k] != names[l])
      && (forall n :: n in runs <==> n in names)
    }

    /** `runs[name] = run`: a new key goes last; an existing key keeps its
        place and takes the new value. */
    function Put(name: string, run: ProviderRun): RunTable
    {
      if name in runs then RunTable(names, runs[name := run])
      else RunTable(names + [name], runs[name := run])
    }
  }

  /** The table after the collection loop over the providers' materialised
      responses, in selection order. */
  function CollectSpec(sim: SimilarityMeasure, collected: seq<(string, seq<string>)>): RunTable
  {
    if collected == [] then RunTable([], map[])
    else
      var last := collected[|collected| - 1];
      CollectSpec(sim, collected[..|collected| - 1]).Put(last.0, RunOf(sim, last.0, last.1))
  }

  /** The loop that fills `runs`, with each provider's responses given. */
  method CollectRuns(sim: SimilarityMeasure, collected: seq<(string, seq<string>)>)
    returns (table: RunTable)
    ensures table == CollectSpec(sim, collected)
  {
    table := RunTable([], map[]);
    for k := 0 to |collected|
      invariant table == CollectSpec(sim, collected[..k])
    {
      var (name, responses) := collected[k];
      var run := FromResponses(sim, name, responses);
      assert collected[..k + 1][..k] == collected[..k];
      table := table.Put(name, run);
    }
    assert collected[..|collected|] == collected;
  }

  /** Put keeps the table well formed, keeps the existing keys in place
      and makes the key present. */
  lemma PutValid(t: RunTable, name: string, run: ProviderRun)
    requires t.Valid()
    ensures t.Put(name, run).Valid()
    ensures t.names <= t.Put(name, run).names
    ensures forall n :: n in t.Put(name, run).names <==> n in t.names || n == name
    ensures name in t.Put(name, run).runs && t.Put(name, run).runs[name] == run
    ensures forall n :: n in t.runs && n != name ==> t.Put(name, run).runs[n] == t.runs[n]
  {
  }

  ghost predicate Provided(collected: seq<(string, seq<string>)>, n: string)
  {
    exists k :: 0 <= k < |collected| && collected[k].0 == n
  }

  /** The table is well formed, its keys are exactly the provider names
      supplied, and the first key is the first provider's name. */
  lemma {:induction false} CollectKeys(sim: SimilarityMeasure, collected: seq<(string, seq<string>)>)
    ensures CollectSpec(sim, collected).Valid()
    ensures forall n :: n in CollectSpec(sim, collected).names <==> Provided(collected, n)
    ensures |collected| > 0 ==>
      |CollectSpec(sim, collected).names| > 0 && CollectSpec(sim, collected).names[0] == collected[0].0
  {
    if collected != [] {
      var init := collected[..|collected| - 1];
      var last := collected[|collected| - 1];
      var t0 := CollectSpec(sim, init);
      assert t0.Valid() && forall n :: n in t0.names <==> Provided(init, n) by {
        CollectKeys(sim, init);
      }
      PutValid(t0, last.0, RunOf(sim, last.0, last.1));
      ProvidedSnoc(init, last);
      assert collected == init + [last];
      if init != [] {
        assert |t0.names| > 0 && t0.names[0] == init[0].0 by { CollectKeys(sim, init); }
        assert init[0] == collected[0];
      }
    }
  }

  lemma ProvidedSnoc(init: seq<(string, seq<string>)>, last: (string, seq<string>))
    ensures forall n :: Provided(init + [last], n) <==> Provided(init, n) || n == last.0
  {
    var all := init + [last];
    forall n ensures Provided(all, n) <==> Provided(init, n) || n == last.0 {
      if Provided(init, n) {
        var k :| 0 <= k < |init| && init[k].0 == n;
        assert all[k] == init[k];
      }
      if n == last.0 {
        assert all[|init|] == last;
      }
      if Provided(all, n) && n != last.0 {
        var k :| 0 <= k < |all| && all[k].0 == n;
        assert k < |init| && init[k] == all[k];
      }
    }
  }

  /** When every provider has the same name, the table has that one key. */
  lemma {:induction false} CollectOneName(sim: SimilarityMeasure, collected: seq<(string, seq<string>)>)
    requires |collected| > 0
    requires forall l :: 0 <= l < |collected| ==> collected[l].0 == collected[0].0
    ensures CollectSpec(sim, collected).names == [collected[0].0]
    ensures CollectSpec(sim, collected).runs.Keys == {collected[0].0}
  {
    var init := collected[..|collected| - 1];
    if |collected| > 1 {
      forall l | 0 <= l < |init| ensures init[l].0 == init[0].0 {
        assert init[l] == collected[l] && init[0] == collected[0];
      }
      CollectOneName(sim, init);
      assert init[0] == collected[0];
    }
  }

  /** The second key is the first provider name, in selection order, that
      differs from the first: these two are the providers compared. */
  lemma {:induction false} CollectSecondKey(sim: SimilarityMeasure, collected: seq<(string, seq<string>)>, m: nat)
    requires 0 < m < |collected|
    requires collected[m].0 != collected[0].0
    requires forall l :: 0 < l < m ==> collected[l].0 == collected[0].0
    ensures |CollectSpec(sim, collected).names| >= 2
    ensures CollectSpec(sim, collected).names[1] == collected[m].0
  {
    var init := collected[..|collected| - 1];
    var last := collected[|collected| - 1];
    var t0 := CollectSpec(sim, init);
    assert init[0] == collected[0];
    if |collected| == m + 1 {
      forall l | 0 <= l < |init| ensures init[l].0 == init[0].0 {
        assert init[l] == collected[l];
      }
      CollectOneName(sim, init);
      assert last.0 !in t0.runs;
    } else {
      assert init[m] == collected[m];
      forall l | 0 < l < m ensures init[l].0 == init[0].0 {
        assert init[l] == collected[l];
      }
      CollectSecondKey(sim, init, m);
    }
  }

  /** A provider named several times keeps the run of its last occurrence. */
  lemma {:induction false} CollectLastWins(sim: SimilarityMeasure, collected: seq<(string, seq<string>)>, k: nat)
    requires k < |collected|
    requires forall l :: k < l < |collected| ==> collected[l].0 != collected[k].0
    ensures collected[k].0 in CollectSpec(sim, collected).runs
    ensures CollectSpec(sim, collected).runs[collected[k].0] == RunOf(sim, collected[k].0, collected[k].1)
  {
    var init := collected[..|collected| - 1];
    if k < |collected| - 1 {
      assert init[k] == collected[k];
      forall l | k < l < |init| ensures init[l].0 != init[k].0 {
        assert init[l] == collected[l];
      }
      CollectLastWins(sim, init, k);
    }
  }

  /** The table has at least two keys exactly when some provider name
      differs from the first one. */
  lemma CollectTwoProviders(sim: SimilarityMeasure, collected: seq<(string, seq<string>)>)
    ensures |CollectSpec(sim, collected).names| >= 2
        <==> exists k :: 0 < k < |collected| && collected[k].0 != collected[0].0
  {
    var t := CollectSpec(sim, collected);
    CollectKeys(sim, collected);
    if |t.names| >= 2 {
      assert t.names[1] != t.names[0];
      assert t.names[1] in t.names;
      var k :| 0 <= k < |collected| && collected[k].0 == t.names[1];
    }
    if exists k :: 0 < k < |collected| && collected[k].0 != collected[0].0 {
      var k :| 0 < k < |collected| && collected[k].0 != collected[0].0;
      assert Provided(collected, collected[k].0);
      assert collected[k].0 in t.names;
    }
  }

  // ---------------------------------------------------------------------
  // Anomaly record assembly (the body of main after collection)
  // ---------------------------------------------------------------------

  datatype Result<T> = Ok(value: T) | Err(message: string)

  /** The run parameters of one probe. */
  datatype ProbeSettings = ProbeSettings(prompt: string, runs: int, temperature: real, threshold: real)

  /** How numbers are written in the description: `{runs}`, `{temperature}`
      and the `:.3f` scores. */
  datatype NumberFormat = NumberFormat(integer: int -> string, plain: real -> string, fixed3: real -> string)

  const TooFewProviders: string := "Need at least two providers for cross-provider drift."

  /** Number of sample responses kept per provider. */
  const SampleLimit: nat := 3

  /** ASCII upper-casing of one character. */
  function UpperChar(c: char): char
  {
    if 'a' <= c <= 'z' then (c as int - 32) as char else c
  }

  /** ASCII `str.upper`: each lower-case letter becomes its capital (code
      minus 32), every other character stays, and no lower-case ASCII
      letter is left. */
  function Upper(s: string): (u: string)
    ensures |u| == |s|
    ensures forall k :: 0 <= k < |s| && 'a' <= s[k] <= 'z' ==> u[k] as int == s[k] as int - 32
    ensures forall k :: 0 <= k < |s| && !('a' <= s[k] <= 'z') ==> u[k] == s[k]
    ensures forall k :: 0 <= k < |u| ==> !('a' <= u[k] <= 'z')
  {
    seq(|s|, k requires 0 <= k < |s| => UpperChar(s[k]))
  }

  /** Upper-casing twice is upper-casing once. */
  lemma UpperIdempotent(s: string)
    ensures Upper(Upper(s)) == Upper(s)
  {
  }

  /** The record identifier for providers a and b: A, then "-vs-", then B,
      then "-DIVERGENCE", with both names upper-cased. */
  function DivergenceId(a: string, b: string): (id: string)
    ensures |id| == |a| + |b| + 15
    ensures id[..|a|] == Upper(a)
    ensures id[|a|..|a| + 4] == "-vs-"
    ensures id[|a| + 4..|a| + 4 + |b|] == Upper(b)
    ensures id[|a| + 4 + |b|..] == "-DIVERGENCE"
  {
    Upper(a) + "-vs-" + Upper(b) + "-DIVERGENCE"
  }

  /** The identifier does not depend on how the provider names are cased. */
  lemma DivergenceIdIgnoresCase(a: string, b: string)
    ensures DivergenceId(Upper(a), Upper(b)) == DivergenceId(a, b)
  {
    UpperIdempotent(a);
    UpperIdempotent(b);
  }

  /** min(3, n). */
  function SampleSize(n: nat): nat
  {
    if n < SampleLimit then n else SampleLimit
  }

  /** `responses[:3]`: the first min(3, len) responses. */
  function Samples(responses: seq<string>): (s: seq<string>)
    ensures |s| == SampleSize(|responses|)
    ensures s <= responses
  {
    responses[..SampleSize(|responses|)]
  }

  /** The severity that is stored: none becomes low. */
  function StoredSeverity(s: Severity): (r: Severity)
    ensures r != None
    ensures s != None ==> r == s
    ensures s.Rank() <= r.Rank() <= s.Rank() + 1
  {
    if s == None then Low else s
  }

  /** The fixed opening of every description. */
  const DescriptionLead: string := "Cross-provider drift on prompt with runs="

  /** The record description: the run settings, the cross-provider score,
      and each compared provider's mean and minimum, in the fixed wording. */
  function Describe(settings: ProbeSettings, fmt: NumberFormat, cross: real,
                    a: string, ra: ProviderRun, b: string, rb: ProviderRun): (d: string)
    ensures DescriptionLead <= d
    ensures |d| > |DescriptionLead| + |fmt.integer(settings.runs)|
    ensures d[|DescriptionLead|..|DescriptionLead| + |fmt.integer(settings.runs)|] == fmt.integer(settings.runs)
    ensures d[|d| - 1] == '.'
  {
    DescriptionLead + fmt.integer(settings.runs)
      + ", temp=" + fmt.plain(settings.temperature) + ". "
      + "cross_similarity=" + fmt.fixed3(cross) + "; "
      + a + ": mean=" + fmt.fixed3(ra.meanSimilarity) + ", min=" + fmt.fixed3(ra.minSimilarity) + "; "
      + b + ": mean=" + fmt.fixed3(rb.meanSimilarity) + ", min=" + fmt.fixed3(rb.minSimilarity) + "."
  }

  /** Build the anomaly record from the collected runs: fail with fewer than
      two providers, otherwise compare the first two, classify, and assemble
      the record stamped with the given time. */
  function BuildRecord(sim: SimilarityMeasure, table: RunTable, settings: ProbeSettings,
                       timestamp: string, fmt: NumberFormat): (r: Result<AnomalyCard>)
    requires table.Valid()
    ensures r.Err? <==> |table.names| < 2
    ensures r.Err? ==> r.message == TooFewProviders
    ensures r.Ok? ==>
      var a, b := table.names[0], table.names[1];
      var cross := CrossScore(sim, table.runs[a].responses, table.runs[b].responses);
      && r.value.id == Upper(a) + "-vs-" + Upper(b) + "-DIVERGENCE"
      && r.value.description == Describe(settings, fmt, cross, a, table.runs[a], b, table.runs[b])
      && r.value.severity == StoredSeverity(Classify(cross, table.runs, settings.threshold)).Label()
      && r.value.timestamp == timestamp
      && r.value.meta.providers == table.names
      && r.value.meta.crossSimilarity == cross
      && r.value.meta.samples.Keys == {a, b}
      && r.value.meta.samples[a] <= table.runs[a].responses
      && |r.value.meta.samples[a]| == SampleSize(|table.runs[a].responses|)
      && r.value.meta.samples[b] <= table.runs[b].responses
      && |r.value.meta.samples[b]| == SampleSize(|table.runs[b].responses|)
      && r.value.meta.within.Keys == {a, b}
      && r.value.meta.within[a] == Consistency(table.runs[a].meanSimilarity, table.runs[a].minSimilarity)
      && r.value.meta.within[b] == Consistency(table.runs[b].meanSimilarity, table.runs[b].minSimilarity)
      && r.value.meta.prompt == settings.prompt
      && r.value.meta.threshold == settings.threshold
      && r.value.meta.runs == settings.runs
      && r.value.meta.temperature == settings.temperature
  {
    if |table.names| < 2 then Err(TooFewProviders)
    else
      var a, b := table.names[0], table.names[1];
      assert a in table.runs && b in table.runs;
      var ra, rb := table.runs[a], table.runs[b];
      var cross := CrossScore(sim, ra.responses, rb.responses);
      var severity := Classify(cross, table.runs, settings.threshold);
      var meta := Meta(
        prompt := settings.prompt,
        threshold := settings.threshold,
        providers := table.names,
        runs := settings.runs,
        temperature := settings.temperature,
        samples := map[a := Samples(ra.responses), b := Samples(rb.responses)],
        crossSimilarity := cross,
        within := map[a := Consistency(ra.meanSimilarity, ra.minSimilarity),
                      b := Consistency(rb.meanSimilarity, rb.minSimilarity)]);
      Ok(AnomalyCard(
        id := DivergenceId(a, b),
        description := Describe(settings, fmt, cross, a, ra, b, rb),
        severity := StoredSeverity(severity).Label(),
        timestamp := timestamp,
        meta := meta))
  }

  /** A built record's severity is never "none": it is "high" exactly when
      the cross-provider score is below 0.60, "medium" exactly when it lies
      in [0.60, threshold), and "low" otherwise. */
  lemma RecordSeverity(sim: SimilarityMeasure, table: RunTable, settings: ProbeSettings,
                       timestamp: string, fmt: NumberFormat)
    requires table.Valid()
    requires |table.names| >= 2
    ensures
      var r := BuildRecord(sim, table, settings, timestamp, fmt).value;
      && r.severity != "none"
      && (r.severity == "high" <==> r.meta.crossSimilarity < HighDivergenceBound)
      && (r.severity == "medium" <==> HighDivergenceBound <= r.meta.crossSimilarity < settings.threshold)
      && (r.severity == "low" <==>
            HighDivergenceBound <= r.meta.crossSimilarity && settings.threshold <= r.meta.crossSimilarity)
  {
    var r := BuildRecord(sim, table, settings, timestamp, fmt).value;
    var s := Classify(r.meta.crossSimilarity, table.runs, settings.threshold);
    LabelsDistinct(StoredSeverity(s), High);
    LabelsDistinct(StoredSeverity(s), Medium);
    LabelsDistinct(StoredSeverity(s), Low);
    LabelsDistinct(StoredSeverity(s), None);
  }
}
