// packages/hr-intelligence/src/index.ts: the attrition score, over the reals.
module AttritionRisk {
  datatype InsightBand = LOW | MEDIUM | HIGH

  datatype Factor = Factor(name: string, weight: real)

  datatype Insight = Insight(score: real, band: InsightBand, factors: seq<Factor>)

  datatype Features = Features(
    tenureMonths: real, compPositionToBandMidpoint: real, monthsSincePromotion: real,
    engagementScoreTrend: real, absenceDaysLast90: real, managerChangesLast12Months: real)

  // ---------------------------------------------------------------- the model

  function Clamp(x: real): real {
    if x < 0.0 then 0.0 else if x > 1.0 then 1.0 else x
  }

  function TenureRisk(months: real): real {
    if months < 6.0 then 0.65 else if months < 18.0 then 0.35 else 0.1
  }

  function CompRisk(position: real): real {
    if position <= 0.0 then 0.35 else Clamp((1.0 - position) / 0.35)
  }

  function PromotionRisk(months: real): real {
    Clamp((months - 24.0) / 36.0)
  }

  function EngagementRisk(trend: real): real {
    if trend >= 0.0 then 0.0 else Clamp(-trend / 0.4)
  }

  function AbsenceRisk(days: real): real {
    Clamp(days / 12.0)
  }

  function ManagerChangeRisk(changes: real): real {
    Clamp(changes / 3.0)
  }

  function MakeFactor(name: string, weight: real): Factor {
    Factor(name, Clamp(weight))
  }

  function Factors(f: Features): seq<Factor> {
    [MakeFactor("Tenure risk", TenureRisk(f.tenureMonths)),
     MakeFactor("Compensation position", CompRisk(f.compPositionToBandMidpoint)),
     MakeFactor("Promotion recency", PromotionRisk(f.monthsSincePromotion)),
     MakeFactor("Engagement trend", EngagementRisk(f.engagementScoreTrend)),
     MakeFactor("Absence trend", AbsenceRisk(f.absenceDaysLast90)),
     MakeFactor("Manager changes", ManagerChangeRisk(f.managerChangesLast12Months))]
  }

  function WeightSum(fs: seq<Factor>): real {
    if fs == [] then 0.0 else WeightSum(fs[..|fs| - 1]) + fs[|fs| - 1].weight
  }

  /** `Math.round(x * 1000) / 1000`, halves up. */
  function Round(x: real): real {
    (x * 1000.0 + 0.5).Floor as real / 1000.0
  }

  function WeightedAverage(fs: seq<Factor>): real {
    if fs == [] then 0.0 else Round(WeightSum(fs) / |fs| as real)
  }

  function BandForScore(score: real): InsightBand {
    if score >= 0.66 then HIGH else if score >= 0.33 then MEDIUM else LOW
  }

  function Weighing(fs: seq<Factor>): seq<Factor> {
    if fs == [] then []
    else Weighing(fs[..|fs| - 1]) + (if fs[|fs| - 1].weight > 0.0 then [fs[|fs| - 1]] else [])
  }

  function Score(f: Features): Insight {
    var score := WeightedAverage(Factors(f));
    Insight(score, BandForScore(score), Weighing(Factors(f)))
  }

  // ---------------------------------------------------------------- sums and rounding

  lemma SixSum(fs: seq<Factor>)
    requires |fs| == 6
    ensures WeightSum(fs) == fs[0].weight + fs[1].weight + fs[2].weight + fs[3].weight + fs[4].weight + fs[5].weight
  {
    assert fs[..5][..4] == fs[..4] && fs[..4][..3] == fs[..3] && fs[..3][..2] == fs[..2] && fs[..2][..1] == fs[..1];
    assert fs[..1][..0] == [];
    assert WeightSum(fs[..1]) == fs[0].weight;
    assert WeightSum(fs[..3]) == fs[0].weight + fs[1].weight + fs[2].weight;
    assert WeightSum(fs[..5]) == fs[0].weight + fs[1].weight + fs[2].weight + fs[3].weight + fs[4].weight;
  }

  lemma {:induction false} SumBounds(fs: seq<Factor>, gs: seq<Factor>)
    requires |fs| == |gs| && forall i :: 0 <= i < |fs| ==> fs[i].weight <= gs[i].weight
    ensures WeightSum(fs) <= WeightSum(gs)
    decreases |fs|
  {
    if fs != [] {
      SumBounds(fs[..|fs| - 1], gs[..|gs| - 1]);
    }
  }

  lemma {:induction false} WeighingSum(fs: seq<Factor>)
    requires forall i :: 0 <= i < |fs| ==> fs[i].weight >= 0.0
    ensures WeightSum(Weighing(fs)) == WeightSum(fs)
    decreases |fs|
  {
    if fs != [] {
      var before, kept := fs[..|fs| - 1], Weighing(fs[..|fs| - 1]);
      WeighingSum(before);
      assert (kept + [fs[|fs| - 1]])[..|kept|] == kept;
      assert kept + [] == kept;
    }
  }

  lemma RoundMonotone(x: real, y: real)
    requires x <= y
    ensures Round(x) <= Round(y)
  {
    assert (x * 1000.0 + 0.5).Floor <= (y * 1000.0 + 0.5).Floor;
  }

  lemma RoundNear(x: real)
    ensures x - 0.0005 <= Round(x) <= x + 0.0005
  {
  }

  lemma ScoreIsRoundedMean(f: Features)
    ensures Score(f).score == Round(WeightSum(Factors(f)) / 6.0)
  {
  }

  // ---------------------------------------------------------------- bounds

  /** The weights of a person nothing speaks against, and of one everything speaks against. */
  function Flat(tenure: real, others: real): seq<Factor> {
    var other := Factor("", others);
    [Factor("", tenure), other, other, other, other, other]
  }

  lemma FlatSum(tenure: real, others: real)
    ensures WeightSum(Flat(tenure, others)) == tenure + 5.0 * others
  {
    SixSum(Flat(tenure, others));
  }

  /** The score lies in [0.017, 0.942] for every input. */
  lemma ScoreBounds(f: Features)
    ensures 0.017 <= Score(f).score <= 0.942
  {
    var fs := Factors(f);
    FlatSum(0.1, 0.0);
    FlatSum(0.65, 1.0);
    SumBounds(Flat(0.1, 0.0), fs);
    SumBounds(fs, Flat(0.65, 1.0));
    ScoreIsRoundedMean(f);
    RoundMonotone(0.1 / 6.0, WeightSum(fs) / 6.0);
    RoundMonotone(WeightSum(fs) / 6.0, 5.65 / 6.0);
  }

  /** Both ends of the range are reached. */
  lemma BoundsReached()
    ensures Score(Features(24.0, 1.0, 0.0, 0.0, 0.0, 0.0)).score == 0.017
    ensures Score(Features(5.9, 0.65, 60.0, -0.4, 12.0, 3.0)).score == 0.942
  {
    var calm, risky := Features(24.0, 1.0, 0.0, 0.0, 0.0, 0.0), Features(5.9, 0.65, 60.0, -0.4, 12.0, 3.0);
    FlatSum(0.1, 0.0);
    FlatSum(0.65, 1.0);
    SumBounds(Flat(0.1, 0.0), Factors(calm));
    SumBounds(Factors(calm), Flat(0.1, 0.0));
    SumBounds(Flat(0.65, 1.0), Factors(risky));
    SumBounds(Factors(risky), Flat(0.65, 1.0));
    ScoreIsRoundedMean(calm);
    ScoreIsRoundedMean(risky);
  }

  /** Where each weight starts and where it is exhausted. */
  lemma WeightsSaturateIff(f: Features)
    ensures var w := Factors(f);
            && (w[0].weight == 0.65 <==> f.tenureMonths < 6.0) && (w[0].weight == 0.1 <==> f.tenureMonths >= 18.0)
            && (w[0].weight == 0.35 <==> 6.0 <= f.tenureMonths < 18.0)
            && (w[1].weight == 0.0 <==> f.compPositionToBandMidpoint >= 1.0)
            && (w[1].weight == 1.0 <==> 0.0 < f.compPositionToBandMidpoint <= 0.65)
            && (w[2].weight == 0.0 <==> f.monthsSincePromotion <= 24.0)
            && (w[2].weight == 1.0 <==> f.monthsSincePromotion >= 60.0)
            && (w[3].weight == 0.0 <==> f.engagementScoreTrend >= 0.0)
            && (w[3].weight == 1.0 <==> f.engagementScoreTrend <= -0.4)
            && (w[4].weight == 0.0 <==> f.absenceDaysLast90 <= 0.0)
            && (w[4].weight == 1.0 <==> f.absenceDaysLast90 >= 12.0)
            && (w[5].weight == 0.0 <==> f.managerChangesLast12Months <= 0.0)
            && (w[5].weight == 1.0 <==> f.managerChangesLast12Months >= 3.0)
  {
  }

  /** Where the bands begin, in terms of the sum of the weights, rounding included. */
  lemma BandIff(f: Features)
    ensures Score(f).band == HIGH <==> WeightSum(Factors(f)) >= 3.957
    ensures Score(f).band == LOW <==> WeightSum(Factors(f)) < 1.977
  {
    ScoreIsRoundedMean(f);
  }

  // ---------------------------------------------------------------- monotonicity

  /** g is at least as exposed as f in everything but compensation, which is the same. */
  predicate MoreExposed(f: Features, g: Features) {
    && g.tenureMonths <= f.tenureMonths
    && g.compPositionToBandMidpoint == f.compPositionToBandMidpoint
    && g.monthsSincePromotion >= f.monthsSincePromotion
    && g.engagementScoreTrend <= f.engagementScoreTrend
    && g.absenceDaysLast90 >= f.absenceDaysLast90
    && g.managerChangesLast12Months >= f.managerChangesLast12Months
  }

  predicate NotBelow(high: InsightBand, low: InsightBand) {
    low.LOW? || high.HIGH? || (low.MEDIUM? && high.MEDIUM?)
  }

  lemma WeightsOrderScores(f: Features, g: Features)
    requires forall i :: 0 <= i < 6 ==> Factors(f)[i].weight <= Factors(g)[i].weight
    ensures Score(f).score <= Score(g).score && NotBelow(Score(g).band, Score(f).band)
  {
    SumBounds(Factors(f), Factors(g));
    ScoreIsRoundedMean(f);
    ScoreIsRoundedMean(g);
    RoundMonotone(WeightSum(Factors(f)) / 6.0, WeightSum(Factors(g)) / 6.0);
  }

  /** Shorter tenure, a worse engagement trend, a longer time since promotion, more absence or
      more manager changes never lower the score or the band. */
  lemma ScoreMonotone(f: Features, g: Features)
    requires MoreExposed(f, g)
    ensures Score(f).score <= Score(g).score && NotBelow(Score(g).band, Score(f).band)
  {
    WeightsOrderScores(f, g);
  }

  /** Compensation is the exception: raising the position never raises its weight, exactly
      unless it is raised from zero or below to strictly between 0 and 0.8775. */
  lemma CompMonotoneIff(low: real, high: real)
    requires low <= high
    ensures CompRisk(high) <= CompRisk(low) <==> low > 0.0 || high <= 0.0 || high >= 0.8775
  {
  }

  /** ... and then the score and band never rise either. */
  lemma CompScoreMonotone(f: Features, high: real)
    requires f.compPositionToBandMidpoint <= high
    requires f.compPositionToBandMidpoint > 0.0 || high <= 0.0 || high >= 0.8775
    ensures var g := f.(compPositionToBandMidpoint := high);
            Score(g).score <= Score(f).score && NotBelow(Score(f).band, Score(g).band)
  {
    CompMonotoneIff(f.compPositionToBandMidpoint, high);
    WeightsOrderScores(f.(compPositionToBandMidpoint := high), f);
  }

  /** Absence that puts the sum of the weights at `high` on a rounding edge. */
  function OnTheEdge(low: real, high: real): Features {
    Features(24.0, low, 0.0, 0.0, 12.0 * (1.001 - CompRisk(high)), 0.0)
  }

  lemma CompScoreRises(low: real, high: real)
    requires low <= 0.0 < high < 0.8775
    ensures var f := OnTheEdge(low, high);
            Score(f).score < 0.184 == Score(f.(compPositionToBandMidpoint := high)).score
  {
    var f := OnTheEdge(low, high);
    var g := f.(compPositionToBandMidpoint := high);
    CompMonotoneIff(low, high);
    SixSum(Factors(f));
    SixSum(Factors(g));
    ScoreIsRoundedMean(f);
    ScoreIsRoundedMean(g);
    assert WeightSum(Factors(g)) == 1.101 && WeightSum(Factors(f)) < 1.101;
    assert (WeightSum(Factors(f)) / 6.0 * 1000.0 + 0.5).Floor <= 183;
  }

  /** Whatever the other features are, raising the position does not raise the score: exactly
      under the condition for the weight. For every other raise some person's score crosses a
      rounding edge. */
  lemma CompScoreMonotoneIff(low: real, high: real)
    requires low <= high
    ensures (forall f: Features :: f.compPositionToBandMidpoint == low ==>
               Score(f.(compPositionToBandMidpoint := high)).score <= Score(f).score)
            <==> low > 0.0 || high <= 0.0 || high >= 0.8775
  {
    hide Score;
    if low > 0.0 || high <= 0.0 || high >= 0.8775 {
      forall f: Features | f.compPositionToBandMidpoint == low
        ensures Score(f.(compPositionToBandMidpoint := high)).score <= Score(f).score
      {
        CompScoreMonotone(f, high);
      }
    } else {
      CompScoreRises(low, high);
      assert OnTheEdge(low, high).compPositionToBandMidpoint == low;
    }
  }

  /** A position of zero, which scores as unknown, raised to a tenth of the midpoint raises the
      score. */
  lemma CompScoreNotMonotone()
    ensures var f := Features(24.0, 0.0, 0.0, 0.0, 0.0, 0.0);
            Score(f).score < Score(f.(compPositionToBandMidpoint := 0.1)).score
  {
    var f := Features(24.0, 0.0, 0.0, 0.0, 0.0, 0.0);
    var g := f.(compPositionToBandMidpoint := 0.1);
    SixSum(Factors(f));
    SixSum(Factors(g));
    ScoreIsRoundedMean(f);
    ScoreIsRoundedMean(g);
  }

  // ---------------------------------------------------------------- explanation

  /** The returned factors explain the score: six times the score is within 0.003 of the sum of
      their weights, although factors without weight are dropped. */
  lemma FactorsExplainScore(f: Features)
    ensures var r := Score(f);
            WeightSum(r.factors) - 0.003 <= 6.0 * r.score <= WeightSum(r.factors) + 0.003
    ensures forall x :: x in Score(f).factors <==> x in Factors(f) && x.weight > 0.0
  {
    WeighingSum(Factors(f));
    ScoreIsRoundedMean(f);
    RoundNear(WeightSum(Factors(f)) / 6.0);
    forall x ensures x in Score(f).factors <==> x in Factors(f) && x.weight > 0.0 {
      WeighingMembers(Factors(f), x);
    }
  }

  lemma {:induction false} WeighingMembers(fs: seq<Factor>, x: Factor)
    ensures x in Weighing(fs) <==> x in fs && x.weight > 0.0
    decreases |fs|
  {
    if fs != [] {
      WeighingMembers(fs[..|fs| - 1], x);
      assert x in fs <==> x in fs[..|fs| - 1] || x == fs[|fs| - 1];
    }
  }
}
