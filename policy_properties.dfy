/**
  * What the strategies achieve, stated over the `Policy` steps. The targeting lemmas
  * presume, as the simulation driver arranges, that the indicator price is the
  * position's last price.
  */
module PolicyProperties {
  import opened Outcomes
  import opened Positions
  import opened Indicators
  import opened Policy
  import Sentiment

  // ---- real arithmetic the strategy formulas rely on ----

  lemma NonNegativeFactor(x: real, y: real)
    requires y > 0.0 && x * y >= 0.0
    ensures x >= 0.0
  {
  }

  /** The shared closed form leaves a non-negative, solvent loan at the target proportion. */
  lemma TargetAlgebra(a: real, dc: real, p: real, c: real, l: real, m: real, br: real, dl: real)
    requires m > 1.0 && p >= 0.0 && c == a * p && a + dc >= 0.0
    requires 0.0 <= br && br * (m - 1.0) <= 1.0
    requires dl == ((1.0 - br * (m - 1.0)) / m) * (c + dc * p) - l
    ensures l + dl >= 0.0
    ensures (a + dc) * p >= m * (l + dl)
    ensures (l + dl) * m == (1.0 - br * (m - 1.0)) * ((a + dc) * p)
  {
    var k := 1.0 - br * (m - 1.0);
    var v := (a + dc) * p;
    assert v == c + dc * p;
    MulNonNegative(a + dc, p);
    var f := k / m;
    assert f * m == k;
    assert l + dl == f * v;
    MulNonNegative(f, v);
    assert f * v * m == k * v;
    MulNonNegative(br * (m - 1.0), v);
    assert v - m * (f * v) == br * (m - 1.0) * v;
  }

  /** With a target proportion above the whole margin, the closed form asks for a negative loan. */
  lemma OverdrawAlgebra(a: real, dc: real, p: real, c: real, l: real, m: real, br: real, dl: real)
    requires m > 1.0 && c == a * p && (a + dc) * p > 0.0
    requires br * (m - 1.0) > 1.0
    requires dl == ((1.0 - br * (m - 1.0)) / m) * (c + dc * p) - l
    ensures l + dl < 0.0
  {
    var k := 1.0 - br * (m - 1.0);
    var v := (a + dc) * p;
    assert v == c + dc * p;
    var f := k / m;
    assert f * m == k;
    assert l + dl == f * v;
    assert f < 0.0;
    assert f * v < 0.0 * v;
  }

  /** ACTIVE's loan change keeps the loan non-negative when m < 3. */
  lemma ActiveLoanAlgebra(m: real, c: real, l: real, lb: real, vb: real, share: real, dl: real)
    requires 1.0 < m < 3.0 && c >= 0.0 && l >= 0.0
    requires lb == c / m - l && vb == c - lb - l
    requires 0.0 <= share <= 1.0 && dl == share * (lb - 0.5 * vb)
    ensures l + dl >= 0.0
  {
    var q := c / m;
    assert q * m == c;
    MulNonNegative(1.0 / m, c);
    assert lb - 0.5 * vb == q * (3.0 - m) / 2.0 - l;
    assert l + share * (lb - 0.5 * vb) == (1.0 - share) * l + share * (q * (3.0 - m) / 2.0);
    MulNonNegative(1.0 - share, l);
    MulNonNegative(q, 3.0 - m);
    MulNonNegative(share, q * (3.0 - m) / 2.0);
  }

  /** ACTIVE's collateral formula gives a non-negative amount at a ratio of 2m/(3 - m) >= m. */
  lemma ActiveCollAlgebra(m: real, p: real, loan: real, a: real, dc: real)
    requires 1.0 < m < 3.0 && p > 0.0 && loan >= 0.0
    requires dc == ((2.0 * m) / (3.0 - m)) * (loan / p) - a
    ensures a + dc >= 0.0
    ensures (a + dc) * p >= m * loan
    ensures loan * m == (1.0 - 0.5 * (m - 1.0)) * ((a + dc) * p)
  {
    var g := (2.0 * m) / (3.0 - m);
    assert g * (3.0 - m) == 2.0 * m;
    NonNegativeFactor(g, 3.0 - m);
    var u := loan / p;
    assert u * p == loan;
    NonNegativeFactor(u, p);
    MulNonNegative(g, u);
    var amount := g * u;
    assert a + dc == amount;
    assert amount * p == g * loan;
    assert (g * loan - m * loan) * (3.0 - m) == m * loan * (m - 1.0);
    MulNonNegative(m * loan, m - 1.0);
    NonNegativeFactor(g * loan - m * loan, 3.0 - m);
  }

  /** TRADITIONAL's formula gives a non-negative collateral amount at a ratio of m/(2 - m) >= m. */
  lemma TraditionalAlgebra(m: real, p: real, l: real, a: real, dc: real)
    requires 1.0 < m < 2.0 && p > 0.0 && l >= 0.0
    requires dc == (m / (p * (2.0 - m))) * l - a
    ensures a + dc >= 0.0
    ensures (a + dc) * p >= m * l
    ensures l * m == (1.0 - 1.0 * (m - 1.0)) * ((a + dc) * p)
  {
    var d := p * (2.0 - m);
    MulNonNegative(p, 2.0 - m);
    var g := m / d;
    assert g * d == m;
    MulNonNegative(m, 1.0 / d);
    assert g >= 0.0;
    MulNonNegative(g, l);
    var amount := g * l;
    assert a + dc == amount;
    assert amount * p * (2.0 - m) == m * l;
    assert (amount * p - m * l) * (2.0 - m) == m * l * (m - 1.0);
    MulNonNegative(m * l, m - 1.0);
    NonNegativeFactor(amount * p - m * l, 2.0 - m);
  }

  /**
    * Repaying lb - share*vb leaves a loan at proportion 1 - share*(m - 1) of the collateral
    * value: solvent when that proportion is non-negative, negative otherwise.
    */
  lemma RepayAlgebra(m: real, c: real, l: real, lb: real, vb: real, share: real)
    requires m > 1.0 && c >= 0.0 && lb == c / m - l && vb == c - lb - l && share >= 0.0
    ensures (l + (lb - share * vb)) * m == (1.0 - share * (m - 1.0)) * c
    ensures share * (m - 1.0) <= 1.0 ==> l + (lb - share * vb) >= 0.0 && c >= m * (l + (lb - share * vb))
    ensures share * (m - 1.0) > 1.0 && c > 0.0 ==> l + (lb - share * vb) < 0.0
  {
    var q := c / m;
    assert q * m == c;
    var k := 1.0 - share * (m - 1.0);
    assert l + (lb - share * vb) == k * q;
    MulNonNegative(1.0 / m, c);
    assert q >= 0.0;
    if k >= 0.0 {
      MulNonNegative(k, q);
      MulNonNegative(share * (m - 1.0), c);
      assert c - m * (k * q) == share * (m - 1.0) * c;
    } else if c > 0.0 {
      assert q > 0.0;
      assert k * q < 0.0 * q;
    }
  }

  // ---- properties of the position-level steps ----

  /**
    * An active position whose loan is (1 - b*(m - 1))/m of its collateral value has a
    * liquidation buffer of exactly b times its volatility buffer.
    */
  lemma LandsOnBufferRatio(s: Position, bufferRatio: real)
    requires Valid(s) && !s.liquidated
    requires s.loanValue * s.minCollRatio == (1.0 - bufferRatio * (s.minCollRatio - 1.0)) * s.collValue
    ensures s.liquidationBuffer == bufferRatio * s.volatilityBuffer
  {
    var m, c, l := s.minCollRatio, s.collValue, s.loanValue;
    var q := c / m;
    assert c == q * m;
    assert l * m == (1.0 - bufferRatio * (m - 1.0)) * q * m;
    assert l == (1.0 - bufferRatio * (m - 1.0)) * q;
    assert s.liquidationBuffer == bufferRatio * (m - 1.0) * q;
    assert s.volatilityBuffer == q * (m - 1.0);
  }

  /**
    * A resize that `Accepts` and leaves the loan at proportion (1 - b*(m - 1))/m of the new
    * collateral value commits and lands on buffer ratio b.
    */
  lemma CommitsOnRatio(s: Position, deltaColl: real, deltaLoan: real, bufferRatio: real)
    requires Valid(s) && !s.liquidated && Accepts(s, deltaColl, deltaLoan)
    requires (s.loanValue + deltaLoan) * s.minCollRatio
          == (1.0 - bufferRatio * (s.minCollRatio - 1.0)) * ((s.collAmount + deltaColl) * s.latestCollPrice)
    ensures var r := UpdateLoan(s, deltaColl, deltaLoan);
      && r.failure == None
      && r.next.collAmount == s.collAmount + deltaColl
      && r.next.loanValue == s.loanValue + deltaLoan
      && r.next.liquidationBuffer == bufferRatio * r.next.volatilityBuffer
  {
    hide *;
    UpdateLoanCommitsOrRefuses(s, deltaColl, deltaLoan);
    LandsOnBufferRatio(UpdateLoan(s, deltaColl, deltaLoan).next, bufferRatio);
  }

  /**
    * The shared closed form, for a target ratio b with 0 <= b*(m - 1) <= 1 and an affordable
    * collateral change, passes both tests and puts the loan at proportion (1 - b*(m - 1))/m.
    */
  lemma TargetProportion(s: Position, deltaColl: real, bufferRatio: real)
    requires Valid(s) && !s.liquidated
    requires 0.0 <= bufferRatio && bufferRatio * (s.minCollRatio - 1.0) <= 1.0
    requires s.collAmount + deltaColl >= 0.0
    ensures var deltaLoan := TargetLoanDelta(s, deltaColl, s.latestCollPrice, bufferRatio);
      && Accepts(s, deltaColl, deltaLoan)
      && (s.loanValue + deltaLoan) * s.minCollRatio
         == (1.0 - bufferRatio * (s.minCollRatio - 1.0)) * ((s.collAmount + deltaColl) * s.latestCollPrice)
  {
    hide Positions.Valid;
    ActiveInvariant(s);
    TargetAlgebra(s.collAmount, deltaColl, s.latestCollPrice, s.collValue, s.loanValue, s.minCollRatio, bufferRatio,
                  TargetLoanDelta(s, deltaColl, s.latestCollPrice, bufferRatio));
  }

  /**
    * The shared closed form of RANDOM and SENTIMENT_DRIVEN commits whenever the target ratio
    * leaves a non-negative loan and the collateral change is affordable, and then lands on
    * the target buffer ratio.
    */
  lemma TargetCommits(s: Position, deltaColl: real, bufferRatio: real)
    requires Valid(s) && !s.liquidated
    requires 0.0 <= bufferRatio && bufferRatio * (s.minCollRatio - 1.0) <= 1.0
    requires s.collAmount + deltaColl >= 0.0
    ensures var r := UpdateLoan(s, deltaColl, TargetLoanDelta(s, deltaColl, s.latestCollPrice, bufferRatio));
      && r.failure == None
      && r.next.collAmount == s.collAmount + deltaColl
      && r.next.liquidationBuffer == bufferRatio * r.next.volatilityBuffer
  {
    hide *;
    TargetProportion(s, deltaColl, bufferRatio);
    CommitsOnRatio(s, deltaColl, TargetLoanDelta(s, deltaColl, s.latestCollPrice, bufferRatio), bufferRatio);
  }

  /** When the target ratio asks for more than the whole margin, the closed form overdraws and raises. */
  lemma TargetOverdraws(s: Position, deltaColl: real, bufferRatio: real)
    requires Valid(s) && !s.liquidated
    requires bufferRatio * (s.minCollRatio - 1.0) > 1.0
    requires s.collAmount + deltaColl >= 0.0 && (s.collAmount + deltaColl) * s.latestCollPrice > 0.0
    ensures UpdateLoan(s, deltaColl, TargetLoanDelta(s, deltaColl, s.latestCollPrice, bufferRatio))
         == Step(s, Some(OverExtraction))
  {
    hide Positions.Valid;
    ActiveInvariant(s);
    OverdrawAlgebra(s.collAmount, deltaColl, s.latestCollPrice, s.collValue, s.loanValue, s.minCollRatio, bufferRatio,
                    TargetLoanDelta(s, deltaColl, s.latestCollPrice, bufferRatio));
  }

  // ---- the strategies ----

  /**
    * ACTIVE moves the loan by the drawn share of the imbalance lb - vb/2 and chooses the
    * collateral that makes the liquidation buffer exactly half the volatility buffer.
    */
  lemma ActiveTargetsHalfBuffer(s: Position, indicators: Row, d: Draws)
    requires Valid(s) && !s.liquidated
    requires s.minCollRatio < 3.0
    requires indicators.collPrice == s.latestCollPrice && s.latestCollPrice > 0.0
    requires 0.0 <= d.activeShare <= 1.0
    ensures var r := ActiveStep(s, indicators, d);
      && r.failure == None
      && r.next.loanValue == s.loanValue + ActiveLoanDelta(s, d.activeShare)
      && r.next.liquidationBuffer == 0.5 * r.next.volatilityBuffer
  {
    hide Positions.Valid, Positions.UpdateLoan, ActiveLoanDelta, ActiveCollDelta;
    var deltaLoan := ActiveLoanDelta(s, d.activeShare);
    ActiveProportion(s, d.activeShare);
    CommitsOnRatio(s, ActiveCollDelta(s, s.latestCollPrice, deltaLoan), deltaLoan, 0.5);
  }

  /** ACTIVE's two changes pass both tests and put the loan at the ratio 1/2 target. */
  lemma ActiveProportion(s: Position, share: real)
    requires Valid(s) && !s.liquidated
    requires s.minCollRatio < 3.0 && s.latestCollPrice > 0.0
    requires 0.0 <= share <= 1.0
    ensures var deltaLoan := ActiveLoanDelta(s, share);
      var deltaColl := ActiveCollDelta(s, s.latestCollPrice, deltaLoan);
      && Accepts(s, deltaColl, deltaLoan)
      && (s.loanValue + deltaLoan) * s.minCollRatio
         == (1.0 - 0.5 * (s.minCollRatio - 1.0)) * ((s.collAmount + deltaColl) * s.latestCollPrice)
  {
    hide Positions.Valid;
    ActiveInvariant(s);
    var m, p := s.minCollRatio, s.latestCollPrice;
    var deltaLoan := ActiveLoanDelta(s, share);
    ActiveLoanAlgebra(m, s.collValue, s.loanValue, s.liquidationBuffer, s.volatilityBuffer, share, deltaLoan);
    ActiveCollAlgebra(m, p, s.loanValue + deltaLoan, s.collAmount, ActiveCollDelta(s, p, deltaLoan));
  }

  /**
    * TRADITIONAL, when it fires, keeps the loan and resizes the collateral so that the
    * liquidation buffer equals the volatility buffer.
    */
  lemma TraditionalTargetsVolatilityBuffer(s: Position, indicators: Row)
    requires Valid(s) && !s.liquidated
    requires s.minCollRatio < 2.0
    requires indicators.collPrice == s.latestCollPrice && s.latestCollPrice > 0.0
    requires TraditionalFires(s)
    ensures var r := TraditionalStep(s, indicators);
      && r.failure == None
      && r.next.loanValue == s.loanValue
      && r.next.liquidationBuffer == r.next.volatilityBuffer
  {
    hide Positions.Valid, Positions.UpdateLoan, TraditionalCollDelta;
    TraditionalResizes(s);
    CommitsOnRatio(s, TraditionalCollDelta(s, s.latestCollPrice), 0.0, 1.0);
  }

  /** TRADITIONAL's collateral change is affordable and puts the loan at the ratio 1 target. */
  lemma TraditionalResizes(s: Position)
    requires Valid(s) && !s.liquidated
    requires s.minCollRatio < 2.0 && s.latestCollPrice > 0.0
    ensures var deltaColl := TraditionalCollDelta(s, s.latestCollPrice);
      && Accepts(s, deltaColl, 0.0)
      && (s.loanValue + 0.0) * s.minCollRatio
         == (1.0 - 1.0 * (s.minCollRatio - 1.0)) * ((s.collAmount + deltaColl) * s.latestCollPrice)
  {
    hide Positions.Valid;
    ActiveInvariant(s);
    TraditionalAlgebra(s.minCollRatio, s.latestCollPrice, s.loanValue, s.collAmount, TraditionalCollDelta(s, s.latestCollPrice));
  }

  /** Scaling an amount by a factor of at least -1 leaves it non-negative. */
  lemma ScaledAmountNonNegative(a: real, f: real)
    requires a >= 0.0 && f >= -1.0
    ensures a + f * a >= 0.0
  {
    MulNonNegative(1.0 + f, a);
  }

  /** RANDOM's draws give an affordable collateral change and a target ratio b with 0 <= b*(m - 1) <= 1. */
  lemma RandomDrawsFit(s: Position, d: Draws)
    requires Valid(s) && InRange(d, s.minCollRatio)
    ensures s.collAmount + RandomCollDelta(s, d) >= 0.0
    ensures 0.0 <= d.randomRatio && d.randomRatio * (s.minCollRatio - 1.0) <= 1.0
  {
    ScaledAmountNonNegative(s.collAmount, d.randomColl);
  }

  /**
    * RANDOM, when it acts, changes the collateral by the drawn share and lands on the drawn
    * buffer ratio; it never raises.
    */
  lemma RandomTargetsBufferRatio(s: Position, indicators: Row, d: Draws)
    requires Valid(s) && !s.liquidated
    requires indicators.collPrice == s.latestCollPrice
    requires InRange(d, s.minCollRatio) && d.act
    ensures var r := RandomStep(s, indicators, d);
      && r.failure == None
      && r.next.collAmount == s.collAmount + RandomCollDelta(s, d)
      && r.next.liquidationBuffer == d.randomRatio * r.next.volatilityBuffer
  {
    hide Positions.Valid, Positions.UpdateLoan, InRange, RandomCollDelta, TargetLoanDelta;
    RandomDrawsFit(s, d);
    TargetCommits(s, RandomCollDelta(s, d), d.randomRatio);
  }

  /** A positive sentiment makes the bullish collateral change and buffer ratio non-negative. */
  lemma BullishDrawsNonNegative(d: Draws, m: real, gap: real, sentiment: real)
    requires InRange(d, m) && Sentiment.IsSentimentOf(gap, sentiment) && sentiment > 0.0
    ensures BullishCollDelta(d, sentiment) >= 0.0 && BullishRatio(d, sentiment) >= 0.0
  {
    Sentiment.SentimentBounded(gap, sentiment);
    MulNonNegative(d.bullishColl, sentiment);
    MulNonNegative(d.bullishLoan, 1.0 - sentiment);
  }

  /**
    * Bullish SENTIMENT_DRIVEN adds collateral and, when its buffer ratio times (m - 1) is at
    * most 1, lands on that buffer ratio.
    */
  lemma BullishTargetsBufferRatio(s: Position, indicators: Row, d: Draws, sentiment: real)
    requires Valid(s) && !s.liquidated
    requires indicators.gap.Num? && Sentiment.IsSentimentOf(indicators.gap.value, sentiment)
    requires indicators.collPrice == s.latestCollPrice
    requires InRange(d, s.minCollRatio)
    requires sentiment > 0.0 && s.liquidationBuffer > 0.5 * s.volatilityBuffer
    requires BullishRatio(d, sentiment) * (s.minCollRatio - 1.0) <= 1.0
    ensures var r := SentimentStep(s, indicators, d, sentiment);
      && r.failure == None
      && r.next.collAmount == s.collAmount + BullishCollDelta(d, sentiment)
      && r.next.collAmount >= s.collAmount
      && r.next.liquidationBuffer == BullishRatio(d, sentiment) * r.next.volatilityBuffer
  {
    hide Positions.Valid, Positions.UpdateLoan, InRange, Sentiment.IsSentimentOf;
    hide BullishCollDelta, BullishRatio, TargetLoanDelta;
    BullishDrawsNonNegative(d, s.minCollRatio, indicators.gap.value, sentiment);
    AddedCollateralValue(s, BullishCollDelta(d, sentiment));
    TargetCommits(s, BullishCollDelta(d, sentiment), BullishRatio(d, sentiment));
  }

  /** A collateral change that keeps the amount non-negative, valued at the last price. */
  lemma AddedCollateralValue(s: Position, deltaColl: real)
    requires Valid(s) && deltaColl >= 0.0
    ensures s.collAmount + deltaColl >= 0.0
    ensures (s.collAmount + deltaColl) * s.latestCollPrice >= s.collValue
  {
    MulNonNegative(deltaColl, s.latestCollPrice);
    assert (s.collAmount + deltaColl) * s.latestCollPrice == s.collValue + deltaColl * s.latestCollPrice;
  }

  /**
    * Bullish SENTIMENT_DRIVEN raises instead when its buffer ratio times (m - 1) exceeds 1
    * on a position with collateral value: the target loan is then negative.
    */
  lemma BullishOverdrawRaises(s: Position, indicators: Row, d: Draws, sentiment: real)
    requires Valid(s) && !s.liquidated && s.collValue > 0.0
    requires indicators.gap.Num? && Sentiment.IsSentimentOf(indicators.gap.value, sentiment)
    requires indicators.collPrice == s.latestCollPrice
    requires InRange(d, s.minCollRatio)
    requires sentiment > 0.0 && s.liquidationBuffer > 0.5 * s.volatilityBuffer
    requires BullishRatio(d, sentiment) * (s.minCollRatio - 1.0) > 1.0
    ensures SentimentStep(s, indicators, d, sentiment) == Step(s, Some(OverExtraction))
  {
    hide Positions.Valid, Positions.UpdateLoan, InRange, Sentiment.IsSentimentOf;
    hide BullishCollDelta, BullishRatio, TargetLoanDelta;
    BullishDrawsNonNegative(d, s.minCollRatio, indicators.gap.value, sentiment);
    AddedCollateralValue(s, BullishCollDelta(d, sentiment));
    TargetOverdraws(s, BullishCollDelta(d, sentiment), BullishRatio(d, sentiment));
  }

  /** The bearish repayment is negative when lb < 3/4 vb and the drawn share is at least 3/4. */
  lemma RepayIsNegative(s: Position, share: real)
    requires Valid(s) && !s.liquidated
    requires share >= 0.75 && s.liquidationBuffer < 0.75 * s.volatilityBuffer
    ensures BearishLoanDelta(s, share) < 0.0
  {
    SolventBuffers(s);
    MulNonNegative(s.loanValue, s.minCollRatio - 1.0);
    MulNonNegative(share - 0.75, s.volatilityBuffer);
  }

  /**
    * Bearish SENTIMENT_DRIVEN, when it fires, only repays: the requested loan change is
    * negative, the collateral amount stays, and the loan never grows.
    */
  lemma BearishOnlyRepays(s: Position, indicators: Row, d: Draws, sentiment: real)
    requires Valid(s) && !s.liquidated
    requires indicators.gap.Num? && Sentiment.IsSentimentOf(indicators.gap.value, sentiment)
    requires InRange(d, s.minCollRatio)
    requires sentiment < 0.0 && s.liquidationBuffer < 0.75 * s.volatilityBuffer
    ensures BearishLoanDelta(s, d.bearishShare) < 0.0
    ensures var r := SentimentStep(s, indicators, d, sentiment);
      r.next.collAmount == s.collAmount && r.next.loanValue <= s.loanValue
  {
    hide Positions.Valid, Positions.UpdateLoan, SentimentStep, BearishLoanDelta, Sentiment.IsSentimentOf;
    BearishBranch(s, indicators, d, sentiment);
    RepayIsNegative(s, d.bearishShare);
    UpdateLoanCommitsOrRefuses(s, 0.0, BearishLoanDelta(s, d.bearishShare));
  }

  /** With a negative sentiment the bullish branch is skipped, and the bearish branch is the step. */
  lemma BearishBranch(s: Position, indicators: Row, d: Draws, sentiment: real)
    requires Valid(s) && !s.liquidated
    requires indicators.gap.Num? && Sentiment.IsSentimentOf(indicators.gap.value, sentiment)
    requires sentiment < 0.0 && s.liquidationBuffer < 0.75 * s.volatilityBuffer
    ensures SentimentStep(s, indicators, d, sentiment) == UpdateLoan(s, 0.0, BearishLoanDelta(s, d.bearishShare))
  {
  }

  /** Repaying lb - share*vb leaves the loan at proportion 1 - share*(m - 1) of the collateral value. */
  lemma RepayProportion(s: Position, share: real)
    requires Valid(s) && !s.liquidated && share >= 0.0
    ensures (s.loanValue + BearishLoanDelta(s, share)) * s.minCollRatio
         == (1.0 - share * (s.minCollRatio - 1.0)) * ((s.collAmount + 0.0) * s.latestCollPrice)
    ensures share * (s.minCollRatio - 1.0) <= 1.0 ==> Accepts(s, 0.0, BearishLoanDelta(s, share))
    ensures share * (s.minCollRatio - 1.0) > 1.0 && s.collValue > 0.0 ==> s.loanValue + BearishLoanDelta(s, share) < 0.0
  {
    RepayAlgebra(s.minCollRatio, s.collValue, s.loanValue, s.liquidationBuffer, s.volatilityBuffer, share);
    assert (s.collAmount + 0.0) * s.latestCollPrice == s.collValue;
  }

  /** Repaying lb - share*vb commits and lands on buffer ratio `share` when share*(m - 1) is at most 1. */
  lemma RepayCommits(s: Position, share: real)
    requires Valid(s) && !s.liquidated
    requires 0.0 <= share && share * (s.minCollRatio - 1.0) <= 1.0
    ensures var r := UpdateLoan(s, 0.0, BearishLoanDelta(s, share));
      r.failure == None && r.next.liquidationBuffer == share * r.next.volatilityBuffer
  {
    hide *;
    RepayProportion(s, share);
    CommitsOnRatio(s, 0.0, BearishLoanDelta(s, share), share);
  }

  /** Repaying lb - share*vb asks for a negative loan, and raises, when share*(m - 1) exceeds 1. */
  lemma RepayOverdraws(s: Position, share: real)
    requires Valid(s) && !s.liquidated && s.collValue > 0.0
    requires 0.0 <= share && share * (s.minCollRatio - 1.0) > 1.0
    ensures UpdateLoan(s, 0.0, BearishLoanDelta(s, share)) == Step(s, Some(OverExtraction))
  {
    hide *;
    RepayProportion(s, share);
  }

  /**
    * Bearish SENTIMENT_DRIVEN repays down to a liquidation buffer of the drawn share of the
    * volatility buffer when share*(m - 1) is at most 1, and raises when it exceeds 1.
    */
  lemma BearishTargetsDrawnShare(s: Position, indicators: Row, d: Draws, sentiment: real)
    requires Valid(s) && !s.liquidated
    requires indicators.gap.Num? && Sentiment.IsSentimentOf(indicators.gap.value, sentiment)
    requires InRange(d, s.minCollRatio)
    requires sentiment < 0.0 && s.liquidationBuffer < 0.75 * s.volatilityBuffer
    ensures var r := SentimentStep(s, indicators, d, sentiment);
      && (d.bearishShare * (s.minCollRatio - 1.0) <= 1.0 ==>
            r.failure == None && r.next.liquidationBuffer == d.bearishShare * r.next.volatilityBuffer)
      && (d.bearishShare * (s.minCollRatio - 1.0) > 1.0 && s.collValue > 0.0 ==>
            r == Step(s, Some(OverExtraction)))
  {
    hide Positions.Valid, Positions.UpdateLoan, SentimentStep, BearishLoanDelta, Sentiment.IsSentimentOf;
    BearishBranch(s, indicators, d, sentiment);
    if d.bearishShare * (s.minCollRatio - 1.0) <= 1.0 {
      RepayCommits(s, d.bearishShare);
    } else if s.collValue > 0.0 {
      RepayOverdraws(s, d.bearishShare);
    }
  }

  /** Adding 5% of the collateral always passes both tests. */
  lemma DepositCommits(s: Position)
    requires Valid(s) && !s.liquidated
    ensures var r := UpdateLoan(s, 0.05 * s.collAmount, 0.0);
      r.failure == None && r.next.collAmount == 1.05 * s.collAmount && r.next.loanValue == s.loanValue
  {
    assert (s.collAmount + 0.05 * s.collAmount) * s.latestCollPrice == 1.05 * s.collValue;
    MulNonNegative(0.05, s.collValue);
    assert Accepts(s, 0.05 * s.collAmount, 0.0);
    UpdateLoanCommitsOrRefuses(s, 0.05 * s.collAmount, 0.0);
  }

  /** Withdrawing 5% of the collateral never raises: it commits, or it is refused when the ratio would break. */
  lemma WithdrawalNeverRaises(s: Position)
    requires Valid(s) && !s.liquidated
    ensures var r := UpdateLoan(s, -0.05 * s.collAmount, 0.0);
      && r.failure == None && r.next.loanValue == s.loanValue
      && (r.next.collAmount == s.collAmount || r.next.collAmount == 0.95 * s.collAmount)
  {
    UpdateLoanCommitsOrRefuses(s, -0.05 * s.collAmount, 0.0);
  }

  /**
    * SIMPLE_COLL never raises and never changes the loan; the collateral amount ends up
    * unchanged, or changed by +5%, by -5%, or by both in turn.
    */
  lemma SimpleCollKeepsLoan(s: Position)
    requires Valid(s) && !s.liquidated
    ensures var r := SimpleCollStep(s);
      && r.failure == None
      && r.next.loanValue == s.loanValue
      && (r.next.collAmount == s.collAmount || r.next.collAmount == 1.05 * s.collAmount
          || r.next.collAmount == 0.95 * s.collAmount || r.next.collAmount == 0.95 * (1.05 * s.collAmount))
  {
    hide Positions.Valid, Positions.UpdateLoan;
    if s.liquidationBuffer < 0.5 * s.volatilityBuffer {
      DepositCommits(s);
    }
    var first :=
      if s.liquidationBuffer < 0.5 * s.volatilityBuffer then UpdateLoan(s, 0.05 * s.collAmount, 0.0)
      else Step(s, None);
    WithdrawalNeverRaises(first.next);
  }

  /**
    * With q = c/m, `lb < vb/2` reads `l > (1.5 - 0.5m)q`; for m >= 1.1 that already keeps
    * `lb <= vb` after the collateral value grows by 5%.
    */
  lemma DepositAlgebra(m: real, c: real, l: real, grown: real)
    requires m >= 1.1 && c >= 0.0 && grown == 1.05 * c
    requires c / m - l < 0.5 * (c - (c / m - l) - l)
    ensures grown / m - l <= grown - (grown / m - l) - l
  {
    var q := c / m;
    assert c == m * q;
    assert grown / m == 1.05 * q;
    assert q >= 0.0;
    MulNonNegative(q, 0.55 * m - 0.6);
  }

  /**
    * Below `lb = vb/2` SIMPLE_COLL's 5% deposit commits; for a ratio of at least 1.1 the
    * withdrawal cannot follow it, so the amount ends 5% higher.
    */
  lemma SimpleCollDeposits(s: Position)
    requires Valid(s) && !s.liquidated
    requires s.liquidationBuffer < 0.5 * s.volatilityBuffer
    ensures var r := SimpleCollStep(s);
      && (r.next.collAmount == 1.05 * s.collAmount || r.next.collAmount == 0.95 * (1.05 * s.collAmount))
      && (s.minCollRatio >= 1.1 ==> r.next.collAmount == 1.05 * s.collAmount)
  {
    hide Positions.Valid, Positions.UpdateLoan;
    DepositCommits(s);
    var t := UpdateLoan(s, 0.05 * s.collAmount, 0.0).next;
    WithdrawalNeverRaises(t);
    if s.minCollRatio >= 1.1 {
      DepositStaysInBand(s, t);
    }
  }

  /** After the deposit, a ratio of at least 1.1 keeps `lb <= vb`, so no withdrawal follows. */
  lemma DepositStaysInBand(s: Position, t: Position)
    requires Valid(s) && !s.liquidated && Valid(t) && !t.liquidated
    requires s.liquidationBuffer < 0.5 * s.volatilityBuffer && s.minCollRatio >= 1.1
    requires t.collAmount == 1.05 * s.collAmount && t.loanValue == s.loanValue
    requires t.latestCollPrice == s.latestCollPrice && t.minCollRatio == s.minCollRatio
    ensures t.liquidationBuffer <= t.volatilityBuffer
  {
    hide Positions.Valid;
    ActiveInvariant(s);
    ActiveInvariant(t);
    assert t.collValue == 1.05 * s.collValue by {
      assert t.collValue == (1.05 * s.collAmount) * s.latestCollPrice;
    }
    DepositAlgebra(s.minCollRatio, s.collValue, s.loanValue, t.collValue);
  }

  /**
    * Above `lb = vb` SIMPLE_COLL withdraws 5% of the collateral when the reduced collateral still
    * meets the ratio, and is refused, leaving the amount, otherwise.
    */
  lemma SimpleCollWithdraws(s: Position)
    requires Valid(s) && !s.liquidated
    requires s.liquidationBuffer > s.volatilityBuffer
    ensures var r := SimpleCollStep(s);
      r.next.collAmount == if 0.95 * s.collValue >= s.minCollRatio * s.loanValue
                           then 0.95 * s.collAmount else s.collAmount
  {
    hide Positions.Valid, Positions.UpdateLoan;
    ActiveInvariant(s);
    SolventBuffers(s);
    assert (s.collAmount + -0.05 * s.collAmount) * s.latestCollPrice == 0.95 * s.collValue;
    UpdateLoanCommitsOrRefuses(s, -0.05 * s.collAmount, 0.0);
  }

  /**
    * Above ratio 3 every live position with collateral value sits below `lb = vb/2`, and the
    * repayment to that target would leave a negative loan, so SIMPLE_LOAN raises.
    */
  lemma SimpleLoanAboveThree(s: Position)
    requires Valid(s) && !s.liquidated
    requires s.minCollRatio > 3.0 && s.collValue > 0.0
    ensures SimpleLoanStep(s) == Step(s, Some(OverExtraction))
  {
    SolventBuffers(s);
    RepayProportion(s, 0.5);
  }

  /**
    * SIMPLE_LOAN never changes the collateral amount. For a minimum ratio of at most 3 it
    * never raises; whenever it does not raise it leaves the liquidation buffer at exactly half
    * the volatility buffer, so its second branch cannot fire after its first has committed.
    */
  lemma SimpleLoanTargetsHalfBuffer(s: Position)
    requires Valid(s) && !s.liquidated
    ensures var r := SimpleLoanStep(s);
      && r.next.collAmount == s.collAmount
      && (s.minCollRatio <= 3.0 ==> r.failure == None)
      && (r.failure == None ==> r.next.liquidationBuffer == 0.5 * r.next.volatilityBuffer)
  {
    if s.minCollRatio > 3.0 {
      SimpleLoanLandsAboveThree(s);
      return;
    }
    assert SimpleLoanDelta(s) == BearishLoanDelta(s, 0.5);
    hide Positions.Valid, Positions.UpdateLoan, SimpleLoanDelta, BearishLoanDelta;
    UpdateLoanCommitsOrRefuses(s, 0.0, SimpleLoanDelta(s));
    if s.minCollRatio <= 3.0 {
      RepayCommits(s, 0.5);
    }
    var first :=
      if s.liquidationBuffer < 0.5 * s.volatilityBuffer then UpdateLoan(s, 0.0, SimpleLoanDelta(s))
      else Step(s, None);
    if first.failure == None {
      UpdateLoanCommitsOrRefuses(first.next, 0.0, SimpleLoanDelta(first.next));
    }
  }

  /** Above ratio 3 SIMPLE_LOAN raises, except on a position without collateral, where nothing moves. */
  lemma SimpleLoanLandsAboveThree(s: Position)
    requires Valid(s) && !s.liquidated && s.minCollRatio > 3.0
    ensures var r := SimpleLoanStep(s);
      && r.next.collAmount == s.collAmount
      && (r.failure == None ==> r.next.liquidationBuffer == 0.5 * r.next.volatilityBuffer)
  {
    hide Positions.Valid;
    ActiveInvariant(s);
    SolventBuffers(s);
    if s.collValue > 0.0 {
      SimpleLoanAboveThree(s);
    } else {
      assert s.loanValue == 0.0 && s.liquidationBuffer == 0.0 && s.volatilityBuffer == 0.0;
    }
  }
}
