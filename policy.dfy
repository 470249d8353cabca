/**
  * The seven position-management strategies shared by `Owner` (over a Vault) and
  * `Borrower` (over a Trove), as functions from a position to the step its calls to
  * `update_loan` produce. Random draws are inputs, recorded in `Draws`.
  */
module Policy {
  import opened Outcomes
  import opened Positions
  import opened Indicators
  import Sentiment

  datatype Strategy = Active | SentimentDriven | Passive | Random | SimpleColl | SimpleLoan | Traditional

  /** The uniform draws a strategy may make, supplied by the caller. */
  datatype Draws = Draws(
    activeShare: real,   // ACTIVE: share of the buffer imbalance to move, from [0, 1]
    bullishColl: real,   // SENTIMENT_DRIVEN, bullish: collateral factor, from [0, 1]
    bullishLoan: real,   // SENTIMENT_DRIVEN, bullish: loan factor, from [0.5, 0.95]
    bearishShare: real,  // SENTIMENT_DRIVEN, bearish: target buffer share, from [0.75, 1]
    act: bool,           // RANDOM: whether to act at all
    randomRatio: real,   // RANDOM: target buffer ratio, from [0, 0.8 / (min_coll_ratio - 1)]
    randomColl: real)    // RANDOM: collateral change as a share of the amount, from [-0.1, 0.1]

  /** The ranges the draws come from (the last bound multiplied out, for min_coll_ratio > 1). */
  predicate InRange(d: Draws, minCollRatio: real) {
    && 0.0 <= d.activeShare <= 1.0
    && 0.0 <= d.bullishColl <= 1.0
    && 0.5 <= d.bullishLoan <= 0.95
    && 0.75 <= d.bearishShare <= 1.0
    && 0.0 <= d.randomRatio && d.randomRatio * (minCollRatio - 1.0) <= 0.8
    && -0.1 <= d.randomColl <= 0.1
  }

  /**
    * The shared closed form of RANDOM and SENTIMENT_DRIVEN: the loan change that, after the
    * collateral change valued at `price`, leaves a liquidation buffer of `bufferRatio` times
    * the volatility buffer.
    */
  function TargetLoanDelta(s: Position, deltaColl: real, price: real, bufferRatio: real): real
    requires Valid(s)
  {
    ((1.0 - bufferRatio * (s.minCollRatio - 1.0)) / s.minCollRatio) * (s.collValue + deltaColl * price) - s.loanValue
  }

  /** ACTIVE's loan change: the drawn share of the imbalance between lb and vb/2. */
  function ActiveLoanDelta(s: Position, share: real): real {
    share * (s.liquidationBuffer - 0.5 * s.volatilityBuffer)
  }

  /** ACTIVE's collateral change: the amount worth 2m/(3 - m) times the new loan at `price`, net of the current amount. */
  function ActiveCollDelta(s: Position, price: real, deltaLoan: real): real
    requires s.minCollRatio != 3.0 && price != 0.0
  {
    ((2.0 * s.minCollRatio) / (3.0 - s.minCollRatio)) * ((s.loanValue + deltaLoan) / price) - s.collAmount
  }

  function ActiveStep(s: Position, indicators: Row, d: Draws): (r: Step)
    requires Valid(s) && !s.liquidated
    requires s.minCollRatio != 3.0 ==> indicators.collPrice != 0.0
    ensures Valid(r.next) && !r.next.liquidated && r.next.minCollRatio == s.minCollRatio
    ensures s.minCollRatio == 3.0 ==> r == Step(s, Some(DivisionByZero))
  {
    var deltaLoan := ActiveLoanDelta(s, d.activeShare);
    if s.minCollRatio == 3.0 then Step(s, Some(DivisionByZero))
    else UpdateLoan(s, ActiveCollDelta(s, indicators.collPrice, deltaLoan), deltaLoan)
  }

  /** The repayment the bearish branch requests. */
  function BearishLoanDelta(s: Position, share: real): real {
    s.liquidationBuffer - share * s.volatilityBuffer
  }

  /** The bullish branch's collateral change: the drawn amount scaled by the sentiment. */
  function BullishCollDelta(d: Draws, sentiment: real): real {
    d.bullishColl * sentiment
  }

  /** The bullish branch's buffer ratio: the drawn ratio scaled down as the sentiment grows. */
  function BullishRatio(d: Draws, sentiment: real): real {
    d.bullishLoan * (1.0 - sentiment)
  }

  function BullishStep(s: Position, indicators: Row, d: Draws, sentiment: real): (r: Step)
    requires Valid(s) && !s.liquidated
  {
    UpdateLoan(s, BullishCollDelta(d, sentiment),
               TargetLoanDelta(s, BullishCollDelta(d, sentiment), indicators.collPrice, BullishRatio(d, sentiment)))
  }

  function SentimentStep(s: Position, indicators: Row, d: Draws, sentiment: real): (r: Step)
    requires Valid(s) && !s.liquidated
    requires indicators.gap.Num? ==> Sentiment.IsSentimentOf(indicators.gap.value, sentiment)
    ensures Valid(r.next) && !r.next.liquidated && r.next.minCollRatio == s.minCollRatio
    ensures indicators.gap == Absent ==> r == Step(s, Some(MissingColumn))
    ensures indicators.gap == NaN || indicators.gap == Num(0.0) ==> r == Step(s, None)
    ensures (&& indicators.gap.Num?
             && !(sentiment > 0.0 && s.liquidationBuffer > 0.5 * s.volatilityBuffer)
             && !(sentiment < 0.0 && s.liquidationBuffer < 0.75 * s.volatilityBuffer))
            ==> r == Step(s, None)
  {
    match indicators.gap
    case Absent => Step(s, Some(MissingColumn))
    case NaN => Step(s, None)
    case Num(_) =>
      var bullish :=
        if sentiment > 0.0 && s.liquidationBuffer > 0.5 * s.volatilityBuffer
        then BullishStep(s, indicators, d, sentiment)
        else Step(s, None);
      var t := bullish.next;
      if bullish.failure != None then bullish
      else if sentiment < 0.0 && t.liquidationBuffer < 0.75 * t.volatilityBuffer
      then UpdateLoan(t, 0.0, BearishLoanDelta(t, d.bearishShare))
      else bullish
  }

  /** RANDOM's collateral change: the drawn fraction of the current amount. */
  function RandomCollDelta(s: Position, d: Draws): real {
    d.randomColl * s.collAmount
  }

  function RandomStep(s: Position, indicators: Row, d: Draws): (r: Step)
    requires Valid(s) && !s.liquidated
    ensures Valid(r.next) && !r.next.liquidated && r.next.minCollRatio == s.minCollRatio
    ensures !d.act ==> r == Step(s, None)
  {
    if !d.act then Step(s, None)
    else UpdateLoan(s, RandomCollDelta(s, d), TargetLoanDelta(s, RandomCollDelta(s, d), indicators.collPrice, d.randomRatio))
  }

  function SimpleCollStep(s: Position): (r: Step)
    requires Valid(s) && !s.liquidated
    ensures Valid(r.next) && !r.next.liquidated && r.next.minCollRatio == s.minCollRatio
    ensures 0.5 * s.volatilityBuffer <= s.liquidationBuffer <= s.volatilityBuffer ==> r == Step(s, None)
  {
    var first :=
      if s.liquidationBuffer < 0.5 * s.volatilityBuffer then UpdateLoan(s, 0.05 * s.collAmount, 0.0)
      else Step(s, None);
    var t := first.next;
    if first.failure != None then first
    else if t.liquidationBuffer > t.volatilityBuffer then UpdateLoan(t, -0.05 * t.collAmount, 0.0)
    else first
  }

  /** SIMPLE_LOAN's loan change: the imbalance between lb and vb/2. */
  function SimpleLoanDelta(s: Position): real {
    s.liquidationBuffer - 0.5 * s.volatilityBuffer
  }

  function SimpleLoanStep(s: Position): (r: Step)
    requires Valid(s) && !s.liquidated
    ensures Valid(r.next) && !r.next.liquidated && r.next.minCollRatio == s.minCollRatio
    ensures s.liquidationBuffer == 0.5 * s.volatilityBuffer ==> r == Step(s, None)
  {
    var first :=
      if s.liquidationBuffer < 0.5 * s.volatilityBuffer
      then UpdateLoan(s, 0.0, SimpleLoanDelta(s))
      else Step(s, None);
    var t := first.next;
    if first.failure != None then first
    else if t.liquidationBuffer > 0.5 * t.volatilityBuffer
    then UpdateLoan(t, 0.0, SimpleLoanDelta(t))
    else first
  }

  /** TRADITIONAL acts only when the liquidation buffer leaves [0.75, 1.25] times the volatility buffer. */
  predicate TraditionalFires(s: Position) {
    s.liquidationBuffer < 0.75 * s.volatilityBuffer || s.liquidationBuffer > 1.25 * s.volatilityBuffer
  }

  /** TRADITIONAL's collateral change: the amount worth m/(2 - m) times the loan at `price`, net of the current amount. */
  function TraditionalCollDelta(s: Position, price: real): real
    requires price * (2.0 - s.minCollRatio) != 0.0
  {
    (s.minCollRatio / (price * (2.0 - s.minCollRatio))) * s.loanValue - s.collAmount
  }

  function TraditionalStep(s: Position, indicators: Row): (r: Step)
    requires Valid(s) && !s.liquidated
    requires TraditionalFires(s) ==> indicators.collPrice * (2.0 - s.minCollRatio) != 0.0
    ensures Valid(r.next) && !r.next.liquidated && r.next.minCollRatio == s.minCollRatio
    ensures r.next.loanValue == s.loanValue
    ensures !TraditionalFires(s) ==> r == Step(s, None)
  {
    if TraditionalFires(s) then UpdateLoan(s, TraditionalCollDelta(s, indicators.collPrice), 0.0)
    else Step(s, None)
  }

  /** What a strategy needs of its inputs for its arithmetic to be defined. */
  predicate Admissible(strategy: Strategy, s: Position, indicators: Row, sentiment: real)
    requires Valid(s)
  {
    !s.liquidated ==>
      && (strategy == Active && s.minCollRatio != 3.0 ==> indicators.collPrice != 0.0)
      && (strategy == SentimentDriven && indicators.gap.Num? ==>
            Sentiment.IsSentimentOf(indicators.gap.value, sentiment))
      && (strategy == Traditional && TraditionalFires(s) ==>
            indicators.collPrice * (2.0 - s.minCollRatio) != 0.0)
  }

  /** One application of a strategy: nothing on a liquidated position, else the strategy's step. */
  function Modify(strategy: Strategy, s: Position, indicators: Row, d: Draws, sentiment: real): (r: Step)
    requires Valid(s) && Admissible(strategy, s, indicators, sentiment)
    ensures Valid(r.next)
    ensures r.next.minCollRatio == s.minCollRatio && r.next.latestCollPrice == s.latestCollPrice
    ensures r.next.liquidated == s.liquidated
    ensures s.liquidated || strategy == Passive ==> r == Step(s, None)
  {
    if s.liquidated then Step(s, None)
    else
      match strategy
      case Active => ActiveStep(s, indicators, d)
      case SentimentDriven => SentimentStep(s, indicators, d, sentiment)
      case Passive => Step(s, None)
      case Random => RandomStep(s, indicators, d)
      case SimpleColl => SimpleCollStep(s)
      case SimpleLoan => SimpleLoanStep(s)
      case Traditional => TraditionalStep(s, indicators)
  }
}

