/**
  * The collateralised-loan position shared by `Vault` and `Trove`, as a value:
  * its fields, its invariant, and the effect of each of its operations.
  * The classes in vault.dfy and trove.dfy are proved to follow these functions.
  */
module Positions {
  import opened Outcomes

  datatype Position = Position(
    latestCollPrice: real,   // the last price seen; used to value collateral in resizes
    collAmount: real,        // `coll_balance` of a Vault, `coll_amount` of a Trove
    collValue: real,
    loanValue: real,
    liquidated: bool,
    liquidatedValue: real,
    liquidationBuffer: real,
    volatilityBuffer: real,  // `coll_surplus` of a Trove
    minCollRatio: real)

  /** The state after an operation, and the exception it raised, if any. */
  datatype Step = Step(next: Position, failure: Option<Error>)

  /** An active position whose collateral value covers the minimum ratio of its loan. */
  predicate Solvent(collValue: real, minCollRatio: real, loanValue: real) {
    collValue >= minCollRatio * loanValue
  }

  /** The position invariant: the derived fields agree with the primary ones. */
  predicate Valid(s: Position) {
    && s.minCollRatio > 1.0
    && s.latestCollPrice >= 0.0
    && s.collAmount >= 0.0
    && s.loanValue >= 0.0
    && s.collValue == s.collAmount * s.latestCollPrice
    && if s.liquidated then
         && s.collAmount == 0.0
         && s.collValue == 0.0
         && s.liquidationBuffer == 0.0
         && s.volatilityBuffer == 0.0
       else
         && s.liquidatedValue == 0.0
         && Solvent(s.collValue, s.minCollRatio, s.loanValue)
         && s.liquidationBuffer == s.collValue / s.minCollRatio - s.loanValue
         && s.volatilityBuffer == s.collValue - s.liquidationBuffer - s.loanValue
  }

  /** Every valid position has a minimum collateral ratio above 1, so dividing by it is defined. */
  lemma RatioAboveOne(s: Position)
    requires Valid(s)
    ensures s.minCollRatio > 1.0
  {
  }

  /** The invariant of an active position, clause by clause, for proofs that keep `Valid` folded. */
  lemma ActiveInvariant(s: Position)
    requires Valid(s) && !s.liquidated
    ensures s.minCollRatio > 1.0 && s.latestCollPrice >= 0.0 && s.collAmount >= 0.0 && s.loanValue >= 0.0
    ensures s.collValue == s.collAmount * s.latestCollPrice
    ensures Solvent(s.collValue, s.minCollRatio, s.loanValue)
    ensures s.liquidationBuffer == s.collValue / s.minCollRatio - s.loanValue
    ensures s.volatilityBuffer == s.collValue - s.liquidationBuffer - s.loanValue
  {
  }

  /** Construction: validates the arguments, then computes both buffers. */
  function Create(collPrice: real, collAmount: real, minCollRatio: real, loanValue: real): (r: Result<Position>)
    ensures r.Success? <==>
      collPrice >= 0.0 && collAmount >= 0.0 && loanValue >= 0.0 && minCollRatio > 1.0
      && collPrice * collAmount >= minCollRatio * loanValue
    ensures collPrice < 0.0 || collAmount < 0.0 || loanValue < 0.0 ==> r == Failure(NegativeNumber)
    ensures collPrice >= 0.0 && collAmount >= 0.0 && loanValue >= 0.0 && minCollRatio <= 1.0 ==>
      r == Failure(RatioNotAboveOne)
    ensures collPrice >= 0.0 && collAmount >= 0.0 && loanValue >= 0.0 && minCollRatio > 1.0 && r.Failure? ==>
      r == Failure(RatioViolated)
    ensures r.Success? ==>
      && Valid(r.value)
      && !r.value.liquidated
      && r.value.latestCollPrice == collPrice
      && r.value.collAmount == collAmount
      && r.value.loanValue == loanValue
      && r.value.minCollRatio == minCollRatio
  {
    if collPrice < 0.0 || collAmount < 0.0 || loanValue < 0.0 then Failure(NegativeNumber)
    else if minCollRatio <= 1.0 then Failure(RatioNotAboveOne)
    else
      var collValue := collPrice * collAmount;
      if collValue < minCollRatio * loanValue then Failure(RatioViolated)
      else
        var liquidationBuffer := collValue / minCollRatio - loanValue;
        Success(Position(collPrice, collAmount, collValue, loanValue, false, 0.0,
                         liquidationBuffer, collValue - liquidationBuffer - loanValue, minCollRatio))
  }

  /** The private liquidation step: zero the collateral and both buffers, record the shortfall. */
  function Liquidate(s: Position, updatedCollValue: real): Position {
    s.(collAmount := 0.0, collValue := 0.0, liquidated := true,
       liquidatedValue := updatedCollValue - s.loanValue,
       liquidationBuffer := 0.0, volatilityBuffer := 0.0)
  }

  /** A price update: revalues the collateral, or liquidates if the ratio is breached. */
  function UpdateCollPrice(s: Position, collPrice: real): (r: Step)
    requires Valid(s)
    ensures Valid(r.next)
    ensures r.next.minCollRatio == s.minCollRatio && r.next.loanValue == s.loanValue
    ensures collPrice < 0.0 ==> r == Step(s, Some(NegativePrice))
    ensures collPrice >= 0.0 ==> r.failure == None
    ensures s.liquidated ==> r.next == s
    ensures !s.liquidated && collPrice >= 0.0 ==>
      && r.next.latestCollPrice == collPrice
      && (r.next.liquidated <==> s.collAmount * collPrice < s.minCollRatio * s.loanValue)
    ensures !s.liquidated && r.next.liquidated ==>
      && r.next.collAmount == 0.0
      && r.next.liquidatedValue == s.collAmount * collPrice - s.loanValue
    ensures !r.next.liquidated ==> r.next.collAmount == s.collAmount
  {
    if collPrice < 0.0 then Step(s, Some(NegativePrice))
    else if s.liquidated then Step(s, None)
    else
      var updatedCollValue := s.collAmount * collPrice;
      var priced := s.(latestCollPrice := collPrice);
      if updatedCollValue >= s.minCollRatio * s.loanValue then
        var liquidationBuffer := updatedCollValue / s.minCollRatio - s.loanValue;
        Step(priced.(collValue := updatedCollValue,
                     liquidationBuffer := liquidationBuffer,
                     volatilityBuffer := updatedCollValue - liquidationBuffer - s.loanValue), None)
      else
        Step(Liquidate(priced, updatedCollValue), None)
  }

  /** Whether a resize by these deltas passes both the sign test and the ratio test. */
  predicate Accepts(s: Position, deltaColl: real, deltaLoan: real) {
    && s.collAmount + deltaColl >= 0.0
    && s.loanValue + deltaLoan >= 0.0
    && Solvent((s.collAmount + deltaColl) * s.latestCollPrice, s.minCollRatio, s.loanValue + deltaLoan)
  }

  /**
    * A loan/collateral resize: raises if an amount would go negative, commits if the new
    * amounts meet the ratio at the last price seen, and otherwise silently does nothing.
    */
  function UpdateLoan(s: Position, deltaColl: real, deltaLoan: real): (r: Step)
    requires Valid(s)
    ensures Valid(r.next)
    ensures r.next.minCollRatio == s.minCollRatio && r.next.latestCollPrice == s.latestCollPrice
    ensures r.next.liquidated == s.liquidated
    ensures s.liquidated ==> r == Step(s, None)
    ensures !s.liquidated ==>
      (r.failure == Some(OverExtraction) <==> s.collAmount + deltaColl < 0.0 || s.loanValue + deltaLoan < 0.0)
    ensures r.failure == None || r.failure == Some(OverExtraction)
    ensures r.failure != None ==> r.next == s
  {
    if s.liquidated then Step(s, None) else Resize(s, s.collAmount + deltaColl, s.loanValue + deltaLoan)
  }

  /** The resize of an active position to the given collateral amount and loan value. */
  function Resize(s: Position, updatedCollAmount: real, updatedLoanValue: real): Step
    requires s.minCollRatio > 1.0
  {
    if updatedCollAmount < 0.0 || updatedLoanValue < 0.0 then Step(s, Some(OverExtraction))
    else
      var updatedCollValue := updatedCollAmount * s.latestCollPrice;
      if updatedCollValue >= s.minCollRatio * updatedLoanValue then
        var liquidationBuffer := updatedCollValue / s.minCollRatio - updatedLoanValue;
        Step(s.(collAmount := updatedCollAmount, loanValue := updatedLoanValue,
                collValue := updatedCollValue, liquidationBuffer := liquidationBuffer,
                volatilityBuffer := updatedCollValue - liquidationBuffer - updatedLoanValue), None)
      else
        Step(s, None)
  }

  /**
    * A resize commits exactly the requested deltas when it passes both tests, and otherwise
    * leaves every field as it was, whether it raised or was silently refused.
    */
  lemma UpdateLoanCommitsOrRefuses(s: Position, deltaColl: real, deltaLoan: real)
    requires Valid(s) && !s.liquidated
    ensures var r := UpdateLoan(s, deltaColl, deltaLoan);
      && (Accepts(s, deltaColl, deltaLoan) ==>
            && r.failure == None
            && r.next.collAmount == s.collAmount + deltaColl
            && r.next.loanValue == s.loanValue + deltaLoan
            && r.next.collValue == (s.collAmount + deltaColl) * s.latestCollPrice)
      && (!Accepts(s, deltaColl, deltaLoan) ==> r.next == s)
  {
  }

  /** A call a driver can make on a position. */
  datatype Event = PriceUpdate(collPrice: real) | LoanUpdate(deltaColl: real, deltaLoan: real)

  function Apply(s: Position, e: Event): (r: Step)
    requires Valid(s)
    ensures Valid(r.next) && r.next.minCollRatio == s.minCollRatio
    ensures s.liquidated ==> r.next == s
  {
    match e
    case PriceUpdate(p) => UpdateCollPrice(s, p)
    case LoanUpdate(dc, dl) => UpdateLoan(s, dc, dl)
  }

  /**
    * A position's lifetime under a sequence of calls; a call that raises leaves the
    * position as it was, and the next call sees that state.
    */
  function Run(s: Position, events: seq<Event>): (r: Position)
    requires Valid(s)
    ensures Valid(r)
    ensures r.minCollRatio == s.minCollRatio
    ensures s.liquidated ==> r.liquidated
    decreases |events|
  {
    if events == [] then s else Run(Apply(s, events[0]).next, events[1..])
  }

  /** A liquidated position is inert: no sequence of calls changes any of its fields. */
  lemma {:induction false} LiquidatedIsTerminal(s: Position, events: seq<Event>)
    requires Valid(s) && s.liquidated
    ensures Run(s, events) == s
    decreases |events|
  {
    if events != [] {
      LiquidatedIsTerminal(Apply(s, events[0]).next, events[1..]);
    }
  }

  /** While active, the buffers decompose the collateral value and the liquidation buffer is never negative. */
  lemma SolventBuffers(s: Position)
    requires Valid(s) && !s.liquidated
    ensures s.collValue >= s.minCollRatio * s.loanValue
    ensures s.liquidationBuffer >= 0.0
    ensures s.liquidationBuffer + s.volatilityBuffer + s.loanValue == s.collValue
    ensures s.volatilityBuffer * s.minCollRatio == s.collValue * (s.minCollRatio - 1.0)
    ensures s.volatilityBuffer >= s.loanValue * (s.minCollRatio - 1.0)
  {
    var m, c, l := s.minCollRatio, s.collValue, s.loanValue;
    var q := c / m;
    assert q * m == c;
    assert q >= l by {
      assert (q - l) * m == c - m * l;
    }
    assert s.volatilityBuffer == c - q;
    calc {
      s.volatilityBuffer * m;
      (c - q) * m;
      c * m - q * m;
      c * (m - 1.0);
    }
    MulNonNegative(q - l, m - 1.0);
  }

  /** A product of non-negative reals is non-negative. */
  lemma MulNonNegative(x: real, y: real)
    requires x >= 0.0 && y >= 0.0
    ensures x * y >= 0.0
  {
  }

  /** A worked example: a collateral ratio of 2.0 falls to 1.0 < 1.5 and liquidates with no shortfall. */
  lemma LiquidationExample()
    ensures Create(2.0, 10.0, 1.5, 10.0).Success?
    ensures var r := UpdateCollPrice(Create(2.0, 10.0, 1.5, 10.0).value, 1.0);
      r.next.liquidated && r.next.liquidatedValue == 0.0 && r.next.collAmount == 0.0
    ensures Create(100.0, 1.0, 2.0, 60.0) == Failure(RatioViolated)
  {
    var s := Create(2.0, 10.0, 1.5, 10.0).value;
    assert s.collAmount == 10.0 && s.loanValue == 10.0 && s.minCollRatio == 1.5;
    assert 10.0 * 1.0 < 1.5 * 10.0;
  }
}
