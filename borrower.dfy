/**
  * The `Borrower` class: the `Owner` strategies applied to a `Trove`. The source reads the
  * trove's collateral amount and surplus under the vault's attribute names, which `Trove`
  * does not define; `Borrower` below reads the trove's own fields, and
  * `ModifyTroveAsWritten` records what the attribute lookups as written do.
  */
module Borrowers {
  import opened Outcomes
  import opened Positions
  import opened Indicators
  import opened Policy
  import opened Troves
  import Sentiment
  import PolicyProperties

  class Borrower {
    const strategy: Strategy   // private in the source, fixed at construction

    constructor (strategy: Strategy)
      ensures this.strategy == strategy
    {
      this.strategy := strategy;
    }

    /**
      * One round of the borrower's strategy on `trove`. `indicators` is the newest row of the
      * indicator table, `draws` the random numbers the strategy draws, and `sentiment` the
      * market sentiment of the row's gap.
      */
    method ModifyTrove(trove: Trove, indicators: Row, draws: Draws, sentiment: real) returns (failure: Option<Error>)
      requires trove.Valid() && Admissible(strategy, trove.State(), indicators, sentiment)
      modifies trove
      ensures trove.Valid()
      ensures Step(trove.State(), failure) == Modify(strategy, old(trove.State()), indicators, draws, sentiment)
    {
      failure := None;
      if !trove.liquidated {
        match strategy
        case Active => failure := ModifyViaActive(trove, indicators, draws);
        case SentimentDriven => failure := ModifyViaSentimentDriven(trove, indicators, draws, sentiment);
        case Passive => ModifyViaPassive();
        case Random => failure := ModifyViaRandom(trove, indicators, draws);
        case SimpleColl => failure := ModifyViaSimpleColl(trove);
        case SimpleLoan => failure := ModifyViaSimpleLoan(trove);
        case Traditional => failure := ModifyViaTraditional(trove, indicators);
      }
    }

    method ModifyViaActive(trove: Trove, indicators: Row, draws: Draws) returns (failure: Option<Error>)
      requires trove.Valid() && !trove.liquidated
      requires trove.minCollRatio != 3.0 ==> indicators.collPrice != 0.0
      modifies trove
      ensures trove.Valid()
      ensures Step(trove.State(), failure) == ActiveStep(old(trove.State()), indicators, draws)
    {
      var latestCollPrice := indicators.collPrice;
      var delta := trove.liquidationBuffer - 0.5 * trove.collSurplus;
      var deltaLoanValue := draws.activeShare * delta;
      assert deltaLoanValue == ActiveLoanDelta(trove.State(), draws.activeShare);
      if trove.minCollRatio == 3.0 {
        return Some(DivisionByZero);
      }
      var deltaCollBalance := ((2.0 * trove.minCollRatio) / (3.0 - trove.minCollRatio))
                              * ((trove.loanValue + deltaLoanValue) / latestCollPrice) - trove.collAmount;
      assert deltaCollBalance == ActiveCollDelta(trove.State(), latestCollPrice, deltaLoanValue);
      failure := trove.UpdateLoan(deltaCollBalance, deltaLoanValue);
    }

    method ModifyViaSentimentDriven(trove: Trove, indicators: Row, draws: Draws, sentiment: real)
      returns (failure: Option<Error>)
      requires trove.Valid() && !trove.liquidated
      requires indicators.gap.Num? ==> Sentiment.IsSentimentOf(indicators.gap.value, sentiment)
      modifies trove
      ensures trove.Valid()
      ensures Step(trove.State(), failure) == SentimentStep(old(trove.State()), indicators, draws, sentiment)
    {
      hide Positions.Valid, Positions.UpdateLoan;
      RatioAboveOne(trove.State());
      match indicators.gap
      case Absent => return Some(MissingColumn);
      case NaN => return None;  // every comparison with NaN is false
      case Num(_) =>
      ghost var s := trove.State();
      failure := None;
      if sentiment > 0.0 && trove.liquidationBuffer > 0.5 * trove.collSurplus {
        var deltaCollBalance := draws.bullishColl * sentiment;
        var bufferRatio := draws.bullishLoan * (1.0 - sentiment);
        var deltaLoanValue := ((1.0 - bufferRatio * (trove.minCollRatio - 1.0)) / trove.minCollRatio)
                              * (trove.collValue + deltaCollBalance * indicators.collPrice) - trove.loanValue;
        assert deltaCollBalance == BullishCollDelta(draws, sentiment);
        assert bufferRatio == BullishRatio(draws, sentiment);
        assert deltaLoanValue == TargetLoanDelta(s, BullishCollDelta(draws, sentiment), indicators.collPrice, BullishRatio(draws, sentiment)) by {
          assert s.minCollRatio == trove.minCollRatio && s.collValue == trove.collValue && s.loanValue == trove.loanValue;
        }
        failure := trove.UpdateLoan(deltaCollBalance, deltaLoanValue);
        if failure != None {
          return;
        }
      }
      if sentiment < 0.0 && trove.liquidationBuffer < 0.75 * trove.collSurplus {
        var deltaLoanValue := trove.liquidationBuffer - draws.bearishShare * trove.collSurplus;
        assert deltaLoanValue == BearishLoanDelta(trove.State(), draws.bearishShare);
        failure := trove.UpdateLoan(0.0, deltaLoanValue);
      }
    }

    method ModifyViaPassive()
    {
    }

    method ModifyViaRandom(trove: Trove, indicators: Row, draws: Draws) returns (failure: Option<Error>)
      requires trove.Valid() && !trove.liquidated
      modifies trove
      ensures trove.Valid()
      ensures Step(trove.State(), failure) == RandomStep(old(trove.State()), indicators, draws)
    {
      failure := None;
      if draws.act {
        var bufferRatio := draws.randomRatio;
        var deltaCollBalance := draws.randomColl * trove.collAmount;
        var deltaLoanValue := ((1.0 - bufferRatio * (trove.minCollRatio - 1.0)) / trove.minCollRatio)
                              * (trove.collValue + deltaCollBalance * indicators.collPrice) - trove.loanValue;
        assert deltaCollBalance == RandomCollDelta(trove.State(), draws);
        assert deltaLoanValue == TargetLoanDelta(trove.State(), RandomCollDelta(trove.State(), draws), indicators.collPrice, bufferRatio);
        failure := trove.UpdateLoan(deltaCollBalance, deltaLoanValue);
      }
    }

    method ModifyViaSimpleColl(trove: Trove) returns (failure: Option<Error>)
      requires trove.Valid() && !trove.liquidated
      modifies trove
      ensures trove.Valid()
      ensures Step(trove.State(), failure) == SimpleCollStep(old(trove.State()))
    {
      failure := None;
      if trove.liquidationBuffer < 0.5 * trove.collSurplus {
        failure := trove.UpdateLoan(0.05 * trove.collAmount, 0.0);
        if failure != None {
          return;
        }
      }
      if trove.liquidationBuffer > trove.collSurplus {
        failure := trove.UpdateLoan(-0.05 * trove.collAmount, 0.0);
      }
    }

    method ModifyViaSimpleLoan(trove: Trove) returns (failure: Option<Error>)
      requires trove.Valid() && !trove.liquidated
      modifies trove
      ensures trove.Valid()
      ensures Step(trove.State(), failure) == SimpleLoanStep(old(trove.State()))
    {
      failure := None;
      if trove.liquidationBuffer < 0.5 * trove.collSurplus {
        var deltaLoanValue := trove.liquidationBuffer - 0.5 * trove.collSurplus;
        assert deltaLoanValue == SimpleLoanDelta(trove.State());
        failure := trove.UpdateLoan(0.0, deltaLoanValue);
        if failure != None {
          return;
        }
      }
      if trove.liquidationBuffer > 0.5 * trove.collSurplus {
        var deltaLoanValue := trove.liquidationBuffer - 0.5 * trove.collSurplus;
        assert deltaLoanValue == SimpleLoanDelta(trove.State());
        failure := trove.UpdateLoan(0.0, deltaLoanValue);
      }
    }

    method ModifyViaTraditional(trove: Trove, indicators: Row) returns (failure: Option<Error>)
      requires trove.Valid() && !trove.liquidated
      requires TraditionalFires(trove.State()) ==> indicators.collPrice * (2.0 - trove.minCollRatio) != 0.0
      modifies trove
      ensures trove.Valid()
      ensures Step(trove.State(), failure) == TraditionalStep(old(trove.State()), indicators)
    {
      failure := None;
      if trove.liquidationBuffer < 0.75 * trove.collSurplus
         || trove.liquidationBuffer > 1.25 * trove.collSurplus {
        var deltaCollBalance := (trove.minCollRatio / (indicators.collPrice * (2.0 - trove.minCollRatio)))
                                * trove.loanValue - trove.collAmount;
        assert deltaCollBalance == TraditionalCollDelta(trove.State(), indicators.collPrice);
        failure := trove.UpdateLoan(deltaCollBalance, 0.0);
      }
    }
  }

  /**
    * Whether a round, as written, reads an attribute `Trove` lacks: ACTIVE, SIMPLE_COLL,
    * SIMPLE_LOAN and TRADITIONAL always do, RANDOM when it acts, and SENTIMENT_DRIVEN when the
    * sentiment is non-zero. PASSIVE never does.
    */
  predicate ReadsStaleAttribute(strategy: Strategy, indicators: Row, d: Draws, sentiment: real) {
    match strategy
    case Passive => false
    case SentimentDriven => indicators.gap.Num? && sentiment != 0.0
    case Random => d.act
    case _ => true
  }

  /**
    * `modify_trove` as written: the first lookup of `coll_balance` or `volatility_buffer` on
    * the trove raises before any update, so such a round fails and changes nothing. Where no
    * such lookup happens, it agrees with the corrected round.
    */
  function ModifyTroveAsWritten(strategy: Strategy, s: Position, indicators: Row, d: Draws, sentiment: real): (r: Step)
    requires Valid(s)
    ensures !s.liquidated ==>
      (r.failure == Some(MissingAttribute) <==> ReadsStaleAttribute(strategy, indicators, d, sentiment))
    ensures r.failure == Some(MissingAttribute) ==> r.next == s
    ensures Admissible(strategy, s, indicators, sentiment) && r.failure != Some(MissingAttribute) ==>
      r == Modify(strategy, s, indicators, d, sentiment)
  {
    if s.liquidated then Step(s, None)
    else
      match strategy
      case SentimentDriven =>
        (match indicators.gap
         case Absent => Step(s, Some(MissingColumn))
         case NaN => Step(s, None)
         case Num(_) => if sentiment != 0.0 then Step(s, Some(MissingAttribute)) else Step(s, None))
      case Passive => Step(s, None)
      case Random => if d.act then Step(s, Some(MissingAttribute)) else Step(s, None)
      case _ => Step(s, Some(MissingAttribute))
  }

  /**
    * On every live trove the corrected ACTIVE round can serve (a ratio below 3 and a
    * positive price), it commits and lands on lb = vb/2, while the round as written raises
    * and leaves the trove as it was.
    */
  lemma StaleAttributeBreaksActive(s: Position, indicators: Row, d: Draws)
    requires Valid(s) && !s.liquidated
    requires s.minCollRatio < 3.0
    requires indicators.collPrice == s.latestCollPrice && s.latestCollPrice > 0.0
    requires 0.0 <= d.activeShare <= 1.0
    ensures ModifyTroveAsWritten(Active, s, indicators, d, 0.0) == Step(s, Some(MissingAttribute))
    ensures var r := Modify(Active, s, indicators, d, 0.0);
      r.failure == None && r.next.liquidationBuffer == 0.5 * r.next.volatilityBuffer
  {
    PolicyProperties.ActiveTargetsHalfBuffer(s, indicators, d);
  }
}
