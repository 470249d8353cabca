/**
  * The `Owner` class: a vault owner whose strategy adjusts a `Vault` in place through
  * `UpdateLoan`. Every method is proved against the matching `Policy` step, so the
  * properties proved in `PolicyProperties` carry over to the vault.
  */
module Owners {
  import opened Outcomes
  import opened Positions
  import opened Indicators
  import opened Policy
  import opened Vaults
  import Sentiment

  class Owner {
    const strategy: Strategy   // private in the source, fixed at construction

    constructor (strategy: Strategy)
      ensures this.strategy == strategy
    {
      this.strategy := strategy;
    }

    /**
      * One round of the owner's strategy on `vault`. `indicators` is the newest row of the
      * indicator table, `draws` the random numbers the strategy draws, and `sentiment` the
      * market sentiment of the row's gap.
      */
    method ModifyVault(vault: Vault, indicators: Row, draws: Draws, sentiment: real) returns (failure: Option<Error>)
      requires vault.Valid() && Admissible(strategy, vault.State(), indicators, sentiment)
      modifies vault
      ensures vault.Valid()
      ensures Step(vault.State(), failure) == Modify(strategy, old(vault.State()), indicators, draws, sentiment)
    {
      failure := None;
      if !vault.liquidated {
        match strategy
        case Active => failure := ModifyViaActive(vault, indicators, draws);
        case SentimentDriven => failure := ModifyViaSentimentDriven(vault, indicators, draws, sentiment);
        case Passive => ModifyViaPassive();
        case Random => failure := ModifyViaRandom(vault, indicators, draws);
        case SimpleColl => failure := ModifyViaSimpleColl(vault);
        case SimpleLoan => failure := ModifyViaSimpleLoan(vault);
        case Traditional => failure := ModifyViaTraditional(vault, indicators);
      }
    }

    method ModifyViaActive(vault: Vault, indicators: Row, draws: Draws) returns (failure: Option<Error>)
      requires vault.Valid() && !vault.liquidated
      requires vault.minCollRatio != 3.0 ==> indicators.collPrice != 0.0
      modifies vault
      ensures vault.Valid()
      ensures Step(vault.State(), failure) == ActiveStep(old(vault.State()), indicators, draws)
    {
      var latestCollPrice := indicators.collPrice;
      var delta := vault.liquidationBuffer - 0.5 * vault.volatilityBuffer;
      var deltaLoanValue := draws.activeShare * delta;
      assert deltaLoanValue == ActiveLoanDelta(vault.State(), draws.activeShare);
      if vault.minCollRatio == 3.0 {
        return Some(DivisionByZero);
      }
      var deltaCollBalance := ((2.0 * vault.minCollRatio) / (3.0 - vault.minCollRatio))
                              * ((vault.loanValue + deltaLoanValue) / latestCollPrice) - vault.collBalance;
      assert deltaCollBalance == ActiveCollDelta(vault.State(), latestCollPrice, deltaLoanValue);
      failure := vault.UpdateLoan(deltaCollBalance, deltaLoanValue);
    }

    method ModifyViaSentimentDriven(vault: Vault, indicators: Row, draws: Draws, sentiment: real)
      returns (failure: Option<Error>)
      requires vault.Valid() && !vault.liquidated
      requires indicators.gap.Num? ==> Sentiment.IsSentimentOf(indicators.gap.value, sentiment)
      modifies vault
      ensures vault.Valid()
      ensures Step(vault.State(), failure) == SentimentStep(old(vault.State()), indicators, draws, sentiment)
    {
      hide Positions.Valid, Positions.UpdateLoan;
      RatioAboveOne(vault.State());
      match indicators.gap
      case Absent => return Some(MissingColumn);
      case NaN => return None;  // every comparison with NaN is false
      case Num(_) =>
      ghost var s := vault.State();
      failure := None;
      if sentiment > 0.0 && vault.liquidationBuffer > 0.5 * vault.volatilityBuffer {
        var deltaCollBalance := draws.bullishColl * sentiment;
        var bufferRatio := draws.bullishLoan * (1.0 - sentiment);
        var deltaLoanValue := ((1.0 - bufferRatio * (vault.minCollRatio - 1.0)) / vault.minCollRatio)
                              * (vault.collValue + deltaCollBalance * indicators.collPrice) - vault.loanValue;
        assert deltaCollBalance == BullishCollDelta(draws, sentiment);
        assert bufferRatio == BullishRatio(draws, sentiment);
        assert deltaLoanValue == TargetLoanDelta(s, BullishCollDelta(draws, sentiment), indicators.collPrice, BullishRatio(draws, sentiment)) by {
          assert s.minCollRatio == vault.minCollRatio && s.collValue == vault.collValue && s.loanValue == vault.loanValue;
        }
        failure := vault.UpdateLoan(deltaCollBalance, deltaLoanValue);
        if failure != None {
          return;
        }
      }
      if sentiment < 0.0 && vault.liquidationBuffer < 0.75 * vault.volatilityBuffer {
        var deltaLoanValue := vault.liquidationBuffer - draws.bearishShare * vault.volatilityBuffer;
        assert deltaLoanValue == BearishLoanDelta(vault.State(), draws.bearishShare);
        failure := vault.UpdateLoan(0.0, deltaLoanValue);
      }
    }

    method ModifyViaPassive()
    {
    }

    method ModifyViaRandom(vault: Vault, indicators: Row, draws: Draws) returns (failure: Option<Error>)
      requires vault.Valid() && !vault.liquidated
      modifies vault
      ensures vault.Valid()
      ensures Step(vault.State(), failure) == RandomStep(old(vault.State()), indicators, draws)
    {
      failure := None;
      if draws.act {
        var bufferRatio := draws.randomRatio;
        var deltaCollBalance := draws.randomColl * vault.collBalance;
        var deltaLoanValue := ((1.0 - bufferRatio * (vault.minCollRatio - 1.0)) / vault.minCollRatio)
                              * (vault.collValue + deltaCollBalance * indicators.collPrice) - vault.loanValue;
        assert deltaCollBalance == RandomCollDelta(vault.State(), draws);
        assert deltaLoanValue == TargetLoanDelta(vault.State(), RandomCollDelta(vault.State(), draws), indicators.collPrice, bufferRatio);
        failure := vault.UpdateLoan(deltaCollBalance, deltaLoanValue);
      }
    }

    method ModifyViaSimpleColl(vault: Vault) returns (failure: Option<Error>)
      requires vault.Valid() && !vault.liquidated
      modifies vault
      ensures vault.Valid()
      ensures Step(vault.State(), failure) == SimpleCollStep(old(vault.State()))
    {
      failure := None;
      if vault.liquidationBuffer < 0.5 * vault.volatilityBuffer {
        failure := vault.UpdateLoan(0.05 * vault.collBalance, 0.0);
        if failure != None {
          return;
        }
      }
      if vault.liquidationBuffer > vault.volatilityBuffer {
        failure := vault.UpdateLoan(-0.05 * vault.collBalance, 0.0);
      }
    }

    method ModifyViaSimpleLoan(vault: Vault) returns (failure: Option<Error>)
      requires vault.Valid() && !vault.liquidated
      modifies vault
      ensures vault.Valid()
      ensures Step(vault.State(), failure) == SimpleLoanStep(old(vault.State()))
    {
      failure := None;
      if vault.liquidationBuffer < 0.5 * vault.volatilityBuffer {
        var deltaLoanValue := vault.liquidationBuffer - 0.5 * vault.volatilityBuffer;
        assert deltaLoanValue == SimpleLoanDelta(vault.State());
        failure := vault.UpdateLoan(0.0, deltaLoanValue);
        if failure != None {
          return;
        }
      }
      if vault.liquidationBuffer > 0.5 * vault.volatilityBuffer {
        var deltaLoanValue := vault.liquidationBuffer - 0.5 * vault.volatilityBuffer;
        assert deltaLoanValue == SimpleLoanDelta(vault.State());
        failure := vault.UpdateLoan(0.0, deltaLoanValue);
      }
    }

    method ModifyViaTraditional(vault: Vault, indicators: Row) returns (failure: Option<Error>)
      requires vault.Valid() && !vault.liquidated
      requires TraditionalFires(vault.State()) ==> indicators.collPrice * (2.0 - vault.minCollRatio) != 0.0
      modifies vault
      ensures vault.Valid()
      ensures Step(vault.State(), failure) == TraditionalStep(old(vault.State()), indicators)
    {
      failure := None;
      if vault.liquidationBuffer < 0.75 * vault.volatilityBuffer
         || vault.liquidationBuffer > 1.25 * vault.volatilityBuffer {
        var deltaCollBalance := (vault.minCollRatio / (indicators.collPrice * (2.0 - vault.minCollRatio)))
                                * vault.loanValue - vault.collBalance;
        assert deltaCollBalance == TraditionalCollDelta(vault.State(), indicators.collPrice);
        failure := vault.UpdateLoan(deltaCollBalance, 0.0);
      }
    }
  }
}
