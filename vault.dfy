/** The `Vault` class: a position whose fields its methods update in place. */
module Vaults {
  import opened Outcomes
  import opened Positions

  class Vault {
    var latestCollPrice: real  // private in the source: only the class's own methods read it
    var collBalance: real
    var collValue: real
    var loanValue: real
    var liquidated: bool
    var liquidatedValue: real
    var liquidationBuffer: real
    var volatilityBuffer: real
    const minCollRatio: real   // assigned once, by the constructor

    /** The vault's fields as a `Position` value. */
    function State(): Position
      reads this
    {
      Position(latestCollPrice, collBalance, collValue, loanValue, liquidated, liquidatedValue,
               liquidationBuffer, volatilityBuffer, minCollRatio)
    }

    ghost predicate Valid()
      reads this
    {
      Positions.Valid(State())
    }

    /** Construction of a position that passes the checks of `Create`. */
    constructor (collPrice: real, collBalance: real, minCollRatio: real, loanValue: real)
      requires Create(collPrice, collBalance, minCollRatio, loanValue).Success?
      ensures Valid()
      ensures State() == Create(collPrice, collBalance, minCollRatio, loanValue).value
    {
      var collValue := collPrice * collBalance;
      var liquidationBuffer := collValue / minCollRatio - loanValue;
      this.latestCollPrice := collPrice;
      this.collBalance := collBalance;
      this.collValue := collValue;
      this.loanValue := loanValue;
      this.liquidated := false;
      this.liquidatedValue := 0.0;
      this.liquidationBuffer := liquidationBuffer;
      this.volatilityBuffer := collValue - liquidationBuffer - loanValue;
      this.minCollRatio := minCollRatio;
    }

    /** Construction as the source performs it: the failing checks raise instead of building a vault. */
    static method New(collPrice: real, collBalance: real, minCollRatio: real, loanValue: real) returns (r: Result<Vault>)
      ensures r.Failure? <==> Create(collPrice, collBalance, minCollRatio, loanValue).Failure?
      ensures r.Failure? ==> r.error == Create(collPrice, collBalance, minCollRatio, loanValue).error
      ensures r.Success? ==>
        && fresh(r.value) && r.value.Valid()
        && r.value.State() == Create(collPrice, collBalance, minCollRatio, loanValue).value
    {
      if collPrice < 0.0 || collBalance < 0.0 || loanValue < 0.0 {
        return Failure(NegativeNumber);
      }
      if minCollRatio <= 1.0 {
        return Failure(RatioNotAboveOne);
      }
      if collPrice * collBalance < minCollRatio * loanValue {
        return Failure(RatioViolated);
      }
      var vault := new Vault(collPrice, collBalance, minCollRatio, loanValue);
      return Success(vault);
    }

    method Liquidate(updatedCollValue: real)
      modifies this
      ensures State() == Positions.Liquidate(old(State()), updatedCollValue)
    {
      collBalance := 0.0;
      collValue := 0.0;
      liquidated := true;
      liquidatedValue := updatedCollValue - loanValue;
      liquidationBuffer := 0.0;
      volatilityBuffer := 0.0;
    }

    method UpdateCollPrice(collPrice: real) returns (failure: Option<Error>)
      requires Valid()
      modifies this
      ensures Valid()
      ensures Step(State(), failure) == Positions.UpdateCollPrice(old(State()), collPrice)
    {
      // The invariant of the new state comes from the position function's postcondition,
      // so the arithmetic inside Positions.Valid is kept out of this proof.
      hide Positions.Valid;
      RatioAboveOne(State());
      ghost var expected := Positions.UpdateCollPrice(State(), collPrice);
      if collPrice < 0.0 {
        return Some(NegativePrice);
      }
      failure := None;
      if !liquidated {
        var updatedCollValue := collBalance * collPrice;
        latestCollPrice := collPrice;
        if updatedCollValue >= minCollRatio * loanValue {
          collValue := updatedCollValue;
          liquidationBuffer := collValue / minCollRatio - loanValue;
          volatilityBuffer := collValue - liquidationBuffer - loanValue;
        } else {
          Liquidate(updatedCollValue);
        }
      }
      assert State() == expected.next;
    }

    method UpdateLoan(deltaCollBalance: real, deltaLoanValue: real) returns (failure: Option<Error>)
      requires Valid()
      modifies this
      ensures Valid()
      ensures Step(State(), failure) == Positions.UpdateLoan(old(State()), deltaCollBalance, deltaLoanValue)
    {
      // The invariant of the new state comes from the position function's postcondition,
      // so the arithmetic inside Positions.Valid is kept out of this proof.
      hide Positions.Valid;
      RatioAboveOne(State());
      ghost var expected := Positions.UpdateLoan(State(), deltaCollBalance, deltaLoanValue);
      failure := None;
      if !liquidated {
        var updatedCollBalance := collBalance + deltaCollBalance;
        var updatedLoanValue := loanValue + deltaLoanValue;
        if updatedCollBalance < 0.0 || updatedLoanValue < 0.0 {
          assert expected == Step(State(), Some(OverExtraction));
          return Some(OverExtraction);
        }
        var updatedCollValue := updatedCollBalance * latestCollPrice;
        if updatedCollValue >= minCollRatio * updatedLoanValue {
          collBalance := updatedCollBalance;
          loanValue := updatedLoanValue;
          collValue := updatedCollValue;
          liquidationBuffer := collValue / minCollRatio - loanValue;
          volatilityBuffer := collValue - liquidationBuffer - loanValue;
        }
      }
      assert State() == expected.next;
    }
  }
}
