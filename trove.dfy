/** The `Trove` class (the same machine as `Vault`, with `coll_amount` and `coll_surplus`): a position whose fields its methods update in place. */
module Troves {
  import opened Outcomes
  import opened Positions

  class Trove {
    var latestCollPrice: real  // private in the source: only the class's own methods read it
    var collAmount: real
    var collValue: real
    var loanValue: real
    var liquidated: bool
    var liquidatedValue: real
    var liquidationBuffer: real
    var collSurplus: real
    const minCollRatio: real   // assigned once, by the constructor

    /** The trove's fields as a `Position` value. */
    function State(): Position
      reads this
    {
      Position(latestCollPrice, collAmount, collValue, loanValue, liquidated, liquidatedValue,
               liquidationBuffer, collSurplus, minCollRatio)
    }

    ghost predicate Valid()
      reads this
    {
      Positions.Valid(State())
    }

    /** Construction of a position that passes the checks of `Create`. */
    constructor (collPrice: real, collAmount: real, minCollRatio: real, loanValue: real)
      requires Create(collPrice, collAmount, minCollRatio, loanValue).Success?
      ensures Valid()
      ensures State() == Create(collPrice, collAmount, minCollRatio, loanValue).value
    {
      var collValue := collPrice * collAmount;
      var liquidationBuffer := collValue / minCollRatio - loanValue;
      this.latestCollPrice := collPrice;
      this.collAmount := collAmount;
      this.collValue := collValue;
      this.loanValue := loanValue;
      this.liquidated := false;
      this.liquidatedValue := 0.0;
      this.liquidationBuffer := liquidationBuffer;
      this.collSurplus := collValue - liquidationBuffer - loanValue;
      this.minCollRatio := minCollRatio;
    }

    /** Construction as the source performs it: the failing checks raise instead of building a trove. */
    static method New(collPrice: real, collAmount: real, minCollRatio: real, loanValue: real) returns (r: Result<Trove>)
      ensures r.Failure? <==> Create(collPrice, collAmount, minCollRatio, loanValue).Failure?
      ensures r.Failure? ==> r.error == Create(collPrice, collAmount, minCollRatio, loanValue).error
      ensures r.Success? ==>
        && fresh(r.value) && r.value.Valid()
        && r.value.State() == Create(collPrice, collAmount, minCollRatio, loanValue).value
    {
      if collPrice < 0.0 || collAmount < 0.0 || loanValue < 0.0 {
        return Failure(NegativeNumber);
      }
      if minCollRatio <= 1.0 {
        return Failure(RatioNotAboveOne);
      }
      if collPrice * collAmount < minCollRatio * loanValue {
        return Failure(RatioViolated);
      }
      var trove := new Trove(collPrice, collAmount, minCollRatio, loanValue);
      return Success(trove);
    }

    method Liquidate(updatedCollValue: real)
      modifies this
      ensures State() == Positions.Liquidate(old(State()), updatedCollValue)
    {
      collAmount := 0.0;
      collValue := 0.0;
      liquidated := true;
      liquidatedValue := updatedCollValue - loanValue;
      liquidationBuffer := 0.0;
      collSurplus := 0.0;
    }

    method UpdateCollPrice(collPrice: real) returns (failure: Option<Error>)
      requires Valid()
      modifies this
      ensures Valid()
      ensures Step(State(), failure) == Positions.UpdateCollPrice(old(State()), collPrice)
    {
      // The invariant of the new state comes from the position function's postcondition,
      // so the arithmetic inside Positions.Valid is kept out of this proof.
      hide Positions.Valid;
      RatioAboveOne(State());
      ghost var expected := Positions.UpdateCollPrice(State(), collPrice);
      if collPrice < 0.0 {
        return Some(NegativePrice);
      }
      failure := None;
      if !liquidated {
        var updatedCollValue := collAmount * collPrice;
        latestCollPrice := collPrice;
        if updatedCollValue >= minCollRatio * loanValue {
          collValue := updatedCollValue;
          liquidationBuffer := collValue / minCollRatio - loanValue;
          collSurplus := collValue - liquidationBuffer - loanValue;
        } else {
          Liquidate(updatedCollValue);
        }
      }
      assert State() == expected.next;
    }

    method UpdateLoan(deltaCollAmount: real, deltaLoanValue: real) returns (failure: Option<Error>)
      requires Valid()
      modifies this
      ensures Valid()
      ensures Step(State(), failure) == Positions.UpdateLoan(old(State()), deltaCollAmount, deltaLoanValue)
    {
      // The invariant of the new state comes from the position function's postcondition,
      // so the arithmetic inside Positions.Valid is kept out of this proof.
      hide Positions.Valid;
      RatioAboveOne(State());
      ghost var expected := Positions.UpdateLoan(State(), deltaCollAmount, deltaLoanValue);
      failure := None;
      if !liquidated {
        var updatedCollAmount := collAmount + deltaCollAmount;
        var updatedLoanValue := loanValue + deltaLoanValue;
        if updatedCollAmount < 0.0 || updatedLoanValue < 0.0 {
          assert expected == Step(State(), Some(OverExtraction));
          return Some(OverExtraction);
        }
        var updatedCollValue := updatedCollAmount * latestCollPrice;
        if updatedCollValue >= minCollRatio * updatedLoanValue {
          collAmount := updatedCollAmount;
          loanValue := updatedLoanValue;
          collValue := updatedCollValue;
          liquidationBuffer := collValue / minCollRatio - loanValue;
          collSurplus := collValue - liquidationBuffer - loanValue;
        }
      }
      assert State() == expected.next;
    }
  }
}
