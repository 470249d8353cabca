/**
  * The indicator tracker `Metrics`: an append-only table with one row per price seen,
  * holding the running mean, the exponential moving average and their relative gap.
  */
module Indicators {
  import opened Outcomes

  /** A table cell: a column not created yet, a NaN, or a number. */
  datatype Cell = Absent | NaN | Num(value: real)

  datatype Row = Row(collPrice: real, movingAverage: real, ema: Cell, gap: Cell)

  /** The EMA's smoothing factor. */
  const Alpha: real := 0.05

  function Sum(prices: seq<real>): real {
    if prices == [] then 0.0 else Sum(prices[..|prices| - 1]) + prices[|prices| - 1]
  }

  function Mean(prices: seq<real>): real
    requires prices != []
  {
    Sum(prices) / |prices| as real
  }

  /** The exponential moving average at index i, without bias adjustment. */
  function Ema(prices: seq<real>, i: nat): real
    requires i < |prices|
  {
    if i == 0 then prices[0] else Alpha * prices[i] + (1.0 - Alpha) * Ema(prices, i - 1)
  }

  /** (ema - ma) / ma; a 0/0 is NaN (a nonzero EMA over a zero mean cannot occur, see `GapNaNOnlyAtZero`). */
  function Gap(ema: real, movingAverage: real): Cell {
    if movingAverage == 0.0 then NaN else Num((ema - movingAverage) / movingAverage)
  }

  /** Row i of the table built from this price history. */
  function RowOf(prices: seq<real>, i: nat): Row
    requires i < |prices|
  {
    var movingAverage := Mean(prices[..i + 1]);
    if |prices| == 1 then Row(prices[i], movingAverage, Absent, Absent)
    else
      var ema := Ema(prices, i);
      Row(prices[i], movingAverage, Num(ema), Gap(ema, movingAverage))
  }

  /** The whole table a price history determines. */
  function TableOf(prices: seq<real>): seq<Row>
    requires prices != []
  {
    seq(|prices|, i requires 0 <= i < |prices| => RowOf(prices, i))
  }

  predicate NonNegative(prices: seq<real>) {
    forall i :: 0 <= i < |prices| ==> prices[i] >= 0.0
  }

  /** The incremental update of the moving average yields the mean of the longer history. */
  lemma MeanStep(prices: seq<real>, price: real)
    requires prices != []
    ensures (|prices| as real * Mean(prices) + price) / (|prices| as real + 1.0) == Mean(prices + [price])
  {
    var longer := prices + [price];
    assert longer[..|longer| - 1] == prices;
    assert Sum(longer) == Sum(prices) + price;
    var n := |prices| as real;
    assert n * Mean(prices) == Sum(prices);
  }

  /** The EMA of a prefix does not depend on later prices. */
  lemma {:induction false} EmaPrefix(prices: seq<real>, more: seq<real>, i: nat)
    requires i < |prices|
    ensures Ema(prices + more, i) == Ema(prices, i)
  {
    if i > 0 {
      EmaPrefix(prices, more, i - 1);
    }
  }

  /** The EMA stays within any bounds that hold every price up to its index. */
  lemma {:induction false} EmaWithinBounds(prices: seq<real>, i: nat, low: real, high: real)
    requires i < |prices|
    requires forall k :: 0 <= k <= i ==> low <= prices[k] <= high
    ensures low <= Ema(prices, i) <= high
  {
    if i > 0 {
      EmaWithinBounds(prices, i - 1, low, high);
    }
  }

  /** A mean of non-negative prices is zero only if every price is zero. */
  lemma {:induction false} ZeroMeanAllZero(prices: seq<real>)
    requires prices != [] && NonNegative(prices)
    requires Mean(prices) == 0.0
    ensures forall k :: 0 <= k < |prices| ==> prices[k] == 0.0
  {
    assert Sum(prices) == 0.0;
    SumZeroAllZero(prices);
  }

  lemma {:induction false} SumZeroAllZero(prices: seq<real>)
    requires NonNegative(prices) && Sum(prices) == 0.0
    ensures forall k :: 0 <= k < |prices| ==> prices[k] == 0.0
  {
    if prices != [] {
      var init := prices[..|prices| - 1];
      SumNonNegative(init);
      SumZeroAllZero(init);
      forall k | 0 <= k < |prices| ensures prices[k] == 0.0 {
        if k < |init| {
          assert prices[k] == init[k];
        }
      }
    }
  }

  lemma {:induction false} SumNonNegative(prices: seq<real>)
    requires NonNegative(prices)
    ensures Sum(prices) >= 0.0
  {
    if prices != [] {
      SumNonNegative(prices[..|prices| - 1]);
    }
  }

  /**
    * With non-negative prices the gap column is NaN only where the mean is 0, and there the
    * EMA is 0 as well: the column is never infinite.
    */
  lemma GapNaNOnlyAtZero(prices: seq<real>, i: nat)
    requires i < |prices| && NonNegative(prices)
    requires Mean(prices[..i + 1]) == 0.0
    ensures Ema(prices, i) == 0.0
  {
    ZeroMeanAllZero(prices[..i + 1]);
    assert forall k :: 0 <= k <= i ==> prices[k] == prices[..i + 1][k];
    EmaWithinBounds(prices, i, 0.0, 0.0);
  }

  /** Once the derived columns exist, the first row's gap is 0 (its EMA and its mean are both the first price). */
  lemma FirstGapIsZero(prices: seq<real>)
    requires |prices| >= 2 && prices[0] > 0.0
    ensures TableOf(prices)[0].gap == Num(0.0)
  {
    SingletonMean(prices[..1]);
  }

  lemma SingletonMean(prices: seq<real>)
    requires |prices| == 1
    ensures Mean(prices) == prices[0]
  {
    assert prices[..0] == [];
    assert Sum(prices) == prices[0];
  }

  /**
    * An update appends exactly one row; the rows before it keep their price and mean, and,
    * once the derived columns exist, their EMA and gap as well.
    */
  lemma AppendKeepsEarlierRows(prices: seq<real>, price: real)
    requires prices != []
    ensures |TableOf(prices + [price])| == |prices| + 1
    ensures TableOf(prices + [price])[|prices|].collPrice == price
    ensures forall k :: 0 <= k < |prices| ==>
      && TableOf(prices + [price])[k].collPrice == TableOf(prices)[k].collPrice
      && TableOf(prices + [price])[k].movingAverage == TableOf(prices)[k].movingAverage
    ensures |prices| >= 2 ==> TableOf(prices + [price])[..|prices|] == TableOf(prices)
  {
    var longer := prices + [price];
    forall k | 0 <= k < |prices|
      ensures longer[..k + 1] == prices[..k + 1]
      ensures |prices| >= 2 ==> RowOf(longer, k) == RowOf(prices, k)
    {
      assert longer[..k + 1] == prices[..k + 1];
      EmaPrefix(prices, [price], k);
    }
  }

  /** The price column of a table. */
  function PriceColumn(table: seq<Row>): (r: seq<real>)
    ensures |r| == |table|
  {
    seq(|table|, i requires 0 <= i < |table| => table[i].collPrice)
  }

  /** The price column of the table a history determines is that history. */
  lemma PriceColumnOfTable(prices: seq<real>)
    requires prices != []
    ensures PriceColumn(TableOf(prices)) == prices
  {
    assert forall k :: 0 <= k < |prices| ==> PriceColumn(TableOf(prices))[k] == RowOf(prices, k).collPrice;
  }

  /**
    * Appending a row with the incrementally updated mean to the table of a history gives a
    * table whose price and mean columns are those of the longer history.
    */
  lemma AppendedPrimaryColumns(prices: seq<real>, price: real, movingAverage: real)
    requires prices != []
    requires movingAverage == (|prices| as real * TableOf(prices)[|prices| - 1].movingAverage + price) / (|prices| as real + 1.0)
    ensures HasPrimaryColumns(TableOf(prices) + [Row(price, movingAverage, Absent, Absent)], prices + [price])
  {
    var longer := prices + [price];
    var table := TableOf(prices) + [Row(price, movingAverage, Absent, Absent)];
    assert prices[..|prices|] == prices;
    MeanStep(prices, price);
    assert longer[..|prices| + 1] == longer;
    forall k | 0 <= k < |table|
      ensures table[k].collPrice == longer[k] && table[k].movingAverage == Mean(longer[..k + 1])
    {
      if k < |prices| {
        assert longer[..k + 1] == prices[..k + 1];
      }
    }
  }

  /** True when the price and mean columns of `table` are those of this price history. */
  ghost predicate HasPrimaryColumns(table: seq<Row>, prices: seq<real>) {
    && |table| == |prices|
    && forall k :: 0 <= k < |table| ==>
         table[k].collPrice == prices[k] && table[k].movingAverage == Mean(prices[..k + 1])
  }

  /**
    * Recomputes the EMA and gap columns of a table with at least two rows, one row at a
    * time, carrying the running EMA forward.
    */
  method FillDerivedColumns(table: seq<Row>, ghost prices: seq<real>) returns (filled: seq<Row>)
    requires |prices| >= 2 && HasPrimaryColumns(table, prices)
    ensures filled == TableOf(prices)
  {
    filled := table;
    var ema := 0.0;
    var i := 0;
    while i < |filled|
      invariant 0 <= i <= |filled|
      invariant HasPrimaryColumns(filled, prices)
      invariant forall k :: 0 <= k < i ==> filled[k] == RowOf(prices, k)
      invariant i > 0 ==> ema == Ema(prices, i - 1)
    {
      var price := filled[i].collPrice;
      ema := if i == 0 then price else Alpha * price + (1.0 - Alpha) * ema;
      filled := filled[i := filled[i].(ema := Num(ema), gap := Gap(ema, filled[i].movingAverage))];
      i := i + 1;
    }
  }

  class Metrics {
    var indicators: seq<Row>

    /** The price column. */
    function Prices(): seq<real>
      reads this
    {
      PriceColumn(indicators)
    }

    ghost predicate Valid()
      reads this
    {
      && indicators != []
      && NonNegative(Prices())
      && indicators == TableOf(Prices())
    }

    /** Construction from a non-negative first price. */
    constructor (collPrice: real)
      requires collPrice >= 0.0
      ensures Valid()
      ensures Prices() == [collPrice]
      ensures indicators == [Row(collPrice, collPrice, Absent, Absent)]
    {
      indicators := [Row(collPrice, collPrice, Absent, Absent)];
      assert [collPrice][..1] == [collPrice];
      SingletonMean([collPrice]);
    }

    /** Construction as the source performs it: a negative price raises. */
    static method New(collPrice: real) returns (r: Result<Metrics>)
      ensures collPrice < 0.0 <==> r == Failure(NegativePrice)
      ensures r.Success? <==> collPrice >= 0.0
      ensures r.Success? ==>
        && fresh(r.value) && r.value.Valid()
        && r.value.indicators == [Row(collPrice, collPrice, Absent, Absent)]
    {
      if collPrice < 0.0 {
        return Failure(NegativePrice);
      }
      var metrics := new Metrics(collPrice);
      return Success(metrics);
    }

    /**
      * Appends a row for the new price, with the mean updated incrementally, then recomputes the
      * EMA and gap columns over the whole table.
      */
    method UpdateIndicators(collPrice: real) returns (failure: Option<Error>)
      requires Valid()
      modifies this
      ensures Valid()
      ensures collPrice < 0.0 ==> failure == Some(NegativePrice) && indicators == old(indicators)
      ensures collPrice >= 0.0 ==> failure == None && Prices() == old(Prices()) + [collPrice]
    {
      if collPrice < 0.0 {
        return Some(NegativePrice);
      }
      ghost var prices := Prices() + [collPrice];
      var n := |indicators|;
      var movingAverage := (n as real * indicators[n - 1].movingAverage + collPrice) / (n as real + 1.0);
      AppendedPrimaryColumns(Prices(), collPrice, movingAverage);
      var table := indicators + [Row(collPrice, movingAverage, Absent, Absent)];
      table := FillDerivedColumns(table, prices);
      PriceColumnOfTable(prices);
      indicators := table;
      failure := None;
    }

    /** The last row: the latest price, the mean of all prices, and the current EMA. */
    function GetIndicators(): (r: Row)
      reads this
      requires Valid()
      ensures r.collPrice == Prices()[|Prices()| - 1]
      ensures r.movingAverage == Mean(Prices())
      ensures |Prices()| >= 2 ==> r.ema == Num(Ema(Prices(), |Prices()| - 1))
      ensures |Prices()| == 1 <==> r.gap == Absent
      ensures |Prices()| >= 2 ==> r.gap == Gap(Ema(Prices(), |Prices()| - 1), Mean(Prices()))
      ensures r == TableOf(Prices())[|Prices()| - 1]
    {
      assert Prices()[..|Prices()|] == Prices();
      indicators[|indicators| - 1]
    }

    /** The whole table, which the price history determines. */
    function GetAllIndicators(): (r: seq<Row>)
      reads this
      requires Valid()
      ensures r == TableOf(Prices())
    {
      indicators
    }
  }
}
