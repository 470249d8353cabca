/**
  * The market sentiment function x / sqrt(x*x + 1) of `Owner` and `Borrower`.
  * Dafny has no square root on `real`, so the value `s` is characterised by
  * s*s*(x*x + 1) == x*x together with sign(s) == sign(x), which pins it down uniquely.
  */
module Sentiment {

  predicate IsSentimentOf(x: real, s: real) {
    && s * s * (x * x + 1.0) == x * x
    && (x > 0.0 ==> s > 0.0)
    && (x < 0.0 ==> s < 0.0)
    && (x == 0.0 ==> s == 0.0)
  }

  /** The sentiment lies strictly between -1 and 1. */
  lemma SentimentBounded(x: real, s: real)
    requires IsSentimentOf(x, s)
    ensures -1.0 < s < 1.0
  {
  }

  /** The sentiment is 0 exactly at 0, and positive exactly for positive arguments. */
  lemma SentimentSign(x: real, s: real)
    requires IsSentimentOf(x, s)
    ensures s > 0.0 <==> x > 0.0
    ensures s < 0.0 <==> x < 0.0
    ensures s == 0.0 <==> x == 0.0
  {
  }

  /** At most one value satisfies the characterisation, so it defines a function. */
  lemma SentimentUnique(x: real, s: real, t: real)
    requires IsSentimentOf(x, s) && IsSentimentOf(x, t)
    ensures s == t
  {
  }

  /** The sentiment function is odd: negating the argument negates the value. */
  lemma SentimentOdd(x: real, s: real)
    requires IsSentimentOf(x, s)
    ensures IsSentimentOf(-x, -s)
  {
    assert (-s) * (-s) == s * s;
    assert (-x) * (-x) == x * x;
  }

  /** The sentiment function is strictly increasing. */
  lemma SentimentIncreasing(x: real, s: real, y: real, t: real)
    requires IsSentimentOf(x, s) && IsSentimentOf(y, t)
    requires x < y
    ensures s < t
  {
    SentimentSign(x, s);
    SentimentSign(y, t);
    if y <= 0.0 {
      SentimentOdd(x, s);
      SentimentOdd(y, t);
      if y < 0.0 {
        PositiveIncreasing(-y, -t, -x, -s);
      }
    } else if 0.0 < x {
      PositiveIncreasing(x, s, y, t);
    }
  }

  lemma PositiveIncreasing(x: real, s: real, y: real, t: real)
    requires IsSentimentOf(x, s) && IsSentimentOf(y, t)
    requires 0.0 < x < y
    ensures s < t
  {
  }
}
