/** The money helpers and the staleness predicate of `units.py`. Times are
    microseconds, the resolution of Python's `timedelta`. */
module Units {
  import opened PyCore
  import opened Numbers
  import opened Invest

  const Second: int := 1000000

  /** `round(value / rate, 2)`: the THB bought for `value` RUB. */
  function BuyRubKnowingRub(value: real, rate: real): (r: Result<Decimal>)
    ensures r.Raise? <==> rate == 0.0
    ensures r.Raise? ==> r.exc == ZeroDivisionError
    ensures r.Ok? ==> r.value.places == 2 && -0.005 <= r.value.Value() - value / rate <= 0.005
  {
    if rate == 0.0 then Raise(ZeroDivisionError) else Ok(Round2(value / rate))
  }

  /** `round(value * rate, 2)`: the RUB bought for `value` THB. */
  function BuyRubKnowingThb(value: real, rate: real): (r: Decimal)
    ensures r.places == 2
    ensures -0.005 <= r.Value() - value * rate <= 0.005
  {
    Round2(value * rate)
  }

  /** `units + nano / 1e9`, held exactly in billionths. */
  function CastMoney(q: Quotation): (r: Decimal)
    ensures r.places == 9
    ensures r.Value() == q.units as real + q.nano as real / 1000000000.0
  {
    assert Pow10(9) == 1000000000.0;
    Decimal(q.units * 1000000000 + q.nano, 9)
  }

  /** Refresh is due when less than a second or more than ten seconds have passed. */
  function IsTimeToUpdate(elapsed: int): (due: bool)
    ensures !due <==> Second <= elapsed <= 10 * Second
  {
    if elapsed < Second then true
    else if elapsed > 10 * Second then true
    else false
  }

  /** The worked values: 10 / 2 = 5.00, 10 / 20 = 0.50, and a zero rate raises. */
  lemma BuyRubKnowingRubExamples()
    ensures BuyRubKnowingRub(10.0, 2.0) == Ok(Decimal(500, 2))
    ensures BuyRubKnowingRub(10.0, 20.0) == Ok(Decimal(50, 2))
    ensures BuyRubKnowingRub(10.0, 0.0) == Raise(ZeroDivisionError)
  {
    RoundExact(500);
    RoundExact(50);
  }

  /** The worked values: 10 * 2 = 20.00, 0 * 2 = 0.00, 10 * 0.25 = 2.50. */
  lemma BuyRubKnowingThbExamples()
    ensures BuyRubKnowingThb(10.0, 2.0) == Decimal(2000, 2)
    ensures BuyRubKnowingThb(0.0, 2.0) == Decimal(0, 2)
    ensures BuyRubKnowingThb(10.0, 0.25) == Decimal(250, 2)
  {
    RoundExact(2000);
    RoundExact(0);
    RoundExact(250);
  }

  /** The worked values: (250, 850000000) is 250.85 and (0, 150) is 0.00000015. */
  lemma CastMoneyExamples()
    ensures CastMoney(Quotation(250, 850000000)).Value() == 250.85
    ensures CastMoney(Quotation(0, 150)).Value() == 0.00000015
  {
  }
}
