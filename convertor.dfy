/** The rate cache of `src/controllers/convertor.py`: `ValueRate` turns the two
    US-dollar legs into a rouble-per-baht rate with three fee percentages,
    `ValueData` caches one leg behind a staleness gate, and `ExchangeConvertor`
    refreshes the legs and reports the result. Times are microseconds; the clock,
    the gate's threshold (`is_time_to_update` of `src/utils/calculation_utils.py`
    is not part of this model) and the fees (`src/controllers/const.py` is not part
    of this model) are parameters. A leg fetch is the value the leg's controller
    returns: a raise, the bare `None` of a refused token, or a `(rate, message)` pair. */
module Convertor {
  import opened PyCore
  import opened Text
  import opened Numbers

  /** One day, the age of a fresh cache entry. */
  const Day: int := 86400000000

  /** The fee-adjusted baht-per-rouble ratio, rounded to hundredths. */
  function ThbRub(usdThb: real, usdRub: real, raifEx: real, swift: real, thbEx: real): (d: Decimal)
    requires usdRub != 0.0
    ensures d.places == 2
    ensures Near(d.Value(), usdThb / usdRub * (1.0 - raifEx / 100.0) * (1.0 - swift / 100.0) * (1.0 - thbEx / 100.0))
  {
    Round2(usdThb / usdRub * (1.0 - raifEx / 100.0) * (1.0 - swift / 100.0) * (1.0 - thbEx / 100.0))
  }

  
  /** A leg rate that is numerically zero (`rate == 0`). */
  predicate IsZero(rate: Option<real>) {
    rate == Some(0.0)
  }

  /** `ValueRate.rub_thb`: the integer 0 when either leg is 0 (nothing is divided);
      `None` in a leg reaches the division (`TypeError`); a ratio that rounds to zero
      is divided by (`ZeroDivisionError`); otherwise the reciprocal of the rounded
      ratio, rounded again. */
  function RubThbOf(usdThb: Option<real>, usdRub: Option<real>, raifEx: real, swift: real, thbEx: real)
    : (r: Result<Number>)
    ensures r == Ok(Int(0)) <==> IsZero(usdThb) || IsZero(usdRub)
    ensures r == Raise(TypeError) <==> !IsZero(usdThb) && !IsZero(usdRub) && (usdThb.None? || usdRub.None?)
    ensures r == Raise(ZeroDivisionError) <==>
              usdThb.Some? && usdRub.Some? && !IsZero(usdThb) && !IsZero(usdRub)
              && ThbRub(usdThb.value, usdRub.value, raifEx, swift, thbEx).digits == 0
    ensures r.Ok? && r.value != Int(0) ==>
              usdThb.Some? && usdRub.Some? && usdRub.value != 0.0 && r.value.Float? && r.value.d.places == 2
              && ThbRub(usdThb.value, usdRub.value, raifEx, swift, thbEx).digits != 0
              && Near(r.value.Value(), 1.0 / ThbRub(usdThb.value, usdRub.value, raifEx, swift, thbEx).Value())
  {
    if IsZero(usdThb) || IsZero(usdRub) then Ok(Int(0))
    else if usdThb.None? || usdRub.None? then Raise(TypeError)
    else
      var thbRub := ThbRub(usdThb.value, usdRub.value, raifEx, swift, thbEx);
      if thbRub.digits == 0 then Raise(ZeroDivisionError)
      else Ok(Float(Round2(1.0 / thbRub.Value())))
  }

  /** `ValueRate.rub_thb_zdv`: the rate with a two-percent margin, rounded; it fails
      exactly where `rub_thb` does. */
  function RubThbZdvOf(usdThb: Option<real>, usdRub: Option<real>, raifEx: real, swift: real, thbEx: real)
    : (r: Result<Decimal>)
    ensures r.Raise? <==> RubThbOf(usdThb, usdRub, raifEx, swift, thbEx).Raise?
    ensures r.Raise? ==> r.exc == RubThbOf(usdThb, usdRub, raifEx, swift, thbEx).exc
    ensures r.Ok? ==> r.value.places == 2
                      && Near(r.value.Value(), RubThbOf(usdThb, usdRub, raifEx, swift, thbEx).value.Value() * 1.02)
  {
    var rubThb :- RubThbOf(usdThb, usdRub, raifEx, swift, thbEx);
    Ok(Round2(rubThb.Value() * 1.02))
  }

  /** A zero leg gives 0 and 0.0 whatever the other leg and the fees. */
  lemma ZeroGuard(usdThb: Option<real>, usdRub: Option<real>, raifEx: real, swift: real, thbEx: real)
    requires IsZero(usdThb) || IsZero(usdRub)
    ensures RubThbOf(usdThb, usdRub, raifEx, swift, thbEx) == Ok(Int(0))
    ensures RubThbZdvOf(usdThb, usdRub, raifEx, swift, thbEx) == Ok(Decimal(0, 2))
  {
    RoundExact(0);
  }

  /** Both legs at 30 and no fees: 1.0 and, with the margin, 1.02. */
  lemma EqualLegsNoFees()
    ensures RubThbOf(Some(30.0), Some(30.0), 0.0, 0.0, 0.0) == Ok(Float(Decimal(100, 2)))
    ensures RubThbZdvOf(Some(30.0), Some(30.0), 0.0, 0.0, 0.0) == Ok(Decimal(102, 2))
  {
    RoundExact(100);
    assert ThbRub(30.0, 30.0, 0.0, 0.0, 0.0) == Decimal(100, 2);
    assert Decimal(100, 2).Value() == 1.0;
    RoundExact(102);
  }

  /** `ValueRate`: the two legs and the three fee percentages. */
  class ValueRate {
    var usdThb: Option<real>
    var usdRub: Option<real>
    var raifEx: real
    var swift: real
    var thbEx: real

    constructor (usdThb: real, usdRub: real, raifEx: real, swift: real, thbEx: real)
      ensures this.usdThb == Some(usdThb) && this.usdRub == Some(usdRub)
      ensures this.raifEx == raifEx && this.swift == swift && this.thbEx == thbEx
    {
      this.usdThb := Some(usdThb);
      this.usdRub := Some(usdRub);
      this.raifEx := raifEx;
      this.swift := swift;
      this.thbEx := thbEx;
    }

    /** The `rub_thb` property on the current fields. */
    function RubThb(): Result<Number>
      reads this
    {
      RubThbOf(usdThb, usdRub, raifEx, swift, thbEx)
    }

    /** The `rub_thb_zdv` property on the current fields. */
    function RubThbZdv(): Result<Decimal>
      reads this
    {
      RubThbZdvOf(usdThb, usdRub, raifEx, swift, thbEx)
    }
  }

  /** The gate: a refresh is due once more than `threshold` has passed. */
  predicate IsRefreshDue(elapsed: int, threshold: int) {
    elapsed > threshold
  }

  /** `ValueData`: one cached leg and the time of its last refresh. */
  class ValueData {
    var rate: Option<real>
    var message: Option<string>
    var time: int

    /** A fresh entry holds 0 and "" and was last refreshed a day ago. */
    constructor (now: int)
      ensures rate == Some(0.0) && message == Some("") && time == now - Day
    {
      rate := Some(0.0);
      message := Some("");
      time := now - Day;
    }

    /** `time_update`: whether a refresh is due; when it is, the refresh time
        becomes `now`. The cached rate and message are never touched. */
    method TimeUpdate(now: int, threshold: int) returns (due: bool)
      modifies this
      ensures due <==> IsRefreshDue(now - old(time), threshold)
      ensures time == if due then now else old(time)
      ensures rate == old(rate) && message == old(message)
    {
      due := IsRefreshDue(now - time, threshold);
      if due {
        time := now;
      }
    }
  }

  /** A fresh entry is due at once under any threshold below a day, and an
      immediate second check is not due. */
  method FreshGateTwice(now: int, threshold: int) returns (first: bool, second: bool)
    requires 0 <= threshold < Day
    ensures first && !second
  {
    var v := new ValueData(now);
    first := v.TimeUpdate(now, threshold);
    second := v.TimeUpdate(now, threshold);
  }

  /** The report of `get_exchange_message_rub_thb`. */
  function ExchangeMessage(rubThb: Number, rubThbZdv: Decimal): (m: string)
    ensures Split(m, '\n') == ["RUB / THB   : " + rubThb.Show(), "RUB / THB*  : " + ShowDecimal(rubThbZdv), ""]
  {
    var plain := "RUB / THB   : " + rubThb.Show();
    var margin := "RUB / THB*  : " + ShowDecimal(rubThbZdv);
    NumeralHasNoNewline(rubThb.Show());
    NumeralHasNoNewline(ShowDecimal(rubThbZdv));
    TwoLines(plain, margin);
    plain + "\n" + margin + "\n"
  }

  /** `ExchangeConvertor`: the baht leg, the rouble leg and the arithmetic. */
  class ExchangeConvertor {
    var thbRates: ValueData
    var tinkRates: ValueData
    var money: ValueRate

    /** The two legs are cached in two distinct entries. */
    predicate Valid()
      reads this
    {
      thbRates != tinkRates
    }

    constructor (now: int, raifEx: real, swift: real, thbEx: real)
      ensures Valid() && fresh(thbRates) && fresh(tinkRates) && fresh(money)
      ensures thbRates.rate == Some(0.0) && thbRates.message == Some("") && thbRates.time == now - Day
      ensures tinkRates.rate == Some(0.0) && tinkRates.message == Some("") && tinkRates.time == now - Day
      ensures money.usdThb == Some(0.0) && money.usdRub == Some(0.0)
      ensures money.raifEx == raifEx && money.swift == swift && money.thbEx == thbEx
    {
      thbRates := new ValueData(now);
      tinkRates := new ValueData(now);
      money := new ValueRate(0.0, 0.0, raifEx, swift, thbEx);
    }

    /** `get_usd_rub_data` as written: when the gate is due, the fetched pair is
        unpacked into the rouble leg, which is returned; a bare `None` cannot be
        unpacked (`TypeError`). When the gate is not due nothing changes and `None`
        is returned. */
    method GetUsdRubData(now: int, threshold: int, fetch: Result<Option<RatePair>>)
      returns (r: Result<Option<ValueData>>)
      requires Valid()
      modifies tinkRates
      ensures !IsRefreshDue(now - old(tinkRates.time), threshold) ==>
                r == Ok(None) && tinkRates.time == old(tinkRates.time)
                && tinkRates.rate == old(tinkRates.rate) && tinkRates.message == old(tinkRates.message)
      ensures IsRefreshDue(now - old(tinkRates.time), threshold) ==> tinkRates.time == now
      ensures IsRefreshDue(now - old(tinkRates.time), threshold) && fetch.Raise? ==>
                r == Raise(fetch.exc) && tinkRates.rate == old(tinkRates.rate) && tinkRates.message == old(tinkRates.message)
      ensures IsRefreshDue(now - old(tinkRates.time), threshold) && fetch == Ok(None) ==>
                r == Raise(TypeError) && tinkRates.rate == old(tinkRates.rate) && tinkRates.message == old(tinkRates.message)
      ensures IsRefreshDue(now - old(tinkRates.time), threshold) && fetch.Ok? && fetch.value.Some? ==>
                r == Ok(Some(tinkRates)) && tinkRates.rate == fetch.value.value.rate
                && tinkRates.message == fetch.value.value.message
    {
      var due := tinkRates.TimeUpdate(now, threshold);
      if !due {
        return Ok(None);
      }
      match fetch
      case Raise(e) =>
        r := Raise(e);
      case Ok(None) =>
        r := Raise(TypeError);
      case Ok(Some(pair)) =>
        tinkRates.rate := pair.rate;
        tinkRates.message := pair.message;
        r := Ok(Some(tinkRates));
    }

    /** `get_usd_thb_data` as written: when the gate is due, `LastUSDToTHBRates()` is
        built without its required `conf` argument and raises `TypeError` before any
        request, after the gate has already moved its refresh time. When it is not
        due the baht leg is returned unchanged. */
    method GetUsdThbData(now: int, threshold: int) returns (r: Result<ValueData>)
      requires Valid()
      modifies thbRates
      ensures IsRefreshDue(now - old(thbRates.time), threshold) ==> r == Raise(TypeError) && thbRates.time == now
      ensures !IsRefreshDue(now - old(thbRates.time), threshold) ==>
                r == Ok(thbRates) && thbRates.time == old(thbRates.time)
      ensures thbRates.rate == old(thbRates.rate) && thbRates.message == old(thbRates.message)
    {
      var due := thbRates.TimeUpdate(now, threshold);
      if due {
        r := Raise(TypeError);
      } else {
        r := Ok(thbRates);
      }
    }

    /** The rouble leg with the refused-token `None` kept out of the cache: the leg
        keeps its last rate and message. */
    method GetUsdRubDataFixed(now: int, threshold: int, fetch: Result<Option<RatePair>>)
      returns (r: Result<Option<ValueData>>)
      requires Valid()
      modifies tinkRates
      ensures tinkRates.time == if IsRefreshDue(now - old(tinkRates.time), threshold) then now else old(tinkRates.time)
      ensures r.Raise? <==> IsRefreshDue(now - old(tinkRates.time), threshold) && fetch.Raise?
      ensures r.Raise? ==> r.exc == fetch.exc
      ensures IsRefreshDue(now - old(tinkRates.time), threshold) && fetch.Ok? && fetch.value.Some? ==>
                tinkRates.rate == fetch.value.value.rate && tinkRates.message == fetch.value.value.message
      ensures !(IsRefreshDue(now - old(tinkRates.time), threshold) && fetch.Ok? && fetch.value.Some?) ==>
                tinkRates.rate == old(tinkRates.rate) && tinkRates.message == old(tinkRates.message)
      ensures r.Ok? ==> (r.value.Some? <==> IsRefreshDue(now - old(tinkRates.time), threshold))
      ensures r.Ok? && r.value.Some? ==> r.value.value == tinkRates
    {
      var due := tinkRates.TimeUpdate(now, threshold);
      if !due {
        return Ok(None);
      }
      match fetch
      case Raise(e) =>
        r := Raise(e);
      case Ok(None) =>
        r := Ok(Some(tinkRates));
      case Ok(Some(pair)) =>
        tinkRates.rate := pair.rate;
        tinkRates.message := pair.message;
        r := Ok(Some(tinkRates));
    }

    /** The baht leg fetched through a configured controller, with the refused-token
        `None` kept out of the cache. */
    method GetUsdThbDataFixed(now: int, threshold: int, fetch: Result<Option<RatePair>>)
      returns (r: Result<ValueData>)
      requires Valid()
      modifies thbRates
      ensures thbRates.time == if IsRefreshDue(now - old(thbRates.time), threshold) then now else old(thbRates.time)
      ensures r.Raise? <==> IsRefreshDue(now - old(thbRates.time), threshold) && fetch.Raise?
      ensures r.Raise? ==> r.exc == fetch.exc
      ensures r.Ok? ==> r.value == thbRates
      ensures IsRefreshDue(now - old(thbRates.time), threshold) && fetch.Ok? && fetch.value.Some? ==>
                thbRates.rate == fetch.value.value.rate && thbRates.message == fetch.value.value.message
      ensures !(IsRefreshDue(now - old(thbRates.time), threshold) && fetch.Ok? && fetch.value.Some?) ==>
                thbRates.rate == old(thbRates.rate) && thbRates.message == old(thbRates.message)
    {
      var due := thbRates.TimeUpdate(now, threshold);
      if due {
        match fetch
        case Raise(e) =>
          return Raise(e);
        case Ok(None) =>
        case Ok(Some(pair)) =>
          thbRates.rate := pair.rate;
          thbRates.message := pair.message;
      }
      r := Ok(thbRates);
    }

    /** `get_thb_rub_rate`: both cached rates are copied into the arithmetic, which
        then answers `(rub_thb, rub_thb_zdv)`. */
    method GetThbRubRate() returns (r: Result<(Number, Decimal)>)
      requires Valid()
      modifies money
      ensures money.usdThb == thbRates.rate && money.usdRub == tinkRates.rate
      ensures money.raifEx == old(money.raifEx) && money.swift == old(money.swift) && money.thbEx == old(money.thbEx)
      ensures r.Raise? <==> money.RubThb().Raise?
      ensures r.Raise? ==> r.exc == money.RubThb().exc
      ensures r.Ok? ==> r.value == (money.RubThb().value, money.RubThbZdv().value)
    {
      money.usdThb := thbRates.rate;
      money.usdRub := tinkRates.rate;
      var rubThb := money.RubThb();
      if rubThb.Raise? {
        return Raise(rubThb.exc);
      }
      r := Ok((rubThb.value, money.RubThbZdv().value));
    }

    /** `get_exchange_message_rub_thb` as written: the baht leg, then the rouble leg,
        then the arithmetic; the margin rate and a two-line report. */
    method GetExchangeMessageRubThb(now: int, threshold: int, rubFetch: Result<Option<RatePair>>)
      returns (r: Result<(Decimal, string)>)
      requires Valid()
      modifies thbRates, tinkRates, money
      ensures Fees() == old(Fees())
      ensures thbRates.rate == old(thbRates.rate) && thbRates.message == old(thbRates.message)
      ensures thbRates.time == if IsRefreshDue(now - old(thbRates.time), threshold) then now else old(thbRates.time)
      ensures IsRefreshDue(now - old(thbRates.time), threshold) ==>
                r == Raise(TypeError) && tinkRates.time == old(tinkRates.time)
                && tinkRates.rate == old(tinkRates.rate) && tinkRates.message == old(tinkRates.message)
                && money.usdThb == old(money.usdThb) && money.usdRub == old(money.usdRub)
      ensures !IsRefreshDue(now - old(thbRates.time), threshold) ==>
                tinkRates.time == if IsRefreshDue(now - old(tinkRates.time), threshold) then now else old(tinkRates.time)
      ensures !IsRefreshDue(now - old(thbRates.time), threshold) && IsRefreshDue(now - old(tinkRates.time), threshold) ==>
                (rubFetch.Raise? ==> r == Raise(rubFetch.exc))
                && (rubFetch == Ok(None) ==> r == Raise(TypeError))
                && (rubFetch.Raise? || rubFetch == Ok(None) ==>
                      money.usdThb == old(money.usdThb) && money.usdRub == old(money.usdRub))
                && (rubFetch.Ok? && rubFetch.value.Some? ==>
                      tinkRates.rate == rubFetch.value.value.rate && tinkRates.message == rubFetch.value.value.message)
      ensures !(!IsRefreshDue(now - old(thbRates.time), threshold) && IsRefreshDue(now - old(tinkRates.time), threshold)
                && rubFetch.Ok? && rubFetch.value.Some?) ==>
                tinkRates.rate == old(tinkRates.rate) && tinkRates.message == old(tinkRates.message)
      ensures !IsRefreshDue(now - old(thbRates.time), threshold)
              && !(IsRefreshDue(now - old(tinkRates.time), threshold) && (rubFetch.Raise? || rubFetch == Ok(None))) ==>
                Reported(r)
    {
      var thb := GetUsdThbData(now, threshold);
      if thb.Raise? {
        return Raise(thb.exc);
      }
      var rub := GetUsdRubData(now, threshold, rubFetch);
      if rub.Raise? {
        return Raise(rub.exc);
      }
      var rates := GetThbRubRate();
      if rates.Raise? {
        return Raise(rates.exc);
      }
      r := Ok((rates.value.1, ExchangeMessage(rates.value.0, rates.value.1)));
    }

    /** The three fee percentages. */
    function Fees(): (real, real, real)
      reads this, money
    {
      (money.raifEx, money.swift, money.thbEx)
    }

    /** `r` is the report on the current legs: both rates copied into the arithmetic,
        then its error, or the margin rate and the two-line message. */
    predicate Reported(r: Result<(Decimal, string)>)
      reads this, thbRates, tinkRates, money
    {
      money.usdThb == thbRates.rate && money.usdRub == tinkRates.rate
      && (r.Raise? <==> money.RubThb().Raise?)
      && (r.Raise? ==> r.exc == money.RubThb().exc)
      && (r.Ok? ==> r.value == (money.RubThbZdv().value, ExchangeMessage(money.RubThb().value, money.RubThbZdv().value)))
    }

    /** The exchange report over the two corrected legs. */
    method GetExchangeMessageFixed(now: int, threshold: int, thbFetch: Result<Option<RatePair>>,
                                   rubFetch: Result<Option<RatePair>>)
      returns (r: Result<(Decimal, string)>)
      requires Valid()
      modifies thbRates, tinkRates, money
      ensures Fees() == old(Fees())
      ensures thbRates.time == if IsRefreshDue(now - old(thbRates.time), threshold) then now else old(thbRates.time)
      ensures IsRefreshDue(now - old(thbRates.time), threshold) && thbFetch.Ok? && thbFetch.value.Some? ==>
                thbRates.rate == thbFetch.value.value.rate && thbRates.message == thbFetch.value.value.message
      ensures !(IsRefreshDue(now - old(thbRates.time), threshold) && thbFetch.Ok? && thbFetch.value.Some?) ==>
                thbRates.rate == old(thbRates.rate) && thbRates.message == old(thbRates.message)
      ensures IsRefreshDue(now - old(thbRates.time), threshold) && thbFetch.Raise? ==>
                r == Raise(thbFetch.exc) && tinkRates.time == old(tinkRates.time)
                && tinkRates.rate == old(tinkRates.rate) && tinkRates.message == old(tinkRates.message)
                && money.usdThb == old(money.usdThb) && money.usdRub == old(money.usdRub)
      ensures !(IsRefreshDue(now - old(thbRates.time), threshold) && thbFetch.Raise?) ==>
                tinkRates.time == (if IsRefreshDue(now - old(tinkRates.time), threshold) then now else old(tinkRates.time))
                && (IsRefreshDue(now - old(tinkRates.time), threshold) && rubFetch.Raise? ==>
                      r == Raise(rubFetch.exc) && money.usdThb == old(money.usdThb) && money.usdRub == old(money.usdRub))
                && (IsRefreshDue(now - old(tinkRates.time), threshold) && rubFetch.Ok? && rubFetch.value.Some? ==>
                      tinkRates.rate == rubFetch.value.value.rate && tinkRates.message == rubFetch.value.value.message)
                && (!(IsRefreshDue(now - old(tinkRates.time), threshold) && rubFetch.Ok? && rubFetch.value.Some?) ==>
                      tinkRates.rate == old(tinkRates.rate) && tinkRates.message == old(tinkRates.message))
                && (!(IsRefreshDue(now - old(tinkRates.time), threshold) && rubFetch.Raise?) ==> Reported(r))
    {
      var thb := GetUsdThbDataFixed(now, threshold, thbFetch);
      if thb.Raise? {
        return Raise(thb.exc);
      }
      var rub := GetUsdRubDataFixed(now, threshold, rubFetch);
      if rub.Raise? {
        return Raise(rub.exc);
      }
      var rates := GetThbRubRate();
      if rates.Raise? {
        return Raise(rates.exc);
      }
      r := Ok((rates.value.1, ExchangeMessage(rates.value.0, rates.value.1)));
    }
  }

  /** Both cached legs at 30 and no fees: `get_thb_rub_rate` answers (1.0, 1.02). */
  method EqualLegsRate(now: int) returns (r: Result<(Number, Decimal)>)
    ensures r == Ok((Float(Decimal(100, 2)), Decimal(102, 2)))
  {
    var c := new ExchangeConvertor(now, 0.0, 0.0, 0.0);
    c.thbRates.rate := Some(30.0);
    c.tinkRates.rate := Some(30.0);
    r := c.GetThbRubRate();
    EqualLegsNoFees();
  }

  /** A rouble leg refreshed within the threshold is not fetched: it keeps 0 and "". */
  method RecentRubLegUntouched(now: int, threshold: int, fetch: Result<Option<RatePair>>)
    returns (r: Result<Option<ValueData>>, rate: Option<real>, message: Option<string>)
    requires threshold >= 0
    ensures r == Ok(None) && rate == Some(0.0) && message == Some("")
  {
    var c := new ExchangeConvertor(now, 0.0, 0.0, 0.0);
    c.tinkRates.time := now;
    r := c.GetUsdRubData(now, threshold, fetch);
    rate, message := c.tinkRates.rate, c.tinkRates.message;
  }

  /** Both legs refreshed within the threshold, both cached at 30, no fees: the
      report gives 1.02 and neither leg changes. */
  method RecentLegsReport(now: int, threshold: int, fetch: Result<Option<RatePair>>)
    returns (r: Result<(Decimal, string)>, thbRate: Option<real>, rubRate: Option<real>)
    requires threshold >= 0
    ensures r.Ok? && r.value.0 == Decimal(102, 2)
    ensures thbRate == Some(30.0) && rubRate == Some(30.0)
  {
    var c := new ExchangeConvertor(now, 0.0, 0.0, 0.0);
    c.thbRates.rate := Some(30.0);
    c.tinkRates.rate := Some(30.0);
    c.thbRates.time := now;
    c.tinkRates.time := now;
    assert c.Fees() == (0.0, 0.0, 0.0);
    r := c.GetExchangeMessageRubThb(now, threshold, fetch);
    assert c.money.usdThb == Some(30.0) && c.money.usdRub == Some(30.0) && c.Fees() == (0.0, 0.0, 0.0);
    EqualLegsNoFees();
    thbRate, rubRate := c.thbRates.rate, c.tinkRates.rate;
  }

  /** As written, a baht leg that is due makes the report raise `TypeError`, whatever
      the rouble leg would have answered; the baht leg keeps its old rate. */
  method DueThbLegRaises(now: int, threshold: int, rubFetch: Result<Option<RatePair>>)
    returns (r: Result<(Decimal, string)>, thbRate: Option<real>)
    requires 0 <= threshold < Day
    ensures r == Raise(TypeError) && thbRate == Some(30.0)
  {
    var c := new ExchangeConvertor(now, 0.0, 0.0, 0.0);
    c.thbRates.rate := Some(30.0);
    c.tinkRates.rate := Some(1.0);
    c.tinkRates.time := now;
    r := c.GetExchangeMessageRubThb(now, threshold, rubFetch);
    thbRate := c.thbRates.rate;
  }

  /** As written, a refused token on a due rouble leg makes the report raise
      `TypeError` instead of serving the cached rate. */
  method RefusedRubLegRaises(now: int, threshold: int) returns (r: Result<(Decimal, string)>)
    requires 0 <= threshold < Day
    ensures r == Raise(TypeError)
  {
    var c := new ExchangeConvertor(now, 0.0, 0.0, 0.0);
    c.thbRates.rate := Some(30.0);
    c.tinkRates.rate := Some(30.0);
    c.thbRates.time := now;
    r := c.GetExchangeMessageRubThb(now, threshold, Ok(None));
  }

  /** With the corrected legs both refresh when due: fetched pairs of 30 and no fees
      give 1.02, and the legs hold the fetched rates and messages. */
  method FixedLegsRefresh(now: int, threshold: int, thbMessage: string, rubMessage: string)
    returns (r: Result<(Decimal, string)>, thb: RatePair, rub: RatePair)
    requires 0 <= threshold < Day
    ensures r.Ok? && r.value.0 == Decimal(102, 2)
    ensures thb == RatePair(Some(30.0), Some(thbMessage)) && rub == RatePair(Some(30.0), Some(rubMessage))
  {
    var c := new ExchangeConvertor(now, 0.0, 0.0, 0.0);
    r := c.GetExchangeMessageFixed(now, threshold, Ok(Some(RatePair(Some(30.0), Some(thbMessage)))),
                                   Ok(Some(RatePair(Some(30.0), Some(rubMessage)))));
    EqualLegsNoFees();
    thb := RatePair(c.thbRates.rate, c.thbRates.message);
    rub := RatePair(c.tinkRates.rate, c.tinkRates.message);
  }

  /** With the corrected legs a refused token on both legs serves the cached rates:
      legs at 30 and no fees still give 1.02. */
  method FixedLegsKeepCacheOnRefusal(now: int, threshold: int) returns (r: Result<(Decimal, string)>)
    requires 0 <= threshold < Day
    ensures r.Ok? && r.value.0 == Decimal(102, 2)
  {
    var c := new ExchangeConvertor(now, 0.0, 0.0, 0.0);
    c.thbRates.rate := Some(30.0);
    c.tinkRates.rate := Some(30.0);
    r := c.GetExchangeMessageFixed(now, threshold, Ok(None), Ok(None));
    EqualLegsNoFees();
  }
}
