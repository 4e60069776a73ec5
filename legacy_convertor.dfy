/** The older `ExchangeConvertor` of the root-level `convertor.py`. Its legs are cached
    in plain fields whose zero value means "not fetched yet"; the computed rate is
    memoised until `reset_rate_data` clears everything after an hour and a minute.
    Field values are dynamically typed: the Bangkok Bank leg of this revision hands
    over the rate as the raw string of the record. A leg fetch is the value the leg's
    controller returns: a raise, a bare `None`, or a `(rate, message)` pair. */
module LegacyConvertor {
  import opened PyCore
  import opened Numbers
  import Convertor

  /** The `(rate, message)` pair an old leg controller returns. */
  datatype Leg = Leg(rate: PyValue, message: Option<string>)

  /** Python `float(v)`: `None` raises `TypeError`, a string is parsed (`ValueError`
      when it is not a number). */
  function ToFloat(v: PyValue): (r: Result<real>)
    ensures v.PyNone? <==> r == Raise(TypeError)
    ensures v.PyInt? ==> r == Ok(v.i as real)
    ensures v.PyFloat? ==> r == Ok(v.x)
    ensures v.PyStr? ==> (r.Raise? <==> ParseFloat(v.s).None?)
    ensures v.PyStr? && r.Ok? ==> r.value == ParseFloat(v.s).value.Value()
    ensures r.Raise? ==> r.exc == TypeError || r.exc == ValueError
  {
    match v
    case PyNone => Raise(TypeError)
    case PyInt(i) => Ok(i as real)
    case PyFloat(x) => Ok(x)
    case PyStr(s) =>
      match ParseFloat(s)
      case None => Raise(ValueError)
      case Some(d) => Ok(d.Value())
  }

  /** A printed number reads back as itself. */
  lemma ToFloatShown(d: Decimal)
    ensures ToFloat(PyStr(ShowDecimal(d))) == Ok(d.Value())
  {
    ParseShowDecimal(d);
  }

  /** The fee-adjusted baht-per-rouble ratio, not rounded. */
  function Ratio(usdThb: real, usdRub: real, swift: real, thbExange: real, raifExgande: real): (r: real)
    requires usdRub != 0.0
    ensures usdThb == 0.0 ==> r == 0.0
    ensures raifExgande == 0.0 && swift == 0.0 && thbExange == 0.0 ==> r * usdRub == usdThb
  {
    usdThb / usdRub * (1.0 - raifExgande / 100.0) * (1.0 - swift / 100.0) * (1.0 - thbExange / 100.0)
  }

  /** `round(1 / thb_rub, 2)` with `thb_rub = float(usd_thb) / float(usd_rub) * fees`:
      the conversions fail first, then a zero rouble leg or a zero ratio divides by
      zero; there is no rounding of the ratio and no zero guard. */
  function LegacyRate(usdThb: PyValue, usdRub: PyValue, swift: real, thbExange: real, raifExgande: real)
    : (r: Result<Decimal>)
    ensures ToFloat(usdThb).Raise? ==> r == Raise(ToFloat(usdThb).exc)
    ensures ToFloat(usdThb).Ok? && ToFloat(usdRub).Raise? ==> r == Raise(ToFloat(usdRub).exc)
    ensures ToFloat(usdThb).Ok? && ToFloat(usdRub) == Ok(0.0) ==> r == Raise(ZeroDivisionError)
    ensures r.Ok? ==>
              ToFloat(usdThb).Ok? && ToFloat(usdRub).Ok? && ToFloat(usdRub).value != 0.0
              && var ratio := Ratio(ToFloat(usdThb).value, ToFloat(usdRub).value, swift, thbExange, raifExgande);
              ratio != 0.0 && r.value.places == 2 && Near(r.value.Value(), 1.0 / ratio)
    ensures r.Raise? ==> r.exc in {TypeError, ValueError, ZeroDivisionError}
    ensures ToFloat(usdThb).Ok? && ToFloat(usdRub).Ok? && ToFloat(usdRub).value != 0.0 ==>
              (r.Ok? <==> Ratio(ToFloat(usdThb).value, ToFloat(usdRub).value, swift, thbExange, raifExgande) != 0.0)
              && (r.Raise? ==> r.exc == ZeroDivisionError)
  {
    var thb :- ToFloat(usdThb);
    var rub :- ToFloat(usdRub);
    if rub == 0.0 then Raise(ZeroDivisionError)
    else
      var ratio := Ratio(thb, rub, swift, thbExange, raifExgande);
      if ratio == 0.0 then Raise(ZeroDivisionError) else Ok(Round2(1.0 / ratio))
  }

  /** A zero baht leg divides by zero however the rouble leg reads. */
  lemma ZeroThbLegDivides(usdRub: PyValue, swift: real, thbExange: real, raifExgande: real)
    requires ToFloat(usdRub).Ok?
    ensures LegacyRate(PyInt(0), usdRub, swift, thbExange, raifExgande) == Raise(ZeroDivisionError)
  {
    var rub := ToFloat(usdRub).value;
    if rub != 0.0 {
      assert 0.0 / rub == 0.0;
      assert Ratio(0.0, rub, swift, thbExange, raifExgande) == 0.0 / rub * (1.0 - raifExgande / 100.0) * (1.0 - swift / 100.0) * (1.0 - thbExange / 100.0);
    }
  }

  /** `reset_rate_data` clears the cache after more than an hour and a minute. */
  const ResetAfter: int := 3660000000

  /** Python's `x != ''` on an optional string. */
  predicate NonEmpty(message: Option<string>) {
    message != Some("")
  }

  class ExchangeConvertor {
    var usdRub: PyValue
    var usdRubMessage: Option<string>
    var usdThb: PyValue
    var usdThbMessage: Option<string>
    var timeUpdate: int
    var rubThb: Number

    /** Everything zero or empty; the reset clock starts at `now`. */
    constructor (now: int)
      ensures usdRub == PyInt(0) && usdRubMessage == Some("") && usdThb == PyInt(0) && usdThbMessage == Some("")
      ensures timeUpdate == now && rubThb == Int(0)
    {
      usdRub := PyInt(0);
      usdRubMessage := Some("");
      usdThb := PyInt(0);
      usdThbMessage := Some("");
      timeUpdate := now;
      rubThb := Int(0);
    }

    /** `get_usd_rub_data`: a nonzero rouble leg is kept; a zero one is replaced by
        the fetched pair. A bare `None` cannot be unpacked (`TypeError`). */
    method GetUsdRubData(fetch: Result<Option<Leg>>) returns (r: Result<bool>)
      modifies this
      ensures usdThb == old(usdThb) && usdThbMessage == old(usdThbMessage)
      ensures timeUpdate == old(timeUpdate) && rubThb == old(rubThb)
      ensures !EqualsZero(old(usdRub)) ==> r == Ok(true)
      ensures EqualsZero(old(usdRub)) && fetch.Raise? ==> r == Raise(fetch.exc)
      ensures EqualsZero(old(usdRub)) && fetch == Ok(None) ==> r == Raise(TypeError)
      ensures EqualsZero(old(usdRub)) && fetch.Ok? && fetch.value.Some? ==>
                r == Ok(true) && usdRub == fetch.value.value.rate && usdRubMessage == fetch.value.value.message
      ensures !(EqualsZero(old(usdRub)) && fetch.Ok? && fetch.value.Some?) ==>
                usdRub == old(usdRub) && usdRubMessage == old(usdRubMessage)
    {
      if !EqualsZero(usdRub) {
        return Ok(true);
      }
      match fetch
      case Raise(e) =>
        r := Raise(e);
      case Ok(None) =>
        r := Raise(TypeError);
      case Ok(Some(leg)) =>
        usdRub, usdRubMessage := leg.rate, leg.message;
        r := Ok(true);
    }

    /** `get_usd_thb_data`: the baht leg is kept only when its rate is nonzero and its
        message non-empty; otherwise it is replaced by the fetched pair. */
    method GetUsdThbData(fetch: Result<Option<Leg>>) returns (r: Result<bool>)
      modifies this
      ensures usdRub == old(usdRub) && usdRubMessage == old(usdRubMessage)
      ensures timeUpdate == old(timeUpdate) && rubThb == old(rubThb)
      ensures !EqualsZero(old(usdThb)) && NonEmpty(old(usdThbMessage)) ==> r == Ok(true)
      ensures !(!EqualsZero(old(usdThb)) && NonEmpty(old(usdThbMessage))) ==>
                (fetch.Raise? ==> r == Raise(fetch.exc))
                && (fetch == Ok(None) ==> r == Raise(TypeError))
                && (fetch.Ok? && fetch.value.Some? ==>
                      r == Ok(true) && usdThb == fetch.value.value.rate && usdThbMessage == fetch.value.value.message)
      ensures !(!(!EqualsZero(old(usdThb)) && NonEmpty(old(usdThbMessage))) && fetch.Ok? && fetch.value.Some?) ==>
                usdThb == old(usdThb) && usdThbMessage == old(usdThbMessage)
    {
      if !EqualsZero(usdThb) && NonEmpty(usdThbMessage) {
        return Ok(true);
      }
      match fetch
      case Raise(e) =>
        r := Raise(e);
      case Ok(None) =>
        r := Raise(TypeError);
      case Ok(Some(leg)) =>
        usdThb, usdThbMessage := leg.rate, leg.message;
        r := Ok(true);
    }

    /** `get_thb_rub_rate`: a nonzero memoised rate is kept. Otherwise each zero leg
        is fetched, baht first, and the rate computed from the legs now cached. */
    method GetThbRubRate(thbFetch: Result<Option<Leg>>, rubFetch: Result<Option<Leg>>,
                         swift: real := 3.0, thbExange: real := 0.21, raifExgande: real := 2.257)
      returns (r: Result<bool>)
      modifies this
      ensures timeUpdate == old(timeUpdate)
      ensures old(rubThb).Value() != 0.0 ==>
                r == Ok(true) && rubThb == old(rubThb)
                && usdThb == old(usdThb) && usdThbMessage == old(usdThbMessage)
                && usdRub == old(usdRub) && usdRubMessage == old(usdRubMessage)
      ensures !EqualsZero(old(usdThb)) ==> usdThb == old(usdThb) && usdThbMessage == old(usdThbMessage)
      ensures !EqualsZero(old(usdRub)) ==> usdRub == old(usdRub) && usdRubMessage == old(usdRubMessage)
      ensures !(thbFetch.Ok? && thbFetch.value.Some?) ==> usdThb == old(usdThb) && usdThbMessage == old(usdThbMessage)
      ensures !(rubFetch.Ok? && rubFetch.value.Some?) || (EqualsZero(old(usdThb)) && !(thbFetch.Ok? && thbFetch.value.Some?)) ==>
                usdRub == old(usdRub) && usdRubMessage == old(usdRubMessage)
      ensures old(rubThb).Value() == 0.0 && r.Ok? ==>
                LegacyRate(usdThb, usdRub, swift, thbExange, raifExgande).Ok?
                && rubThb == Float(LegacyRate(usdThb, usdRub, swift, thbExange, raifExgande).value)
      ensures r.Ok? ==> r.value
      ensures r.Raise? ==> rubThb == old(rubThb)
      ensures old(rubThb).Value() == 0.0 && r.Raise? ==>
                (EqualsZero(old(usdThb)) && !(thbFetch.Ok? && thbFetch.value.Some?))
                || (EqualsZero(old(usdRub)) && !(rubFetch.Ok? && rubFetch.value.Some?))
                || LegacyRate(usdThb, usdRub, swift, thbExange, raifExgande).Raise?
      ensures old(rubThb).Value() == 0.0 && EqualsZero(old(usdThb)) ==>
                (thbFetch.Raise? ==> r == Raise(thbFetch.exc))
                && (thbFetch == Ok(None) ==> r == Raise(TypeError))
                && (thbFetch.Ok? && thbFetch.value.Some? ==>
                      usdThb == thbFetch.value.value.rate && usdThbMessage == thbFetch.value.value.message)
      ensures old(rubThb).Value() == 0.0 && EqualsZero(old(usdRub))
              && (EqualsZero(old(usdThb)) ==> thbFetch.Ok? && thbFetch.value.Some?) ==>
                (rubFetch.Raise? ==> r == Raise(rubFetch.exc))
                && (rubFetch == Ok(None) ==> r == Raise(TypeError))
                && (rubFetch.Ok? && rubFetch.value.Some? ==>
                      usdRub == rubFetch.value.value.rate && usdRubMessage == rubFetch.value.value.message)
      ensures old(rubThb).Value() == 0.0
              && (EqualsZero(old(usdThb)) ==> thbFetch.Ok? && thbFetch.value.Some?)
              && (EqualsZero(old(usdRub)) ==> rubFetch.Ok? && rubFetch.value.Some?) ==>
                (r.Raise? <==> LegacyRate(usdThb, usdRub, swift, thbExange, raifExgande).Raise?)
                && (r.Raise? ==> r.exc == LegacyRate(usdThb, usdRub, swift, thbExange, raifExgande).exc)
    {
      if rubThb.Value() != 0.0 {
        return Ok(true);
      }
      if EqualsZero(usdThb) {
        var thb := GetUsdThbData(thbFetch);
        if thb.Raise? {
          return Raise(thb.exc);
        }
      }
      if EqualsZero(usdRub) {
        var rub := GetUsdRubData(rubFetch);
        if rub.Raise? {
          return Raise(rub.exc);
        }
      }
      var rate := LegacyRate(usdThb, usdRub, swift, thbExange, raifExgande);
      if rate.Raise? {
        return Raise(rate.exc);
      }
      rubThb := Float(rate.value);
      r := Ok(true);
    }

    /** `get_exchange_message_rub_thb`: the rate under the default fees, then the
        margin rate `round(rub_thb * 1.02, 2)` and the two-line report. */
    method GetExchangeMessageRubThb(thbFetch: Result<Option<Leg>>, rubFetch: Result<Option<Leg>>)
      returns (r: Result<(Decimal, string)>)
      modifies this
      ensures timeUpdate == old(timeUpdate)
      ensures old(rubThb).Value() != 0.0 ==>
                r.Ok? && rubThb == old(rubThb)
                && usdThb == old(usdThb) && usdThbMessage == old(usdThbMessage)
                && usdRub == old(usdRub) && usdRubMessage == old(usdRubMessage)
      ensures !EqualsZero(old(usdThb)) ==> usdThb == old(usdThb) && usdThbMessage == old(usdThbMessage)
      ensures !EqualsZero(old(usdRub)) ==> usdRub == old(usdRub) && usdRubMessage == old(usdRubMessage)
      ensures !(thbFetch.Ok? && thbFetch.value.Some?) ==> usdThb == old(usdThb) && usdThbMessage == old(usdThbMessage)
      ensures !(rubFetch.Ok? && rubFetch.value.Some?) || (EqualsZero(old(usdThb)) && !(thbFetch.Ok? && thbFetch.value.Some?)) ==>
                usdRub == old(usdRub) && usdRubMessage == old(usdRubMessage)
      ensures r.Raise? ==> rubThb == old(rubThb)
      ensures old(rubThb).Value() == 0.0 && EqualsZero(old(usdThb)) ==>
                (thbFetch.Raise? ==> r == Raise(thbFetch.exc))
                && (thbFetch == Ok(None) ==> r == Raise(TypeError))
                && (thbFetch.Ok? && thbFetch.value.Some? ==>
                      usdThb == thbFetch.value.value.rate && usdThbMessage == thbFetch.value.value.message)
      ensures old(rubThb).Value() == 0.0 && EqualsZero(old(usdRub))
              && (EqualsZero(old(usdThb)) ==> thbFetch.Ok? && thbFetch.value.Some?) ==>
                (rubFetch.Raise? ==> r == Raise(rubFetch.exc))
                && (rubFetch == Ok(None) ==> r == Raise(TypeError))
                && (rubFetch.Ok? && rubFetch.value.Some? ==>
                      usdRub == rubFetch.value.value.rate && usdRubMessage == rubFetch.value.value.message)
      ensures old(rubThb).Value() == 0.0
              && (EqualsZero(old(usdThb)) ==> thbFetch.Ok? && thbFetch.value.Some?)
              && (EqualsZero(old(usdRub)) ==> rubFetch.Ok? && rubFetch.value.Some?) ==>
                (r.Raise? <==> LegacyRate(usdThb, usdRub, 3.0, 0.21, 2.257).Raise?)
                && (r.Raise? ==> r.exc == LegacyRate(usdThb, usdRub, 3.0, 0.21, 2.257).exc)
      ensures r.Ok? ==> r.value.0.places == 2 && Near(r.value.0.Value(), rubThb.Value() * 1.02)
      ensures r.Ok? ==> r.value.1 == Convertor.ExchangeMessage(rubThb, r.value.0)
      ensures old(rubThb).Value() == 0.0 && r.Ok? ==>
                LegacyRate(usdThb, usdRub, 3.0, 0.21, 2.257).Ok?
                && rubThb == Float(LegacyRate(usdThb, usdRub, 3.0, 0.21, 2.257).value)
    {
      var done := GetThbRubRate(thbFetch, rubFetch);
      if done.Raise? {
        return Raise(done.exc);
      }
      var rubThbZdv := Round2(rubThb.Value() * 1.02);
      r := Ok((rubThbZdv, Convertor.ExchangeMessage(rubThb, rubThbZdv)));
    }

    /** `reset_rate_data`: after more than an hour and a minute since construction
        the five cached fields return to 0 and ""; the clock itself is never moved. */
    method ResetRateData(now: int) returns (r: bool)
      modifies this
      ensures r && timeUpdate == old(timeUpdate)
      ensures now - old(timeUpdate) > ResetAfter ==>
                usdRub == PyInt(0) && usdRubMessage == Some("") && usdThb == PyInt(0) && usdThbMessage == Some("")
                && rubThb == Int(0)
      ensures now - old(timeUpdate) <= ResetAfter ==>
                usdRub == old(usdRub) && usdRubMessage == old(usdRubMessage) && usdThb == old(usdThb)
                && usdThbMessage == old(usdThbMessage) && rubThb == old(rubThb)
    {
      if now - timeUpdate > ResetAfter {
        usdRub, usdRubMessage := PyInt(0), Some("");
        usdThb, usdThbMessage := PyInt(0), Some("");
        rubThb := Int(0);
      }
      r := true;
    }
  }

  /** Once a rate is cached, a second computation answers the same rate whatever the
      legs would now fetch. */
  method RateIsMemoised(now: int, thb: real, rub: real, later: Result<Option<Leg>>)
    returns (first: Number, second: Number)
    requires thb > 0.0 && rub > 0.0
    ensures first == second
  {
    var c := new ExchangeConvertor(now);
    assert Ratio(thb, rub, 3.0, 0.21, 2.257) > 0.0;
    var r1 := c.GetThbRubRate(Ok(Some(Leg(PyFloat(thb), Some("thb")))), Ok(Some(Leg(PyFloat(rub), Some("rub")))));
    assert c.usdThb == PyFloat(thb) && c.usdRub == PyFloat(rub);
    assert LegacyRate(c.usdThb, c.usdRub, 3.0, 0.21, 2.257).Ok?;
    first := c.rubThb;
    var r2 := c.GetThbRubRate(later, later);
    second := c.rubThb;
  }

  /** The cache survives exactly an hour and a minute and is cleared just after;
      the reset clock stays where the constructor put it. */
  method ResetBoundary(now: int, leg: Leg) returns (kept: PyValue, cleared: PyValue, clock: int)
    requires !EqualsZero(leg.rate)
    ensures kept == leg.rate && cleared == PyInt(0) && clock == now
  {
    var c := new ExchangeConvertor(now);
    var r := c.GetUsdRubData(Ok(Some(leg)));
    var a := c.ResetRateData(now + ResetAfter);
    kept := c.usdRub;
    var b := c.ResetRateData(now + ResetAfter + 1);
    cleared := c.usdRub;
    clock := c.timeUpdate;
  }
}
