/** The `ExchangeConvertor` of `main_body.py`, the oldest revision: the same two
    zero-sentinel legs as the root `convertor.py`, but the rate is recomputed on
    every call, with no memo and no zero guard, and returned together with the
    margin rate. The money helpers of this revision do not round. */
module MainBody {
  import opened PyCore
  import opened Numbers
  import opened LegacyConvertor
  import Convertor

  class ExchangeConvertor {
    var usdRub: PyValue
    var usdRubMessage: Option<string>
    var usdThb: PyValue
    var usdThbMessage: Option<string>

    /** Both legs zero, both messages empty. */
    constructor ()
      ensures usdRub == PyInt(0) && usdRubMessage == Some("") && usdThb == PyInt(0) && usdThbMessage == Some("")
    {
      usdRub := PyInt(0);
      usdRubMessage := Some("");
      usdThb := PyInt(0);
      usdThbMessage := Some("");
    }

    /** `get_usd_rub_data`: fetches only when the rouble rate is zero. */
    method GetUsdRubData(fetch: Result<Option<Leg>>) returns (r: Result<bool>)
      modifies this
      ensures usdThb == old(usdThb) && usdThbMessage == old(usdThbMessage)
      ensures !EqualsZero(old(usdRub)) ==> r == Ok(true)
      ensures EqualsZero(old(usdRub)) && fetch.Raise? ==> r == Raise(fetch.exc)
      ensures EqualsZero(old(usdRub)) && fetch == Ok(None) ==> r == Raise(TypeError)
      ensures EqualsZero(old(usdRub)) && fetch.Ok? && fetch.value.Some? ==>
                r == Ok(true) && usdRub == fetch.value.value.rate && usdRubMessage == fetch.value.value.message
      ensures !(EqualsZero(old(usdRub)) && fetch.Ok? && fetch.value.Some?) ==>
                usdRub == old(usdRub) && usdRubMessage == old(usdRubMessage)
    {
      if !EqualsZero(usdRub) {
        return Ok(true);
      }
      match fetch
      case Raise(e) =>
        r := Raise(e);
      case Ok(None) =>
        r := Raise(TypeError);
      case Ok(Some(leg)) =>
        usdRub, usdRubMessage := leg.rate, leg.message;
        r := Ok(true);
    }

    /** `get_usd_thb_data`: skips the fetch only when the baht rate is nonzero and its
        message non-empty. */
    method GetUsdThbData(fetch: Result<Option<Leg>>) returns (r: Result<bool>)
      modifies this
      ensures usdRub == old(usdRub) && usdRubMessage == old(usdRubMessage)
      ensures !EqualsZero(old(usdThb)) && NonEmpty(old(usdThbMessage)) ==> r == Ok(true)
      ensures !(!EqualsZero(old(usdThb)) && NonEmpty(old(usdThbMessage))) ==>
                (fetch.Raise? ==> r == Raise(fetch.exc))
                && (fetch == Ok(None) ==> r == Raise(TypeError))
                && (fetch.Ok? && fetch.value.Some? ==>
                      r == Ok(true) && usdThb == fetch.value.value.rate && usdThbMessage == fetch.value.value.message)
      ensures !(!(!EqualsZero(old(usdThb)) && NonEmpty(old(usdThbMessage))) && fetch.Ok? && fetch.value.Some?) ==>
                usdThb == old(usdThb) && usdThbMessage == old(usdThbMessage)
    {
      if !EqualsZero(usdThb) && NonEmpty(usdThbMessage) {
        return Ok(true);
      }
      match fetch
      case Raise(e) =>
        r := Raise(e);
      case Ok(None) =>
        r := Raise(TypeError);
      case Ok(Some(leg)) =>
        usdThb, usdThbMessage := leg.rate, leg.message;
        r := Ok(true);
    }

    /** `get_thb_rub_rate`: each zero leg is fetched, baht first; then the rate of the
        cached legs, recomputed on every call, and its margin rate
        `round(rub_thb * 1.02, 2)`. */
    method GetThbRubRate(thbFetch: Result<Option<Leg>>, rubFetch: Result<Option<Leg>>,
                         swift: real := 3.0, thbExange: real := 0.21, raifExgande: real := 2.257)
      returns (r: Result<(Decimal, Decimal)>)
      modifies this
      ensures !EqualsZero(old(usdThb)) ==> usdThb == old(usdThb) && usdThbMessage == old(usdThbMessage)
      ensures !EqualsZero(old(usdRub)) ==> usdRub == old(usdRub) && usdRubMessage == old(usdRubMessage)
      ensures !(thbFetch.Ok? && thbFetch.value.Some?) ==> usdThb == old(usdThb) && usdThbMessage == old(usdThbMessage)
      ensures !(rubFetch.Ok? && rubFetch.value.Some?) || (EqualsZero(old(usdThb)) && !(thbFetch.Ok? && thbFetch.value.Some?)) ==>
                usdRub == old(usdRub) && usdRubMessage == old(usdRubMessage)
      ensures EqualsZero(old(usdThb)) ==>
                (thbFetch.Raise? ==> r == Raise(thbFetch.exc))
                && (thbFetch == Ok(None) ==> r == Raise(TypeError))
                && (thbFetch.Ok? && thbFetch.value.Some? ==>
                      usdThb == thbFetch.value.value.rate && usdThbMessage == thbFetch.value.value.message)
      ensures EqualsZero(old(usdRub)) && (EqualsZero(old(usdThb)) ==> thbFetch.Ok? && thbFetch.value.Some?) ==>
                (rubFetch.Raise? ==> r == Raise(rubFetch.exc))
                && (rubFetch == Ok(None) ==> r == Raise(TypeError))
                && (rubFetch.Ok? && rubFetch.value.Some? ==>
                      usdRub == rubFetch.value.value.rate && usdRubMessage == rubFetch.value.value.message)
      ensures (EqualsZero(old(usdThb)) ==> thbFetch.Ok? && thbFetch.value.Some?)
              && (EqualsZero(old(usdRub)) ==> rubFetch.Ok? && rubFetch.value.Some?) ==>
                (r.Raise? <==> LegacyRate(usdThb, usdRub, swift, thbExange, raifExgande).Raise?)
                && (r.Raise? ==> r.exc == LegacyRate(usdThb, usdRub, swift, thbExange, raifExgande).exc)
      ensures r.Ok? ==>
                LegacyRate(usdThb, usdRub, swift, thbExange, raifExgande) == Ok(r.value.0)
                && r.value.1.places == 2 && Near(r.value.1.Value(), r.value.0.Value() * 1.02)
    {
      if EqualsZero(usdThb) {
        var thb := GetUsdThbData(thbFetch);
        if thb.Raise? {
          return Raise(thb.exc);
        }
      }
      if EqualsZero(usdRub) {
        var rub := GetUsdRubData(rubFetch);
        if rub.Raise? {
          return Raise(rub.exc);
        }
      }
      var rate := LegacyRate(usdThb, usdRub, swift, thbExange, raifExgande);
      if rate.Raise? {
        return Raise(rate.exc);
      }
      r := Ok((rate.value, Round2(rate.value.Value() * 1.02)));
    }

    /** `get_exchange_message_rub_thb`: the margin rate under the default fees and the
        two-line report of both rates. */
    method GetExchangeMessageRubThb(thbFetch: Result<Option<Leg>>, rubFetch: Result<Option<Leg>>)
      returns (r: Result<(Decimal, string)>)
      modifies this
      ensures !EqualsZero(old(usdThb)) ==> usdThb == old(usdThb) && usdThbMessage == old(usdThbMessage)
      ensures !EqualsZero(old(usdRub)) ==> usdRub == old(usdRub) && usdRubMessage == old(usdRubMessage)
      ensures !(thbFetch.Ok? && thbFetch.value.Some?) ==> usdThb == old(usdThb) && usdThbMessage == old(usdThbMessage)
      ensures !(rubFetch.Ok? && rubFetch.value.Some?) || (EqualsZero(old(usdThb)) && !(thbFetch.Ok? && thbFetch.value.Some?)) ==>
                usdRub == old(usdRub) && usdRubMessage == old(usdRubMessage)
      ensures EqualsZero(old(usdThb)) ==>
                (thbFetch.Raise? ==> r == Raise(thbFetch.exc))
                && (thbFetch == Ok(None) ==> r == Raise(TypeError))
                && (thbFetch.Ok? && thbFetch.value.Some? ==>
                      usdThb == thbFetch.value.value.rate && usdThbMessage == thbFetch.value.value.message)
      ensures EqualsZero(old(usdRub)) && (EqualsZero(old(usdThb)) ==> thbFetch.Ok? && thbFetch.value.Some?) ==>
                (rubFetch.Raise? ==> r == Raise(rubFetch.exc))
                && (rubFetch == Ok(None) ==> r == Raise(TypeError))
                && (rubFetch.Ok? && rubFetch.value.Some? ==>
                      usdRub == rubFetch.value.value.rate && usdRubMessage == rubFetch.value.value.message)
      ensures (EqualsZero(old(usdThb)) ==> thbFetch.Ok? && thbFetch.value.Some?)
              && (EqualsZero(old(usdRub)) ==> rubFetch.Ok? && rubFetch.value.Some?) ==>
                (r.Raise? <==> LegacyRate(usdThb, usdRub, 3.0, 0.21, 2.257).Raise?)
                && (r.Raise? ==> r.exc == LegacyRate(usdThb, usdRub, 3.0, 0.21, 2.257).exc)
      ensures r.Ok? ==>
                LegacyRate(usdThb, usdRub, 3.0, 0.21, 2.257).Ok?
                && var rubThb := LegacyRate(usdThb, usdRub, 3.0, 0.21, 2.257).value;
                r.value.0.places == 2 && Near(r.value.0.Value(), rubThb.Value() * 1.02)
                && r.value.1 == Convertor.ExchangeMessage(Float(rubThb), r.value.0)
    {
      var pair :- GetThbRubRate(thbFetch, rubFetch);
      var (rubThb, rubThbZdv) := pair;
      r := Ok((rubThbZdv, Convertor.ExchangeMessage(Float(rubThb), rubThbZdv)));
    }
  }

  /** Without the zero guard of the later revision, a rouble leg that reads 0 makes
      the rate divide by zero. */
  method ZeroRubLegDivides(thb: real) returns (r: Result<(Decimal, Decimal)>)
    ensures r == Raise(ZeroDivisionError)
  {
    var c := new ExchangeConvertor();
    r := c.GetThbRubRate(Ok(Some(Leg(PyFloat(thb), Some("thb")))), Ok(Some(Leg(PyInt(0), Some("rub")))));
  }

  /** `buy_rub_knowing_rub` of this revision: `value / rate`, not rounded. */
  function BuyRubKnowingRub(value: real, rate: real): (r: Result<real>)
    ensures r.Raise? <==> rate == 0.0
    ensures r.Raise? ==> r.exc == ZeroDivisionError
    ensures r.Ok? ==> r.value * rate == value
  {
    if rate == 0.0 then Raise(ZeroDivisionError) else Ok(value / rate)
  }

  /** `buy_rub_knowing_thb` of this revision: `value * rate`, not rounded. */
  function BuyRubKnowingThb(value: real, rate: real): (r: real)
    ensures rate != 0.0 ==> r / rate == value
    ensures value == 0.0 || rate == 0.0 ==> r == 0.0
  {
    value * rate
  }

  /** The two unrounded helpers undo each other at a nonzero rate. */
  lemma BuyRoundTrip(value: real, rate: real)
    requires rate != 0.0
    ensures BuyRubKnowingRub(BuyRubKnowingThb(value, rate), rate) == Ok(value)
  {
  }
}
