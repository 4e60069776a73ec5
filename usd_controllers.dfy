/** The two rate sources of `src/controllers/usd_contollers/`: the US-dollar to baht
    rate of Bangkok Bank and the US-dollar to rouble rate of Tinkoff. A rejected
    token before any data is read means "no answer", the bare `None`, which is not
    the `(None, None)` pair of "answered, but no data". */
module UsdControllers {
  import opened PyCore
  import opened BkkbHttp
  import opened BankRecords
  import opened BkkbController
  import opened Invest
  import opened TinkController

  /** `LastUSDToTHBRates.get_usd_to_thb_rates`: a bad-auth answer to the last-update
      request gives `None`; other errors of that request propagate; then the rate of
      `usdFamily` (the configured `BKK_USD_FAMILY`) for the last update, whose own
      bad-auth answer is not caught. */
  function GetUsdToThbRates(api: BankApi, usdFamily: string): (r: Result<Option<RatePair>>)
    ensures r == Ok(None) <==> api.lastUpdate.status == Unauthorized
    ensures api.lastUpdate.status != Unauthorized && FormatUpdateData(api).Raise? ==>
              r == Raise(FormatUpdateData(api).exc)
    ensures FormatUpdateData(api).Ok? ==>
              var resp := api.chart(FormatUpdateData(api).value, usdFamily);
              (resp.status == Unauthorized ==> r == Raise(BadAuth(resp.reason)))
              && (resp.status != Unauthorized && resp.body == [] ==> r == Ok(Some(RatePair(None, None))))
              && (resp.status != Unauthorized && resp.body != [] ==>
                    r == MapSome(RateFromRecord(resp.body[|resp.body| - 1], "TT")))
  {
    match FormatUpdateData(api)
    case Raise(e) => if e.BadAuth? then Ok(None) else Raise(e)
    case Ok(update) => MapSome(FormatGetXRate(api, Some(update), Some(usdFamily)))
  }

  /** A returned pair as the optional answer of a source. */
  function MapSome(p: Result<RatePair>): (r: Result<Option<RatePair>>)
    ensures r.Raise? <==> p.Raise?
    ensures r.Raise? ==> r.exc == p.exc
    ensures r.Ok? ==> r.value == Some(p.value)
  {
    match p
    case Ok(v) => Ok(Some(v))
    case Raise(e) => Raise(e)
  }

  /** The baht source never reads the chart when the update request is refused. */
  lemma ThbChartIrrelevantOnBadAuth(a: BankApi, b: BankApi, usdFamily: string)
    requires a.lastUpdate == b.lastUpdate && a.lastUpdate.status == Unauthorized
    ensures GetUsdToThbRates(a, usdFamily) == GetUsdToThbRates(b, usdFamily) == Ok(None)
  {
  }

  /** `LastUSDToRUBRates.get_usd_last_rate`. `fetch` is what `get_usd_candles` does:
      raise when the token is refused, give `None` when no candles were found, or the
      candles. A refused token gives `None`; other errors propagate; otherwise the
      rate and message of the candles. */
  function GetUsdLastRate(fetch: Result<Option<seq<HistoricCandle>>>, ema: seq<real> -> seq<Option<real>>,
                          showTime: int -> string): (r: Result<Option<RatePair>>)
    ensures r == Ok(None) <==> fetch.Raise? && fetch.exc.BadAuth?
    ensures fetch.Raise? && !fetch.exc.BadAuth? ==> r == Raise(fetch.exc)
    ensures fetch == Ok(None) ==> r == Ok(Some(RatePair(None, None)))
    ensures fetch == Ok(Some([])) ==> r == Raise(KeyError("close"))
    ensures fetch.Ok? && fetch.value.Some? && fetch.value.value != [] ==>
              var cs := fetch.value.value;
              r.Ok? && r.value.Some? && r.value.value.rate.Some? && r.value.value.message.Some?
              && RoundedHighest(r.value.value.rate.value, cs[|cs| - 1],
                                EmaAt(ema(Closes(CreateDf(fetch.value).value)), |cs| - 1))
    ensures fetch.Ok? && fetch.value.Some? && fetch.value.value != [] ==>
              var cs := fetch.value.value;
              var data := RowFor(cs[|cs| - 1], EmaAt(ema(Closes(CreateDf(fetch.value).value)), |cs| - 1));
              r == Ok(Some(RatePair(Some(RateOf(data).Value()),
                                    Some(XRateMessage(MaxPrice(data), RateOf(data), showTime(cs[|cs| - 1].time))))))
  {
    match fetch
    case Raise(e) => if e.BadAuth? then Ok(None) else Raise(e)
    case Ok(candles) =>
      if candles.Some? && candles.value != [] then
        LastCandleRate(candles.value, ema, showTime);
        MapSome(GetXrateDictFormat(candles, ema, showTime))
      else MapSome(GetXrateDictFormat(candles, ema, showTime))
  }
}
