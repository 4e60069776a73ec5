/** The root-level `tinkoff_request.py`, the older Tinkoff controller: the figi lookup
    of the US-dollar instrument and the rate of the latest hourly candle. Its
    `create_df` and `cast_money` are those of the later revision
    (`TinkController.CreateDf`, `Units.CastMoney`). The SDK calls are not part of this
    model: the instrument listing and the frame `run` builds are inputs. */
module TinkoffRequest {
  import opened PyCore
  import opened Numbers
  import opened Invest
  import opened TinkController

  /** The instrument looked up when no figi is given. */
  const Ticker: string := "USD000UTSTOM"

  /** The figi `run` passes, so that no lookup is made. */
  const FigUsd: string := "BBG0013HGFT4"

  /** `get_figi(figi)`: a given figi is returned as it is; otherwise the figi of the
      first instrument whose ticker is `USD000UTSTOM`, or `None` when there is none.
      An empty listing builds a frame without a `ticker` column (`KeyError`). */
  function GetFigi(figi: Option<string>, instruments: seq<TickerRow>): (r: Result<Option<string>>)
    ensures figi.Some? ==> r == Ok(figi)
    ensures figi.None? && instruments == [] ==> r == Raise(KeyError("ticker"))
    ensures figi.None? && instruments != [] ==>
              r.Ok? && (r.value.None? <==> forall i :: 0 <= i < |instruments| ==> instruments[i].ticker != Ticker)
    ensures figi.None? ==> r == GetFigiByTicker(instruments, Ticker)
  {
    if figi.Some? then Ok(figi) else GetFigiByTicker(instruments, Ticker)
  }

  /** A given figi needs no listing: the answer is the same whatever the listing. */
  lemma GivenFigiNeedsNoListing(figi: string, a: seq<TickerRow>, b: seq<TickerRow>)
    ensures GetFigi(Some(figi), a) == GetFigi(Some(figi), b) == Ok(Some(figi))
  {
  }

  /** The dictionary `get_rate_usd` returns. */
  datatype RateUsd = RateUsd(maxRate: Decimal, maxRateWithEma: Decimal, time: string)

  /** `get_rate_usd`: the last row of the frame `run` returns, its largest price, that
      price raised to the moving average and rounded, and its time as `showTime`
      renders it. `run` gives `None` after a request error (`None.iloc`,
      `AttributeError`); an empty frame has no last row (`IndexError`). */
  function GetRateUsd(frame: Option<seq<EmaRow>>, showTime: int -> string): (r: Result<RateUsd>)
    ensures frame.None? ==> r == Raise(AttributeError)
    ensures frame == Some([]) ==> r == Raise(IndexError)
    ensures frame.Some? && frame.value != [] ==>
              var data := frame.value[|frame.value| - 1];
              r.Ok? && r.value.time == showTime(data.time)
              && (r.value.maxRate == data.open || r.value.maxRate == data.close
                  || r.value.maxRate == data.high || r.value.maxRate == data.low)
              && r.value.maxRate.Value() >= data.open.Value() && r.value.maxRate.Value() >= data.close.Value()
              && r.value.maxRate.Value() >= data.high.Value() && r.value.maxRate.Value() >= data.low.Value()
              && r.value.maxRateWithEma.places == 2
              && Near(r.value.maxRateWithEma.Value(), MaxWithEma(r.value.maxRate.Value(), data.ema))
    ensures r.Ok? ==> r.value.maxRateWithEma.Value() >= r.value.maxRate.Value() - 0.005
  {
    match frame
    case None => Raise(AttributeError)
    case Some(rows) =>
      if rows == [] then Raise(IndexError)
      else
        var data := rows[|rows| - 1];
        Ok(RateUsd(MaxPrice(data), RateOf(data), showTime(data.time)))
  }

  /** Fed the frame of the later revision, the older rule reports the same rounded
      rate as `get_xrate_dict_format`. */
  lemma {:induction false} SameRateAsLaterRevision(cs: seq<HistoricCandle>, ema: seq<real> -> seq<Option<real>>,
                                                   showTime: int -> string)
    requires cs != []
    ensures GetRateUsd(GetXratesEmaDataframe(Some(cs), ema).value, showTime).Ok?
    ensures Some(GetRateUsd(GetXratesEmaDataframe(Some(cs), ema).value, showTime).value.maxRateWithEma.Value())
            == GetXrateDictFormat(Some(cs), ema, showTime).value.rate
  {
    var frame := GetXratesEmaDataframe(Some(cs), ema).value.value;
    var data := frame[|frame| - 1];
    assert GetRateUsd(Some(frame), showTime) == Ok(RateUsd(MaxPrice(data), RateOf(data), showTime(data.time)));
  }
}
