/** The Tinkoff Invest SDK records the candle code reads. */
module Invest {

  /** A price as whole `units` and billionths `nano`. */
  datatype Quotation = Quotation(units: int, nano: int)

  /** One hourly candle. `time` is the candle's instant in microseconds. */
  datatype HistoricCandle = HistoricCandle(
    open: Quotation, high: Quotation, low: Quotation, close: Quotation,
    volume: int, time: int)

  /** One row of the instrument catalogue: ticker, figi code, instrument kind, name. */
  datatype TickerRow = TickerRow(ticker: string, figi: string, kind: string, name: string)
}
