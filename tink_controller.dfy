/** `TinkoffDataFrameFormat` and `CandlesDataFrame` of `src/controllers/tink_controller.py`:
    lookups in the instrument catalogue and the reduction of hourly candles to the
    latest US-dollar rate. The exponential moving average of the `ta` library, the
    regular-expression engine and the Moscow-time formatting are parameters. */
module TinkController {
  import opened PyCore
  import opened Text
  import opened Numbers
  import opened Frames
  import opened Invest
  import opened Units

  /** `df[df['name'].str.match(rex_word) == True]`, where `matches` stands for the
      compiled expression matched at the start of a name. A frame built from an
      empty catalogue has no `name` column, so indexing it raises `KeyError`. */
  function GetTickerByRex(rows: seq<TickerRow>, matches: string -> bool): (r: Result<seq<TickerRow>>)
    ensures r.Raise? <==> rows == []
    ensures r.Raise? ==> r.exc == KeyError("name")
    ensures r.Ok? ==> forall k :: 0 <= k < |r.value| ==> matches(r.value[k].name) && r.value[k] in rows
    ensures r.Ok? ==> forall i :: 0 <= i < |rows| && matches(rows[i].name) ==> rows[i] in r.value
  {
    if rows == [] then Raise(KeyError("name"))
    else Ok(Filter(rows, (row: TickerRow) => matches(row.name)))
  }

  /** The search keeps catalogue order. */
  lemma GetTickerByRexAppend(a: seq<TickerRow>, b: seq<TickerRow>, matches: string -> bool)
    requires a != [] && b != []
    ensures GetTickerByRex(a + b, matches).value
            == GetTickerByRex(a, matches).value + GetTickerByRex(b, matches).value
  {
    FilterAppend(a, b, (row: TickerRow) => matches(row.name));
  }

  /** The figi of the first row whose ticker is exactly `ticker`, or `None`
      (an empty catalogue has no `ticker` column: `KeyError`). */
  function GetFigiByTicker(rows: seq<TickerRow>, ticker: string): (r: Result<Option<string>>)
    ensures r.Raise? <==> rows == []
    ensures r.Raise? ==> r.exc == KeyError("ticker")
    ensures r.Ok? ==> (r.value.None? <==> forall i :: 0 <= i < |rows| ==> rows[i].ticker != ticker)
    ensures r.Ok? && r.value.Some? ==>
              exists i :: FirstAt(rows, (row: TickerRow) => row.ticker == ticker, i) && rows[i].figi == r.value.value
  {
    if rows == [] then Raise(KeyError("ticker"))
    else
      match First(rows, (row: TickerRow) => row.ticker == ticker)
      case None => Ok(None)
      case Some(row) => Ok(Some(row.figi))
  }

  /** Rows before the first matching ticker never change the answer. */
  lemma {:induction false} FigiOfFirstMatch(before: seq<TickerRow>, row: TickerRow, after: seq<TickerRow>)
    requires forall i :: 0 <= i < |before| ==> before[i].ticker != row.ticker
    ensures GetFigiByTicker(before + [row] + after, row.ticker) == Ok(Some(row.figi))
  {
    var rows := before + [row] + after;
    var keep := (r: TickerRow) => r.ticker == row.ticker;
    assert rows[|before|] == row;
    var f := First(rows, keep);
    var i :| FirstAt(rows, keep, i) && rows[i].figi == f.value.figi;
  }

  /** The instrument listing of the test fixture up to the `CRM2` row. */
  function ListingHead(): seq<TickerRow> {
    [TickerRow("CoV2", "FUTCO1022000", "futures", "Co-10.22 Медь"),
     TickerRow("GDZ3", "FUTGOLD12230", "futures", "GOLD-12.23 Золото"),
     TickerRow("CFM2", "FUTUCHF06220", "futures", "UCHF-6.22 Курс доллар США - Швейцарский франк"),
     TickerRow("SGU2", "FUTSNGP09220", "futures", "SNGP-9.22 Сургутнефтегаз (привилегированные)"),
     TickerRow("MAM2", "FUTMMI062200", "futures", "MMI-6.22 Индекс Металлов и добычи"),
     TickerRow("RMZ2", "FUTRTSM12220", "futures", "RTSM-12.22 Индекс РТС (мини)"),
     TickerRow("MMZ5", "FUTMXI122500", "futures", "MXI-12.25 Индекс МосБиржи (мини)"),
     TickerRow("RIH2", "FUTRTS032200", "futures", "RTS-3.22 Индекс РТС"),
     TickerRow("BRU2", "FUTBR0922000", "futures", "BR-9.22 Нефть Brent"),
     TickerRow("PIM2", "FUTPIKK06220", "futures", "PIKK-6.22 ПИК"),
     TickerRow("GZM2", "FUTGAZR06220", "futures", "GAZR-6.22 Газпром"),
     TickerRow("SAH2", "FUTSUGR03220", "futures", "SUGR-3.22 Сахар")]
  }

  /** `CRM2` is the figi "FUTCNY062200", whatever instruments follow it. */
  lemma CrmFigiFixture(after: seq<TickerRow>)
    ensures GetFigiByTicker(ListingHead() + [TickerRow("CRM2", "FUTCNY062200", "futures", "CNY-6.22 Курс Юань - Рубль")] + after, "CRM2")
            == Ok(Some("FUTCNY062200"))
  {
    FigiOfFirstMatch(ListingHead(), TickerRow("CRM2", "FUTCNY062200", "futures", "CNY-6.22 Курс Юань - Рубль"), after);
  }

  /** One frame row of `create_df`. */
  datatype CandleRow = CandleRow(time: int, volume: int, open: Decimal, close: Decimal, high: Decimal, low: Decimal)

  /** The row for one candle: its prices cast to numbers, time and volume copied. */
  function ToRow(c: HistoricCandle): (r: CandleRow)
    ensures r.time == c.time && r.volume == c.volume
    ensures r.open.Value() == c.open.units as real + c.open.nano as real / 1000000000.0
    ensures r.close.Value() == c.close.units as real + c.close.nano as real / 1000000000.0
    ensures r.high.Value() == c.high.units as real + c.high.nano as real / 1000000000.0
    ensures r.low.Value() == c.low.units as real + c.low.nano as real / 1000000000.0
  {
    CandleRow(c.time, c.volume, CastMoney(c.open), CastMoney(c.close), CastMoney(c.high), CastMoney(c.low))
  }

  /** `create_df`: no candles give no frame, otherwise one row per candle, in order. */
  function CreateDf(candles: Option<seq<HistoricCandle>>): (r: Option<seq<CandleRow>>)
    ensures r.None? <==> candles.None?
    ensures r.Some? ==> |r.value| == |candles.value|
    ensures r.Some? ==> forall i :: 0 <= i < |r.value| ==> r.value[i] == ToRow(candles.value[i])
  {
    match candles
    case None => None
    case Some(cs) => Some(seq(|cs|, i requires 0 <= i < |cs| => ToRow(cs[i])))
  }

  /** The closing prices the moving average is computed over. */
  function Closes(rows: seq<CandleRow>): (r: seq<real>)
    ensures |r| == |rows| && forall i :: 0 <= i < |rows| ==> r[i] == rows[i].close.Value()
  {
    seq(|rows|, i requires 0 <= i < |rows| => rows[i].close.Value())
  }

  /** The moving average aligned to row `i`; a missing value is pandas' `NaN`. */
  function EmaAt(e: seq<Option<real>>, i: nat): Option<real> {
    if i < |e| then e[i] else None
  }

  /** One row of `get_xrates_ema_dataframe`. */
  datatype EmaRow = EmaRow(time: int, open: Decimal, close: Decimal, high: Decimal, low: Decimal, ema: Option<real>)

  /** The frame with the moving average attached to every row. */
  function WithEma(rows: seq<CandleRow>, e: seq<Option<real>>): (r: seq<EmaRow>)
    ensures |r| == |rows|
    ensures forall i :: 0 <= i < |rows| ==>
              r[i] == EmaRow(rows[i].time, rows[i].open, rows[i].close, rows[i].high, rows[i].low, EmaAt(e, i))
  {
    seq(|rows|, i requires 0 <= i < |rows| =>
      EmaRow(rows[i].time, rows[i].open, rows[i].close, rows[i].high, rows[i].low, EmaAt(e, i)))
  }

  /** The number of rows `get_xrates_ema_dataframe` keeps. */
  const TailRows: nat := 30

  /** `get_xrates_ema_dataframe` with `ema` the indicator over the closing prices
      (window 9). No candles give no frame; an empty candle list gives a frame
      without a `close` column (`KeyError`); otherwise the last thirty rows. */
  function GetXratesEmaDataframe(candles: Option<seq<HistoricCandle>>, ema: seq<real> -> seq<Option<real>>)
    : (r: Result<Option<seq<EmaRow>>>)
    ensures candles.None? ==> r == Ok(None)
    ensures candles == Some([]) ==> r == Raise(KeyError("close"))
    ensures candles.Some? && candles.value != [] ==> r.Ok? && r.value.Some?
    ensures r.Ok? && r.value.Some? ==>
              var cs := candles.value;
              var rows := r.value.value;
              LastRowsOf(rows, cs, ema(Closes(CreateDf(candles).value)))
  {
    if candles.None? then Ok(None)
    else if candles.value == [] then Raise(KeyError("close"))
    else
      var rows := CreateDf(candles).value;
      var e := ema(Closes(rows));
      TailWithEma(candles.value, rows, e);
      Ok(Some(Tail(WithEma(rows, e), TailRows)))
  }

  /** The frame row a candle becomes, with the moving average `e` at its position. */
  function RowFor(c: HistoricCandle, e: Option<real>): EmaRow {
    EmaRow(c.time, CastMoney(c.open), CastMoney(c.close), CastMoney(c.high), CastMoney(c.low), e)
  }

  /** `frame` holds the rows of the last thirty candles of `cs` (all of them when
      there are fewer), with the moving average `e` aligned to the candles. */
  predicate LastRowsOf(frame: seq<EmaRow>, cs: seq<HistoricCandle>, e: seq<Option<real>>) {
    |frame| == (if |cs| < TailRows then |cs| else TailRows)
    && forall k :: 0 <= k < |frame| ==> frame[k] == RowFor(cs[|cs| - |frame| + k], EmaAt(e, |cs| - |frame| + k))
  }

  /** The rows kept by `tail` are the frame rows of the last candles. */
  lemma TailWithEma(cs: seq<HistoricCandle>, rows: seq<CandleRow>, e: seq<Option<real>>)
    requires |rows| == |cs| && forall i :: 0 <= i < |rows| ==> rows[i] == ToRow(cs[i])
    ensures LastRowsOf(Tail(WithEma(rows, e), TailRows), cs, e)
  {
    var w := WithEma(rows, e);
    var t := Tail(w, TailRows);
    forall k | 0 <= k < |t| ensures t[k] == RowFor(cs[|cs| - |t| + k], EmaAt(e, |cs| - |t| + k)) {
      var i := |cs| - |t| + k;
      assert t[k] == w[i];
      assert rows[i] == ToRow(cs[i]);
      assert w[i] == EmaRow(rows[i].time, rows[i].open, rows[i].close, rows[i].high, rows[i].low, EmaAt(e, i));
    }
  }

  /** Python's `max(a, b)`: the first argument unless the second is strictly larger. */
  function MaxFirst(a: Decimal, b: Decimal): (r: Decimal)
    ensures r == a || r == b
    ensures r.Value() >= a.Value() && r.Value() >= b.Value()
    ensures r == b ==> b.Value() > a.Value() || a == b
  {
    if b.Value() > a.Value() then b else a
  }

  /** `max(open, close, high, low)` of a row: a largest price, the first one on ties. */
  function MaxPrice(row: EmaRow): (r: Decimal)
    ensures r == row.open || r == row.close || r == row.high || r == row.low
    ensures r.Value() >= row.open.Value() && r.Value() >= row.close.Value()
    ensures r.Value() >= row.high.Value() && r.Value() >= row.low.Value()
  {
    MaxFirst(MaxFirst(MaxFirst(row.open, row.close), row.high), row.low)
  }

  /** `max(max_rate, ema)`: comparisons with `NaN` are false, so a missing average
      leaves the price. */
  function MaxWithEma(x: real, e: Option<real>): (r: real)
    ensures r >= x && (e.Some? ==> r >= e.value)
    ensures r == x || (e.Some? && r == e.value)
  {
    match e
    case None => x
    case Some(v) => if v > x then v else x
  }

  /** The three-line report of the latest candle. */
  function XRateMessage(maxRate: Decimal, withEma: Decimal, when: string): (m: string)
    ensures '\n' !in when ==>
              Split(m, '\n') == ["USD   : " + ShowDecimal(maxRate), "USD ema: " + ShowDecimal(withEma), "Update : " + when, "", ""]
  {
    var price, average, update := "USD   : " + ShowDecimal(maxRate), "USD ema: " + ShowDecimal(withEma), "Update : " + when;
    var m := price + "\n" + average + "\n" + update + "\n" + "\n";
    if '\n' !in when then
      ReportLines(price, average, update, ShowDecimal(maxRate), ShowDecimal(withEma), when);
      m
    else m
  }

  /** `v` is, up to the half-hundredth of rounding, the largest of the candle's four
      prices and its moving average when there is one. */
  predicate RoundedHighest(v: real, c: HistoricCandle, e: Option<real>) {
    v >= CastMoney(c.open).Value() - 0.005 && v >= CastMoney(c.close).Value() - 0.005
    && v >= CastMoney(c.high).Value() - 0.005 && v >= CastMoney(c.low).Value() - 0.005
    && (e.Some? ==> v >= e.value - 0.005)
    && (Near(v, CastMoney(c.open).Value()) || Near(v, CastMoney(c.close).Value())
        || Near(v, CastMoney(c.high).Value()) || Near(v, CastMoney(c.low).Value())
        || (e.Some? && Near(v, e.value)))
  }

  
  /** `round(max(max(open, close, high, low), ema), 2)`. */
  function RateOf(data: EmaRow): (d: Decimal)
    ensures d.places == 2
  {
    Round2(MaxWithEma(MaxPrice(data).Value(), data.ema))
  }

  /** The rounded rate of a row is its largest value, to the hundredth. */
  lemma RateOfRow(c: HistoricCandle, e: Option<real>)
    ensures RoundedHighest(RateOf(RowFor(c, e)).Value(), c, e)
  {
    var data := RowFor(c, e);
    var m := MaxPrice(data);
    var w := MaxWithEma(m.Value(), data.ema);
    assert -0.005 <= RateOf(data).Value() - w <= 0.005;
  }

  /** `get_xrate_dict_format`: the largest price of the latest candle, raised to its
      moving average when that is higher, rounded to hundredths, and the report;
      `showTime` renders a candle time in Moscow time. The frame is never `None` once
      there are candles, so the source's second `(None, None)` branch cannot be taken. */
  function GetXrateDictFormat(candles: Option<seq<HistoricCandle>>, ema: seq<real> -> seq<Option<real>>,
                              showTime: int -> string): (r: Result<RatePair>)
    ensures candles.None? ==> r == Ok(RatePair(None, None))
    ensures candles == Some([]) ==> r == Raise(KeyError("close"))
    ensures candles.Some? && candles.value != [] ==>
              r.Ok? && r.value.rate.Some? && r.value.message.Some?
              && RoundedHighest(r.value.rate.value, candles.value[|candles.value| - 1],
                                EmaAt(ema(Closes(CreateDf(candles).value)), |candles.value| - 1))
    ensures candles.Some? && candles.value != [] ==>
              var last := candles.value[|candles.value| - 1];
              var data := RowFor(last, EmaAt(ema(Closes(CreateDf(candles).value)), |candles.value| - 1));
              r.Ok? && r.value.message == Some(XRateMessage(MaxPrice(data), RateOf(data), showTime(last.time)))
  {
    if candles.None? then Ok(RatePair(None, None))
    else if candles.value == [] then Raise(KeyError("close"))
    else
      var cs := candles.value;
      var e := ema(Closes(CreateDf(candles).value));
      var frame := GetXratesEmaDataframe(candles, ema).value.value;
      var data := frame[|frame| - 1];
      assert data == RowFor(cs[|cs| - 1], EmaAt(e, |cs| - 1));
      RateOfRow(cs[|cs| - 1], EmaAt(e, |cs| - 1));
      Ok(RatePair(Some(RateOf(data).Value()), Some(XRateMessage(MaxPrice(data), RateOf(data), showTime(data.time)))))
  }

  /** The three report lines hold no line break of their own. */
  lemma ReportLines(price: string, average: string, update: string, maxShown: string, emaShown: string, when: string)
    requires AllNumeral(maxShown) && AllNumeral(emaShown) && '\n' !in when
    requires price == "USD   : " + maxShown && average == "USD ema: " + emaShown && update == "Update : " + when
    ensures Split(price + "\n" + average + "\n" + update + "\n" + "\n", '\n') == [price, average, update, "", ""]
  {
    TaggedNumeral("USD   : ", maxShown);
    TaggedNumeral("USD ema: ", emaShown);
    ThreeLinesBlank(price, average, update);
  }

  /** The report has exactly four line breaks when the rendered time has none. */
  lemma {:induction false} XRateMessageNewlines(maxRate: Decimal, withEma: Decimal, when: string)
    requires '\n' !in when
    ensures CountChar(XRateMessage(maxRate, withEma, when), '\n') == 4
  {
    SplitCount(XRateMessage(maxRate, withEma, when), '\n');
  }

  /** Whatever the candles, the report has four line breaks (the time is rendered on
      one line). */
  lemma DictFormatNewlines(candles: seq<HistoricCandle>, ema: seq<real> -> seq<Option<real>>, showTime: int -> string)
    requires candles != []
    requires forall t :: '\n' !in showTime(t)
    ensures CountChar(GetXrateDictFormat(Some(candles), ema, showTime).value.message.value, '\n') == 4
  {
    var frame := GetXratesEmaDataframe(Some(candles), ema).value.value;
    var data := frame[|frame| - 1];
    XRateMessageNewlines(MaxPrice(data), RateOf(data), showTime(data.time));
  }

  /** The last candle of the test fixture: open 35690, high 35839, low 35690,
      close 35839. */
  function FixtureCandle(time: int): HistoricCandle {
    HistoricCandle(Quotation(35690, 0), Quotation(35839, 0), Quotation(35690, 0), Quotation(35839, 0), 8, time)
  }

  /** The reported rate is the rounded rate of the last candle's row. */
  lemma LastCandleRate(cs: seq<HistoricCandle>, ema: seq<real> -> seq<Option<real>>, showTime: int -> string)
    requires cs != []
    ensures GetXrateDictFormat(Some(cs), ema, showTime).value.rate
            == Some(RateOf(RowFor(cs[|cs| - 1], EmaAt(ema(Closes(CreateDf(Some(cs)).value)), |cs| - 1))).Value())
  {
    var frame := GetXratesEmaDataframe(Some(cs), ema).value.value;
    assert frame[|frame| - 1] == RowFor(cs[|cs| - 1], EmaAt(ema(Closes(CreateDf(Some(cs)).value)), |cs| - 1));
  }

  /** The highest price of the fixture candle is 35839 and it rounds to itself. */
  lemma FixtureRate(time: int)
    ensures RateOf(RowFor(FixtureCandle(time), None)).Value() == 35839.0
  {
    var data := RowFor(FixtureCandle(time), None);
    assert MaxPrice(data).Value() == 35839.0;
    RoundExact(3583900);
    assert RateOf(data) == Decimal(3583900, 2);
  }

  /** The moving average is undefined at every candle (the empty series stands for the
      NaN `ta` gives while fewer candles than its window exist), so the reported rate
      is the highest price of the last candle, 35839.0, whatever candles precede it. */
  lemma DictFormatFixture(earlier: seq<HistoricCandle>, time: int, showTime: int -> string)
    ensures GetXrateDictFormat(Some(earlier + [FixtureCandle(time)]), (closes: seq<real>) => [], showTime).value.rate
            == Some(35839.0)
  {
    var cs := earlier + [FixtureCandle(time)];
    LastCandleRate(cs, (closes: seq<real>) => [], showTime);
    FixtureRate(time);
  }
}
