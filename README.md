# Telebot for banks rates — a Dafny model of the rate logic

The bot tells a chat user how many Russian roubles a Thai baht costs. It gets the
price from two legs:

- the US-dollar price in baht, from Bangkok Bank's "TT" rate;
- the US-dollar price in roubles, from the latest hourly Tinkoff candle, raised to
  its moving average.

It charges three fee percentages on the cross rate and reports the rate with and
without a two-percent margin. It also converts amounts typed in the chat.

The repository holds three revisions of this logic, and each one is modelled:

- **Current `src/` tree:**
  - `convertor.py`: a cache entry per leg behind a staleness gate, and the fee
    arithmetic.
  - `bkkb_controller.py` and `http_bkkb_utils.py`: the bank's records and its 401 →
    bad-auth rule.
  - `tink_controller.py`: candle reduction and instrument lookups.
  - The two leg controllers in `usd_contollers/`.
- **Root revision:**
  - `convertor.py`: zero-sentinel legs, a memoised rate and an hourly reset.
  - `bangkok_request.py`: `None` where the later revision raises, and the raw rate
    text.
  - `tinkoff_request.py`: figi lookup and the candle rule.
  - `units.py`: money helpers and the staleness predicate.
  - `telebot_client_base.py`: the chat amount parser.
- **Oldest revision:** `main_body.py`, with no memo and no zero guard.

## How the model is built

**Leaf modules (Python semantics):**

- `PyCore`: Python's exceptions become the `Raise` case of a `Result`. Dynamically
  typed fields become `PyValue`.
- `Numbers`:
  - A printed float is an exact `Decimal(digits, places)`.
  - `round(x, 2)` is `Round2`: the nearest hundredth of the exact real, with ties to
    even.
  - `str(x)` of a float is `ShowDecimal`; `float(s)` is `ParseFloat`.
- `Text`: ASCII case mapping, `split`/`join` and substring search.
- `Frames`: the row filters of pandas used here.

**Data and time:**

- Bank answers and candles are values: `BankApi`, `HistoricCandle`.
- Time is an integer number of microseconds, the resolution of `timedelta`.

**Parameters:**

- the wall clock;
- the staleness threshold;
- the fee percentages;
- the moving average (`ta.trend.ema_indicator`);
- the Moscow-time formatting of a candle time.

**Imperative parts:** the objects whose fields the source updates are classes:
`ValueRate`, `ValueData` and the three `ExchangeConvertor`s. Each method's `ensures`
says what every field it may change ends up holding, in terms of the old state and of
the fetched answers. Scenario methods build an object, run the methods the tests run, and
state the outcome.

**Shared code:** `create_df` of the root `tinkoff_request.py` (lines 83-93) builds the same
rows as the current `create_df`, and its `cast_money` (lines 96-97) is the one in `units.py`.
`TinkController.CreateDf` and `Units.CastMoney` model both revisions.

## Model

| member | source | states |
|---|---|---|
| Convertor.ThbRub | src/controllers/convertor.py:35-40 | the fee-adjusted baht-per-rouble ratio has two places and lies within half a hundredth of thb/rub·(1−raif/100)·(1−swift/100)·(1−thb_ex/100) |
| Convertor.RubThbOf | src/controllers/convertor.py:31-41 | `rub_thb` is the integer 0 iff a leg is 0 (nothing is divided); TypeError iff a nonzero leg is `None`; ZeroDivisionError iff the rounded ratio is 0; otherwise a two-place float within half a hundredth of 1 / rounded ratio |
| Convertor.RubThbZdvOf | src/controllers/convertor.py:43-45 | `rub_thb_zdv` fails exactly when `rub_thb` does, with the same exception; otherwise it has two places and is near `rub_thb`·1.02 |
| Convertor.ExchangeMessage | src/controllers/convertor.py:114-116 | the report's lines are "RUB / THB   : " and the printed rate, "RUB / THB*  : " and the printed margin rate, and one empty line |
| Convertor.ZeroGuard | src/controllers/convertor.py:33-34 | a zero leg gives 0 and 0.00 whatever the other leg and the fees |
| Convertor.EqualLegsNoFees | tests/controllers/test_convertor.py:12-15 | legs 30 and 30 with no fees give 1.00 and, with the margin, 1.02 |
| Convertor.ValueRate.constructor | src/controllers/convertor.py:17-29 | the legs and fees are stored as given |
| Convertor.ValueData.constructor | src/controllers/convertor.py:49-52 | a fresh entry holds 0 and "" and was last refreshed one day before `now` |
| Convertor.ValueData.TimeUpdate | src/controllers/convertor.py:54-59 | due iff the gate holds for the elapsed time; the refresh time becomes `now` exactly when due; rate and message are untouched |
| Convertor.FreshGateTwice | tests/controllers/test_convertor.py:18-26 | a fresh entry is due at once under any threshold below a day, and an immediate second check is not due |
| Convertor.ExchangeConvertor.constructor | src/controllers/convertor.py:67-73 | two distinct fresh entries and a zero `ValueRate` |
| Convertor.ExchangeConvertor.GetUsdRubData | src/controllers/convertor.py:75-84 | not due: `None`, and nothing changes. Due: the refresh time moves; a raise propagates; a bare `None` raises TypeError; a pair overwrites rate and message, and the entry is returned |
| Convertor.ExchangeConvertor.GetUsdThbData | src/controllers/convertor.py:86-94 | as written: when due, the refresh time moves and TypeError is raised (the controller is built without `conf`); otherwise the entry is returned unchanged |
| Convertor.ExchangeConvertor.GetUsdRubDataFixed | src/controllers/convertor.py:82-84 | corrected leg: a refused token keeps the cached rate and message instead of raising |
| Convertor.ExchangeConvertor.GetUsdThbDataFixed | src/controllers/convertor.py:92-94 | corrected leg: it fetches through a configured controller; a refused token keeps the cache; the entry is always returned unless the fetch raises |
| Convertor.ExchangeConvertor.GetThbRubRate | src/controllers/convertor.py:96-104 | both cached rates are copied into `money`, the fees are kept, and the answer is (`rub_thb`, `rub_thb_zdv`) or `rub_thb`'s exception |
| Convertor.ExchangeConvertor.GetExchangeMessageRubThb | src/controllers/convertor.py:106-117 | baht leg, then rouble leg, then arithmetic. A due baht leg raises before the rouble leg is touched. Otherwise the rouble leg follows its gate; a raising or empty rouble fetch raises and leaves `money`'s legs as they were; else the result is the margin rate with the two-line report |
| Convertor.ExchangeConvertor.GetExchangeMessageFixed | src/controllers/convertor.py:106-117 | the same report over the two corrected legs; each leg is refreshed when due and otherwise keeps its cache; a raising fetch raises and leaves `money`'s legs as they were |
| Convertor.EqualLegsRate | tests/controllers/test_convertor.py:59-64 | cached legs of 30 with no fees: `get_thb_rub_rate` answers (1.00, 1.02) |
| Convertor.RecentRubLegUntouched | tests/controllers/test_convertor.py:29-34 | a rouble leg refreshed within the threshold is not fetched and keeps 0 and "" |
| Convertor.RecentLegsReport | tests/controllers/test_convertor.py:67-77 | both legs recent at 30 with no fees: the report gives 1.02 and neither leg changes |
| Convertor.DueThbLegRaises | src/controllers/convertor.py:92-93 | as written, a due baht leg makes the report raise TypeError whatever the rouble leg says; the baht rate is kept |
| Convertor.RefusedRubLegRaises | src/controllers/convertor.py:82-83 | as written, a refused token on a due rouble leg makes the report raise TypeError |
| Convertor.FixedLegsRefresh | src/controllers/convertor.py:106-117 | corrected legs that are due take the fetched pairs: 30 and 30 give 1.02, and the legs hold the fetched messages |
| Convertor.FixedLegsKeepCacheOnRefusal | src/controllers/convertor.py:106-117 | corrected legs with refused tokens keep serving the cached 30 and 30, giving 1.02 |
| BkkbHttp.CheckStatus | src/utils/http_bkkb_utils.py:19-22 | it raises iff the status is 401, as BadAuth carrying the reason; any other response is handed back unchanged |
| BkkbHttp.Decorated | src/utils/http_bkkb_utils.py:15-22 | the wrapped request is applied to the forwarded arguments, and its response is classified by the 401 rule |
| BkkbHttp.MessageIrrelevant | src/utils/http_bkkb_utils.py:15-20 | the log label never changes the outcome |
| BkkbHttp.DecoratedDependsOnResponse | src/utils/http_bkkb_utils.py:17-18 | a decorated call depends only on the response to the forwarded arguments |
| BankRecords.UpdateFromBody | src/controllers/bkkb_controller.py:46-56 | empty body: IndexError; no `Day`: AttributeError; fewer than two '/': IndexError; otherwise day, month and year (no '/' inside) and `Time` copied verbatim |
| BankRecords.UpdateFromDayFields | src/controllers/bkkb_controller.py:46-56 | a `D/M/Y` day splits back into exactly D, M and Y |
| BankRecords.UpdateFixture | tests/conftest.py:19-24 | "24/04/2023" at "09:10     " gives ("24", "04", "2023", "09:10     ") |
| BankRecords.SwapDateTwice | src/controllers/bkkb_controller.py:128-130 | the displayed date B/A/C splits into three fields, and swapping it again restores A/B/C |
| BankRecords.SwapDay | src/controllers/bkkb_controller.py:128-130 | a date D/M/Y splits into D, M and Y and is displayed as M/D/Y |
| BankRecords.RateMessage | src/controllers/bkkb_controller.py:134-136 | without line breaks in its parts, the message's lines are the rate line, the update line of time and date, and two empty lines |
| BankRecords.DatedMessage | src/controllers/bkkb_controller.py:128-136 | a rate reported on D/M/Y reads, line by line, the rate, the time with M/D/Y, and two empty lines |
| BankRecords.FamilyByDescription | src/controllers/bkkb_controller.py:82-91 | `None` iff no description equals the currency; otherwise the family of the first row whose description does |
| BankRecords.FamilyOfFirstMatch | src/controllers/bkkb_controller.py:82-88 | rows before the first exact description never change the answer |
| BankRecords.LowerRows | src/controllers/bkkb_controller.py:103 | every description is lowercased, row for row |
| BankRecords.CloseFamilies | src/controllers/bkkb_controller.py:103-106 | every row kept contains the lowercased keyword, and no more rows than the catalogue |
| BankRecords.CloseFamiliesComplete | src/controllers/bkkb_controller.py:103-106 | every row whose lowercased description contains the lowercased keyword is kept, lowercased |
| BankRecords.CloseFamiliesSound | src/controllers/bkkb_controller.py:103-106 | every kept row is a lowercased catalogue row |
| BankRecords.CloseFamiliesAppend | src/controllers/bkkb_controller.py:105-106 | the filter keeps catalogue order: it distributes over concatenation |
| BankRecords.CloseFamiliesEmpty | src/controllers/bkkb_controller.py:105-106 | the result is empty iff no lowercased description contains the keyword |
| BkkbController.FormatUpdateData | src/controllers/bkkb_controller.py:34-56 | 401 raises BadAuth with the reason; otherwise the answer is the split of the first record |
| BkkbController.FormatAllValuesFamily | src/controllers/bkkb_controller.py:25-27 | it raises iff 401, and then BadAuth carrying the reason; otherwise the catalogue as it came |
| BkkbController.FormatGetFamilyByCurrency | src/controllers/bkkb_controller.py:73-91 | 401 raises BadAuth carrying the reason; an empty catalogue raises KeyError("Description"); otherwise the first exact-description lookup |
| BkkbController.FormatGetCloseFamiliesByRegName | src/controllers/bkkb_controller.py:93-109 | 401 raises BadAuth carrying the reason; an empty catalogue raises KeyError; otherwise the lowercased containment filter |
| BkkbController.RateFromRecord | src/controllers/bkkb_controller.py:127-137 | no `Ddate`: AttributeError; no rate field: TypeError; unreadable: ValueError; then IndexError iff the date has fewer than two '/'; otherwise exactly the `float` of the field and the message of its printed value, the time and the date with its first two parts swapped |
| BkkbController.DatedRecord | src/controllers/bkkb_controller.py:127-137 | a readable record dated D/M/Y gives the `float` of its field and the message dated M/D/Y |
| BkkbController.FormatGetXRate | src/controllers/bkkb_controller.py:111-137 | a missing date or family gives (None, None); a 401 raises BadAuth; an empty chart gives (None, None); otherwise the pair of the last record |
| BkkbController.NoRequestWithoutInput | src/controllers/bkkb_controller.py:121-122 | without a date or a family the answer does not depend on the bank |
| BkkbController.OnlyLastRecordCounts | src/controllers/bkkb_controller.py:127 | records before the last one never change the result |
| BkkbController.ChartReport | src/controllers/bkkb_controller.py:126-137 | for every chart whose last record is dated D/M/Y with a readable rate, `format_get_x_rate` gives that rate and a message whose lines are "THB         : " and the printed rate, "Update: " and the time and M/D/Y, and two empty lines |
| BkkbController.UsdRecordFixture | tests/conftest.py:166-176 | "81.75        " dated "04/03/2023" gives 81.75 and "THB         : 81.75\nUpdate:  03/04/2023\n\n" |
| BkkbController.MessageFixture | src/controllers/bkkb_controller.py:134-137 | the fixture record's rate and swapped date in the three-line message |
| BkkbController.RateFieldFixture | tests/conftest.py:171 | `float` reads the space-padded field "81.75        " as 81.75 |
| BkkbController.LaosKipFixture | tests/controllers/test_bkkb_controller.py:34-37 | "Laos Kip" is the family "LAK" in the fixture catalogue, whatever rows follow it |
| TinkController.GetTickerByRex | src/controllers/tink_controller.py:27-34 | an empty listing raises KeyError("name"); otherwise exactly the rows whose name matches: every kept row matches, and every matching row is kept |
| TinkController.GetTickerByRexAppend | src/controllers/tink_controller.py:34 | the search keeps listing order |
| TinkController.GetFigiByTicker | src/controllers/tink_controller.py:36-49 | an empty listing raises KeyError("ticker"); `None` iff no ticker equals the input; otherwise the figi of the first row that does |
| TinkController.FigiOfFirstMatch | src/controllers/tink_controller.py:42-47 | rows before the first matching ticker never change the answer |
| TinkController.CrmFigiFixture | tests/controllers/test_tink_controller.py:67-69 | CRM2 in the fixture listing is FUTCNY062200 |
| TinkController.ToRow | src/controllers/tink_controller.py:73-80 | time and volume are copied; each price is units + nano/10⁹ |
| TinkController.CreateDf | src/controllers/tink_controller.py:64-81 | `None` iff no candles; otherwise one row per candle, in order |
| TinkController.Closes | src/controllers/tink_controller.py:92 | the closing prices of the rows, in order |
| TinkController.WithEma | src/controllers/tink_controller.py:92 | every row gets the moving-average value at its own position (`NaN` beyond the series) |
| TinkController.GetXratesEmaDataframe | src/controllers/tink_controller.py:83-94 | no candles give `None`; an empty list raises KeyError("close"); otherwise the rows of the last min(n, 30) candles, each with its aligned average |
| TinkController.TailWithEma | src/controllers/tink_controller.py:94 | `tail(30)` keeps exactly the rows of the last candles |
| TinkController.MaxFirst | src/controllers/tink_controller.py:110 | Python's `max` of two: one of them, at least both, and the first on ties |
| TinkController.MaxPrice | src/controllers/tink_controller.py:110 | one of the four prices, and at least each of them |
| TinkController.MaxWithEma | src/controllers/tink_controller.py:111 | the price or the average, at least both; a missing average (`NaN`) leaves the price |
| TinkController.RateOf | src/controllers/tink_controller.py:111 | the rounded rate has two places |
| TinkController.RateOfRow | src/controllers/tink_controller.py:109-111 | within half a hundredth, the rate is the largest of the four prices and the average |
| TinkController.XRateMessage | src/controllers/tink_controller.py:115-118 | when the time has no line break, the report's lines are the printed rate, the printed rate with the average, the Moscow time, and two empty lines |
| TinkController.GetXrateDictFormat | src/controllers/tink_controller.py:96-120 | no candles give (None, None); an empty list raises KeyError; otherwise a rate near the largest value of the last candle and its average, and the report of that candle's maximum, that rate and its time |
| TinkController.XRateMessageNewlines | src/controllers/tink_controller.py:115-118 | the report has exactly four line breaks when the time has none |
| TinkController.DictFormatNewlines | tests/controllers/test_tink_controller.py:109-115 | whatever the candles, the message has four line breaks |
| TinkController.LastCandleRate | src/controllers/tink_controller.py:109-111 | the reported rate is the rounded rate of the last candle's row |
| TinkController.FixtureRate | tests/conftest.py:200-201 | the fixture candle's highest price is 35839, and it rounds to itself |
| TinkController.DictFormatFixture | tests/controllers/test_tink_controller.py:109-117 | with the average undefined at every candle (the NaN `ta` gives before its window fills), the rate is the last candle's highest price, 35839.0, whatever candles precede it |
| UsdControllers.GetUsdToThbRates | src/controllers/usd_contollers/bangkok_usd_thb_controller.py:15-22 | `None` iff the update request is refused; other errors propagate; a refused chart request raises BadAuth (it is outside the `try`); an empty chart gives (None, None); otherwise the last record's pair |
| UsdControllers.MapSome | src/controllers/usd_contollers/bangkok_usd_thb_controller.py:22 | a returned pair as an answer, errors unchanged |
| UsdControllers.ThbChartIrrelevantOnBadAuth | src/controllers/usd_contollers/bangkok_usd_thb_controller.py:17-21 | after a refused update request the chart is never read, and the answer is `None` |
| UsdControllers.GetUsdLastRate | src/controllers/usd_contollers/tinkoff_usd_rub_controller.py:19-32 | `None` iff the candle fetch raises bad-auth; other errors propagate; no candles give (None, None), distinct from `None`; otherwise exactly `get_xrate_dict_format`'s answer: the rounded rate of the last candle's row, near its highest value, and the report of that row's maximum, rate and time |
| Units.BuyRubKnowingRub | units.py:5-6 | raises ZeroDivisionError iff the rate is 0; otherwise two places, within half a hundredth of value/rate |
| Units.BuyRubKnowingThb | units.py:9-10 | two places, within half a hundredth of value·rate |
| Units.CastMoney | units.py:13-19 | nine places, exactly units + nano/10⁹ |
| Units.IsTimeToUpdate | units.py:22-29 | an update is due under one second and beyond ten; it is not due iff 1 s ≤ elapsed ≤ 10 s |
| Units.BuyRubKnowingRubExamples | tests/utils/test_calculation_utils.py:10-14 | 10/2 = 5.00; 10/20 = 0.50; rate 0 raises |
| Units.BuyRubKnowingThbExamples | tests/utils/test_calculation_utils.py:17-20 | 10·2 = 20.00; 0·2 = 0.00; 10·0.25 = 2.50 |
| Units.CastMoneyExamples | tests/utils/test_calculation_utils.py:23-29 | (250, 850000000) is 250.85; (0, 150) is 0.00000015 |
| TinkoffRequest.GetFigi | tinkoff_request.py:23-45 | a given figi is returned unchanged; otherwise the first `USD000UTSTOM` figi, `None` iff there is none, or KeyError for an empty listing |
| TinkoffRequest.GivenFigiNeedsNoListing | tinkoff_request.py:23-25 | a given figi needs no listing: the answer is the same for every listing |
| TinkoffRequest.GetRateUsd | tinkoff_request.py:69-80 | `None` from `run()` raises AttributeError; an empty frame raises IndexError; otherwise `max_rate` is one of the four prices and at least each, and `max_rate_with_ema` has two places and is near max(max_rate, ema) |
| TinkoffRequest.SameRateAsLaterRevision | tinkoff_request.py:70-72 | fed the later revision's frame, the root rule reports the same rounded rate as `get_xrate_dict_format` |
| LegacyConvertor.ToFloat | convertor.py:62 | `float(v)`: `None` raises TypeError; numbers are kept; a string is parsed, ValueError iff it is unreadable |
| LegacyConvertor.ToFloatShown | convertor.py:62 | a printed number reads back through `float` as itself |
| LegacyConvertor.Ratio | convertor.py:62-63 | a zero baht leg gives a zero ratio; with no fees the ratio times the rouble leg is the baht leg |
| LegacyConvertor.LegacyRate | convertor.py:57-65 | conversion errors come first, then a zero rouble leg divides by zero; with both legs readable and the rouble leg nonzero, the result is a value iff the ratio is nonzero, and ZeroDivisionError otherwise; a value has two places within half a hundredth of 1/ratio (the ratio is not rounded) |
| LegacyConvertor.ZeroThbLegDivides | convertor.py:62-65 | a zero baht leg divides by zero however the rouble leg reads |
| LegacyConvertor.ExchangeConvertor.constructor | convertor.py:12-21 | everything zero or empty; the reset clock is `now` |
| LegacyConvertor.ExchangeConvertor.GetUsdRubData | convertor.py:23-32 | it fetches only when the rouble leg is 0, otherwise nothing changes; a bare `None` raises TypeError; it returns True |
| LegacyConvertor.ExchangeConvertor.GetUsdThbData | convertor.py:34-43 | it skips only when the baht leg is nonzero and its message non-empty; otherwise the same fetch rule |
| LegacyConvertor.ExchangeConvertor.GetThbRubRate | convertor.py:45-66 | a no-op once `rub_thb` ≠ 0; otherwise it fetches the zero legs, baht first, and sets `rub_thb` to the legacy rate under the given fees (defaults 3.0, 0.21, 2.257); a raise leaves `rub_thb` unchanged |
| LegacyConvertor.ExchangeConvertor.GetExchangeMessageRubThb | convertor.py:68-78 | the margin rate has two places and is near `rub_thb`·1.02; the message reports both |
| LegacyConvertor.ExchangeConvertor.ResetRateData | convertor.py:80-92 | returns True; after more than 1 h 1 min it clears all five fields, otherwise it changes nothing; the reset clock is never moved |
| LegacyConvertor.RateIsMemoised | convertor.py:55-56 | once a rate is computed from positive legs, a second call answers the same whatever a fetch would say |
| LegacyConvertor.ResetBoundary | convertor.py:85-86 | at exactly 1 h 1 min nothing is cleared; a moment later the leg is 0; the clock stays |
| MainBody.ExchangeConvertor.constructor | main_body.py:29-36 | both legs 0 and both messages empty |
| MainBody.ExchangeConvertor.GetUsdRubData | main_body.py:38-47 | it fetches only when the rouble leg is 0; a bare `None` raises TypeError; the other leg is untouched |
| MainBody.ExchangeConvertor.GetUsdThbData | main_body.py:49-58 | it skips only when the baht leg is nonzero and its message non-empty |
| MainBody.ExchangeConvertor.GetThbRubRate | main_body.py:60-79 | it fetches the zero legs, then raises exactly when the legacy rate does; otherwise (the legacy rate recomputed on every call, its margin rate with two places near ·1.02) |
| MainBody.ExchangeConvertor.GetExchangeMessageRubThb | main_body.py:81-90 | the margin rate of the default-fee rate, and the two-line report of both |
| MainBody.ZeroRubLegDivides | main_body.py:69-75 | with no zero guard, a rouble leg that reads 0 makes the rate raise ZeroDivisionError |
| MainBody.BuyRubKnowingRub | main_body.py:93-94 | ZeroDivisionError iff the rate is 0; otherwise the result times the rate is the value (no rounding) |
| MainBody.BuyRubKnowingThb | main_body.py:97-98 | the result divided by a nonzero rate is the value; a zero value or rate gives 0 |
| MainBody.BuyRoundTrip | main_body.py:93-98 | the two unrounded helpers undo each other at a nonzero rate |
| BangkokRequest.CheckStatus | bangkok_request.py:30-40 | `None` iff the status is 401; otherwise the response itself |
| BangkokRequest.FormatUpdateData | bangkok_request.py:125-146 | `None` iff 401; otherwise the split of the first record, with the same failures |
| BangkokRequest.FormatAllValuesFamily | bangkok_request.py:148-163 | `None` iff 401; otherwise the catalogue |
| BangkokRequest.FormatGetFamilyByCurrency | bangkok_request.py:165-183 | a `None` catalogue raises AttributeError; an empty one raises KeyError; otherwise `None` iff no exact description, and the first match otherwise |
| BangkokRequest.FormatGetCloseFamiliesByRegName | bangkok_request.py:185-201 | a `None` catalogue raises TypeError; an empty one raises KeyError; otherwise the lowercased containment filter |
| BangkokRequest.RawField | bangkok_request.py:224 | a missing field is `None`; otherwise the field's raw text |
| BangkokRequest.RawRateFromRecord | bangkok_request.py:221-232 | no `Ddate`: AttributeError; fewer than two '/': IndexError, and only these two; otherwise the raw, unconverted rate and the message of the rate text, the time and the date with its first two parts swapped |
| BangkokRequest.RawDatedRecord | bangkok_request.py:221-232 | a record dated D/M/Y gives its raw rate and the message dated M/D/Y |
| BangkokRequest.FormatGetXRate | bangkok_request.py:203-232 | a single `None` for a missing date or family; a single `None` iff the chart is refused; an empty chart raises IndexError; otherwise the last record's raw pair |
| BangkokRequest.RawChartReport | bangkok_request.py:221-232 | for every accepted chart whose last record is dated D/M/Y, the answer is its raw rate and a message whose lines are "THB         : " and the rate text, "Update: " and the time and M/D/Y, and two empty lines |
| BangkokRequest.GetUsdToThbRates | bangkok_request.py:235-246 | a refused update request gives `None`; update errors propagate; otherwise the `USD50` rate for that update |
| BangkokRequest.OnlyUsdChartCounts | bangkok_request.py:242-246 | two banks that answer the `USD50` chart alike give the same rates: no other family is ever asked |
| BangkokRequest.RawRateReadsAsRate | bangkok_request.py:221-232 | read through `float`, the raw rate of a well-printed field is the rate the later revision converts, and the two messages are equal |
| TelebotClient.DigitPrefix | telebot_client_base.py:89 | the longest run of digits the text starts with |
| TelebotClient.DigitPrefixOf | telebot_client_base.py:89 | digits followed by a non-digit: those digits are the prefix |
| TelebotClient.DropFinalNewline | telebot_client_base.py:89 | the text, or the text without one final line break (`$` matches before it) |
| TelebotClient.ParseAmount | telebot_client_base.py:89 | a found pair of groups is a match of `^(\d+)(THB\|RUB\|)$` |
| TelebotClient.AmountAccepted | telebot_client_base.py:89-91 | the parser finds groups iff the expression matches |
| TelebotClient.ParseAmountComplete | telebot_client_base.py:89-97 | the parser finds exactly the groups of every match |
| TelebotClient.GetMoneyValue | telebot_client_base.py:82-110 | "END" in any case, and only it, ends the dialogue. Otherwise: no match gives "Incorrect Input" and waits; THB converts at round(value·rate, 2); RUB or no suffix at round(value/rate, 2), and rate 0 raises. Every amount waits for the next one |
| TelebotClient.RubReply | telebot_client_base.py:101-103 | two lines: "I will convert RUB to THB", then the amount, "RUB = ", the printed baht value and "THB" |
| TelebotClient.ThbReply | telebot_client_base.py:104-106 | two lines: "I will convert THB to RUB", then the amount, "THB = ", the printed rouble value and "RUB" |
| TelebotClient.IncorrectInput | telebot_client_base.py:89-94 | text that is not END and matches nothing is refused |
| TelebotClient.RubAmount | telebot_client_base.py:96-103 | a rouble amount, or one with no suffix, is converted to baht |
| TelebotClient.ThbAmount | telebot_client_base.py:96-106 | a baht amount is converted to roubles |
| TelebotClient.ThbAmountFixture | telebot_client_base.py:104-106 | "100thb" at 2.5 replies "I will convert THB to RUB\n100THB = 250.0RUB" |
| Numbers.Round2 | src/controllers/convertor.py:41 | `round(x, 2)` has two places and lies within half a hundredth of x |
| Numbers.ParseShowDecimal | src/controllers/bkkb_controller.py:129 | a printed float reads back through `float()` as the same number |
| Numbers.ShowDecimal | src/controllers/bkkb_controller.py:134 | `str` of a float is nonempty, made of digits, `.` and `-`, starts with a digit or `-` and ends in a digit |
| Numbers.ParseFloatSpells | src/controllers/bkkb_controller.py:129 | `float(s)` reads d iff s without surrounding whitespace is an optional sign, digits, and an optional point with more digits (at least one digit in all) whose value is d |

## Left out

- The HTTP and SDK clients and their network I/O. The bank's three answers are the value `BankApi`. A candle fetch, a listing or a leg fetch is an input:
  - `src/clients/*`;
  - `BKKBClient` of `bangkok_request.py`;
  - `run()` of `tinkoff_request.py`, with its `RequestError` printing.
- `src/utils/http_tink_utils.py` and the SDK account probe it makes. It appears only as a candle fetch that may raise bad-auth.
- The moving average of the `ta` library is a function parameter over the closing prices. The pytz and `strftime` rendering of a candle time is a parameter too.
- Floating point is modelled as exact reals. Python's `round(x, 2)` is modelled as the real nearest hundredth with ties to even. IEEE-754 results and exponent notation in `str(float)` are left out.
- `src/utils/calculation_utils.py` and `src/controllers/const.py` are not part of this model. The staleness test and the three fees are parameters.
- Convertor.IsRefreshDue: the current gate is "elapsed > threshold", because `is_time_to_update` of `calculation_utils` is not available. The test in `tests/utils/test_calculation_utils.py:32-35` expects a just-stamped time not to be due. That is not the "under one second is due" rule of the root `units.py`, which `Units.IsTimeToUpdate` models as written.
- The wall clock is an integer argument. So is each method's `now`.
- `convertor.py` and `main_body.py` import `LastUSDToRUBRates` from `tinkoff_request.py`, which does not define it. Importing them raises ImportError. The model treats their legs as inputs.
- TelebotClient.GetMoneyValue: `rate` is the module-level global that `handle_message` sets. That step, its float extraction and the NameError when no rate was set are left out.
- TelebotClient.ParseAmount: `\d` is ASCII digits and `upper()` is ASCII uppercasing. Unicode digits and case mappings are left out.
- The chat and web wiring is left out, apart from the next step `get_money_value` asks for:
  - bot handlers and message sending;
  - Flask routes;
  - logging and configuration;
  - pandas display options.
- Convertor.RubThbOf: the source's `0` for a zero leg is the integer `Int(0)`, printed "0". A cache entry's initial rate `0` is modelled as the float `0.0`, which compares equal to it.
- The date fields, descriptions and rates of the Bangkok Bank records are strings; the model does not use pandas `NaN` or mixed column types.
- `get_ticker_by_rex` treats its regular expression as a predicate on names, applied at the start of a name.
- BankRecords.CloseFamilies: the keyword is searched for as literal text. The source matches the regular expression `((.*)(keyword).*)` with `str.match` (`src/controllers/bkkb_controller.py:106`, `bangkok_request.py:198`). So a keyword with expression syntax behaves otherwise there: `dollar|kip` is an alternation, the `.` of `d.llar` matches any character, an unbalanced `(` raises `re.error`, and `.` does not cross a line break inside a description.
- BankRecords.LowerRows: only ASCII capitals are lowercased. Python's `str.lower` maps every Unicode capital; the model leaves non-ASCII letters as they are.
- Numbers.ParseFloat: it reads an optional sign, digits and at most one point, after stripping ASCII whitespace. Python's `float` also accepts an exponent (`1e5`), `inf`, `infinity` and `nan` in any case, underscores between digits (`1_000`), non-ASCII digits and Unicode whitespace; the model reads all of these as unreadable (ValueError).

## Findings

| source | as written | input that shows it | evidently intended | confidence | as-written member | corrected member |
|---|---|---|---|---|---|---|
| src/controllers/convertor.py:93 | `LastUSDToTHBRates()` is built without the `conf` argument its `__init__` requires (`bangkok_usd_thb_controller.py:10`), so every due baht refresh raises TypeError, and the report fails | a fresh `ExchangeConvertor` and any call to `get_exchange_message_rub_thb` | the baht leg is fetched through a configured controller | not executed | Convertor.DueThbLegRaises | Convertor.FixedLegsRefresh |
| src/controllers/convertor.py:83 | the pair from `get_usd_last_rate()` is unpacked into two fields; a refused token returns a bare `None`, and unpacking it raises TypeError | a due rouble leg whose token is refused | a refused token keeps the cached rate and message | not executed | Convertor.RefusedRubLegRaises | Convertor.FixedLegsKeepCacheOnRefusal |
