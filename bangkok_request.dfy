/** The root-level `bangkok_request.py`, the older Bangkok Bank controller. Its
    `check_status` is a plain function that turns a 401 answer into `None`, so the
    `format_*` methods answer `None` where the later revision raises; the rate of
    `format_get_x_rate` is the raw text of the record and every failure of the
    inputs or of the request collapses into one bare `None`. The bank's answers are
    the `BankApi` value of the later revision. */
module BangkokRequest {
  import opened PyCore
  import opened Text
  import opened Numbers
  import opened BkkbHttp
  import opened BankRecords
  import opened BkkbController
  import opened LegacyConvertor

  /** `check_status(response, msg)`: `None` on 401, the response itself otherwise. */
  function CheckStatus<B>(resp: Response<B>, msg: string): (r: Option<Response<B>>)
    ensures r.None? <==> resp.status == Unauthorized
    ensures r.Some? ==> r.value == resp
  {
    if resp.status == Unauthorized then None else Some(resp)
  }

  /** `format_update_data`: `None` on 401, otherwise the day, month, year and time of
      the first record, with the same failures as the later revision. */
  function FormatUpdateData(api: BankApi): (r: Result<Option<UpdateDate>>)
    ensures r == Ok(None) <==> api.lastUpdate.status == Unauthorized
    ensures api.lastUpdate.status != Unauthorized ==>
              (r.Raise? <==> UpdateFromBody(api.lastUpdate.body).Raise?)
              && (r.Raise? ==> r.exc == UpdateFromBody(api.lastUpdate.body).exc)
              && (r.Ok? ==> r.value == Some(UpdateFromBody(api.lastUpdate.body).value))
  {
    match CheckStatus(api.lastUpdate, "GETTING LAST RATES UPDATE FAILED :")
    case None => Ok(None)
    case Some(resp) =>
      var update :- UpdateFromBody(resp.body);
      Ok(Some(update))
  }

  /** `format_all_values_family`: the catalogue, or `None` on 401. */
  function FormatAllValuesFamily(api: BankApi): (r: Option<seq<FamilyRow>>)
    ensures r.None? <==> api.families.status == Unauthorized
    ensures r.Some? ==> r.value == api.families.body
  {
    match CheckStatus(api.families, "GETTING INNER FAMILY VALUE DATA FAILED :")
    case None => None
    case Some(resp) => Some(resp.body)
  }

  /** `format_get_family_by_currency`: the first exact-description match, or `None`.
      A `None` catalogue has no `.loc` (`AttributeError`); an empty one has no
      `Description` column (`KeyError`). */
  function FormatGetFamilyByCurrency(api: BankApi, currency: string): (r: Result<Option<string>>)
    ensures api.families.status == Unauthorized ==> r == Raise(AttributeError)
    ensures api.families.status != Unauthorized && api.families.body == [] ==> r == Raise(KeyError("Description"))
    ensures api.families.status != Unauthorized && api.families.body != [] ==>
              r.Ok? && (r.value.None? <==> forall i :: 0 <= i < |api.families.body| ==>
                                             api.families.body[i].description != currency)
    ensures r.Ok? ==> r.value == FamilyByDescription(api.families.body, currency)
  {
    match FormatAllValuesFamily(api)
    case None => Raise(AttributeError)
    case Some(rows) =>
      if rows == [] then Raise(KeyError("Description"))
      else Ok(FamilyByDescription(rows, currency))
  }

  /** `format_get_close_families_by_reg_name`: the lowercased rows whose description
      contains the lowercased keyword. A `None` catalogue cannot be subscripted
      (`TypeError`); an empty one has no `Description` column (`KeyError`). */
  function FormatGetCloseFamiliesByRegName(api: BankApi, keyword: string): (r: Result<seq<FamilyRow>>)
    ensures api.families.status == Unauthorized ==> r == Raise(TypeError)
    ensures api.families.status != Unauthorized && api.families.body == [] ==> r == Raise(KeyError("Description"))
    ensures r.Ok? ==> api.families.body != [] && r.value == CloseFamilies(api.families.body, keyword)
    ensures api.families.status != Unauthorized && api.families.body != [] ==>
              r == Ok(CloseFamilies(api.families.body, keyword))
  {
    match FormatAllValuesFamily(api)
    case None => Raise(TypeError)
    case Some(rows) =>
      if rows == [] then Raise(KeyError("Description"))
      else Ok(CloseFamilies(rows, keyword))
  }

  /** The text a dynamically typed field holds: a missing one is `None`. */
  function RawField(v: Option<string>): (r: PyValue)
    ensures v.None? <==> r.PyNone?
    ensures v.Some? ==> r == PyStr(v.value)
  {
    match v
    case None => PyNone
    case Some(s) => PyStr(s)
  }

  /** The last chart record as the old leg pair: the raw `rate_info` field, not
      converted to a number, and the message with the swapped date. A missing `Ddate`
      raises `AttributeError`, a date of fewer than three parts `IndexError`. */
  function RawRateFromRecord(rec: Record, rateInfo: string): (r: Result<Leg>)
    ensures "Ddate" !in rec ==> r == Raise(AttributeError)
    ensures "Ddate" in rec ==> (r.Raise? <==> CountChar(rec["Ddate"], '/') < 2)
    ensures r.Raise? ==> r.exc == AttributeError || r.exc == IndexError
    ensures r.Ok? ==> r.value.rate == RawField(Get(rec, rateInfo))
    ensures r.Ok? ==> "Ddate" in rec && |Split(rec["Ddate"], '/')| >= 3
                      && r.value.message == Some(RateMessage(ShowOptional(Get(rec, rateInfo)), ShowOptional(Get(rec, "DTime")),
                                                           SwapDate(Split(rec["Ddate"], '/'))))
  {
    match Get(rec, "Ddate")
    case None => Raise(AttributeError)
    case Some(ddate) =>
      var date := Split(ddate, '/');
      SplitCount(ddate, '/');
      if |date| < 3 then Raise(IndexError)
      else
        var rate := Get(rec, rateInfo);
        var time := ShowOptional(Get(rec, "DTime"));
        Ok(Leg(RawField(rate), Some(RateMessage(ShowOptional(rate), time, SwapDate(date)))))
  }

  /** A record dated `D/M/Y` is reported with its raw rate text, in the message dated
      `M/D/Y`. */
  lemma RawDatedRecord(rec: Record, rateInfo: string, day: string, month: string, year: string)
    requires '/' !in day && '/' !in month && '/' !in year
    requires "Ddate" in rec && rec["Ddate"] == day + "/" + month + "/" + year
    ensures RawRateFromRecord(rec, rateInfo)
            == Ok(Leg(RawField(Get(rec, rateInfo)),
                      Some(RateMessage(ShowOptional(Get(rec, rateInfo)), ShowOptional(Get(rec, "DTime")),
                                       month + "/" + day + "/" + year))))
  {
    SwapDay(rec["Ddate"], day, month, year);
    SplitCount(rec["Ddate"], '/');
  }

  /** `format_get_x_rate`: a bare `None` when the date or family is missing (no request
      is made) or the chart request is refused; an empty chart has no last record
      (`IndexError`); otherwise the raw pair of the last record. */
  function FormatGetXRate(api: BankApi, dateList: Option<UpdateDate>, family: Option<string>,
                          rateInfo: string := "TT"): (r: Result<Option<Leg>>)
    ensures dateList.None? || family.None? ==> r == Ok(None)
    ensures dateList.Some? && family.Some? ==>
              var resp := api.chart(dateList.value, family.value);
              (resp.status == Unauthorized <==> r == Ok(None))
              && (resp.status != Unauthorized && resp.body == [] ==> r == Raise(IndexError))
              && (resp.status != Unauthorized && resp.body != [] ==>
                    var last := RawRateFromRecord(resp.body[|resp.body| - 1], rateInfo);
                    (r.Raise? <==> last.Raise?) && (r.Raise? ==> r.exc == last.exc)
                    && (r.Ok? ==> r.value == Some(last.value)))
  {
    if dateList.None? || family.None? then Ok(None)
    else
      match CheckStatus(api.chart(dateList.value, family.value), "GETTING RATE FOR CURENCY IS FAILED :")
      case None => Ok(None)
      case Some(resp) =>
        if |resp.body| == 0 then Raise(IndexError)
        else
          var leg :- RawRateFromRecord(resp.body[|resp.body| - 1], rateInfo);
          Ok(Some(leg))
  }

  /** A last chart record dated `D/M/Y` is what `format_get_x_rate` reports: its raw
      rate, and a message whose lines are the rate text, the update time with the
      date swapped to `M/D/Y`, and two empty lines. */
  lemma RawChartReport(api: BankApi, d: UpdateDate, f: string, rateInfo: string,
                       day: string, month: string, year: string)
    requires api.chart(d, f).status != Unauthorized && api.chart(d, f).body != []
    requires var rec := api.chart(d, f).body[|api.chart(d, f).body| - 1];
             "Ddate" in rec && rec["Ddate"] == day + "/" + month + "/" + year
             && '\n' !in ShowOptional(Get(rec, rateInfo)) && '\n' !in ShowOptional(Get(rec, "DTime"))
    requires '/' !in day && '/' !in month && '/' !in year
    requires '\n' !in day && '\n' !in month && '\n' !in year
    ensures var rec := api.chart(d, f).body[|api.chart(d, f).body| - 1];
            var r := FormatGetXRate(api, Some(d), Some(f), rateInfo);
            r.Ok? && r.value.Some? && r.value.value.rate == RawField(Get(rec, rateInfo))
            && r.value.value.message.Some?
            && Split(r.value.value.message.value, '\n')
               == ["THB         : " + ShowOptional(Get(rec, rateInfo)),
                   "Update: " + ShowOptional(Get(rec, "DTime")) + " " + (month + "/" + day + "/" + year), "", ""]
  {
    var rec := api.chart(d, f).body[|api.chart(d, f).body| - 1];
    RawDatedRecord(rec, rateInfo, day, month, year);
    DatedMessage(ShowOptional(Get(rec, rateInfo)), ShowOptional(Get(rec, "DTime")), rec["Ddate"], day, month, year);
  }

  /** The family this revision always asks for. */
  const UsdFamily: string := "USD50"

  /** `LastUSDToTHBRates.get_usd_to_thb_rates`: the last update, then the `USD50`
      rate for it. A refused update request becomes a missing date, and so `None`. */
  function GetUsdToThbRates(api: BankApi): (r: Result<Option<Leg>>)
    ensures api.lastUpdate.status == Unauthorized ==> r == Ok(None)
    ensures FormatUpdateData(api).Raise? ==> r == Raise(FormatUpdateData(api).exc)
    ensures FormatUpdateData(api).Ok? && FormatUpdateData(api).value.Some? ==>
              r == FormatGetXRate(api, FormatUpdateData(api).value, Some(UsdFamily))
  {
    var update :- FormatUpdateData(api);
    FormatGetXRate(api, update, Some(UsdFamily))
  }

  /** The family does not depend on the update: two banks that answer the same to
      the `USD50` chart request give the same rates. */
  lemma OnlyUsdChartCounts(a: BankApi, b: BankApi)
    requires a.lastUpdate == b.lastUpdate
    requires forall d :: a.chart(d, UsdFamily) == b.chart(d, UsdFamily)
    ensures GetUsdToThbRates(a) == GetUsdToThbRates(b)
  {
    var u := FormatUpdateData(a);
    assert u == FormatUpdateData(b);
    if u.Ok? && u.value.Some? {
      SameChartSameRate(a, b, u.value.value);
    }
  }

  /** Two banks that answer one chart request alike give the same rate for it. */
  lemma SameChartSameRate(a: BankApi, b: BankApi, d: UpdateDate)
    requires a.chart(d, UsdFamily) == b.chart(d, UsdFamily)
    ensures FormatGetXRate(a, Some(d), Some(UsdFamily)) == FormatGetXRate(b, Some(d), Some(UsdFamily))
  {
  }

  /** The raw rate of this revision reads, through `float()`, as the rate the later
      revision converts at once, and both revisions print the same message. */
  lemma RawRateReadsAsRate(rec: Record)
    requires "Ddate" in rec && CountChar(rec["Ddate"], '/') >= 2
    requires "TT" in rec && ParseFloat(rec["TT"]).Some?
    requires ShowDecimal(ParseFloat(rec["TT"]).value) == rec["TT"]
    ensures RawRateFromRecord(rec, "TT").Ok? && RateFromRecord(rec, "TT").Ok?
    ensures ToFloat(RawRateFromRecord(rec, "TT").value.rate) == Ok(RateFromRecord(rec, "TT").value.rate.value)
    ensures RawRateFromRecord(rec, "TT").value.message == RateFromRecord(rec, "TT").value.message
  {
    SplitCount(rec["Ddate"], '/');
  }
}
