/** `BKKBDataFrameFormat` of `src/controllers/bkkb_controller.py`: it reads the Bangkok
    Bank API through three `check_status`-decorated getters and reshapes the answers.
    The HTTP client is not part of this model: the three answers are the fields of a
    `BankApi` value, the chart answer a function of the date and family asked for. */
module BkkbController {
  import opened PyCore
  import opened Text
  import opened Numbers
  import opened Frames
  import opened BkkbHttp
  import opened BankRecords

  /** What the bank answers to the three requests. */
  datatype BankApi = BankApi(
    lastUpdate: Response<seq<Record>>,
    families: Response<seq<FamilyRow>>,
    chart: (UpdateDate, string) -> Response<seq<Record>>)

  /** `get_last_update`, then the day, month, year and time of the first record. */
  function FormatUpdateData(api: BankApi): (r: Result<UpdateDate>)
    ensures api.lastUpdate.status == Unauthorized ==> r == Raise(BadAuth(api.lastUpdate.reason))
    ensures api.lastUpdate.status != Unauthorized ==> r == UpdateFromBody(api.lastUpdate.body)
  {
    var resp :- CheckStatus("GETTING LAST RATES UPDATE FAILED :", api.lastUpdate);
    UpdateFromBody(resp.body)
  }

  /** `get_all_values_family` as a frame of catalogue rows. */
  function FormatAllValuesFamily(api: BankApi): (r: Result<seq<FamilyRow>>)
    ensures r.Raise? <==> api.families.status == Unauthorized
    ensures api.families.status == Unauthorized ==> r == Raise(BadAuth(api.families.reason))
    ensures r.Ok? ==> r.value == api.families.body
  {
    var resp :- CheckStatus("GETTING INNER FAMILY VALUE DATA FAILED :", api.families);
    Ok(resp.body)
  }

  /** The family code of the first catalogue row whose description is exactly
      `currency`, or `None`. A frame built from an empty catalogue has no
      `Description` column, so indexing it raises `KeyError`. */
  function FormatGetFamilyByCurrency(api: BankApi, currency: string): (r: Result<Option<string>>)
    ensures api.families.status == Unauthorized ==> r == Raise(BadAuth(api.families.reason))
    ensures api.families.status != Unauthorized && api.families.body == [] ==> r == Raise(KeyError("Description"))
    ensures api.families.status != Unauthorized && api.families.body != [] ==>
              r == Ok(FamilyByDescription(api.families.body, currency))
  {
    var rows :- FormatAllValuesFamily(api);
    if rows == [] then Raise(KeyError("Description"))
    else Ok(FamilyByDescription(rows, currency))
  }

  /** The catalogue rows whose lowercased description contains the lowercased keyword,
      in catalogue order and with their descriptions lowercased. */
  function FormatGetCloseFamiliesByRegName(api: BankApi, keyword: string): (r: Result<seq<FamilyRow>>)
    ensures api.families.status == Unauthorized ==> r == Raise(BadAuth(api.families.reason))
    ensures api.families.status != Unauthorized && api.families.body == [] ==> r == Raise(KeyError("Description"))
    ensures api.families.status != Unauthorized && api.families.body != [] ==>
              r == Ok(CloseFamilies(api.families.body, keyword))
  {
    var rows :- FormatAllValuesFamily(api);
    if rows == [] then Raise(KeyError("Description"))
    else Ok(CloseFamilies(rows, keyword))
  }

  /** The rate and message of the last chart record. Python evaluates, in this order,
      `.get('Ddate').split('/')` (a missing date raises `AttributeError`),
      `float(.get(rate_info))` (a missing field raises `TypeError`, an unreadable one
      `ValueError`) and the swapped date (fewer than three parts raise `IndexError`). */
  function RateFromRecord(rec: Record, rateInfo: string): (r: Result<RatePair>)
    ensures "Ddate" !in rec ==> r == Raise(AttributeError)
    ensures "Ddate" in rec && rateInfo !in rec ==> r == Raise(TypeError)
    ensures "Ddate" in rec && rateInfo in rec && ParseFloat(rec[rateInfo]).None? ==> r == Raise(ValueError)
    ensures r.Ok? ==> rateInfo in rec && ParseFloat(rec[rateInfo]).Some?
                       && r.value.rate == Some(ParseFloat(rec[rateInfo]).value.Value())
    ensures "Ddate" in rec && rateInfo in rec && ParseFloat(rec[rateInfo]).Some? ==>
              (r == Raise(IndexError) <==> CountChar(rec["Ddate"], '/') < 2)
              && (CountChar(rec["Ddate"], '/') >= 2 ==>
                    |Split(rec["Ddate"], '/')| >= 3
                    && r == Ok(RatePair(Some(ParseFloat(rec[rateInfo]).value.Value()),
                                     Some(RateMessage(ShowDecimal(ParseFloat(rec[rateInfo]).value),
                                                      ShowOptional(Get(rec, "DTime")),
                                                      SwapDate(Split(rec["Ddate"], '/')))))))
  {
    match Get(rec, "Ddate")
    case None => Raise(AttributeError)
    case Some(ddate) =>
      var date := Split(ddate, '/');
      SplitCount(ddate, '/');
      match Get(rec, rateInfo)
      case None => Raise(TypeError)
      case Some(field) =>
        match ParseFloat(field)
        case None => Raise(ValueError)
        case Some(rate) =>
          if |date| < 3 then Raise(IndexError)
          else
            var time := ShowOptional(Get(rec, "DTime"));
            Ok(RatePair(Some(rate.Value()), Some(RateMessage(ShowDecimal(rate), time, SwapDate(date)))))
  }

  /** A record dated `D/M/Y` with a readable rate is reported at that rate, in the
      message dated `M/D/Y`. */
  lemma DatedRecord(rec: Record, rateInfo: string, day: string, month: string, year: string)
    requires '/' !in day && '/' !in month && '/' !in year
    requires "Ddate" in rec && rec["Ddate"] == day + "/" + month + "/" + year
    requires rateInfo in rec && ParseFloat(rec[rateInfo]).Some?
    ensures RateFromRecord(rec, rateInfo)
            == Ok(RatePair(Some(ParseFloat(rec[rateInfo]).value.Value()),
                           Some(RateMessage(ShowDecimal(ParseFloat(rec[rateInfo]).value), ShowOptional(Get(rec, "DTime")),
                                            month + "/" + day + "/" + year))))
  {
    SwapDay(rec["Ddate"], day, month, year);
    SplitCount(rec["Ddate"], '/');
  }

  /** `format_get_x_rate(date_list, family, rate_info="TT")`. */
  function FormatGetXRate(api: BankApi, dateList: Option<UpdateDate>, family: Option<string>,
                          rateInfo: string := "TT"): (r: Result<RatePair>)
    ensures dateList.None? || family.None? ==> r == Ok(RatePair(None, None))
    ensures dateList.Some? && family.Some? ==>
              var resp := api.chart(dateList.value, family.value);
              (resp.status == Unauthorized ==> r == Raise(BadAuth(resp.reason)))
              && (resp.status != Unauthorized && resp.body == [] ==> r == Ok(RatePair(None, None)))
              && (resp.status != Unauthorized && resp.body != [] ==>
                    r == RateFromRecord(resp.body[|resp.body| - 1], rateInfo))
  {
    if dateList.None? || family.None? then Ok(RatePair(None, None))
    else
      var resp :- CheckStatus("GETTING RATE FOR CURRENCY IS FAILED :", api.chart(dateList.value, family.value));
      if |resp.body| == 0 then Ok(RatePair(None, None))
      else RateFromRecord(resp.body[|resp.body| - 1], rateInfo)
  }

  /** Without a date or a family no request is made: the answer does not depend on
      what the bank would have said. */
  lemma NoRequestWithoutInput(a: BankApi, b: BankApi, dateList: Option<UpdateDate>, family: Option<string>)
    requires dateList.None? || family.None?
    ensures FormatGetXRate(a, dateList, family) == FormatGetXRate(b, dateList, family)
  {
  }

  /** Only the last chart record counts: records before it never change the result. */
  lemma {:induction false} OnlyLastRecordCounts(api: BankApi, d: UpdateDate, f: string, earlier: seq<Record>, last: Record)
    requires api.chart(d, f).status != Unauthorized && api.chart(d, f).body == earlier + [last]
    ensures FormatGetXRate(api, Some(d), Some(f)) == RateFromRecord(last, "TT")
  {
    var body := earlier + [last];
    assert body[|body| - 1] == last;
  }

  /** A readable last chart record dated `D/M/Y` is what `format_get_x_rate` reports:
      its rate, and a message whose lines are the printed rate, the update time with
      the date swapped to `M/D/Y`, and two empty lines. */
  lemma ChartReport(api: BankApi, d: UpdateDate, f: string, rateInfo: string,
                    day: string, month: string, year: string)
    requires api.chart(d, f).status != Unauthorized && api.chart(d, f).body != []
    requires var rec := api.chart(d, f).body[|api.chart(d, f).body| - 1];
             "Ddate" in rec && rec["Ddate"] == day + "/" + month + "/" + year
             && rateInfo in rec && ParseFloat(rec[rateInfo]).Some?
             && '\n' !in ShowOptional(Get(rec, "DTime"))
    requires '/' !in day && '/' !in month && '/' !in year
    requires '\n' !in day && '\n' !in month && '\n' !in year
    ensures var rec := api.chart(d, f).body[|api.chart(d, f).body| - 1];
            var r := FormatGetXRate(api, Some(d), Some(f), rateInfo);
            r.Ok? && r.value.rate == Some(ParseFloat(rec[rateInfo]).value.Value())
            && r.value.message.Some?
            && Split(r.value.message.value, '\n')
               == ["THB         : " + ShowDecimal(ParseFloat(rec[rateInfo]).value),
                   "Update: " + ShowOptional(Get(rec, "DTime")) + " " + (month + "/" + day + "/" + year), "", ""]
  {
    var rec := api.chart(d, f).body[|api.chart(d, f).body| - 1];
    var rate := ShowDecimal(ParseFloat(rec[rateInfo]).value);
    DatedRecord(rec, rateInfo, day, month, year);
    NumeralHasNoNewline(rate);
    DatedMessage(rate, ShowOptional(Get(rec, "DTime")), rec["Ddate"], day, month, year);
  }

  /** The "TT" field of the US-dollar fixture: "81.75        " dated "04/03/2023",
      reported as 81.75 on "03/04/2023". */
  lemma UsdRecordFixture()
    ensures RateFromRecord(map["Family" := "USD50", "TT" := "81.75        ", "Ddate" := "04/03/2023", "DTime" := ""], "TT")
            == Ok(RatePair(Some(81.75), Some("THB         : 81.75\nUpdate:  03/04/2023\n\n")))
  {
    var rec := map["Family" := "USD50", "TT" := "81.75        ", "Ddate" := "04/03/2023", "DTime" := ""];
    var rate := Decimal(8175, 2);
    assert Get(rec, "Ddate") == Some("04/03/2023");
    assert Get(rec, "TT") == Some("81.75        ");
    assert Get(rec, "DTime") == Some("");
    RateFieldFixture();
    DateFixture();
    assert RateFromRecord(rec, "TT")
           == Ok(RatePair(Some(rate.Value()), Some(RateMessage(ShowDecimal(rate), "", SwapDate(["04", "03", "2023"])))));
    MessageFixture();
  }

  /** The fixture's rate printed and its date swapped into the report. */
  lemma MessageFixture()
    ensures Decimal(8175, 2).Value() == 81.75
    ensures RateMessage(ShowDecimal(Decimal(8175, 2)), "", SwapDate(["04", "03", "2023"]))
            == "THB         : 81.75\nUpdate:  03/04/2023\n\n"
  {
    assert Pow10(2) == 100.0;
    ShowFixture();
    SwapFixture();
    MessageText();
  }

  /** The fixture's date with day and month swapped. */
  lemma SwapFixture()
    ensures SwapDate(["04", "03", "2023"]) == "03/04/2023"
  {
  }

  /** The report text of the fixture. */
  lemma MessageText()
    ensures RateMessage("81.75", "", "03/04/2023") == "THB         : 81.75\nUpdate:  03/04/2023\n\n"
  {
  }

  /** `float("81.75        ")` is 81.75. */
  lemma RateFieldFixture()
    ensures ParseFloat("81.75        ") == Some(Decimal(8175, 2))
  {
    PaddedFieldFixture();
    StripTrailingSpaces("81.75", 8);
    ParseFixture();
  }

  /** The fixture's rate field is the numeral padded with eight spaces. */
  lemma PaddedFieldFixture()
    ensures "81.75        " == "81.75" + Spaces(8)
  {
  }

  /** The stripped numeral reads as 81.75. */
  lemma ParseFixture()
    ensures ParseNumeral("81.75") == Some(Decimal(8175, 2))
  {
    ParseShownUnsigned("81", "75");
    assert "81" + "." + "75" == "81.75";
    DigitsFixture();
  }

  /** The digits of the numeral denote 8175 hundredths. */
  lemma DigitsFixture()
    ensures DigitsValue("81" + "75") == 8175
  {
    assert "81" + "75" == "8175";
    assert "8175"[..3] == "817" && "817"[..2] == "81" && "81"[..1] == "8" && "8"[..0] == "";
  }

  /** The fixture's date splits into its three fields. */
  lemma DateFixture()
    ensures Split("04/03/2023", '/') == ["04", "03", "2023"]
  {
    Join3("04", "03", "2023");
    SplitJoin(["04", "03", "2023"], '/');
    assert "04" + "/" + "03" + "/" + "2023" == "04/03/2023";
  }

  /** 81.75 prints as itself. */
  lemma ShowFixture()
    ensures ShowDecimal(Decimal(8175, 2)) == "81.75"
  {
    NormalFixture();
    PaddedFixture();
    var p := PaddedDigits(Decimal(8175, 2));
    assert p[..|p| - 2] == "81" && p[|p| - 2..] == "75";
  }

  /** 8175 hundredths have no trailing zero to strip. */
  lemma NormalFixture()
    ensures Normalize(Decimal(8175, 2)) == Decimal(8175, 2)
  {
  }

  /** The digits of 8175 hundredths, already wide enough. */
  lemma PaddedFixture()
    ensures PaddedDigits(Decimal(8175, 2)) == "8175"
  {
    NumeralFixture();
    assert Zeros(0) == [];
    assert [] + "8175" == "8175";
  }

  /** The digits of 8175 as text. */
  lemma NumeralFixture()
    ensures NatToString(8175) == "8175"
  {
    assert NatToString(8) == "8";
    assert NatToString(81) == "81";
    assert NatToString(817) == "817";
  }

  /** The family catalogue of the test fixture up to the Laos Kip row. */
  function CatalogueHead(): seq<FamilyRow> {
    [FamilyRow("USD1", "US Dollar 1-2"), FamilyRow("USD5", "US Dollar 5-20"),
     FamilyRow("USD50", "US Dollar 50-100"), FamilyRow("GBP", "Pound Sterling"),
     FamilyRow("EUR", "Euro"), FamilyRow("JPY", "Japanese Yen"),
     FamilyRow("HKD", "Hong Kong Dollar"), FamilyRow("MYR", "Malaysian Ringgit"),
     FamilyRow("SGD", "Singapore Dollar"), FamilyRow("BND", "Brunei Dollar"),
     FamilyRow("CNY", "Chinese Yuan"), FamilyRow("IDR", "Indonesian Rupiah"),
     FamilyRow("MMK", "Myanmar Kyat"), FamilyRow("INR", "Indian Rupee"),
     FamilyRow("KRW", "Korean Won")]
  }

  /** "Laos Kip" is the family "LAK", whatever rows follow it in the catalogue. */
  lemma LaosKipFixture(api: BankApi, after: seq<FamilyRow>)
    requires api.families.status != Unauthorized
    requires api.families.body == CatalogueHead() + [FamilyRow("LAK", "Laos Kip")] + after
    ensures FormatGetFamilyByCurrency(api, "Laos Kip") == Ok(Some("LAK"))
  {
    FamilyOfFirstMatch(CatalogueHead(), FamilyRow("LAK", "Laos Kip"), after);
  }
}
