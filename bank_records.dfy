/** The Bangkok Bank JSON records both revisions of the bank controller read: the
    last-update record, the rows of a rate chart and the currency-family catalogue. */
module BankRecords {
  import opened PyCore
  import opened Text
  import opened Frames

  /** A JSON object with string fields. */
  type Record = map<string, string>

  /** Python `record.get(key)`. */
  function Get(r: Record, key: string): (v: Option<string>)
    ensures v.Some? <==> key in r
    ensures v.Some? ==> v.value == r[key]
  {
    if key in r then Some(r[key]) else None
  }

  /** The dictionary `format_update_data` returns. */
  datatype UpdateDate = UpdateDate(day: string, month: string, year: string, lastTimeUpdate: Option<string>)

  /** One row of the family catalogue. */
  datatype FamilyRow = FamilyRow(family: string, description: string)

  /** `json()[0].get("Day").split('/')` into day, month and year, and `.get("Time")`:
      an empty body raises `IndexError`, a missing `Day` raises `AttributeError`
      (`None.split`), and a day with fewer than three parts raises `IndexError`. */
  function UpdateFromBody(body: seq<Record>): (r: Result<UpdateDate>)
    ensures |body| == 0 ==> r == Raise(IndexError)
    ensures |body| > 0 && "Day" !in body[0] ==> r == Raise(AttributeError)
    ensures |body| > 0 && "Day" in body[0] && CountChar(body[0]["Day"], '/') < 2 ==> r == Raise(IndexError)
    ensures r.Ok? ==> |body| > 0 && "Day" in body[0]
    ensures r.Ok? ==> r.value.lastTimeUpdate == Get(body[0], "Time")
    ensures r.Ok? ==> '/' !in r.value.day && '/' !in r.value.month && '/' !in r.value.year
  {
    if |body| == 0 then Raise(IndexError)
    else
      match Get(body[0], "Day")
      case None => Raise(AttributeError)
      case Some(day) =>
        var parts := Split(day, '/');
        SplitCount(day, '/');
        if |parts| < 3 then Raise(IndexError)
        else
          Ok(UpdateDate(parts[0], parts[1], parts[2], Get(body[0], "Time")))
  }

  /** Three fields joined by '/'. */
  lemma Join3(a: string, b: string, c: string)
    ensures Join([a, b, c], '/') == a + "/" + b + "/" + c
  {
    assert [a, b, c][1..] == [b, c];
    assert [b, c][1..] == [c];
    assert Join([b, c], '/') == b + "/" + c;
    assert Join([a, b, c], '/') == a + "/" + (b + "/" + c);
  }

  /** A `DD/MM/YYYY` day splits back into its three fields, whatever they hold. */
  lemma {:induction false} UpdateFromDayFields(day: string, month: string, year: string, rest: Record)
    requires '/' !in day && '/' !in month && '/' !in year
    ensures UpdateFromBody([rest["Day" := day + "/" + month + "/" + year]])
            == Ok(UpdateDate(day, month, year, Get(rest, "Time")))
  {
    var rec := rest["Day" := day + "/" + month + "/" + year];
    Join3(day, month, year);
    SplitJoin([day, month, year], '/');
    assert Get(rec, "Time") == Get(rest, "Time");
  }

  /** The update record of the test fixture: "24/04/2023" at "09:10     ". */
  lemma UpdateFixture()
    ensures UpdateFromBody([map["Update" := "2", "Time" := "09:10     ", "Day" := "24/04/2023"]])
            == Ok(UpdateDate("24", "04", "2023", Some("09:10     ")))
  {
    var rest := map["Update" := "2", "Time" := "09:10     "];
    assert "24" + "/" + "04" + "/" + "2023" == "24/04/2023";
    assert rest["Day" := "24" + "/" + "04" + "/" + "2023"]
           == map["Update" := "2", "Time" := "09:10     ", "Day" := "24/04/2023"];
    UpdateFromDayFields("24", "04", "2023", rest);
  }

  /** `f"{d[1]}/{d[0]}/{d[2]}"`: the first two fields of a split date swapped. */
  function SwapDate(parts: seq<string>): (s: string)
    requires |parts| >= 3
  {
    parts[1] + "/" + parts[0] + "/" + parts[2]
  }

  /** A `D/M/Y` date splits into three fields and is shown as `M/D/Y`. */
  lemma SwapDay(date: string, day: string, month: string, year: string)
    requires '/' !in day && '/' !in month && '/' !in year
    requires date == day + "/" + month + "/" + year
    ensures Split(date, '/') == [day, month, year]
    ensures SwapDate(Split(date, '/')) == month + "/" + day + "/" + year
  {
    Join3(day, month, year);
    SplitJoin([day, month, year], '/');
  }

  /** Swapping a three-field date twice gives it back. */
  lemma {:induction false} SwapDateTwice(a: string, b: string, c: string)
    requires '/' !in a && '/' !in b && '/' !in c
    ensures |Split(SwapDate([a, b, c]), '/')| == 3
    ensures SwapDate(Split(SwapDate([a, b, c]), '/')) == a + "/" + b + "/" + c
  {
    Join3(b, a, c);
    SplitJoin([b, a, c], '/');
    Join3(a, b, c);
  }

  /** The message a bank rate is reported in. */
  function RateMessage(rate: string, time: string, date: string): (m: string)
    ensures '\n' !in rate && '\n' !in time && '\n' !in date ==>
              Split(m, '\n') == ["THB         : " + rate, "Update: " + time + " " + date, "", ""]
  {
    var head := "THB         : " + rate;
    var update := "Update: " + time + " " + date;
    if '\n' !in rate && '\n' !in time && '\n' !in date then
      TwoLinesBlank(head, update);
      head + "\n" + update + "\n" + "\n"
    else head + "\n" + update + "\n" + "\n"
  }

  /** A rate reported for a record dated `D/M/Y` reads, line by line, the rate and
      the time with the date `M/D/Y`, then two empty lines. */
  lemma DatedMessage(rate: string, time: string, date: string, day: string, month: string, year: string)
    requires '/' !in day && '/' !in month && '/' !in year
    requires '\n' !in rate && '\n' !in time && '\n' !in day && '\n' !in month && '\n' !in year
    requires date == day + "/" + month + "/" + year
    ensures |Split(date, '/')| >= 3
    ensures Split(RateMessage(rate, time, SwapDate(Split(date, '/'))), '\n')
            == ["THB         : " + rate, "Update: " + time + " " + (month + "/" + day + "/" + year), "", ""]
  {
    SwapDay(date, day, month, year);
    var swapped := month + "/" + day + "/" + year;
    assert '\n' !in swapped;
  }

  /** `df.loc[df['Description'] == currency]['Family'].iloc[0]`, or `None`. */
  function FamilyByDescription(rows: seq<FamilyRow>, currency: string): (r: Option<string>)
    ensures r.None? <==> forall i :: 0 <= i < |rows| ==> rows[i].description != currency
    ensures r.Some? ==> exists i :: FirstAt(rows, (row: FamilyRow) => row.description == currency, i)
                                    && rows[i].family == r.value
  {
    match First(rows, (row: FamilyRow) => row.description == currency)
    case None => None
    case Some(row) => Some(row.family)
  }

  /** Rows before the first exact description never change the answer. */
  lemma {:induction false} FamilyOfFirstMatch(before: seq<FamilyRow>, row: FamilyRow, after: seq<FamilyRow>)
    requires forall i :: 0 <= i < |before| ==> before[i].description != row.description
    ensures FamilyByDescription(before + [row] + after, row.description) == Some(row.family)
  {
    var rows := before + [row] + after;
    var keep := (r: FamilyRow) => r.description == row.description;
    assert rows[|before|] == row;
    var f := First(rows, keep);
    var i :| FirstAt(rows, keep, i) && rows[i] == f.value;
  }

  /** The row with its description lowercased. */
  function LowerRow(row: FamilyRow): FamilyRow {
    FamilyRow(row.family, Lower(row.description))
  }

  /** The catalogue with every description lowercased, row for row. */
  function LowerRows(rows: seq<FamilyRow>): (r: seq<FamilyRow>)
    ensures |r| == |rows| && forall i :: 0 <= i < |rows| ==> r[i] == LowerRow(rows[i])
  {
    if rows == [] then [] else [LowerRow(rows[0])] + LowerRows(rows[1..])
  }

  /** Lowercase the descriptions, then keep the rows whose description contains the
      lowercased keyword. */
  function CloseFamilies(rows: seq<FamilyRow>, keyword: string): (r: seq<FamilyRow>)
    ensures |r| <= |rows|
    ensures forall k :: 0 <= k < |r| ==> Contains(r[k].description, Lower(keyword))
  {
    var kw := Lower(keyword);
    Filter(LowerRows(rows), (row: FamilyRow) => Contains(row.description, kw))
  }

  /** Every row whose lowercased description contains the keyword is kept, lowercased. */
  lemma CloseFamiliesComplete(rows: seq<FamilyRow>, keyword: string, i: int)
    requires 0 <= i < |rows| && Contains(Lower(rows[i].description), Lower(keyword))
    ensures LowerRow(rows[i]) in CloseFamilies(rows, keyword)
  {
    assert LowerRows(rows)[i] == LowerRow(rows[i]);
  }

  /** Every kept row is a lowercased catalogue row. */
  lemma CloseFamiliesSound(rows: seq<FamilyRow>, keyword: string, k: int)
    requires 0 <= k < |CloseFamilies(rows, keyword)|
    ensures exists i :: 0 <= i < |rows| && CloseFamilies(rows, keyword)[k] == LowerRow(rows[i])
  {
    var r := CloseFamilies(rows, keyword);
    assert r[k] in LowerRows(rows);
  }

  /** The search keeps catalogue order: it distributes over concatenation. */
  lemma {:induction false} CloseFamiliesAppend(a: seq<FamilyRow>, b: seq<FamilyRow>, keyword: string)
    ensures CloseFamilies(a + b, keyword) == CloseFamilies(a, keyword) + CloseFamilies(b, keyword)
  {
    assert LowerRows(a + b) == LowerRows(a) + LowerRows(b);
    FilterAppend(LowerRows(a), LowerRows(b), (row: FamilyRow) => Contains(row.description, Lower(keyword)));
  }

  /** No description mentions the keyword exactly when the search finds nothing. */
  lemma CloseFamiliesEmpty(rows: seq<FamilyRow>, keyword: string)
    ensures CloseFamilies(rows, keyword) == []
            <==> forall i :: 0 <= i < |rows| ==> !Contains(Lower(rows[i].description), Lower(keyword))
  {
    var kw := Lower(keyword);
    FilterEmpty(LowerRows(rows), (row: FamilyRow) => Contains(row.description, kw));
  }
}
