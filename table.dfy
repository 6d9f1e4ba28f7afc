/** The in-memory table: records read from the sheet, with the date parsed and the Month,
    Quarter and Year columns derived from it. */
module Table {

  import opened Wrappers
  import opened Calendar

  /** The sheet's header row, in column order. */
  const ExpectedHeaders: seq<string> := ["ProductID", "SalesRepID", "Location", "Date", "Units",
    "PercentOfStandardCost", "RevenueDiscount", "Year"]

  /** Position of the Date column in ExpectedHeaders. */
  const DateColumn: nat := 3

  lemma ExpectedHeadersFacts()
    ensures |ExpectedHeaders| == 8 && ExpectedHeaders[DateColumn] == "Date"
    ensures forall i, j :: 0 <= i < j < 8 ==> ExpectedHeaders[i] != ExpectedHeaders[j]
  {
  }

  /** One record as read from the sheet, its Date already through the day-first parser
      (None when the parser gave up). Numeric columns are integers in this model. */
  datatype RawRecord = RawRecord(
    productId: string,
    salesRepId: string,
    location: string,
    date: Option<ValidDate>,
    units: int,
    percentOfStandardCost: int,
    revenueDiscount: int,
    year: int)

  /** One row of the table after normalisation: Month, Quarter and Year are derived from Date
      and are missing exactly when Date is. */
  datatype Row = Row(
    productId: string,
    salesRepId: string,
    location: string,
    date: Option<ValidDate>,
    units: int,
    percentOfStandardCost: int,
    revenueDiscount: int,
    month: Option<string>,
    quarter: Option<int>,
    year: Option<int>)

  /** The derived columns agree with the date. */
  predicate WellDerived(r: Row) {
    match r.date
    case None => r.month.None? && r.quarter.None? && r.year.None?
    case Some(d) =>
      && r.month == Some(MonthNames[d.month - 1])
      && r.quarter == Some(Quarter(d.month))
      && r.year == Some(d.year)
  }

  predicate WellDerivedTable(t: seq<Row>) {
    forall x :: x in t ==> WellDerived(x)
  }

  /** Derives Month (month_name), Quarter and Year from the parsed date; the stored Year is
      replaced by the date's year. */
  function Normalize(raw: RawRecord): (r: Row)
    ensures WellDerived(r)
    ensures r.date == raw.date
    ensures && r.productId == raw.productId && r.salesRepId == raw.salesRepId
            && r.location == raw.location && r.units == raw.units
            && r.revenueDiscount == raw.revenueDiscount
            && r.percentOfStandardCost == raw.percentOfStandardCost
    // a record whose date did not parse gets no Month, Quarter or Year; its stored Year is lost
    ensures raw.date.None? ==> r.month.None? && r.quarter.None? && r.year.None?
    // otherwise the quarter is the one containing the month, the month name is that month's
    // and the year is the date's
    ensures raw.date.Some? ==>
      && r.quarter.Some? && 1 <= r.quarter.value <= 4
      && 3 * r.quarter.value - 2 <= raw.date.value.month <= 3 * r.quarter.value
      && r.month == Some(MonthNames[raw.date.value.month - 1])
      && r.year == Some(raw.date.value.year)
  {
    var month := if raw.date.Some? then Some(MonthNames[raw.date.value.month - 1]) else None;
    var quarter := if raw.date.Some? then Some(Quarter(raw.date.value.month)) else None;
    var year := if raw.date.Some? then Some(raw.date.value.year) else None;
    Row(raw.productId, raw.salesRepId, raw.location, raw.date, raw.units,
        raw.percentOfStandardCost, raw.revenueDiscount, month, quarter, year)
  }

  /** Normalisation of the whole table, column by column. */
  function NormalizeTable(raws: seq<RawRecord>): (t: seq<Row>)
    ensures |t| == |raws|
    ensures WellDerivedTable(t)
    ensures forall i :: 0 <= i < |t| ==> t[i] == Normalize(raws[i])
  {
    seq(|raws|, i requires 0 <= i < |raws| => Normalize(raws[i]))
  }
}
