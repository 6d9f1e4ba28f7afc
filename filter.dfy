/** The filter engine: the sidebar selections and the conjunction of masks that `filter_data`
    applies to the table, one after another. */
module Filter {

  import opened Wrappers
  import opened Calendar
  import opened Sequences
  import opened Table

  /** The location option that disables the location mask. */
  const All: string := "All"

  /** The sidebar selections. Month and Year selections hold options taken from the derived
      columns, which contain the missing value when some date did not parse. */
  datatype Criteria = Criteria(
    location: string,
    startDate: ValidDate,
    endDate: ValidDate,
    months: seq<Option<string>>,
    quarters: seq<int>,
    years: seq<Option<int>>)

  // ---- the five masks, as filter_data builds them ----

  function LocationMask(loc: string): Row -> bool {
    (r: Row) => r.location == loc
  }

  /** A missing date compares false with both bounds. */
  function DateMask(lo: ValidDate, hi: ValidDate): Row -> bool {
    (r: Row) => r.date.Some? && DateLe(lo, r.date.value) && DateLe(r.date.value, hi)
  }

  function MonthMask(ms: seq<Option<string>>): Row -> bool {
    (r: Row) => r.month in ms
  }

  /** Quarter options are the integers 1..4; a missing quarter is a member of none. */
  function QuarterMask(qs: seq<int>): Row -> bool {
    (r: Row) => r.quarter.Some? && r.quarter.value in qs
  }

  function YearMask(ys: seq<Option<int>>): Row -> bool {
    (r: Row) => r.year in ys
  }

  /** filter_data: the location mask unless "All" is selected, the date range always, and the
      month, quarter and year masks only for a non-empty selection. */
  function FilterData(t: seq<Row>, c: Criteria): (r: seq<Row>)
    ensures forall x :: x in r <==> x in t && Matches(c, x)
    ensures |r| <= |t|
    // location: exact equality unless "All"
    ensures c.location != All ==> forall x :: x in r ==> x.location == c.location
    // date: a kept row has a date inside the inclusive range; an undated row is never kept
    ensures forall x :: x in r ==>
      x.date.Some? && DateLe(c.startDate, x.date.value) && DateLe(x.date.value, c.endDate)
    ensures forall x :: x in t && x.date.None? ==> x !in r
    // a non-empty selection keeps only members; an empty one restricts nothing
    ensures c.months != [] ==> forall x :: x in r ==> x.month in c.months
    ensures c.quarters != [] ==> forall x :: x in r ==> x.quarter.Some? && x.quarter.value in c.quarters
    ensures c.years != [] ==> forall x :: x in r ==> x.year in c.years
  {
    var byLocation := if c.location != All then Where(t, LocationMask(c.location)) else t;
    var byDate := Where(byLocation, DateMask(c.startDate, c.endDate));
    var byMonth := if c.months != [] then Where(byDate, MonthMask(c.months)) else byDate;
    var byQuarter := if c.quarters != [] then Where(byMonth, QuarterMask(c.quarters)) else byMonth;
    if c.years != [] then Where(byQuarter, YearMask(c.years)) else byQuarter
  }

  // ---- the same filter as one predicate per row ----

  predicate LocationOk(c: Criteria, r: Row) {
    c.location == All || r.location == c.location
  }

  predicate InDateRange(c: Criteria, r: Row) {
    r.date.Some? && DateLe(c.startDate, r.date.value) && DateLe(r.date.value, c.endDate)
  }

  predicate MonthOk(c: Criteria, r: Row) {
    c.months == [] || r.month in c.months
  }

  predicate QuarterOk(c: Criteria, r: Row) {
    c.quarters == [] || (r.quarter.Some? && r.quarter.value in c.quarters)
  }

  predicate YearOk(c: Criteria, r: Row) {
    c.years == [] || r.year in c.years
  }

  predicate Matches(c: Criteria, r: Row) {
    LocationOk(c, r) && InDateRange(c, r) && MonthOk(c, r) && QuarterOk(c, r) && YearOk(c, r)
  }

  function Keep(c: Criteria): Row -> bool {
    (r: Row) => Matches(c, r)
  }

  /** Applying the masks one after another is a single pass keeping the matching rows: the
      result holds every matching row, with its multiplicity, in table order. */
  lemma FilterDataIsOnePass(t: seq<Row>, c: Criteria)
    ensures FilterData(t, c) == Where(t, Keep(c))
  {
    var p1 := (r: Row) => LocationOk(c, r);
    var p2 := (r: Row) => LocationOk(c, r) && InDateRange(c, r);
    var p3 := (r: Row) => LocationOk(c, r) && InDateRange(c, r) && MonthOk(c, r);
    var p4 := (r: Row) => LocationOk(c, r) && InDateRange(c, r) && MonthOk(c, r) && QuarterOk(c, r);

    var byLocation := if c.location != All then Where(t, LocationMask(c.location)) else t;
    if c.location != All {
      WhereCongruent(t, LocationMask(c.location), p1);
    } else {
      WhereAllHold(t, p1);
    }
    assert byLocation == Where(t, p1);

    var byDate := Where(byLocation, DateMask(c.startDate, c.endDate));
    WhereFuse(t, p1, DateMask(c.startDate, c.endDate), p2);
    assert byDate == Where(t, p2);

    var byMonth := if c.months != [] then Where(byDate, MonthMask(c.months)) else byDate;
    if c.months != [] {
      WhereFuse(t, p2, MonthMask(c.months), p3);
    } else {
      WhereCongruent(t, p2, p3);
    }
    assert byMonth == Where(t, p3);

    var byQuarter := if c.quarters != [] then Where(byMonth, QuarterMask(c.quarters)) else byMonth;
    if c.quarters != [] {
      WhereFuse(t, p3, QuarterMask(c.quarters), p4);
    } else {
      WhereCongruent(t, p3, p4);
    }
    assert byQuarter == Where(t, p4);

    if c.years != [] {
      WhereFuse(t, p4, YearMask(c.years), Keep(c));
    } else {
      WhereCongruent(t, p4, Keep(c));
    }
  }

  /** A matching row occurs in the view as often as in the table (so total_units counts every
      copy of a sale); a non-matching row does not occur. */
  lemma FilterMultiplicity(t: seq<Row>, c: Criteria)
    ensures forall x :: multiset(FilterData(t, c))[x] == if Matches(c, x) then multiset(t)[x] else 0
  {
    FilterDataIsOnePass(t, c);
    WhereMultiplicity(t, Keep(c));
  }

  /** The filtered view is the table with rows deleted and none reordered. */
  lemma FilterIsSubsequence(t: seq<Row>, c: Criteria)
    ensures IsSubsequence(FilterData(t, c), t)
  {
    FilterDataIsOnePass(t, c);
    WhereIsSubsequence(t, Keep(c));
  }

  // ---- empty selections ----

  /** An empty month selection keeps what selecting every month of the table keeps. */
  lemma EmptyMonthSelection(t: seq<Row>, c: Criteria, ms: seq<Option<string>>)
    requires forall x :: x in t ==> x.month in ms
    ensures FilterData(t, c.(months := [])) == FilterData(t, c.(months := ms))
  {
    FilterDataIsOnePass(t, c.(months := []));
    FilterDataIsOnePass(t, c.(months := ms));
    WhereCongruent(t, Keep(c.(months := [])), Keep(c.(months := ms)));
  }

  /** An empty quarter selection keeps what selecting all four quarters keeps. */
  lemma EmptyQuarterSelection(t: seq<Row>, c: Criteria, qs: seq<int>)
    requires WellDerivedTable(t)
    requires forall q :: 1 <= q <= 4 ==> q in qs
    ensures FilterData(t, c.(quarters := [])) == FilterData(t, c.(quarters := qs))
  {
    FilterDataIsOnePass(t, c.(quarters := []));
    FilterDataIsOnePass(t, c.(quarters := qs));
    forall x | x in t
      ensures Keep(c.(quarters := []))(x) == Keep(c.(quarters := qs))(x)
    {
      assert WellDerived(x);
    }
    WhereCongruent(t, Keep(c.(quarters := [])), Keep(c.(quarters := qs)));
  }

  /** An empty year selection keeps what selecting every year of the table keeps. */
  lemma EmptyYearSelection(t: seq<Row>, c: Criteria, ys: seq<Option<int>>)
    requires forall x :: x in t ==> x.year in ys
    ensures FilterData(t, c.(years := [])) == FilterData(t, c.(years := ys))
  {
    FilterDataIsOnePass(t, c.(years := []));
    FilterDataIsOnePass(t, c.(years := ys));
    WhereCongruent(t, Keep(c.(years := [])), Keep(c.(years := ys)));
  }

  // ---- the sidebar's default selections ----

  /** The earliest date in the table, skipping missing dates (Series.min). */
  function MinDate(t: seq<Row>): (m: Option<ValidDate>)
    ensures m.None? <==> forall x :: x in t ==> x.date.None?
    ensures m.Some? ==> (exists x :: x in t && x.date == m)
    ensures m.Some? ==> forall x :: x in t && x.date.Some? ==> DateLe(m.value, x.date.value)
    decreases |t|
  {
    if t == [] then None
    else
      var rest := MinDate(t[1..]);
      assert forall x :: x in t ==> x == t[0] || x in t[1..];
      if t[0].date.None? then rest
      else if rest.None? || DateLe(t[0].date.value, rest.value) then t[0].date
      else rest
  }

  /** The latest date in the table, skipping missing dates (Series.max). */
  function MaxDate(t: seq<Row>): (m: Option<ValidDate>)
    ensures m.None? <==> forall x :: x in t ==> x.date.None?
    ensures m.Some? ==> (exists x :: x in t && x.date == m)
    ensures m.Some? ==> forall x :: x in t && x.date.Some? ==> DateLe(x.date.value, m.value)
    decreases |t|
  {
    if t == [] then None
    else
      var rest := MaxDate(t[1..]);
      assert forall x :: x in t ==> x == t[0] || x in t[1..];
      if t[0].date.None? then rest
      else if rest.None? || DateLe(rest.value, t[0].date.value) then t[0].date
      else rest
  }

  function MonthColumn(t: seq<Row>): (col: seq<Option<string>>)
    ensures |col| == |t| && forall i :: 0 <= i < |t| ==> col[i] == t[i].month
  {
    seq(|t|, i requires 0 <= i < |t| => t[i].month)
  }

  function YearColumn(t: seq<Row>): (col: seq<Option<int>>)
    ensures |col| == |t| && forall i :: 0 <= i < |t| ==> col[i] == t[i].year
  {
    seq(|t|, i requires 0 <= i < |t| => t[i].year)
  }

  /** The widgets' initial values: "All" locations, the table's first and last dates, every
      observed month, the four quarters, every observed year. The date widgets need a date, so
      there are no defaults when no date parsed. */
  function DefaultCriteria(t: seq<Row>): (c: Option<Criteria>)
    ensures c.Some? <==> exists x :: x in t && x.date.Some?
    ensures c.Some? ==> c.value.location == All && c.value.quarters == [1, 2, 3, 4]
    ensures c.Some? ==> Some(c.value.startDate) == MinDate(t) && Some(c.value.endDate) == MaxDate(t)
    // every month and every year seen in the table, and nothing else
    ensures c.Some? ==> forall m :: m in c.value.months <==> exists x :: x in t && x.month == m
    ensures c.Some? ==> forall y :: y in c.value.years <==> exists x :: x in t && x.year == y
  {
    ColumnValues(t);
    match (MinDate(t), MaxDate(t))
    case (Some(lo), Some(hi)) =>
      Some(Criteria(All, lo, hi, Unique(MonthColumn(t)), [1, 2, 3, 4], Unique(YearColumn(t))))
    case _ => None
  }

  lemma ColumnValues(t: seq<Row>)
    ensures forall m :: m in MonthColumn(t) <==> exists x :: x in t && x.month == m
    ensures forall y :: y in YearColumn(t) <==> exists x :: x in t && x.year == y
  {
    forall m | m in MonthColumn(t) ensures exists x :: x in t && x.month == m {
      var i :| 0 <= i < |t| && MonthColumn(t)[i] == m;
      assert t[i] in t;
    }
    forall m | exists x :: x in t && x.month == m ensures m in MonthColumn(t) {
      var x :| x in t && x.month == m;
      var i :| 0 <= i < |t| && t[i] == x;
      assert MonthColumn(t)[i] == m;
    }
    forall y | y in YearColumn(t) ensures exists x :: x in t && x.year == y {
      var i :| 0 <= i < |t| && YearColumn(t)[i] == y;
      assert t[i] in t;
    }
    forall y | exists x :: x in t && x.year == y ensures y in YearColumn(t) {
      var x :| x in t && x.year == y;
      var i :| 0 <= i < |t| && t[i] == x;
      assert YearColumn(t)[i] == y;
    }
  }

  predicate HasDate(r: Row) {
    r.date.Some?
  }

  /** With the default selections the filter keeps exactly the rows whose date parsed, in
      table order. */
  lemma DefaultsKeepDatedRows(t: seq<Row>)
    requires WellDerivedTable(t)
    requires DefaultCriteria(t).Some?
    ensures FilterData(t, DefaultCriteria(t).value) == Where(t, HasDate)
  {
    var c := DefaultCriteria(t).value;
    FilterDataIsOnePass(t, c);
    forall x | x in t ensures Keep(c)(x) == HasDate(x) {
      DefaultsKeepDatedRow(t, x);
    }
    WhereCongruent(t, Keep(c), HasDate);
  }

  lemma DefaultsKeepDatedRow(t: seq<Row>, x: Row)
    requires WellDerivedTable(t)
    requires DefaultCriteria(t).Some?
    requires x in t
    ensures Matches(DefaultCriteria(t).value, x) == x.date.Some?
  {
    var c := DefaultCriteria(t).value;
    if x.date.Some? {
      DefaultRangeHoldsDate(t, c, x);
      DefaultSelectionsHoldRow(t, c, x);
    }
  }

  lemma DefaultRangeHoldsDate(t: seq<Row>, c: Criteria, x: Row)
    requires MinDate(t) == Some(c.startDate) && MaxDate(t) == Some(c.endDate)
    requires x in t && x.date.Some?
    ensures InDateRange(c, x)
  {
  }

  lemma DefaultSelectionsHoldRow(t: seq<Row>, c: Criteria, x: Row)
    requires WellDerived(x) && x.date.Some?
    requires forall m :: m in c.months <==> exists y :: y in t && y.month == m
    requires forall y :: y in c.years <==> exists z :: z in t && z.year == y
    requires c.quarters == [1, 2, 3, 4]
    requires x in t
    ensures MonthOk(c, x) && QuarterOk(c, x) && YearOk(c, x)
  {
    var q := Quarter(x.date.value.month);
    assert x.quarter == Some(q) && 1 <= q <= 4;
  }
}
