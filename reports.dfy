/** The five aggregate views the dashboard charts, computed from the filtered view only when it
    is not empty. RevenueDiscount is summed as an integer in this model. */
module Reports {

  import opened Wrappers
  import opened Ordering
  import opened Sequences
  import opened Grouping
  import opened Calendar
  import opened Table
  import opened Filter

  function UnitsOf(r: Row): int {
    r.units
  }

  function RevenueOf(r: Row): int {
    r.revenueDiscount
  }

  function RepKey(r: Row): Option<string> {
    Some(r.salesRepId)
  }

  function MonthKey(r: Row): Option<string> {
    r.month
  }

  function QuarterKey(r: Row): Option<int> {
    r.quarter
  }

  /** Grouping by two columns drops a row when either is missing. */
  function YearProductKey(r: Row): Option<(int, string)> {
    if r.year.Some? then Some((r.year.value, r.productId)) else None
  }

  function ProductRepKey(r: Row): Option<(string, string)> {
    Some((r.productId, r.salesRepId))
  }

  /** total_units: the Units column summed over the view. */
  function TotalUnits(v: seq<Row>): int {
    SumBy(v, UnitsOf)
  }

  /** Units per SalesRepID (the pie chart). */
  function UnitsBySalesRep(v: seq<Row>): Groups<string> {
    GroupSum(v, RepKey, UnitsOf, StringLess)
  }

  /** RevenueDiscount per (Year, ProductID) (the first bar chart). */
  function RevenueByYearProduct(v: seq<Row>): Groups<(int, string)> {
    GroupSum(v, YearProductKey, RevenueOf, PairLess(IntLess, StringLess))
  }

  /** RevenueDiscount per (ProductID, SalesRepID) (the grouped bar chart). */
  function RevenueByProductRep(v: seq<Row>): Groups<(string, string)> {
    GroupSum(v, ProductRepKey, RevenueOf, PairLess(StringLess, StringLess))
  }

  /** Units per Quarter (the quarter line chart). */
  function UnitsByQuarter(v: seq<Row>): Groups<int> {
    GroupSum(v, QuarterKey, UnitsOf, IntLess)
  }

  /** Units per Month, grouped (in alphabetical order) and then reindexed to the twelve month
      names in calendar order; a month with no row gets the missing value. */
  function UnitsByMonth(v: seq<Row>): (m: seq<(string, Option<int>)>)
    ensures |m| == 12
    ensures forall i :: 0 <= i < 12 ==> m[i].0 == MonthNames[i]
  {
    var g := GroupSum(v, MonthKey, UnitsOf, StringLess);
    seq(12, i requires 0 <= i < 12 => (MonthNames[i], Lookup(g, MonthNames[i])))
  }

  /** Each SalesRepID of the view has one entry, holding the Units of its rows, and the entries
      add up to total_units. */
  lemma UnitsBySalesRepSpec(v: seq<Row>)
    ensures Ascending(UnitsBySalesRep(v), StringLess)
    ensures forall k ::
      Lookup(UnitsBySalesRep(v), k) ==
        if k in KeysOf(v, RepKey) then Some(KeySum(v, RepKey, UnitsOf, k)) else None
    ensures Total(UnitsBySalesRep(v)) == TotalUnits(v)
  {
    StringLessStrictTotal();
    GroupSumEntries(v, RepKey, UnitsOf, StringLess);
    KeyedTotalAllKeyed(v, RepKey, UnitsOf);
  }

  /** One entry per (ProductID, SalesRepID) pair of the view, holding its revenue; the entries
      add up to the view's revenue. */
  lemma RevenueByProductRepSpec(v: seq<Row>)
    ensures Ascending(RevenueByProductRep(v), PairLess(StringLess, StringLess))
    ensures forall k ::
      Lookup(RevenueByProductRep(v), k) ==
        if k in KeysOf(v, ProductRepKey) then Some(KeySum(v, ProductRepKey, RevenueOf, k)) else None
    ensures Total(RevenueByProductRep(v)) == SumBy(v, RevenueOf)
  {
    StringLessStrictTotal();
    PairLessStrictTotal(StringLess, StringLess);
    GroupSumEntries(v, ProductRepKey, RevenueOf, PairLess(StringLess, StringLess));
    KeyedTotalAllKeyed(v, ProductRepKey, RevenueOf);
  }

  /** One entry per (Year, ProductID) pair of the view, sorted by year and then product. When
      every row of the view is dated, the entries add up to the view's revenue. */
  lemma RevenueByYearProductSpec(v: seq<Row>)
    ensures Ascending(RevenueByYearProduct(v), PairLess(IntLess, StringLess))
    ensures forall k ::
      Lookup(RevenueByYearProduct(v), k) ==
        if k in KeysOf(v, YearProductKey) then Some(KeySum(v, YearProductKey, RevenueOf, k)) else None
    ensures (forall x :: x in v ==> x.year.Some?) ==> Total(RevenueByYearProduct(v)) == SumBy(v, RevenueOf)
  {
    IntLessStrictTotal();
    StringLessStrictTotal();
    PairLessStrictTotal(IntLess, StringLess);
    GroupSumEntries(v, YearProductKey, RevenueOf, PairLess(IntLess, StringLess));
    if forall x :: x in v ==> x.year.Some? {
      KeyedTotalAllKeyed(v, YearProductKey, RevenueOf);
    }
  }

  /** Quarters come out in numeric order, each with the Units of its rows; for a normalised view
      they lie in 1..4, and when every row is dated they add up to total_units. */
  lemma UnitsByQuarterSpec(v: seq<Row>)
    ensures Ascending(UnitsByQuarter(v), IntLess)
    ensures forall k ::
      Lookup(UnitsByQuarter(v), k) ==
        if k in KeysOf(v, QuarterKey) then Some(KeySum(v, QuarterKey, UnitsOf, k)) else None
    ensures WellDerivedTable(v) ==> forall q :: q in Keys(UnitsByQuarter(v)) ==> 1 <= q <= 4
    ensures WellDerivedTable(v) && (forall x :: x in v ==> x.date.Some?) ==>
      Total(UnitsByQuarter(v)) == TotalUnits(v)
  {
    IntLessStrictTotal();
    GroupSumEntries(v, QuarterKey, UnitsOf, IntLess);
    if WellDerivedTable(v) {
      KeysOfWithin(v, QuarterKey, (q: int) => 1 <= q <= 4);
      if forall x :: x in v ==> x.date.Some? {
        KeyedTotalAllKeyed(v, QuarterKey, UnitsOf);
      }
    }
  }

  /** The month view lists the twelve months in calendar order; a month holds the Units of the
      rows of that month when there are some and is missing otherwise, so no month is dropped. */
  lemma UnitsByMonthSpec(v: seq<Row>)
    ensures forall i :: 0 <= i < 12 ==>
      var name := MonthNames[i];
      UnitsByMonth(v)[i] ==
        (name, if name in KeysOf(v, MonthKey) then Some(KeySum(v, MonthKey, UnitsOf, name)) else None)
  {
    StringLessStrictTotal();
    GroupSumEntries(v, MonthKey, UnitsOf, StringLess);
  }

  /** For a normalised view every grouped month is one of the twelve names, so the reindex
      loses no row's Units. */
  lemma MonthKeysAreMonthNames(v: seq<Row>)
    requires WellDerivedTable(v)
    ensures forall k :: k in KeysOf(v, MonthKey) ==> k in MonthNames
  {
    forall x | x in v && MonthKey(x).Some? ensures MonthKey(x).value in MonthNames {
      assert WellDerived(x);
    }
    KeysOfWithin(v, MonthKey, (k: string) => k in MonthNames);
  }

  /** What the page shows: a "no data" message for an empty view, otherwise the total and the
      five chart tables. */
  datatype Report =
    | NoData
    | Charts(
        totalUnits: int,
        unitsBySalesRep: Groups<string>,
        revenueByYearProduct: Groups<(int, string)>,
        revenueByProductRep: Groups<(string, string)>,
        unitsByMonth: seq<(string, Option<int>)>,
        unitsByQuarter: Groups<int>)

  function Dashboard(t: seq<Row>, c: Criteria): (r: Report)
    ensures r.NoData? <==> FilterData(t, c) == []
    // the total and every chart table are computed from the filtered view
    ensures r.Charts? ==>
      var v := FilterData(t, c);
      && r.totalUnits == TotalUnits(v)
      && r.unitsBySalesRep == UnitsBySalesRep(v)
      && r.revenueByYearProduct == RevenueByYearProduct(v)
      && r.revenueByProductRep == RevenueByProductRep(v)
      && r.unitsByMonth == UnitsByMonth(v)
      && r.unitsByQuarter == UnitsByQuarter(v)
    ensures r.Charts? ==> r.totalUnits == Total(r.unitsBySalesRep)
    ensures r.Charts? ==> |r.unitsByMonth| == 12
    // every row of the view is dated, so on a normalised table the year/product and the
    // quarter views account for all of the view
    ensures r.Charts? && WellDerivedTable(t) ==>
      && Total(r.revenueByYearProduct) == Total(r.revenueByProductRep)
      && Total(r.unitsByQuarter) == r.totalUnits
  {
    var v := FilterData(t, c);
    if v == [] then NoData
    else
      UnitsBySalesRepSpec(v);
      RevenueByProductRepSpec(v);
      RevenueByYearProductSpec(v);
      UnitsByQuarterSpec(v);
      Charts(TotalUnits(v), UnitsBySalesRep(v), RevenueByYearProduct(v), RevenueByProductRep(v),
             UnitsByMonth(v), UnitsByQuarter(v))
  }

  // ---- a worked example ----

  /** Three January-to-March rows at locations A, B, A with 10, 5 and 7 units. */
  function ScenarioTable(): seq<Row> {
    [Normalize(RawRecord("P1", "R1", "A", Some(Date(2024, 1, 5)), 10, 0, 0, 2024)),
     Normalize(RawRecord("P2", "R2", "B", Some(Date(2024, 2, 10)), 5, 0, 0, 2024)),
     Normalize(RawRecord("P1", "R2", "A", Some(Date(2024, 3, 20)), 7, 0, 0, 2024))]
  }

  /** Every location, the table's date range, no month, quarter or year selected. */
  function ScenarioCriteria(): Criteria {
    Criteria(All, Date(2024, 1, 5), Date(2024, 3, 20), [], [], [])
  }

  /** Location A keeps the first and third rows, 17 units in all. */
  lemma ScenarioLocationA()
    ensures var t := ScenarioTable();
      && FilterData(t, ScenarioCriteria().(location := "A")) == [t[0], t[2]]
      && TotalUnits(FilterData(t, ScenarioCriteria().(location := "A"))) == 17
  {
    var t := ScenarioTable();
    var c := ScenarioCriteria().(location := "A");
    assert Matches(c, t[0]) && !Matches(c, t[1]) && Matches(c, t[2]);
    FilterDataIsOnePass(t, c);
    assert t[1..] == [t[1], t[2]] && t[2..] == [t[2]];
    assert Where(t, Keep(c)) == [t[0], t[2]];
    assert t[0].units == 10 && t[2].units == 7;
    assert [t[0], t[2]][1..] == [t[2]] && [t[2]][1..] == [];
    assert SumBy([t[2]], UnitsOf) == UnitsOf(t[2]) + SumBy([], UnitsOf) == 7;
    assert SumBy([t[0], t[2]], UnitsOf) == UnitsOf(t[0]) + SumBy([t[2]], UnitsOf) == 17;
  }

  /** Quarter 1 keeps all three rows, and the page shows charts. */
  lemma ScenarioQuarterOne()
    ensures FilterData(ScenarioTable(), ScenarioCriteria().(quarters := [1])) == ScenarioTable()
    ensures Dashboard(ScenarioTable(), ScenarioCriteria()).Charts?
  {
    var t := ScenarioTable();
    var c := ScenarioCriteria().(quarters := [1]);
    assert Matches(c, t[0]) && Matches(c, t[1]) && Matches(c, t[2]);
    FilterDataIsOnePass(t, c);
    WhereAllHold(t, Keep(c));
    assert Matches(ScenarioCriteria(), t[0]);
    assert t[0] in FilterData(t, ScenarioCriteria());
  }

  /** A range ending the day before the first sale leaves no data. */
  lemma ScenarioEmptyRange()
    ensures Dashboard(ScenarioTable(), ScenarioCriteria().(endDate := Date(2024, 1, 4))) == NoData
  {
  }
}
