/**
 * Report dispatch (`xu_ly_report`): the report kind the classifier returned
 * selects the aggregator; a missing period or year defaults to the current one.
 */
module Dispatch {
  import opened Wrappers
  import opened Dates
  import opened Records
  import opened Reports

  /** The fields of the classification result that dispatch reads. */
  datatype Analysis = Analysis(reportType: Option<string>, period: Option<int>, year: Option<int>)

  /** The report a classification asks for. */
  datatype Request = ByMonth(month: int, year: int) | ByQuarter(quarter: int, year: int) | ByYear(year: int)
                   | ByDay | Unsupported

  /** The report kinds dispatch knows: month, quarter, year, day. */
  const Kinds: set<string> := {"thang", "quy", "nam", "ngay"}

  /** The quarter of the current month, `(month - 1) // 3 + 1`. */
  function CurrentQuarter(now: DateTime): (q: int)
    ensures 1 <= q <= 4
    ensures QuarterFirstMonth(q) <= now.month <= QuarterLastMonth(q)
  {
    (now.month - 1) / 3 + 1
  }

  /** The branch `xu_ly_report` takes, with the defaults filled in. */
  function Select(a: Analysis, now: DateTime): (req: Request)
    ensures req.Unsupported? <==> a.reportType.None? || a.reportType.value !in Kinds
    ensures a.reportType == Some("thang") ==> req.ByMonth?
    ensures a.reportType == Some("quy") ==> req.ByQuarter?
    ensures a.reportType == Some("nam") ==> req.ByYear?
    ensures a.reportType == Some("ngay") ==> req.ByDay?
    ensures req.ByMonth? || req.ByQuarter? || req.ByYear? ==> req.year == a.year.GetOr(now.year)
    ensures req.ByMonth? ==> req.month == a.period.GetOr(now.month)
    ensures req.ByQuarter? && a.period.None? ==>
              req.quarter == CurrentQuarter(now) && QuarterFirstMonth(req.quarter) <= now.month <= QuarterLastMonth(req.quarter)
    ensures req.ByQuarter? && a.period.Some? ==> req.quarter == a.period.value
  {
    match a.reportType
    case Some("thang") => ByMonth(a.period.GetOr(now.month), a.year.GetOr(now.year))
    case Some("quy") => ByQuarter(a.period.GetOr(CurrentQuarter(now)), a.year.GetOr(now.year))
    case Some("nam") => ByYear(a.year.GetOr(now.year))
    case Some("ngay") => ByDay
    case _ => Unsupported
  }

  /** What a handled report request produces. */
  datatype Rendered = MonthSummary(summary: Summary) | QuarterSummary(summary: Summary)
                    | YearSummary(report: YearlyReport) | DayPending | NotSupported

  /** `xu_ly_report`: runs the selected report; `false` only for an unsupported kind. */
  method HandleReport(a: Analysis, data: seq<Rec>, now: DateTime) returns (handled: bool, out: Rendered)
    ensures handled <==> !Select(a, now).Unsupported?
    ensures Select(a, now).ByMonth? ==>
              out.MonthSummary? && Describes(out.summary, Tally(data, Month(Select(a, now).month, Select(a, now).year)))
    ensures Select(a, now).ByQuarter? ==>
              out.QuarterSummary? && Describes(out.summary, Tally(data, Quarter(Select(a, now).quarter, Select(a, now).year)))
    ensures Select(a, now).ByYear? ==>
              out.YearSummary? && Describes(out.report.summary, Tally(data, Year(Select(a, now).year)))
              && out.report.byMonth == Breakdown(data, Select(a, now).year)
              && RowsTotal(out.report.rows) == Tally(data, Year(Select(a, now).year))
    ensures Select(a, now).ByYear? ==>
              out.YearSummary?
              && (forall j, k :: 0 <= j < k < |out.report.rows| ==> out.report.rows[j].month < out.report.rows[k].month)
              && (forall j :: 0 <= j < |out.report.rows| ==>
                    out.report.rows[j].month in out.report.byMonth
                    && RowOf(out.report.rows[j], out.report.byMonth[out.report.rows[j].month]))
              && (forall m :: m in out.report.byMonth ==>
                    exists j :: 0 <= j < |out.report.rows| && out.report.rows[j].month == m)
    ensures Select(a, now).ByDay? ==> out.DayPending?
    ensures Select(a, now).Unsupported? ==> out.NotSupported?
  {
    var req := Select(a, now);
    match req
    case ByMonth(m, y) =>
      var s := MonthReport(data, m, y);
      handled, out := true, MonthSummary(s);
    case ByQuarter(q, y) =>
      var s := QuarterReport(data, q, y);
      handled, out := true, QuarterSummary(s);
    case ByYear(y) =>
      var r := YearReport(data, y);
      handled, out := true, YearSummary(r);
    case ByDay =>
      handled, out := true, DayPending;
    case Unsupported =>
      handled, out := false, NotSupported;
  }
}
