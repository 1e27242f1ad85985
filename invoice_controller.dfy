/** The report handlers of the invoice controller
    (controllers/invoice_controller.go): the date-range query parser and
    how each report handler maps parse and store errors to status codes. */
module InvoiceController {
  import opened Common
  import opened Chrono
  import opened Sums
  import opened InvoiceRepository

  const ErrMissingRange := "Missing from or to query param"
  const ErrInvalidFrom := "Invalid from date"
  const ErrInvalidTo := "Invalid to date"

  /** A JSON reply: a payload with status 200, or {"error": message} with a status code. */
  datatype Response<T> = Json(body: T) | ErrorJson(code: int, error: string)

  /** parseDateRange: both parameters are required; from is parsed before to;
      each must be a "2006-01-02" date and becomes that day's midnight (UTC).
      The range is not checked to be in order. */
  function ParseDateRange(q: Query): (r: Result<(int, int)>)
    ensures r == Failure(ErrMissingRange) <==> QueryOr(q, "from", "") == "" || QueryOr(q, "to", "") == ""
    ensures r.Success? ==> r.value.0 % SecondsPerDay == 0 && r.value.1 % SecondsPerDay == 0
    ensures QueryOr(q, "from", "") != "" && QueryOr(q, "to", "") != "" && ParseLayoutDate(q["from"]).None? ==> r == Failure(ErrInvalidFrom)
    ensures QueryOr(q, "from", "") != "" && QueryOr(q, "to", "") != "" && ParseLayoutDate(q["from"]).Some? && ParseLayoutDate(q["to"]).None? ==>
              r == Failure(ErrInvalidTo)
    ensures r.Success? ==> ParseLayoutDate(q["from"]).Some? && ParseLayoutDate(q["to"]).Some?
    ensures r.Success? ==> r.value == (Midnight(ParseLayoutDate(q["from"]).value), Midnight(ParseLayoutDate(q["to"]).value))
  {
    var fromText, toText := QueryOr(q, "from", ""), QueryOr(q, "to", "");
    if fromText == "" || toText == "" then Failure(ErrMissingRange)
    else
      match ParseLayoutDate(fromText)
      case None => Failure(ErrInvalidFrom)
      case Some(from) =>
        match ParseLayoutDate(toText)
        case None => Failure(ErrInvalidTo)
        case Some(to) => Success((Midnight(from), Midnight(to)))
  }

  /** The query carrying two dates in the layout the parser expects. */
  function RangeQuery(from: Date, to: Date): Query {
    map["from" := FormatDate(from), "to" := FormatDate(to)]
  }

  /** Any two valid dates, in either order, parse back to their midnights:
      an inverted range is passed on unchanged. */
  lemma ParseDateRangeOfDates(from: Date, to: Date)
    requires ValidDate(from) && 0 <= from.year <= 9999
    requires ValidDate(to) && 0 <= to.year <= 9999
    ensures ParseDateRange(RangeQuery(from, to)) == Success((Midnight(from), Midnight(to)))
  {
    ParseFormatDate(from);
    ParseFormatDate(to);
  }

  /** GetInvoiceSummary: parse errors are 400, store errors 500. */
  method GetInvoiceSummary(repo: Repository, q: Query, fails: bool) returns (r: Response<Summary>)
    ensures ParseDateRange(q).Failure? ==> r == ErrorJson(StatusBadRequest, ParseDateRange(q).error)
    ensures ParseDateRange(q).Success? && fails ==> r.ErrorJson? && r.code == StatusInternalServerError
    ensures r.Json? <==> ParseDateRange(q).Success? && !fails
    ensures r.Json? ==> r.body == SummaryOf(Dated(repo.invoices, ParseDateRange(q).value.0, ParseDateRange(q).value.1))
  {
    var range := ParseDateRange(q);
    if range.Failure? {
      return ErrorJson(StatusBadRequest, range.error);
    }
    var report := repo.GetInvoiceReportByDateRange(range.value.0, range.value.1, fails);
    if report.Failure? {
      return ErrorJson(StatusInternalServerError, report.error);
    }
    r := Json(report.value);
  }

  /** GetProductSales: parse errors are 400, store errors 500. */
  method GetProductSales(repo: Repository, q: Query, fails: bool) returns (r: Response<seq<ProductSales>>, ghost keys: seq<string>)
    ensures ParseDateRange(q).Failure? ==> r == ErrorJson(StatusBadRequest, ParseDateRange(q).error)
    ensures ParseDateRange(q).Success? && fails ==> r.ErrorJson? && r.code == StatusInternalServerError
    ensures r.Json? <==> ParseDateRange(q).Success? && !fails
    ensures r.Json? ==> Enumerates(r.body, keys, ProductReport(AllItems(Dated(repo.invoices, ParseDateRange(q).value.0, ParseDateRange(q).value.1))))
  {
    keys := [];
    var range := ParseDateRange(q);
    if range.Failure? {
      return ErrorJson(StatusBadRequest, range.error), keys;
    }
    var results;
    results, keys := repo.GetProductSalesByDateRange(range.value.0, range.value.1, fails);
    if results.Failure? {
      return ErrorJson(StatusInternalServerError, results.error), keys;
    }
    r := Json(results.value);
  }

  /** GetGroupedSales: group defaults to "day"; every error, the parser's,
      an unknown group or the store's, is 400. */
  method GetGroupedSales(repo: Repository, q: Query, fails: bool) returns (r: Response<seq<PeriodSales>>, ghost keys: seq<string>)
    ensures ParseDateRange(q).Failure? ==> r == ErrorJson(StatusBadRequest, ParseDateRange(q).error)
    ensures r.ErrorJson? ==> r.code == StatusBadRequest
    ensures var group := QueryOr(q, "group", "day");
      r.Json? <==> ParseDateRange(q).Success? && !fails && (group == "day" || group == "month")
    ensures r.Json? ==> Enumerates(r.body, keys, PeriodReport(Dated(repo.invoices, ParseDateRange(q).value.0, ParseDateRange(q).value.1), QueryOr(q, "group", "day")))
  {
    keys := [];
    var range := ParseDateRange(q);
    if range.Failure? {
      return ErrorJson(StatusBadRequest, range.error), keys;
    }
    var groupBy := QueryOr(q, "group", "day");
    var results;
    results, keys := repo.GetSalesByPeriod(range.value.0, range.value.1, groupBy, fails);
    if results.Failure? {
      return ErrorJson(StatusBadRequest, results.error), keys;
    }
    r := Json(results.value);
  }
}
