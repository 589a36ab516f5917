/** The warehouse side (src/bigquery.ts): the two row types and the rule by
    which `insertInvoiceRecords` writes a batch of invoice headers and lines.
    The warehouse itself is a sink that records every insert it is asked for,
    in order, with the outcome an outside oracle decides for it. */
module Warehouse {
  import opened Js

  const DatasetId := "ac_ops_data"
  const InvoiceTableId := "base-nfe-supplier-invoice"
  const InvoiceLinesTableId := "base-nfe-supplier-invoice-line"

  /** One invoice header row. The declared field types are not enforced at
      run time; `nfeId` is kept untyped because the writer checks it. */
  datatype InvoiceRecord = InvoiceRecord(
    nfeId: Json,
    dateTime: string,
    dateDue: string,
    supplierId: string,
    supplierInvoiceId: string,
    supplierName: string,
    nfeType: string,
    invoiceTotal: Num,
    verboseDescription: string,
    batchSequence: real)

  /** One invoice line row, with the fields the document extractor fills in:
      the line number is stored as `lineNumber` and the copied item fields are
      whatever the parsed document held. */
  datatype InvoiceRecordLine = InvoiceRecordLine(
    nfeId: string,
    lineNumber: Json,
    itemCode: Json,
    itemDesc: Json,
    cfop: Json,
    unitCode: Json,
    unitQty: Json,
    unitPrice: Num,
    lineTotal: Num,
    batchSequence: real)

  datatype Rows = LineRows(lines: seq<InvoiceRecordLine>) | HeaderRows(headers: seq<InvoiceRecord>)

  /** How an insert can fail: some rows rejected, or any other error. */
  datatype InsertError = PartialFailureError(rowErrors: seq<string>) | OtherError

  /** One insert call and its outcome (`None` when it succeeded). */
  datatype Insert = Insert(dataset: string, table: string, rows: Rows, failure: Option<InsertError>)

  /** What the writer reports on its log and error streams. */
  datatype LogEntry =
    | RowsDumped(logId: string, invoices: seq<InvoiceRecord>)
    | Inserted(logId: string, table: string, count: nat)
    | PartialFailureLogged(logId: string, rowErrors: seq<string>)
    | OtherErrorLogged(logId: string)

  class Sink {
    /** Every insert requested so far, in order, with its outcome. */
    var inserts: seq<Insert>
    /** Every diagnostic written so far, in order. */
    var log: seq<LogEntry>

    constructor ()
      ensures inserts == [] && log == []
    {
      inserts := [];
      log := [];
    }

    /** `bigQuery.dataset(dataset).table(table).insert(rows)`; the outcome is
        decided by the caller-supplied oracle value `failure`. */
    method InsertRows(dataset: string, table: string, rows: Rows, failure: Option<InsertError>)
      returns (ok: bool)
      modifies this
      ensures inserts == old(inserts) + [Insert(dataset, table, rows, failure)]
      ensures log == old(log)
      ensures ok <==> failure.None?
    {
      inserts := inserts + [Insert(dataset, table, rows, failure)];
      ok := failure.None?;
    }

    method Report(entry: LogEntry)
      modifies this
      ensures log == old(log) + [entry]
      ensures inserts == old(inserts)
    {
      log := log + [entry];
    }
  }

  /** `typeof invoices[0]?.nfeId == 'string'`: the only check made before
      writing, and it looks at the first header alone. */
  predicate AcceptsBatch(invoices: seq<InvoiceRecord>)
  {
    |invoices| > 0 && TypeOf(invoices[0].nfeId) == "string"
  }

  /** The inserts `insertInvoiceRecords` requests, given the outcome each
      insert would have. */
  function WritePlan(invoices: seq<InvoiceRecord>, lines: seq<InvoiceRecordLine>,
                     linesFailure: Option<InsertError>, headersFailure: Option<InsertError>): seq<Insert>
  {
    if !AcceptsBatch(invoices) then []
    else
      [Insert(DatasetId, InvoiceLinesTableId, LineRows(lines), linesFailure)]
      + (if linesFailure.None? then [Insert(DatasetId, InvoiceTableId, HeaderRows(invoices), headersFailure)] else [])
  }

  function FailureReport(logId: string, e: InsertError): LogEntry
  {
    match e
    case PartialFailureError(errs) => PartialFailureLogged(logId, errs)
    case OtherError => OtherErrorLogged(logId)
  }

  /** The diagnostics `insertInvoiceRecords` writes, given the outcomes. */
  function ReportPlan(invoices: seq<InvoiceRecord>, lines: seq<InvoiceRecordLine>, logId: string,
                      linesFailure: Option<InsertError>, headersFailure: Option<InsertError>): seq<LogEntry>
  {
    if !AcceptsBatch(invoices) then [RowsDumped(logId, invoices)]
    else if linesFailure.Some? then [FailureReport(logId, linesFailure.value)]
    else if headersFailure.Some? then [Inserted(logId, InvoiceLinesTableId, |lines|), FailureReport(logId, headersFailure.value)]
    else [Inserted(logId, InvoiceLinesTableId, |lines|), Inserted(logId, InvoiceTableId, |invoices|)]
  }

  /** `insertInvoiceRecords`: lines first, then headers, and only if the lines
      went in; every insert failure is caught and reported, never thrown. */
  method InsertInvoiceRecords(sink: Sink, invoices: seq<InvoiceRecord>, invoiceLines: seq<InvoiceRecordLine>,
                              logId: string, linesFailure: Option<InsertError>, headersFailure: Option<InsertError>)
    modifies sink
    ensures sink.inserts == old(sink.inserts) + WritePlan(invoices, invoiceLines, linesFailure, headersFailure)
    ensures sink.log == old(sink.log) + ReportPlan(invoices, invoiceLines, logId, linesFailure, headersFailure)
  {
    if !(|invoices| > 0 && TypeOf(invoices[0].nfeId) == "string") {
      sink.Report(RowsDumped(logId, invoices));
      return;
    }
    var ok := sink.InsertRows(DatasetId, InvoiceLinesTableId, LineRows(invoiceLines), linesFailure);
    if !ok {
      sink.Report(FailureReport(logId, linesFailure.value));
      return;
    }
    sink.Report(Inserted(logId, InvoiceLinesTableId, |invoiceLines|));
    ok := sink.InsertRows(DatasetId, InvoiceTableId, HeaderRows(invoices), headersFailure);
    if !ok {
      sink.Report(FailureReport(logId, headersFailure.value));
      return;
    }
    sink.Report(Inserted(logId, InvoiceTableId, |invoices|));
  }

  // ---------------------------------------------------------------------------
  // Properties of the write rule
  // ---------------------------------------------------------------------------

  /** A batch whose first header has no string id, or no header at all, writes
      nothing to either table, not even the lines. */
  lemma RejectedBatchWritesNothing(invoices: seq<InvoiceRecord>, lines: seq<InvoiceRecordLine>,
                                   lf: Option<InsertError>, hf: Option<InsertError>)
    requires invoices == [] || !invoices[0].nfeId.JStr?
    ensures WritePlan(invoices, lines, lf, hf) == []
  {
  }

  /** An accepted batch writes its lines to the line table first; the header
      table is written second, and only when the lines insert succeeded. */
  lemma LinesBeforeHeaders(invoices: seq<InvoiceRecord>, lines: seq<InvoiceRecordLine>,
                           lf: Option<InsertError>, hf: Option<InsertError>)
    requires AcceptsBatch(invoices)
    ensures var plan := WritePlan(invoices, lines, lf, hf);
      && 1 <= |plan| <= 2
      && plan[0] == Insert(DatasetId, InvoiceLinesTableId, LineRows(lines), lf)
      && (|plan| == 2 <==> lf.None?)
      && (|plan| == 2 ==> plan[1] == Insert(DatasetId, InvoiceTableId, HeaderRows(invoices), hf))
  {
  }

  /** No header insert is ever requested unless a line insert for the same
      batch was requested before it and succeeded. */
  lemma HeadersFollowSuccessfulLines(invoices: seq<InvoiceRecord>, lines: seq<InvoiceRecordLine>,
                                     lf: Option<InsertError>, hf: Option<InsertError>, k: nat)
    requires k < |WritePlan(invoices, lines, lf, hf)|
    requires WritePlan(invoices, lines, lf, hf)[k].table == InvoiceTableId
    ensures k == 1
    ensures WritePlan(invoices, lines, lf, hf)[0] == Insert(DatasetId, InvoiceLinesTableId, LineRows(lines), None)
  {
  }

  /** Only the first header's id is checked: whatever ids the later headers
      carry, they are written along with it. */
  lemma LaterHeadersUnchecked(first: InvoiceRecord, rest: seq<InvoiceRecord>, lines: seq<InvoiceRecordLine>,
                              hf: Option<InsertError>)
    requires first.nfeId.JStr?
    ensures WritePlan([first] + rest, lines, None, hf)
         == [Insert(DatasetId, InvoiceLinesTableId, LineRows(lines), None),
             Insert(DatasetId, InvoiceTableId, HeaderRows([first] + rest), hf)]
  {
  }

  /** A failed insert is reported, never thrown, and a partial failure is
      reported as such, apart from every other kind of error. */
  lemma FailuresAreReported(invoices: seq<InvoiceRecord>, lines: seq<InvoiceRecordLine>, logId: string,
                            lf: Option<InsertError>, hf: Option<InsertError>)
    requires AcceptsBatch(invoices)
    requires lf.Some? || hf.Some?
    ensures var report := ReportPlan(invoices, lines, logId, lf, hf);
      var e := if lf.Some? then lf.value else hf.value;
      && report != []
      && (e.PartialFailureError? ==> report[|report| - 1] == PartialFailureLogged(logId, e.rowErrors))
      && (e.OtherError? ==> report[|report| - 1] == OtherErrorLogged(logId))
  {
  }
}
