/**
  The history page: the table of task records, choosing a record, showing it,
  opening its output directory, and clearing old records. The history service
  behind it is a set of lookups passed in; an Err from one of them is a
  HistoryError with its message.
*/
module HistoryView {
  import opened Wrappers

  /** A task record as its dict form shows the fields the page reads. */
  datatype Record = Record(
    id: string,
    workflowName: string,
    startTime: string,
    status: string,
    totalImages: int,
    outputDirectory: Option<string>)

  /** One row of the history table. */
  datatype HistoryRow = HistoryRow(id: string, workflowName: string, startTime: string, status: string, totalImages: int)

  /** Why a handler showed a message instead of a result. `Unhandled` is an uncaught exception. */
  datatype HistoryError =
    | NoRecordSelected
    | RecordNotFound
    | NoOutputDirectory
    | ServiceFailed(message: string)
    | Unhandled

  /** The clear options with a time limit. */
  const OneWeekAgo: string := "一周前"
  const OneMonthAgo: string := "一个月前"

  /** The row a record is shown as. */
  function RowOf(r: Record): (row: HistoryRow)
    ensures row.id == r.id && row.workflowName == r.workflowName && row.startTime == r.startTime
    ensures row.status == r.status && row.totalImages == r.totalImages
  {
    HistoryRow(r.id, r.workflowName, r.startTime, r.status, r.totalImages)
  }

  /** refresh_records: one row per record, in the service's order; a service error is shown instead. */
  function RefreshRecords(records: Result<seq<Record>, string>): (r: Result<seq<HistoryRow>, string>)
    ensures records.Err? ==> r == Err(records.error)
    ensures records.Ok? ==> r.Ok? && |r.value| == |records.value|
    ensures records.Ok? ==> forall i :: 0 <= i < |records.value| ==> r.value[i] == RowOf(records.value[i])
  {
    match records
      case Err(e) => Err(e)
      case Ok(rs) => Ok(seq(|rs|, i requires 0 <= i < |rs| => RowOf(rs[i])))
  }

  /** select_record: nothing to choose in an empty table, otherwise the first row. */
  function SelectRecord(table: seq<HistoryRow>): (selected: Option<nat>)
    ensures selected.None? <==> table == []
    ensures selected.Some? ==> selected.value == 0 && selected.value < |table|
  {
    if table == [] then None else Some(0)
  }

  /**
    view_detail: the record the selected row names. It needs a selection and a
    non-empty table; a selection past the end of the table raises; the record
    id is the row's first column.
  */
  function ViewDetail(selected: Option<nat>, table: seq<HistoryRow>, getRecord: string -> Result<Option<Record>, string>)
    : (r: Result<Record, HistoryError>)
    ensures selected.None? || table == [] ==> r == Err(NoRecordSelected)
    ensures selected.Some? && table != [] && selected.value >= |table| ==> r == Err(Unhandled)
    ensures r.Ok? ==>
      && selected.Some? && selected.value < |table|
      && getRecord(table[selected.value].id) == Ok(Some(r.value))
    ensures (selected.Some? && selected.value < |table| && getRecord(table[selected.value].id) == Ok(None)) ==>
      r == Err(RecordNotFound)
    ensures (selected.Some? && selected.value < |table| && getRecord(table[selected.value].id).Ok?
      && getRecord(table[selected.value].id).value.Some?) ==>
      r == Ok(getRecord(table[selected.value].id).value.value)
    ensures (selected.Some? && selected.value < |table| && getRecord(table[selected.value].id).Err?) ==>
      r == Err(ServiceFailed(getRecord(table[selected.value].id).error))
  {
    if selected.None? || table == [] then Err(NoRecordSelected)
    else if selected.value >= |table| then Err(Unhandled)
    else match getRecord(table[selected.value].id)
      case Err(e) => Err(ServiceFailed(e))
      case Ok(None) => Err(RecordNotFound)
      case Ok(Some(record)) => Ok(record)
  }

  /**
    open_output_directory: the selected record must exist and have a
    non-empty output directory, otherwise nothing is opened. `openDirectory`
    is the service call, which may fail.
  */
  function OpenOutputDirectory(selected: Option<nat>, table: seq<HistoryRow>,
                               getRecord: string -> Result<Option<Record>, string>,
                               openDirectory: string -> Outcome<string>)
    : (r: Result<string, HistoryError>)
    ensures selected.None? || table == [] ==> r == Err(NoRecordSelected)
    ensures (selected.Some? && selected.value < |table| && getRecord(table[selected.value].id) == Ok(None)) ==>
      r == Err(NoOutputDirectory)
    ensures r.Ok? ==>
      && ViewDetail(selected, table, getRecord).Ok?
      && var record := ViewDetail(selected, table, getRecord).value;
      && record.outputDirectory == Some(r.value) && r.value != ""
      && openDirectory(r.value) == Pass
    ensures ViewDetail(selected, table, getRecord).Err? && ViewDetail(selected, table, getRecord) != Err(RecordNotFound) ==>
      r == Err(ViewDetail(selected, table, getRecord).error)
    ensures ViewDetail(selected, table, getRecord).Ok? ==>
      && var record := ViewDetail(selected, table, getRecord).value;
      && (record.outputDirectory.None? || record.outputDirectory == Some("") ==> r == Err(NoOutputDirectory))
      && (record.outputDirectory.Some? && record.outputDirectory.value != "" ==>
            && (openDirectory(record.outputDirectory.value) == Pass ==> r == Ok(record.outputDirectory.value))
            && (openDirectory(record.outputDirectory.value).Fail? ==>
                  r == Err(ServiceFailed(openDirectory(record.outputDirectory.value).error))))
  {
    match ViewDetail(selected, table, getRecord)
      case Err(RecordNotFound) => Err(NoOutputDirectory)
      case Err(e) => Err(e)
      case Ok(record) =>
        if record.outputDirectory.None? || record.outputDirectory.value == "" then Err(NoOutputDirectory)
        else match openDirectory(record.outputDirectory.value)
          case Fail(e) => Err(ServiceFailed(e))
          case Pass => Ok(record.outputDirectory.value)
  }

  /** The directory is opened only for a record that view_detail would show. */
  lemma OpenedRecordIsViewable(selected: Option<nat>, table: seq<HistoryRow>,
                               getRecord: string -> Result<Option<Record>, string>,
                               openDirectory: string -> Outcome<string>)
    requires OpenOutputDirectory(selected, table, getRecord, openDirectory).Ok?
    ensures ViewDetail(selected, table, getRecord).Ok?
    ensures ViewDetail(selected, table, getRecord).value.outputDirectory
      == Some(OpenOutputDirectory(selected, table, getRecord, openDirectory).value)
  {
  }

  /**
    The view button runs select_record and view_detail on the same click, and
    view_detail reads the selection as it was before that click. After a
    refresh, with nothing selected yet, the first click only selects the first
    row; the next click shows the first record.
  */
  lemma RefreshSelectView(records: seq<Record>, getRecord: string -> Result<Option<Record>, string>)
    requires records != []
    requires getRecord(records[0].id) == Ok(Some(records[0]))
    ensures RefreshRecords(Ok(records)).Ok?
    ensures var table := RefreshRecords(Ok(records)).value;
      && ViewDetail(None, table, getRecord) == Err(NoRecordSelected)
      && SelectRecord(table) == Some(0)
      && ViewDetail(SelectRecord(table), table, getRecord) == Ok(records[0])
  {
    var table := RefreshRecords(Ok(records)).value;
    assert table[0] == RowOf(records[0]);
  }

  /** The age limit of a clear option: a week, a month, or every record. */
  function ClearDays(option: string): (days: Option<nat>)
    ensures option == OneWeekAgo <==> days == Some(7)
    ensures option == OneMonthAgo <==> days == Some(30)
    ensures days.None? <==> option != OneWeekAgo && option != OneMonthAgo
  {
    if option == OneWeekAgo then Some(7)
    else if option == OneMonthAgo then Some(30)
    else None
  }

  /** What the page shows after a clear: the table and the selection. */
  datatype PageState = PageState(table: seq<HistoryRow>, selected: Option<nat>)

  /**
    clear_records: the service clears by the option's age limit and reports a
    count; the table is emptied and the selection reset. When the service
    fails the page keeps its table and selection.
  */
  function ClearRecords(option: string, page: PageState, clear: Option<nat> -> Result<nat, string>)
    : (r: (Result<nat, HistoryError>, PageState))
    ensures r.0.Ok? <==> clear(ClearDays(option)).Ok?
    ensures r.0.Ok? ==> r.0.value == clear(ClearDays(option)).value && r.1 == PageState([], None)
    ensures r.0.Err? ==> r.0 == Err(ServiceFailed(clear(ClearDays(option)).error)) && r.1 == page
  {
    match clear(ClearDays(option))
      case Ok(count) => (Ok(count), PageState([], None))
      case Err(e) => (Err(ServiceFailed(e)), page)
  }

  /** After a successful clear nothing can be viewed until the table is refreshed. */
  lemma NothingSelectedAfterClear(option: string, page: PageState, clear: Option<nat> -> Result<nat, string>,
                                  getRecord: string -> Result<Option<Record>, string>)
    requires ClearRecords(option, page, clear).0.Ok?
    ensures var after := ClearRecords(option, page, clear).1;
      ViewDetail(after.selected, after.table, getRecord) == Err(NoRecordSelected)
  {
  }
}
