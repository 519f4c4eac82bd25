/**
 * The record table: the dashboard's search box chooses between listing
 * everything and a search, each row carries its own edit form, and saving a
 * row posts the form's values with the row's id.
 */
module SearchComponent {
  import opened Wrappers
  import opened Json
  import opened Strings
  import opened HttpClient
  import opened RecordForms
  import opened CompanyRecordsService
  import opened CompanyRecord

  const UpdatedNotice := "Record Updated."

  const DuplicateNotice := "ISIN Already Exists."

  /** What `getSearchedRecords` does with the query. */
  datatype QueryAction = Skip | FetchAll | SearchFor(query: string)

  /** An empty query does nothing; `all` in any case lists everything; anything else is searched for. */
  function DispatchQuery(q: string): (a: QueryAction)
    ensures a == Skip <==> q == ""
    ensures a == FetchAll <==> q != "" && ToLower(q) == "all"
    ensures a.SearchFor? ==> a.query == q
  {
    if q == "" then Skip else if ToLower(q) == "all" then FetchAll else SearchFor(q)
  }

  /** Every capitalisation of `all` lists everything; a longer query is searched for. */
  lemma AllListsEverything()
    ensures DispatchQuery("all") == FetchAll && DispatchQuery("ALL") == FetchAll && DispatchQuery("All") == FetchAll
    ensures DispatchQuery("allow") == SearchFor("allow") && DispatchQuery("al") == SearchFor("al")
  {
    AllInAnyCase("all");
    AllInAnyCase("ALL");
    AllInAnyCase("All");
    AllInAnyCase("allow");
    AllInAnyCase("al");
  }

  /** The records of a reply body that is an array of objects; any other body sets nothing up. */
  function RowsOf(body: Json): (rows: Option<seq<map<string, Json>>>)
    ensures rows.Some? <==> body.JArr? && forall i :: 0 <= i < |body.items| ==> body.items[i].JObj?
    ensures rows.Some? ==>
      |rows.value| == |body.items| && forall i :: 0 <= i < |body.items| ==> rows.value[i] == body.items[i].fields
  {
    if body.JArr? && forall i :: 0 <= i < |body.items| ==> body.items[i].JObj? then
      Some(seq(|body.items|, i requires 0 <= i < |body.items| && body.items[i].JObj? => body.items[i].fields))
    else None
  }

  /** The records a request's reply lists, when the request is made and succeeds with records. */
  function Listing(request: Result<HttpRequest, string>, server: HttpRequest -> HttpResult): (rows: Option<seq<map<string, Json>>>)
    ensures rows.Some? ==> request.Ok? && server(request.value).Success?
    ensures rows.Some? ==> rows == RowsOf(server(request.value).body)
  {
    if request.Ok? && server(request.value).Success? then RowsOf(server(request.value).body) else None
  }

  /** `{...record, isEditing: false}`: the record's members, not being edited. */
  function RowFields(record: map<string, Json>): (f: map<string, Json>)
    ensures f.Keys == record.Keys + {"isEditing"} && f["isEditing"] == JBool(false)
    ensures forall k :: k in record && k != "isEditing" ==> f[k] == record[k]
  {
    record["isEditing" := JBool(false)]
  }

  /** `createForm(record)`: the edit form seeded from the record, ISIN from its `isin` member. */
  function RowForm(record: map<string, Json>): Form {
    Build(RowView, record, "isin")
  }

  /** `Object.assign(row, updated)`: an object reply's members overwrite the row's; other replies add nothing. */
  function Assigned(fields: map<string, Json>, updated: Json): (f: map<string, Json>)
    ensures updated.JObj? ==> f.Keys == fields.Keys + updated.fields.Keys
    ensures updated.JObj? ==> forall k :: k in updated.fields ==> f[k] == updated.fields[k]
    ensures updated.JObj? ==> forall k :: k in fields && k !in updated.fields ==> f[k] == fields[k]
    ensures !updated.JObj? ==> f == fields
  {
    if updated.JObj? then fields + updated.fields else fields
  }

  /** `{...row.form.value, id: row.id}`: the form's values and, when the row has one, its id. */
  function UpdateBody(form: Form, fields: map<string, Json>): (b: Json)
    ensures b.JObj? && Member(b, "id") == Member(JObj(fields), "id")
    ensures forall k :: k in FormValue(form).fields ==> Member(b, k) == Some(FormValue(form).fields[k])
  {
    var v := FormValue(form).fields;
    JObj(if "id" in fields then v["id" := fields["id"]] else v)
  }

  /** `cancelEdit` as written: `form.reset(row)` reads the control `ISIN` from a row that only has `isin`. */
  function CancelledForm(fields: map<string, Json>): (f: Form)
    ensures f.isin == Pick(fields, "ISIN")
  {
    Build(RowView, fields, "ISIN")
  }

  /** The reset `cancelEdit` evidently means: every control back to the row's own value, ISIN from `isin`. */
  function RestoredForm(fields: map<string, Json>): (f: Form)
    ensures f.kind == RowView && f.isinSetErrors.None?
    ensures f.name == Pick(fields, "name") && f.exchange == Pick(fields, "exchange") && f.ticker == Pick(fields, "ticker")
    ensures f.isin == Pick(fields, "isin") && f.website == Pick(fields, "website")
  {
    RowForm(fields)
  }

  /** As written, cancelling an edit on a row without an `ISIN` member empties the ISIN control and invalidates the form. */
  lemma CancelEditEmptiesIsin(fields: map<string, Json>)
    requires "ISIN" !in fields
    ensures CancelledForm(fields).isin == JNull
    ensures !FormValid(CancelledForm(fields))
    ensures ErrorMessage(Some(CancelledForm(fields).Get(Isin)), "ISIN") == "ISIN is required."
    ensures CancelledForm(fields).(isin := JNull) == RestoredForm(fields).(isin := JNull)
  {
    var isin := CancelledForm(fields).Get(Isin);
    assert isin == Validated(RowView, Isin, JNull);
    EmptyIsinMessage(RowView);
  }

  /** The intended reset undoes any editing: a row just set up gets back exactly the form it was given. */
  lemma RestoredFormUndoesEdits(record: map<string, Json>)
    ensures RestoredForm(RowFields(record)) == RowForm(record)
  {
    var f := RowFields(record);
    assert Pick(f, "name") == Pick(record, "name");
    assert Pick(f, "isin") == Pick(record, "isin");
  }

  /** The record the component's tests use: id 1, a test company listed on NYSE under TST, with a valid ISIN and an https website. */
  const TestRecord := Record(1, "Test", "NYSE", "TST", "US1234567890", Some("https://test.com"), None)

  /** The test record's row form holds its text values. */
  lemma TestRecordForm()
    ensures RowForm(RecordFields(TestRecord)) == TextForm(RowView, "Test", "NYSE", "TST", "US1234567890", "https://test.com")
  {
  }

  /** The test record's row form is valid, so the row can be saved. */
  lemma TestRecordFormValid()
    ensures FormValid(RowForm(RecordFields(TestRecord)))
  {
    TestRecordForm();
    WebsiteExamples();
    IsinExamples();
    TextFormValid(RowView, "Test", "NYSE", "TST", "US1234567890", "https://test.com");
  }

  /** As written, cancelling an edit of the test record's row leaves a form that can no longer be saved. */
  lemma CancelEditExample()
    ensures !FormValid(CancelledForm(RowFields(RecordFields(TestRecord))))
  {
    CancelEditEmptiesIsin(RowFields(RecordFields(TestRecord)));
  }

  /** One row of the table: the record's members (with `isEditing`) and its edit form. */
  class EditRecord {
    var fields: map<string, Json>
    var form: Form

    constructor (fields: map<string, Json>, form: Form)
      ensures this.fields == fields && this.form == form
    {
      this.fields, this.form := fields, form;
    }
  }

  /** The rows show the records in order, each with its fields and seeded form. */
  predicate Shows(rows: seq<EditRecord>, results: seq<map<string, Json>>)
    reads rows
  {
    |rows| == |results|
    && forall i :: 0 <= i < |rows| ==> rows[i].fields == RowFields(results[i]) && rows[i].form == RowForm(results[i])
  }

  /** The rows `results.map(...)` creates: new objects, one per record, in order. */
  method NewRows(results: seq<map<string, Json>>) returns (rows: seq<EditRecord>)
    ensures Shows(rows, results)
    ensures forall i :: 0 <= i < |rows| ==> fresh(rows[i])
    ensures forall i, j :: 0 <= i < j < |rows| ==> rows[i] != rows[j]
  {
    rows := [];
    for n := 0 to |results|
      invariant |rows| == n
      invariant forall i :: 0 <= i < n ==> rows[i].fields == RowFields(results[i])
      invariant forall i :: 0 <= i < n ==> rows[i].form == RowForm(results[i])
      invariant forall i :: 0 <= i < n ==> fresh(rows[i])
      invariant forall i, j :: 0 <= i < j < n ==> rows[i] != rows[j]
    {
      var row := new EditRecord(RowFields(results[n]), RowForm(results[n]));
      rows := rows + [row];
    }
  }

  class SearchComponent {
    var searchQuery: string
    var searchResults: seq<EditRecord>
    var showUpdateNotification: bool
    var updateNotification: string
    const records: CompanyRecordsService

    constructor (records: CompanyRecordsService)
      ensures searchQuery == "" && searchResults == [] && !showUpdateNotification && updateNotification == ""
      ensures this.records == records
    {
      searchQuery, searchResults := "", [];
      showUpdateNotification, updateNotification := false, "";
      this.records := records;
    }

    /** `setUpForms(results)`: one new row per record, in order. */
    method SetUpForms(results: seq<map<string, Json>>)
      modifies this
      ensures Shows(searchResults, results)
      ensures forall i :: 0 <= i < |searchResults| ==> fresh(searchResults[i])
      ensures forall i, j :: 0 <= i < j < |searchResults| ==> searchResults[i] != searchResults[j]
      ensures searchQuery == old(searchQuery) && showUpdateNotification == old(showUpdateNotification)
      ensures updateNotification == old(updateNotification)
    {
      searchResults := NewRows(results);
    }
    /** `getAllRecords()`: lists every record on success; any failure keeps the table; no token throws. */
    method GetAllRecords(server: HttpRequest -> HttpResult) returns (thrown: Option<string>)
      modifies this
      ensures thrown == if records.Fetch().Throws? then Some(NoToken) else None
      ensures Listing(records.Fetch(), server).Some? ==> Shows(searchResults, Listing(records.Fetch(), server).value)
      ensures Listing(records.Fetch(), server).None? ==> searchResults == old(searchResults)
      ensures forall i :: 0 <= i < |searchResults| ==> searchResults[i] in old(searchResults) || fresh(searchResults[i])
      ensures searchQuery == old(searchQuery) && showUpdateNotification == old(showUpdateNotification)
      ensures updateNotification == old(updateNotification)
    {
      thrown := None;
      var request := records.Fetch();
      if request.Throws? {
        thrown := Some(request.error);
        return;
      }
      var rows := Listing(request, server);
      if rows.Some? {
        SetUpForms(rows.value);
      }
    }

    /** `ngOnInit()`. */
    method NgOnInit(server: HttpRequest -> HttpResult) returns (thrown: Option<string>)
      modifies this
      ensures thrown == if records.Fetch().Throws? then Some(NoToken) else None
      ensures Listing(records.Fetch(), server).Some? ==> Shows(searchResults, Listing(records.Fetch(), server).value)
      ensures Listing(records.Fetch(), server).None? ==> searchResults == old(searchResults)
      ensures searchQuery == old(searchQuery) && showUpdateNotification == old(showUpdateNotification)
      ensures updateNotification == old(updateNotification)
    {
      thrown := GetAllRecords(server);
    }

    /** `getSearchedRecords()`: nothing for an empty query, everything for `all`, otherwise the search's records. */
    method GetSearchedRecords(server: HttpRequest -> HttpResult) returns (thrown: Option<string>)
      modifies this
      ensures searchQuery == old(searchQuery) && showUpdateNotification == old(showUpdateNotification)
      ensures updateNotification == old(updateNotification)
      ensures DispatchQuery(searchQuery) == Skip ==> thrown == None && searchResults == old(searchResults)
      ensures DispatchQuery(searchQuery) == FetchAll ==>
        thrown == (if records.Fetch().Throws? then Some(NoToken) else None)
        && (Listing(records.Fetch(), server).Some? ==> Shows(searchResults, Listing(records.Fetch(), server).value))
        && (Listing(records.Fetch(), server).None? ==> searchResults == old(searchResults))
      ensures DispatchQuery(searchQuery).SearchFor? ==>
        thrown == (if records.Search(searchQuery).Throws? then Some(NoToken) else None)
        && (Listing(records.Search(searchQuery), server).Some? ==>
              Shows(searchResults, Listing(records.Search(searchQuery), server).value))
        && (Listing(records.Search(searchQuery), server).None? ==> searchResults == old(searchResults))
    {
      thrown := None;
      match DispatchQuery(searchQuery)
      case Skip =>
      case FetchAll =>
        thrown := GetAllRecords(server);
      case SearchFor(q) =>
        var request := records.Search(q);
        if request.Throws? {
          thrown := Some(request.error);
          return;
        }
        var rows := Listing(request, server);
        if rows.Some? {
          SetUpForms(rows.value);
        }
    }

    /** `ngOnChanges(changes)`: a new search query is acted on; other changes are not. */
    method NgOnChanges(searchQueryChanged: bool, server: HttpRequest -> HttpResult) returns (thrown: Option<string>)
      modifies this
      ensures !searchQueryChanged ==> thrown == None && searchResults == old(searchResults)
      ensures searchQuery == old(searchQuery) && showUpdateNotification == old(showUpdateNotification)
      ensures updateNotification == old(updateNotification)
      ensures searchQueryChanged && DispatchQuery(searchQuery) == Skip ==> thrown == None && searchResults == old(searchResults)
      ensures searchQueryChanged && DispatchQuery(searchQuery) == FetchAll ==>
        thrown == (if records.Fetch().Throws? then Some(NoToken) else None)
        && (Listing(records.Fetch(), server).Some? ==> Shows(searchResults, Listing(records.Fetch(), server).value))
        && (Listing(records.Fetch(), server).None? ==> searchResults == old(searchResults))
      ensures searchQueryChanged && DispatchQuery(searchQuery).SearchFor? ==>
        thrown == (if records.Search(searchQuery).Throws? then Some(NoToken) else None)
        && (Listing(records.Search(searchQuery), server).Some? ==>
              Shows(searchResults, Listing(records.Search(searchQuery), server).value))
        && (Listing(records.Search(searchQuery), server).None? ==> searchResults == old(searchResults))
    {
      thrown := None;
      if searchQueryChanged {
        thrown := GetSearchedRecords(server);
      }
    }

    /** `editRow(row)`: the row enters editing; its form is untouched. */
    method EditRow(row: EditRecord)
      modifies row
      ensures row.fields == old(row.fields)["isEditing" := JBool(true)] && row.form == old(row.form)
    {
      row.fields := row.fields["isEditing" := JBool(true)];
    }

    /** `cancelEdit(row)` as written: the row leaves editing and its form is reset from the row object by control name. */
    method CancelEditAsWritten(row: EditRecord)
      modifies row
      ensures row.fields == old(row.fields)["isEditing" := JBool(false)]
      ensures row.form == CancelledForm(row.fields)
    {
      row.fields := row.fields["isEditing" := JBool(false)];
      row.form := CancelledForm(row.fields);
    }

    /**
     * `cancelEdit(row)` as intended: the row leaves editing and every control
     * gets back the row's own value, so what was typed into the form is discarded.
     */
    method CancelEdit(row: EditRecord)
      modifies row
      ensures row.fields == old(row.fields)["isEditing" := JBool(false)]
      ensures row.form == RestoredForm(row.fields)
      ensures row.form.isin == Pick(old(row.fields), "isin") && row.form.name == Pick(old(row.fields), "name")
    {
      row.fields := row.fields["isEditing" := JBool(false)];
      row.form := RestoredForm(row.fields);
    }

    /** `displaySaveNotification(notification)`: shows the notice. */
    method DisplaySaveNotification(notification: string)
      modifies this
      ensures showUpdateNotification && updateNotification == notification
      ensures searchQuery == old(searchQuery) && searchResults == old(searchResults)
    {
      showUpdateNotification, updateNotification := true, notification;
    }

    /** The 2500 ms timer `displaySaveNotification` starts: hides the notice and keeps its text. */
    method NotificationTimeout()
      modifies this
      ensures !showUpdateNotification && updateNotification == old(updateNotification)
      ensures searchQuery == old(searchQuery) && searchResults == old(searchResults)
    {
      showUpdateNotification := false;
    }

    /** `handleSuccessfulUpdate(row, updatedRecord)`: the reply's members onto the row, editing off, and the notice. */
    method HandleSuccessfulUpdate(row: EditRecord, updated: Json)
      modifies this, row
      ensures row.fields == Assigned(old(row.fields), updated)["isEditing" := JBool(false)] && row.form == old(row.form)
      ensures showUpdateNotification && updateNotification == UpdatedNotice
      ensures searchQuery == old(searchQuery) && searchResults == old(searchResults)
    {
      row.fields := Assigned(row.fields, updated)["isEditing" := JBool(false)];
      DisplaySaveNotification(UpdatedNotice);
    }

    /** `handleError(error)`: a 409 shows the duplicate notice; other failures show nothing. */
    method HandleError(status: int)
      modifies this
      ensures status == 409 ==> showUpdateNotification && updateNotification == DuplicateNotice
      ensures status != 409 ==>
        showUpdateNotification == old(showUpdateNotification) && updateNotification == old(updateNotification)
      ensures searchQuery == old(searchQuery) && searchResults == old(searchResults)
    {
      if status == 409 {
        DisplaySaveNotification(DuplicateNotice);
      }
    }

    /**
     * `saveRow(row)`: an invalid form sends nothing; a missing token throws;
     * otherwise the form's values and the row's id are posted and the reply handled.
     */
    method SaveRow(row: EditRecord, server: HttpRequest -> HttpResult) returns (thrown: Option<string>)
      modifies this, row
      ensures row.form == old(row.form)
      ensures searchQuery == old(searchQuery) && searchResults == old(searchResults)
      ensures !FormValid(old(row.form)) ==>
        thrown == None && row.fields == old(row.fields)
        && showUpdateNotification == old(showUpdateNotification) && updateNotification == old(updateNotification)
      ensures FormValid(old(row.form)) && records.Update(UpdateBody(old(row.form), old(row.fields))).Throws? ==>
        thrown == Some(NoToken) && row.fields == old(row.fields)
        && showUpdateNotification == old(showUpdateNotification) && updateNotification == old(updateNotification)
      ensures FormValid(old(row.form)) && records.Update(UpdateBody(old(row.form), old(row.fields))).Ok? ==>
        thrown == None && (match server(records.Update(UpdateBody(old(row.form), old(row.fields))).value)
          case Success(updated) =>
            row.fields == Assigned(old(row.fields), updated)["isEditing" := JBool(false)]
            && showUpdateNotification && updateNotification == UpdatedNotice
          case Failure(status) =>
            row.fields == old(row.fields)
            && (status == 409 ==> showUpdateNotification && updateNotification == DuplicateNotice)
            && (status != 409 ==> showUpdateNotification == old(showUpdateNotification)
                                  && updateNotification == old(updateNotification)))
    {
      thrown := None;
      if !FormValid(row.form) {
        return;
      }
      var request := records.Update(UpdateBody(row.form, row.fields));
      match request
      case Throws(e) =>
        thrown := Some(e);
      case Ok(r) =>
        match server(r)
        case Success(updated) =>
          HandleSuccessfulUpdate(row, updated);
        case Failure(status) =>
          HandleError(status);
    }
  }
}
