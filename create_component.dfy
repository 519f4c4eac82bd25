/**
 * The "add company record" view: a form that is submitted only when valid,
 * cleared after a save, and told about a duplicate ISIN by a 409 reply.
 */
module CreateComponent {
  import opened Wrappers
  import opened Json
  import opened HttpClient
  import opened RecordForms
  import opened CompanyRecordsService

  const AddTitle := "Add new company record."

  const SavedTitle := "Company Record Saved"

  /** The form as the component builds it: five empty text controls. */
  function InitialForm(): Form {
    TextForm(CreateView, "", "", "", "", "")
  }

  /** `companyRecordForm.reset()`: every control back to `null`, then validated again. */
  function ClearedForm(): Form {
    Build(CreateView, map[], "ISIN")
  }

  /** `ISIN.setErrors({isinNotUnique: true})` on a form. */
  function DuplicateIsin(form: Form): Form {
    SetIsinErrors(form, Single("isinNotUnique", Flag))
  }

  /** A fresh form cannot be submitted: every required control says so. */
  lemma InitialFormInvalid()
    ensures !FormValid(InitialForm())
    ensures ErrorMessage(Some(InitialForm().Get(Name)), "Name") == "Name is required."
  {
    TextFormValid(CreateView, "", "", "", "", "");
    MessageOfValidated(CreateView, Name, JStr(""), "Name");
  }

  /** After a save every control is `null` and the form cannot be resubmitted as it stands. */
  lemma ClearedFormInvalid()
    ensures ClearedForm().name == JNull && ClearedForm().isin == JNull && ClearedForm().website == JNull
    ensures ClearedForm().Get(Website).errors.None?
    ensures !FormValid(ClearedForm())
    ensures ErrorMessage(Some(ClearedForm().Get(Isin)), "ISIN") == "ISIN is required."
  {
    EmptyIsinMessage(CreateView);
    assert Rules(CreateView, Website)[0] == WebsitePattern;
  }

  /** After a 409 the ISIN control alone is invalid, and its message names the duplicate. */
  lemma DuplicateIsinReported(form: Form)
    ensures !FormValid(DuplicateIsin(form))
    ensures ErrorMessage(Some(DuplicateIsin(form).Get(Isin)), "ISIN") == "This ISIN already exists."
    ensures FormValue(DuplicateIsin(form)) == FormValue(form)
    ensures DuplicateIsin(form).Get(Name) == form.Get(Name) && DuplicateIsin(form).Get(Website) == form.Get(Website)
  {
  }

  class CreateComponent {
    var form: Form
    var formTitle: string
    const records: CompanyRecordsService

    constructor (records: CompanyRecordsService)
      ensures form == InitialForm() && formTitle == AddTitle && this.records == records
    {
      form, formTitle := InitialForm(), AddTitle;
      this.records := records;
    }

    /** `handleSuccess()`: the save title, and a cleared form. */
    method HandleSuccess()
      modifies this
      ensures formTitle == SavedTitle && form == ClearedForm()
    {
      formTitle := SavedTitle;
      form := ClearedForm();
    }

    /** `handleError(error)`: a 409 marks the ISIN as taken; any other failure changes nothing. */
    method HandleError(status: int)
      modifies this
      ensures formTitle == old(formTitle)
      ensures form == if status == 409 then DuplicateIsin(old(form)) else old(form)
    {
      if status == 409 {
        form := DuplicateIsin(form);
      }
    }

    /**
     * `onSubmit()`, with `server` answering the request. An invalid form
     * sends nothing; a missing token throws before sending; otherwise the
     * form value is posted and the reply handled.
     */
    method OnSubmit(server: HttpRequest -> HttpResult) returns (thrown: Option<string>)
      modifies this
      ensures !FormValid(old(form)) ==> thrown == None && form == old(form) && formTitle == old(formTitle)
      ensures FormValid(old(form)) && records.Create(FormValue(old(form))).Throws? ==>
        thrown == Some(NoToken) && form == old(form) && formTitle == old(formTitle)
      ensures FormValid(old(form)) && records.Create(FormValue(old(form))).Ok? ==>
        thrown == None && (match server(records.Create(FormValue(old(form))).value)
          case Success(_) => formTitle == SavedTitle && form == ClearedForm()
          case Failure(status) =>
            formTitle == old(formTitle) && form == if status == 409 then DuplicateIsin(old(form)) else old(form))
    {
      thrown := None;
      if !FormValid(form) {
        return;
      }
      var request := records.Create(FormValue(form));
      match request
      case Throws(e) =>
        thrown := Some(e);
      case Ok(r) =>
        match server(r)
        case Success(_) =>
          HandleSuccess();
        case Failure(status) =>
          HandleError(status);
    }
  }
}
