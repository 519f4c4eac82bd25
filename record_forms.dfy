/**
 * The reactive forms of the create and search views. Both build the same
 * five controls with the same validators, except that the create form lets
 * the exchange run to 50 characters and a row's edit form to 10. A control's
 * errors are the merge of its validators' error objects, `null` when none
 * reports; a form is valid when every control is.
 */
module RecordForms {
  import opened Wrappers
  import opened Json
  import opened Strings

  /** An error object's value: `true`, or the `{requiredLength, actualLength}` of `maxlength`. */
  datatype ErrorValue = Flag | Length(requiredLength: int, actualLength: int)

  type Errors = map<string, ErrorValue>

  /** A form control: its value (`null` for `undefined`) and its `errors`. */
  datatype Control = Control(value: Json, errors: Option<Errors>)

  datatype Validator = Required | MaxLength(limit: nat) | IsinPattern | WebsitePattern

  /** Which of the two views built the form. */
  datatype Kind = CreateView | RowView

  /** `Validators.required` rejects `null`, the empty string and the empty array. */
  predicate IsEmptyInput(v: Json) {
    v.JNull? || (v.JStr? && v.s == "") || (v.JArr? && v.items == [])
  }

  /** The `length` of a string or array value; other values have none. */
  function LengthOf(v: Json): (n: Option<nat>)
    ensures n.Some? <==> v.JStr? || v.JArr?
  {
    match v
    case JStr(s) => Some(|s|)
    case JArr(items) => Some(|items|)
    case _ => None
  }

  predicate IsCapital(c: char) {
    'A' <= c <= 'Z'
  }

  predicate IsCapitalOrDigit(c: char) {
    IsCapital(c) || '0' <= c <= '9'
  }

  /** `/^[A-Z]{2}[A-Z0-9]{10}$/`: two capitals, then ten capitals or digits, and nothing else (the ISO 6166 layout). */
  predicate IsinShape(s: string) {
    |s| == 12 && IsCapital(s[0]) && IsCapital(s[1])
    && forall i :: 2 <= i < 12 ==> IsCapitalOrDigit(s[i])
  }

  /** The characters a regular expression's `.` does not match. */
  predicate IsLineTerminator(c: char) {
    c == '\n' || c == '\r' || c == '\U{2028}' || c == '\U{2029}'
  }

  predicate NoLineTerminator(s: string) {
    forall j :: 0 <= j < |s| ==> !IsLineTerminator(s[j])
  }

  /**
   * `/^https:\/\/.+\..+/`: `https://`, then at least one character, a dot
   * at some index `i`, and at least one more character, none of them a
   * line terminator; whatever follows is not looked at.
   */
  predicate WebsiteShape(s: string) {
    StartsWith(s, "https://")
    && exists i :: 9 <= i < |s| - 1 && s[i] == '.' && NoLineTerminator(s[8..i]) && !IsLineTerminator(s[i + 1])
  }

  /** The one-key error object `{key: value}`. */
  function Single(key: string, value: ErrorValue): (e: Errors)
    ensures e != map[] && key in e && e[key] == value && e.Keys == {key}
  {
    var e := map[key := value];
    assert key in e;
    e
  }

  /** The error object one validator returns for a value, as a map (empty for `null`). */
  function Validate(rule: Validator, value: Json): (e: Errors)
    ensures rule.Required? ==> (e != map[] <==> IsEmptyInput(value))
    ensures rule.MaxLength? ==> (e != map[] <==> LengthOf(value).Some? && LengthOf(value).value > rule.limit)
    ensures rule.IsinPattern? ==> (e != map[] <==> !IsinShape(JsString(Some(value))))
    ensures rule.WebsitePattern? ==>
      (e != map[] <==> Truthy(Some(value)) && !WebsiteShape(JsString(Some(value))))
  {
    match rule
    case Required =>
      if IsEmptyInput(value) then Single("required", Flag) else map[]
    case MaxLength(limit) =>
      var n := LengthOf(value);
      if n.Some? && n.value > limit then Single("maxlength", Length(limit, n.value)) else map[]
    case IsinPattern =>
      if IsinShape(JsString(Some(value))) then map[] else Single("isinInvalid", Flag)
    case WebsitePattern =>
      if !Truthy(Some(value)) || WebsiteShape(JsString(Some(value))) then map[] else Single("websiteInvalid", Flag)
  }

  /** The merge of the validators' error objects, later ones winning on a shared key. */
  function Merged(rules: seq<Validator>, value: Json): Errors {
    if |rules| == 0 then map[] else Merged(rules[..|rules| - 1], value) + Validate(rules[|rules| - 1], value)
  }

  /** The merge has no key exactly when no validator reports anything. */
  lemma {:induction false} MergedEmpty(rules: seq<Validator>, value: Json)
    ensures Merged(rules, value) == map[] <==> forall i :: 0 <= i < |rules| ==> Validate(rules[i], value) == map[]
  {
    if |rules| > 0 {
      var init := rules[..|rules| - 1];
      MergedEmpty(init, value);
      var m, last := Merged(init, value), Validate(rules[|rules| - 1], value);
      assert Merged(rules, value) == m + last;
      if m + last == map[] {
        assert forall k :: k in m ==> k in m + last;
        assert forall k :: k in last ==> k in m + last;
        assert m == map[] && last == map[];
        forall i | 0 <= i < |rules|
          ensures Validate(rules[i], value) == map[]
        {
          if i < |rules| - 1 {
            assert rules[i] == init[i];
          }
        }
      } else {
        assert !(m == map[] && last == map[]);
      }
    }
  }

  /** A key some validator reports survives the merge. */
  lemma {:induction false} MergedKeeps(rules: seq<Validator>, value: Json, i: nat, key: string)
    requires i < |rules| && key in Validate(rules[i], value)
    ensures key in Merged(rules, value)
  {
    var init := rules[..|rules| - 1];
    if i < |rules| - 1 {
      assert rules[i] == init[i];
      MergedKeeps(init, value, i, key);
    }
  }

  /** A control's `errors` after validation: `null` when nothing reported. */
  function ErrorsOf(rules: seq<Validator>, value: Json): (e: Option<Errors>)
    ensures e.None? <==> forall i :: 0 <= i < |rules| ==> Validate(rules[i], value) == map[]
    ensures e.Some? ==> e.value == Merged(rules, value) && e.value != map[]
  {
    MergedEmpty(rules, value);
    var m := Merged(rules, value);
    if m == map[] then None else Some(m)
  }

  /** The five controls of both forms. */
  datatype Field = Name | Exchange | Ticker | Isin | Website

  /** The validators the source attaches to each control; the exchange limit depends on the view. */
  function Rules(kind: Kind, field: Field): (rules: seq<Validator>)
    ensures field != Website ==> |rules| >= 1 && rules[0] == Required
    ensures field == Website ==> rules == [WebsitePattern]
    ensures field == Exchange || field == Ticker || field == Isin ==>
      |rules| >= 2 && rules[1] == MaxLength(if field == Isin then 12 else if field == Exchange && kind == CreateView then 50 else 10)
    ensures field == Isin ==> rules == [Required, MaxLength(12), IsinPattern]
  {
    match field
    case Name => [Required]
    case Exchange => [Required, MaxLength(if kind == CreateView then 50 else 10)]
    case Ticker => [Required, MaxLength(10)]
    case Isin => [Required, MaxLength(12), IsinPattern]
    case Website => [WebsitePattern]
  }

  /** A control holding `value`, validated by the rules of its field. */
  function Validated(kind: Kind, field: Field, value: Json): (c: Control)
    ensures c.value == value
    ensures c.errors.None? <==> forall i :: 0 <= i < |Rules(kind, field)| ==> Validate(Rules(kind, field)[i], value) == map[]
  {
    Control(value, ErrorsOf(Rules(kind, field), value))
  }

  /** `source[key]`, with `undefined` becoming the control default `null`. */
  function Pick(source: map<string, Json>, key: string): (v: Json)
    ensures key in source ==> v == source[key]
    ensures key !in source ==> v == JNull
  {
    if key in source then source[key] else JNull
  }

  /**
   * A form group of the five controls: the view that built it, each
   * control's value, and the errors last set on the ISIN control by hand
   * (`setErrors`), which replace its validators' verdict until the next reset.
   */
  datatype Form = Form(kind: Kind, name: Json, exchange: Json, ticker: Json, isin: Json, website: Json,
                       isinSetErrors: Option<Errors>)
  {
    function Value(field: Field): Json {
      match field
      case Name => name
      case Exchange => exchange
      case Ticker => ticker
      case Isin => isin
      case Website => website
    }

    /** `form.get(field)`: the control's value and its current errors. */
    function Get(field: Field): (c: Control)
      ensures c.value == Value(field)
      ensures field == Isin && isinSetErrors.Some? ==> c.errors == isinSetErrors
      ensures field != Isin || isinSetErrors.None? ==> c == Validated(kind, field, Value(field))
    {
      if field == Isin && isinSetErrors.Some? then Control(isin, isinSetErrors)
      else Validated(kind, field, Value(field))
    }
  }

  /**
   * The group built (or reset) from the object `source`: every control
   * takes the member of its own name, except ISIN, which reads `isinKey`;
   * building or resetting validates every control afresh.
   */
  function Build(kind: Kind, source: map<string, Json>, isinKey: string): (f: Form)
    ensures f.kind == kind && f.isinSetErrors.None?
    ensures f.name == Pick(source, "name") && f.exchange == Pick(source, "exchange") && f.ticker == Pick(source, "ticker")
    ensures f.isin == Pick(source, isinKey) && f.website == Pick(source, "website")
  {
    Form(kind, Pick(source, "name"), Pick(source, "exchange"), Pick(source, "ticker"), Pick(source, isinKey),
         Pick(source, "website"), None)
  }

  /** The form holding five text values. */
  function TextForm(kind: Kind, name: string, exchange: string, ticker: string, isin: string, website: string): Form {
    Form(kind, JStr(name), JStr(exchange), JStr(ticker), JStr(isin), JStr(website), None)
  }

  /** `form.valid`: no control has errors. */
  predicate FormValid(form: Form) {
    form.Get(Name).errors.None? && form.Get(Exchange).errors.None? && form.Get(Ticker).errors.None?
    && form.Get(Isin).errors.None? && form.Get(Website).errors.None?
  }

  /** `form.value`: each control's value under its control name. */
  function FormValue(form: Form): (v: Json)
    ensures v.JObj? && v.fields.Keys == {"name", "exchange", "ticker", "ISIN", "website"}
    ensures Member(v, "name") == Some(form.name) && Member(v, "exchange") == Some(form.exchange)
    ensures Member(v, "ticker") == Some(form.ticker) && Member(v, "ISIN") == Some(form.isin)
    ensures Member(v, "website") == Some(form.website)
  {
    JObj(map["name" := form.name, "exchange" := form.exchange, "ticker" := form.ticker,
             "ISIN" := form.isin, "website" := form.website])
  }

  /** `ISIN.setErrors(errors)`: replaces that control's errors and leaves its value and the other controls alone. */
  function SetIsinErrors(form: Form, errors: Errors): (f: Form)
    ensures f.Get(Isin) == Control(form.isin, Some(errors))
    ensures forall field :: field != Isin ==> f.Get(field) == form.Get(field)
    ensures FormValue(f) == FormValue(form)
  {
    form.(isinSetErrors := Some(errors))
  }

  /** What a text value must satisfy to pass the validators of its field. */
  predicate TextAccepted(kind: Kind, field: Field, s: string) {
    match field
    case Name => s != ""
    case Exchange => s != "" && |s| <= (if kind == CreateView then 50 else 10)
    case Ticker => s != "" && |s| <= 10
    case Isin => IsinShape(s)
    case Website => s == "" || WebsiteShape(s)
  }

  /** A text control is valid exactly when its value is accepted. */
  lemma TextControlValid(kind: Kind, field: Field, s: string)
    ensures Validated(kind, field, JStr(s)).errors.None? <==> TextAccepted(kind, field, s)
  {
    var rules := Rules(kind, field);
    match field
    case Name =>
      assert rules[0] == Required;
    case Exchange =>
      assert rules[0] == Required;
      assert rules[1].MaxLength? && rules[1].limit == if kind == CreateView then 50 else 10;
    case Ticker =>
      assert rules[0] == Required && rules[1] == MaxLength(10);
    case Isin =>
      assert rules[0] == Required && rules[1] == MaxLength(12) && rules[2] == IsinPattern;
    case Website =>
      assert rules[0] == WebsitePattern;
  }

  /**
   * Text values make a valid form exactly when name, exchange and ticker
   * are non-empty and within their limits, the ISIN has its shape, and the
   * website is empty or an `https://` address with a dot.
   */
  lemma TextFormValid(kind: Kind, name: string, exchange: string, ticker: string, isin: string, website: string)
    ensures FormValid(TextForm(kind, name, exchange, ticker, isin, website)) <==>
      name != "" && exchange != "" && |exchange| <= (if kind == CreateView then 50 else 10)
      && ticker != "" && |ticker| <= 10 && IsinShape(isin) && (website == "" || WebsiteShape(website))
  {
    TextControlValid(kind, Name, name);
    TextControlValid(kind, Exchange, exchange);
    TextControlValid(kind, Ticker, ticker);
    TextControlValid(kind, Isin, isin);
    TextControlValid(kind, Website, website);
  }

  /**
   * `getErrorMessage(control, fieldName)`: nothing without a control or
   * without errors; otherwise the first of required, maxlength, isinInvalid,
   * isinNotUnique and websiteInvalid that is present decides the text.
   */
  function ErrorMessage(control: Option<Control>, fieldName: string): (m: string)
    ensures m == "" <==> control.None? || control.value.errors.None?
    ensures control.Some? && control.value.errors.Some? && "required" in control.value.errors.value ==>
      m == fieldName + " is required."
    ensures control.Some? && control.value.errors.Some? && "required" !in control.value.errors.value ==>
      ("maxlength" in control.value.errors.value ==> m == fieldName + " Exceeded " + LimitText(control.value.errors.value["maxlength"]) + " characters.")
    ensures control.Some? && control.value.errors.Some? ==>
      var e := control.value.errors.value;
      ("required" !in e && "maxlength" !in e && "isinInvalid" in e ==> m == "ISIN must start with 2 capitalised letters.")
      && ("required" !in e && "maxlength" !in e && "isinInvalid" !in e && "isinNotUnique" in e ==>
            m == "This ISIN already exists.")
      && ("required" !in e && "maxlength" !in e && "isinInvalid" !in e && "isinNotUnique" !in e && "websiteInvalid" in e ==>
            m == "Website must be in this format: https://example.com")
      && ("required" !in e && "maxlength" !in e && "isinInvalid" !in e && "isinNotUnique" !in e && "websiteInvalid" !in e ==>
            m == "Invalid input")
  {
    if control.None? || control.value.errors.None? then ""
    else
      var errors := control.value.errors.value;
      if "required" in errors then fieldName + " is required."
      else if "maxlength" in errors then fieldName + " Exceeded " + LimitText(errors["maxlength"]) + " characters."
      else if "isinInvalid" in errors then "ISIN must start with 2 capitalised letters."
      else if "isinNotUnique" in errors then "This ISIN already exists."
      else if "websiteInvalid" in errors then "Website must be in this format: https://example.com"
      else "Invalid input"
  }

  /** `${error.requiredLength}`: the limit, or `undefined` when the error is a bare `true`. */
  function LimitText(e: ErrorValue): string {
    match e
    case Length(requiredLength, _) => IntToString(requiredLength)
    case Flag => "undefined"
  }

  /** A control its validators just checked shows a message exactly when it is invalid, and the message names the first failing check. */
  lemma MessageOfValidated(kind: Kind, field: Field, value: Json, fieldName: string)
    ensures ErrorMessage(Some(Validated(kind, field, value)), fieldName) == "" <==>
      forall i :: 0 <= i < |Rules(kind, field)| ==> Validate(Rules(kind, field)[i], value) == map[]
    ensures field != Website && IsEmptyInput(value) ==>
      ErrorMessage(Some(Validated(kind, field, value)), fieldName) == fieldName + " is required."
  {
    var rules := Rules(kind, field);
    if field != Website && IsEmptyInput(value) {
      assert rules[0] == Required;
      assert Validate(rules[0], value) == map["required" := Flag];
      MergedKeeps(rules, value, 0, "required");
    }
  }

  /** An ISIN control holding `null` asks for a value. */
  lemma EmptyIsinMessage(kind: Kind)
    ensures Validated(kind, Isin, JNull).errors.Some?
    ensures ErrorMessage(Some(Validated(kind, Isin, JNull)), "ISIN") == "ISIN is required."
  {
    MessageOfValidated(kind, Isin, JNull, "ISIN");
  }

  /**
   * A value longer than its field's limit asks to be shortened, naming the
   * limit; for an ISIN this wins over the pattern check, which fails too.
   */
  lemma TooLongMessage(kind: Kind, field: Field, s: string, fieldName: string)
    requires field == Exchange || field == Ticker || field == Isin
    requires |s| > Rules(kind, field)[1].limit
    ensures ErrorMessage(Some(Validated(kind, field, JStr(s))), fieldName) ==
      fieldName + " Exceeded " + IntToString(Rules(kind, field)[1].limit) + " characters."
  {
    var rules := Rules(kind, field);
    var limit := rules[1].limit;
    assert Validate(rules[0], JStr(s)) == map[];
    assert Validate(rules[1], JStr(s)) == Single("maxlength", Length(limit, |s|));
    MergedKeeps(rules, JStr(s), 1, "maxlength");
    var e := Merged(rules, JStr(s));
    assert Merged(rules[..1], JStr(s)) == map[] by {
      assert rules[..1][..0] == [];
    }
    if field == Isin {
      assert rules[..2][..1] == rules[..1];
      assert Merged(rules[..2], JStr(s)) == Single("maxlength", Length(limit, |s|));
      assert rules[..|rules| - 1] == rules[..2];
    } else {
      assert rules[..|rules| - 1] == rules[..1];
    }
    assert "required" !in e;
    assert e["maxlength"] == Length(limit, |s|);
  }

  /** A non-empty ISIN within twelve characters but without the ISIN layout says what the layout is. */
  lemma InvalidIsinMessage(kind: Kind, s: string)
    requires s != "" && |s| <= 12 && !IsinShape(s)
    ensures ErrorMessage(Some(Validated(kind, Isin, JStr(s))), "ISIN") == "ISIN must start with 2 capitalised letters."
  {
    var rules := Rules(kind, Isin);
    assert Validate(rules[0], JStr(s)) == map[];
    assert Validate(rules[1], JStr(s)) == map[];
    assert Validate(rules[2], JStr(s)) == Single("isinInvalid", Flag);
    assert rules[..2][..1] == rules[..1] && rules[..1][..0] == [];
    assert Merged(rules[..1], JStr(s)) == map[];
    assert Merged(rules[..2], JStr(s)) == map[];
    assert rules[..|rules| - 1] == rules[..2];
    assert Merged(rules, JStr(s)) == Single("isinInvalid", Flag);
  }

  /** A non-empty website without the `https://` address shape says what the shape is. */
  lemma InvalidWebsiteMessage(kind: Kind, s: string)
    requires s != "" && !WebsiteShape(s)
    ensures ErrorMessage(Some(Validated(kind, Website, JStr(s))), "Website") == "Website must be in this format: https://example.com"
  {
    var rules := Rules(kind, Website);
    assert Validate(rules[0], JStr(s)) == Single("websiteInvalid", Flag);
    assert rules[..|rules| - 1] == [];
    assert Merged(rules, JStr(s)) == Single("websiteInvalid", Flag);
  }

  /** The ISIN examples the component's tests use. */
  lemma IsinExamples()
    ensures IsinShape("US1234567890")
    ensures !IsinShape("1234567890") && !IsinShape("US123456789") && !IsinShape("US12345678901")
  {
  }

  /** The website examples the component's tests use. */
  lemma WebsiteExamples()
    ensures WebsiteShape("https://example.com") && WebsiteShape("https://test.com")
    ensures !WebsiteShape("http://example.com") && !WebsiteShape("example.com")
  {
    var s := "https://example.com";
    assert s[..8] == "https://";
    assert 9 <= 15 < |s| - 1 && s[15] == '.' && NoLineTerminator(s[8..15]) && !IsLineTerminator(s[16]);
    var t := "https://test.com";
    assert t[..8] == "https://";
    assert 9 <= 12 < |t| - 1 && t[12] == '.' && NoLineTerminator(t[8..12]) && !IsLineTerminator(t[13]);
    assert "http://example.com"[4] != "https://"[4];
    assert "example.com"[0] != "https://"[0];
  }
}
