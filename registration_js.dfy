/**
 * Step 3 of sign-up in JavaScript (`completeRegistration.jsx`): the form
 * starts with seven fields (no password), the change handler accepts any
 * field name, and submit checks an explicit list of eight required fields.
 */
module RegistrationJs {
  import opened Options
  import opened Text
  import opened FormCheck

  /** The keys of the initial form record; "password" is not among them. */
  const InitialFields: seq<string> :=
    ["firstName", "middleName", "lastName", "username", "birthdate", "contactNumber", "referredBy"]

  /** The `requiredFields` list, in the order submit checks it. */
  const RequiredFields: seq<string> :=
    ["firstName", "middleName", "lastName", "username", "birthdate", "contactNumber", "referredBy", "password"]

  const PASSWORD: string := "password"
  const SUCCESS_MESSAGE: string := "Registration completed successfully!"
  const FAILED_TITLE: string := "Registration failed"

  /** A rejected request: `err.response?.data?.error` (when the server sent one) and `err.message`. */
  datatype RequestError = RequestError(responseError: Option<string>, message: string)

  datatype Reply = Registered | Failed(error: RequestError)

  /** `err.response?.data?.error || err.message`. */
  function FrontendMessage(e: RequestError): (r: string)
    ensures e.responseError.Some? && e.responseError.value != "" ==> r == e.responseError.value
    ensures e.responseError.None? || e.responseError.value == "" ==> r == e.message
  {
    if e.responseError.Some? && e.responseError.value != "" then e.responseError.value else e.message
  }

  class CompleteRegistrationScreen {
    const email: string
    var formData: Form

    constructor (email: string)
      ensures this.email == email
      ensures formData.Keys == set k | k in InitialFields
      ensures forall k :: k in formData ==> formData[k] == ""
    {
      this.email := email;
      formData := map k | k in InitialFields :: "";
    }

    /** `setFormData({...formData, [name]: value})`: any name, existing or new. */
    method HandleInputChange(name: string, value: string)
      modifies this`formData
      ensures formData == old(formData)[name := value]
    {
      formData := formData[name := value];
    }

    /** The submit button, given what the registration request would answer. */
    method HandleSubmit(reply: Reply) returns (outcome: SubmitOutcome)
      ensures match FirstMissing(formData, RequiredFields)
        case Some(i) =>
          outcome == SubmitOutcome(PlainAlert(MissingMessage(RequiredFields[i])), None, false)
        case None =>
          && outcome.sent == Some(formData["email" := email])
          && (reply.Registered? ==> outcome.notice == PlainAlert(SUCCESS_MESSAGE) && outcome.toLogin)
          && (reply.Failed? ==> outcome.notice == AlertDialog(FAILED_TITLE, FrontendMessage(reply.error)) && !outcome.toLogin)
    {
      var i := 0;
      while i < |RequiredFields|
        invariant 0 <= i <= |RequiredFields|
        invariant forall j :: 0 <= j < i ==> !Missing(formData, RequiredFields[j])
      {
        var field := RequiredFields[i];
        if Missing(formData, field) {
          FirstMissingIs(formData, RequiredFields, i);
          return SubmitOutcome(PlainAlert(MissingMessage(field)), None, false);
        }
        i := i + 1;
      }
      assert FirstMissing(formData, RequiredFields).None?;
      var payload := formData["email" := email];
      match reply
      case Registered =>
        outcome := SubmitOutcome(PlainAlert(SUCCESS_MESSAGE), Some(payload), true);
      case Failed(err) =>
        outcome := SubmitOutcome(AlertDialog(FAILED_TITLE, FrontendMessage(err)), Some(payload), false);
    }
  }

  lemma RequiredFieldsExtendInitial()
    ensures RequiredFields == InitialFields + [PASSWORD]
  {
  }

  /**
   * Filling in all seven initial fields is not enough: a password that was
   * never typed is absent from the record and is reported.
   */
  lemma PasswordReportedWhenUntyped(form: Form)
    requires forall k :: k in InitialFields ==> k in form && form[k] != ""
    requires PASSWORD !in form
    ensures FirstMissing(form, RequiredFields) == Some(|InitialFields|)
    ensures RequiredFields[|InitialFields|] == PASSWORD
  {
    RequiredFieldsExtendInitial();
    assert forall j :: 0 <= j < |InitialFields| ==> RequiredFields[j] in InitialFields;
    assert Missing(form, RequiredFields[|InitialFields|]);
  }
}
