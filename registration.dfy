/**
 * Step 3 of sign-up in TypeScript (`completeRegistration.tsx`): eight text
 * fields, a change handler that replaces one of them, and a submit handler
 * that walks the fields in their declared order, stops at the first empty
 * one, and otherwise sends the fields together with the verified e-mail.
 */
module Registration {
  import opened Options
  import opened Text
  import opened FormCheck

  /** The form's keys in the order they are declared, which is the order `Object.entries` visits them. */
  const FieldOrder: seq<string> :=
    ["firstName", "middleName", "lastName", "username", "birthdate", "contactNumber", "referredBy", "password"]

  const MISSING_TITLE: string := "Missing Field"
  const SUCCESS_TITLE: string := "Success"
  const SUCCESS_MESSAGE: string := "Registration completed successfully!"
  const FAILED_TITLE: string := "Registration failed"

  /** What `completeRegistration(payload)` threw: an object with a `message`, or any other value. */
  datatype Thrown = ErrorObject(message: string) | OtherValue(asString: string)

  /** The outcome of the registration request. */
  datatype Reply = Registered | Threw(error: Thrown)

  /** The failure text: the error's `message` when it has one, otherwise `String(error)`. */
  function ErrorText(e: Thrown): string
  {
    match e
    case ErrorObject(m) => m
    case OtherValue(s) => s
  }

  class CompleteRegistrationScreen {
    /** The address verified in the previous step (`route.params.email`). */
    const email: string
    var formData: Form

    /** The record always has exactly the eight declared keys. */
    ghost predicate Valid()
      reads this
    {
      forall k :: k in formData <==> k in FieldOrder
    }

    constructor (email: string)
      ensures Valid() && this.email == email
      ensures forall k :: k in FieldOrder ==> formData[k] == ""
    {
      this.email := email;
      formData := map k | k in FieldOrder :: "";
    }

    /** `setFormData(prev => ({...prev, [name]: value}))`. */
    method HandleInputChange(name: string, value: string)
      requires Valid() && name in FieldOrder
      modifies this`formData
      ensures Valid()
      ensures formData[name] == value
      ensures forall k :: k in formData && k != name ==> formData[k] == old(formData)[k]
    {
      formData := formData[name := value];
    }

    /** The submit button, given what the registration request would answer. */
    method HandleSubmit(reply: Reply) returns (outcome: SubmitOutcome)
      requires Valid()
      ensures match FirstMissing(formData, FieldOrder)
        case Some(i) =>
          outcome == SubmitOutcome(AlertDialog(MISSING_TITLE, MissingMessage(FieldOrder[i])), None, false)
        case None =>
          && outcome.sent == Some(formData["email" := email])
          && (reply.Registered? ==> outcome.notice == AlertDialog(SUCCESS_TITLE, SUCCESS_MESSAGE) && outcome.toLogin)
          && (reply.Threw? ==> outcome.notice == AlertDialog(FAILED_TITLE, ErrorText(reply.error)) && !outcome.toLogin)
    {
      var i := 0;
      while i < |FieldOrder|
        invariant 0 <= i <= |FieldOrder|
        invariant forall j :: 0 <= j < i ==> !Missing(formData, FieldOrder[j])
      {
        var key := FieldOrder[i];
        if Missing(formData, key) {
          FirstMissingIs(formData, FieldOrder, i);
          return SubmitOutcome(AlertDialog(MISSING_TITLE, MissingMessage(key)), None, false);
        }
        i := i + 1;
      }
      assert FirstMissing(formData, FieldOrder).None?;
      var payload := formData["email" := email];
      match reply
      case Registered =>
        outcome := SubmitOutcome(AlertDialog(SUCCESS_TITLE, SUCCESS_MESSAGE), Some(payload), true);
      case Threw(error) =>
        outcome := SubmitOutcome(AlertDialog(FAILED_TITLE, ErrorText(error)), Some(payload), false);
    }
  }

  /** A request goes out exactly when every one of the eight fields has been filled in. */
  lemma SentOnlyWhenComplete(form: Form)
    ensures FirstMissing(form, FieldOrder).None? <==>
      forall k :: k in FieldOrder ==> k in form && form[k] != ""
  {
    if FirstMissing(form, FieldOrder).None? {
      forall k | k in FieldOrder ensures k in form && form[k] != "" {
        var j :| 0 <= j < |FieldOrder| && FieldOrder[j] == k;
      }
    }
  }

  lemma FieldKeysHaveNoSpaces()
    ensures forall k :: 0 <= k < |FieldOrder| ==> NoSpaces(FieldOrder[k])
  {
  }

  lemma FieldKeysDistinct()
    ensures forall i, j :: 0 <= i < j < |FieldOrder| ==> FieldOrder[i] != FieldOrder[j]
  {
  }

  /** The keys have no spaces, so each one is reported by a message of its own. */
  lemma FieldsReportedDistinctly(i: nat, j: nat)
    requires i < |FieldOrder| && j < |FieldOrder|
    requires MissingMessage(FieldOrder[i]) == MissingMessage(FieldOrder[j])
    ensures i == j
  {
    FieldKeysHaveNoSpaces();
    FieldKeysDistinct();
    MissingMessageInjective(FieldOrder[i], FieldOrder[j]);
  }
}
