/**
 * What the two registration screens share: a form as a record of named text
 * fields, the scan for the first required field left empty, and the
 * "Please enter your …" message built from the field's camelCase key.
 */
module FormCheck {
  import opened Options
  import opened Text

  /** A form record: field name to the text typed into it. */
  type Form = map<string, string>

  /** `!form[field]`: the field is absent (undefined) or holds the empty string. */
  predicate Missing(form: Form, field: string) {
    field !in form || form[field] == ""
  }

  /** The position of the first field in `fields` that is missing from `form`, if any. */
  function FirstMissing(form: Form, fields: seq<string>): (r: Option<nat>)
    ensures r.Some? ==> r.value < |fields| && Missing(form, fields[r.value])
    ensures r.Some? ==> forall j :: 0 <= j < r.value ==> !Missing(form, fields[j])
    ensures r.None? <==> forall j :: 0 <= j < |fields| ==> !Missing(form, fields[j])
    decreases |fields|
  {
    if fields == [] then None
    else if Missing(form, fields[0]) then Some(0)
    else match FirstMissing(form, fields[1..])
      case None => None
      case Some(k) => Some(k + 1)
  }

  /** A missing field with no missing field before it is the one `FirstMissing` reports. */
  lemma FirstMissingIs(form: Form, fields: seq<string>, i: nat)
    requires i < |fields| && Missing(form, fields[i])
    requires forall j :: 0 <= j < i ==> !Missing(form, fields[j])
    ensures FirstMissing(form, fields) == Some(i)
  {
  }

  /** Filling in a field that comes after the first missing one does not change which field is reported. */
  lemma {:induction false} FirstMissingIgnoresLaterFields(form: Form, fields: seq<string>, name: string, value: string, i: nat)
    requires FirstMissing(form, fields) == Some(i)
    requires forall j :: 0 <= j <= i ==> fields[j] != name
    ensures FirstMissing(form[name := value], fields) == Some(i)
  {
    var f := form[name := value];
    assert forall j :: 0 <= j <= i ==> (Missing(f, fields[j]) <==> Missing(form, fields[j]));
    assert Missing(f, fields[i]);
  }

  const MISSING_PREFIX: string := "Please enter your "

  /** The text reported for a missing field: its key as lower-case words. */
  function MissingMessage(key: string): (m: string)
    ensures |m| == |MISSING_PREFIX| + |Humanize(key)| + 1
    ensures m[..|MISSING_PREFIX|] == MISSING_PREFIX && m[|m| - 1] == '.'
    ensures forall i :: 0 <= i < |m| ==> !IsUpper(m[i]) || i == 0
  {
    MISSING_PREFIX + Humanize(key) + "."
  }

  /** The message names the field unambiguously: the key can be read back from it. */
  lemma MissingMessageNamesField(key: string)
    requires NoSpaces(key)
    ensures var m := MissingMessage(key);
      Camelize(m[|MISSING_PREFIX|..|m| - 1]) == key
  {
    var m := MissingMessage(key);
    assert m[|MISSING_PREFIX|..|m| - 1] == Humanize(key);
    CamelizeHumanize(key);
  }

  /** Different fields are never reported with the same message. */
  lemma MissingMessageInjective(a: string, b: string)
    requires NoSpaces(a) && NoSpaces(b)
    requires MissingMessage(a) == MissingMessage(b)
    ensures a == b
  {
    MissingMessageNamesField(a);
    MissingMessageNamesField(b);
  }

  /** The dialogs the screens raise: `Alert.alert(title, message)` and the bare `alert(message)`. */
  datatype Notice = AlertDialog(title: string, message: string) | PlainAlert(text: string)

  /** What one press of the submit button does: the notice shown, the payload sent (if any), and whether it moved on to Login. */
  datatype SubmitOutcome = SubmitOutcome(notice: Notice, sent: Option<Form>, toLogin: bool)
}
