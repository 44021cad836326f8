/**
 * The deposit form (`deposit.tsx`): a payment-method choice, three card
 * fields, an amount field that keeps only the digits typed into it, and the
 * chain of guards run when the deposit is confirmed.
 */
module Deposit {
  import opened Options
  import opened Text

  /** The ids of the three payment methods offered as radio buttons. */
  const MethodIds: seq<string> := ["gcash", "paymaya", "card"]

  const CARD: string := "card"
  const PESO: char := '\U{20B1}'

  const FILL_REQUIRED: string := "Please fill in all required fields"
  const COMPLETE_CARD: string := "Please complete the card details"
  const CONFIRMED: string := "Deposit Confirmed"

  /** An `Alert.alert(title, message?)` call. */
  datatype Alert = Alert(title: string, message: Option<string>)

  // ---------------------------------------------------------------------------
  // text.replace(/[^0-9]/g, '')

  /** The input with every character other than '0'..'9' deleted. */
  function DigitsOnly(s: string): (r: string)
    ensures AllDigits(r)
    ensures |r| <= |s|
  {
    if s == [] then []
    else (if IsDigit(s[0]) then [s[0]] else []) + DigitsOnly(s[1..])
  }

  /** `r` can be obtained from `s` by deleting characters, keeping the rest in order. */
  predicate Subsequence(r: string, s: string)
    decreases |s|
  {
    if r == [] then true
    else if s == [] then false
    else (r[0] == s[0] && Subsequence(r[1..], s[1..])) || Subsequence(r, s[1..])
  }

  /** The filter keeps the characters it keeps in their original order. */
  lemma {:induction false} DigitsOnlyIsSubsequence(s: string)
    ensures Subsequence(DigitsOnly(s), s)
    decreases |s|
  {
    if s != [] {
      DigitsOnlyIsSubsequence(s[1..]);
      var rest := DigitsOnly(s[1..]);
      if IsDigit(s[0]) {
        var r := [s[0]] + rest;
        assert r[0] == s[0] && r[1..] == rest;
      } else {
        assert DigitsOnly(s) == rest;
      }
    }
  }

  /** Every digit of the input survives, as many times as it occurs, and nothing else does. */
  lemma {:induction false} DigitsOnlyCounts(s: string, c: char)
    ensures multiset(DigitsOnly(s))[c] == if IsDigit(c) then multiset(s)[c] else 0
    decreases |s|
  {
    if s != [] {
      DigitsOnlyCounts(s[1..], c);
      assert s == [s[0]] + s[1..];
      assert multiset(s) == multiset([s[0]]) + multiset(s[1..]);
    }
  }

  lemma {:induction false} DigitsOnlyAppend(a: string, b: string)
    ensures DigitsOnly(a + b) == DigitsOnly(a) + DigitsOnly(b)
    decreases |a|
  {
    if a == [] {
      assert a + b == b;
    } else {
      assert (a + b)[0] == a[0] && (a + b)[1..] == a[1..] + b;
      DigitsOnlyAppend(a[1..], b);
    }
  }

  /** A string of digits passes through unchanged; one with any other character is shortened. */
  lemma {:induction false} DigitsOnlyUnchangedIff(s: string)
    ensures DigitsOnly(s) == s <==> AllDigits(s)
    ensures !AllDigits(s) ==> |DigitsOnly(s)| < |s|
    decreases |s|
  {
    if s != [] {
      DigitsOnlyUnchangedIff(s[1..]);
      assert AllDigits(s) <==> IsDigit(s[0]) && AllDigits(s[1..]) by {
        if IsDigit(s[0]) && AllDigits(s[1..]) {
          forall i | 0 <= i < |s| ensures IsDigit(s[i]) {
            if i > 0 { assert s[i] == s[1..][i - 1]; }
          }
        }
      }
      if IsDigit(s[0]) {
        assert DigitsOnly(s) == [s[0]] + DigitsOnly(s[1..]);
        assert s == [s[0]] + s[1..];
      }
    }
  }

  /** Filtering twice is filtering once. */
  lemma DigitsOnlyIdempotent(s: string)
    ensures DigitsOnly(DigitsOnly(s)) == DigitsOnly(s)
  {
    DigitsOnlyUnchangedIff(DigitsOnly(s));
  }

  // ---------------------------------------------------------------------------
  // The screen's state

  class DepositScreen {
    var selectedMethod: string
    var cardNumber: string
    var expiry: string
    var cvc: string
    var amount: string
    var showWarning: bool

    /** The amount only ever holds digits, and the method is empty or one of the offered ids. */
    ghost predicate Valid()
      reads this
    {
      AllDigits(amount) && (selectedMethod == "" || selectedMethod in MethodIds)
    }

    constructor ()
      ensures Valid()
      ensures selectedMethod == "" && cardNumber == "" && expiry == "" && cvc == ""
      ensures amount == "" && !showWarning
    {
      selectedMethod, cardNumber, expiry, cvc, amount := "", "", "", "", "";
      showWarning := false;
    }

    /** Tapping one of the payment-method radio buttons. */
    method SelectMethod(id: string)
      requires Valid() && id in MethodIds
      modifies this`selectedMethod
      ensures Valid() && selectedMethod == id
    {
      selectedMethod := id;
    }

    method SetCardNumber(text: string)
      modifies this`cardNumber
      ensures cardNumber == text
    {
      cardNumber := text;
    }

    method SetExpiry(text: string)
      modifies this`expiry
      ensures expiry == text
    {
      expiry := text;
    }

    method SetCvc(text: string)
      modifies this`cvc
      ensures cvc == text
    {
      cvc := text;
    }

    /** The amount field's change handler: keep the digits, warn when anything was dropped. */
    method NumericsOnly(text: string) returns (numericValue: string)
      requires Valid()
      modifies this`amount, this`showWarning
      ensures Valid()
      ensures numericValue == DigitsOnly(text) && amount == numericValue
      ensures showWarning <==> !AllDigits(text)
    {
      numericValue := DigitsOnly(text);
      DigitsOnlyUnchangedIff(text);
      if text != numericValue {
        showWarning := true;
      } else {
        showWarning := false;
      }
      amount := numericValue;
    }

    /** The confirm button: two guards in order, then the confirmation. */
    method HandleConfirm() returns (alert: Alert)
      ensures alert.title == FILL_REQUIRED <==> selectedMethod == "" || amount == ""
      ensures alert.title == COMPLETE_CARD <==>
        selectedMethod != "" && amount != "" && selectedMethod == CARD
        && (cardNumber == "" || expiry == "" || cvc == "")
      ensures alert.title == CONFIRMED <==>
        selectedMethod != "" && amount != ""
        && (selectedMethod == CARD ==> cardNumber != "" && expiry != "" && cvc != "")
      ensures alert.title == CONFIRMED ==>
        alert.message == Some("Via " + ToUpper(selectedMethod) + " - " + [PESO] + amount)
      ensures alert.title != CONFIRMED ==> alert.message == None
    {
      if selectedMethod == "" || amount == "" {
        return Alert(FILL_REQUIRED, None);
      }
      if selectedMethod == CARD && (cardNumber == "" || expiry == "" || cvc == "") {
        return Alert(COMPLETE_CARD, None);
      }
      alert := Alert(CONFIRMED, Some("Via " + ToUpper(selectedMethod) + " - " + [PESO] + amount));
    }
  }
}
