/**
 * Step 2 of sign-up (`codeVerification.tsx`): a code field limited to six
 * characters, a verify action allowed only for a full six-character code,
 * and a resend countdown that starts at 60, drops by one each second while
 * positive, and is reset to 60 by "resend".
 */
module CodeVerification {
  import opened Text

  const CODE_LENGTH: nat := 6
  const RESEND_SECONDS: int := 60

  const INVALID_TITLE: string := "Invalid or expired code"
  const RESEND_PREFIX: string := "Resend in "
  const RESEND_READY: string := "Resend Code"

  /** What `getCode(email, code)` threw: an `Error` (with its message) or any other value. */
  datatype Failure = ErrorInstance(message: string) | NonError(asString: string)

  datatype Reply = Accepted | Rejected(failure: Failure)

  /** What pressing "Verify" does. */
  datatype VerifyEffect =
    | NoEffect
    | GoToCompleteRegistration(email: string)
    | AlertDialog(title: string, message: string)

  /** `error instanceof Error ? error.message : String(error)`. */
  function FailureText(f: Failure): string
  {
    match f
    case ErrorInstance(m) => m
    case NonError(s) => s
  }

  /** What a `TextInput` with `maxLength={6}` keeps of the text offered to it. */
  function LimitLength(text: string): (r: string)
    ensures |r| <= CODE_LENGTH
    ensures r <= text
    ensures |text| <= CODE_LENGTH ==> r == text
    ensures |text| >= CODE_LENGTH ==> |r| == CODE_LENGTH
  {
    if |text| <= CODE_LENGTH then text else text[..CODE_LENGTH]
  }

  /** One second of the countdown: the interval only decrements while the time is positive. */
  function NextResendTime(t: int): int
  {
    if t > 0 then t - 1 else t
  }

  /** The countdown after `k` seconds. */
  function AfterSeconds(t: int, k: nat): int
    decreases k
  {
    if k == 0 then t else AfterSeconds(NextResendTime(t), k - 1)
  }

  /** From a non-negative start the countdown is `max(t - k, 0)`: it never goes below zero. */
  lemma {:induction false} CountdownClamps(t: int, k: nat)
    requires t >= 0
    ensures AfterSeconds(t, k) == if t >= k then t - k else 0
    decreases k
  {
    if k > 0 {
      CountdownClamps(NextResendTime(t), k - 1);
    }
  }

  /** A full countdown: sixty seconds after a reset the resend button is enabled again, and not sooner. */
  lemma ResendReadyAfterSixtySeconds(k: nat)
    ensures AfterSeconds(RESEND_SECONDS, k) == 0 <==> k >= 60
  {
    CountdownClamps(RESEND_SECONDS, k);
  }

  /** The resend button's text. */
  function ResendLabel(resendTime: int): (r: string)
    ensures resendTime > 0 ==>
      && |r| > |RESEND_PREFIX| + 1
      && r[..|RESEND_PREFIX|] == RESEND_PREFIX
      && r[|r| - 1] == 's'
      && AllDigits(r[|RESEND_PREFIX|..|r| - 1])
    ensures resendTime <= 0 ==> r == RESEND_READY
  {
    if resendTime > 0 then RESEND_PREFIX + NatToString(resendTime) + "s" else RESEND_READY
  }

  /** The number of seconds shown in the label is the remaining time. */
  lemma ResendLabelShowsTime(resendTime: int)
    requires resendTime > 0
    ensures var r := ResendLabel(resendTime);
      ParseNat(r[|RESEND_PREFIX|..|r| - 1]) == resendTime
  {
    var r := ResendLabel(resendTime);
    assert r[|RESEND_PREFIX|..|r| - 1] == NatToString(resendTime);
    ParseNatToString(resendTime);
  }

  class CodeVerificationScreen {
    /** The address the code was sent to (`route.params.email`). */
    const email: string
    var code: string
    var resendTime: int

    ghost predicate Valid()
      reads this
    {
      0 <= resendTime <= RESEND_SECONDS && |code| <= CODE_LENGTH
    }

    constructor (email: string)
      ensures Valid() && this.email == email
      ensures code == "" && resendTime == RESEND_SECONDS
    {
      this.email := email;
      code := "";
      resendTime := RESEND_SECONDS;
    }

    /** Typing into the code field. */
    method ChangeCode(text: string)
      requires Valid()
      modifies this`code
      ensures Valid() && code == LimitLength(text)
    {
      code := LimitLength(text);
    }

    /** The verify button is greyed out and ignores presses unless the code is complete. */
    function VerifyDisabled(): (r: bool)
      reads this
    {
      |code| != CODE_LENGTH
    }

    /** `handleVerify`, given what the server would answer. */
    method HandleVerify(reply: Reply) returns (effect: VerifyEffect)
      ensures effect == NoEffect <==> VerifyDisabled()
      ensures |code| == CODE_LENGTH && reply.Accepted? ==> effect == GoToCompleteRegistration(email)
      ensures |code| == CODE_LENGTH && reply.Rejected? ==>
        effect == AlertDialog(INVALID_TITLE, FailureText(reply.failure))
    {
      effect := NoEffect;
      if |code| == CODE_LENGTH {
        match reply
        case Accepted =>
          effect := GoToCompleteRegistration(email);
        case Rejected(f) =>
          effect := AlertDialog(INVALID_TITLE, FailureText(f));
      }
    }

    /** One second passing while the screen is shown. */
    method Tick()
      requires Valid()
      modifies this`resendTime
      ensures Valid() && resendTime == NextResendTime(old(resendTime))
      ensures resendTime == if old(resendTime) > 0 then old(resendTime) - 1 else 0
    {
      if resendTime > 0 {
        resendTime := resendTime - 1;
      }
    }

    /** `handleResendCode`: restart the countdown. */
    method HandleResendCode()
      requires Valid()
      modifies this`resendTime
      ensures Valid() && resendTime == RESEND_SECONDS
    {
      resendTime := RESEND_SECONDS;
    }

    /** Pressing the resend button, which is disabled while the countdown runs. */
    method PressResend()
      requires Valid()
      modifies this`resendTime
      ensures Valid()
      ensures old(resendTime) > 0 ==> resendTime == old(resendTime)
      ensures old(resendTime) == 0 ==> resendTime == RESEND_SECONDS
    {
      if resendTime <= 0 {
        HandleResendCode();
      }
    }
  }
}
