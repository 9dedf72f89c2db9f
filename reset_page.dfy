/**
 * The password reset page: the form is offered only with a session, and `handleUpdate` checks the
 * two fields in a fixed order before asking the auth service to change the password.
 */
module ResetPage {
  import opened Wrappers
  import JsText

  /** The shortest password accepted. */
  const MinPasswordLength: nat := 6

  /** The outcome of the checks, in the order they run. */
  datatype Check =
    | FieldsMissing     // "새 비밀번호와 확인을 입력해주세요"
    | Mismatch          // "비밀번호가 일치하지 않습니다"
    | TooShort          // "비밀번호는 6자 이상이어야 합니다"
    | Passed

  /**
   * A blank password or confirmation first, then a difference between the two as typed, then a
   * password under six characters.
   */
  function CheckPasswords(password: string, confirm: string): (r: Check)
    ensures r == FieldsMissing <==> JsText.Blank(password) || JsText.Blank(confirm)
    ensures r == Mismatch <==> !JsText.Blank(password) && !JsText.Blank(confirm) && password != confirm
    ensures r == TooShort <==>
              !JsText.Blank(password) && !JsText.Blank(confirm) && password == confirm && |password| < MinPasswordLength
  {
    if JsText.Blank(password) || JsText.Blank(confirm) then FieldsMissing
    else if password != confirm then Mismatch
    else if |password| < MinPasswordLength then TooShort
    else Passed
  }

  /** A password that passes is the confirmation, not blank, and at least six characters long. */
  lemma PassedIsWellFormed(password: string, confirm: string)
    ensures CheckPasswords(password, confirm) == Passed <==>
              !JsText.Blank(password) && password == confirm && |password| >= MinPasswordLength
  {
  }

  /** The checks run in order: a blank field wins over a mismatch, and a mismatch over a short password. */
  lemma FirstFailingCheckReported(password: string, confirm: string)
    ensures JsText.Blank(confirm) && password != confirm ==> CheckPasswords(password, confirm) == FieldsMissing
    ensures !JsText.Blank(password) && !JsText.Blank(confirm) && password != confirm && |password| < MinPasswordLength ==>
              CheckPasswords(password, confirm) == Mismatch
  {
  }

  /** `error?.message || '비밀번호 변경에 실패했습니다'`. */
  function UpdateErrorText(message: string): (r: string)
    ensures r != []
    ensures message != [] ==> r == message
  {
    if message == [] then "비밀번호 변경에 실패했습니다" else message
  }

  datatype Toast =
    | CheckFailed(check: Check)
    | Updated           // "비밀번호가 변경되었습니다. 다시 로그인해주세요."
    | UpdateFailed(text: string)

  class Page {
    var password: string
    var confirm: string
    var ready: bool
    var loading: bool

    constructor ()
      ensures password == "" && confirm == "" && !ready && !loading
    {
      password := "";
      confirm := "";
      ready := false;
      loading := false;
    }

    /** The session read on mount: the form is offered exactly when there is a session. */
    method OnSession(hasSession: bool)
      modifies this`ready
      ensures ready == hasSession
    {
      ready := hasSession;
    }

    /** The form is shown only once a session is known; otherwise the invalid-link message. */
    predicate ShowsForm()
      reads this
    {
      ready
    }

    /**
     * `handleUpdate`. `updateError` is the auth service's answer (its error message on failure);
     * `sent` is the password passed to `updateUser`, which is called only when every check passes.
     * Success leads home.
     */
    method HandleUpdate(updateError: Option<string>) returns (toast: Toast, sent: Option<string>, toHome: bool)
      modifies this`loading
      ensures CheckPasswords(password, confirm) != Passed ==>
                toast == CheckFailed(CheckPasswords(password, confirm)) && sent.None? && !toHome && loading == old(loading)
      ensures CheckPasswords(password, confirm) == Passed ==>
                && sent == Some(password) && !loading
                && (toHome <==> updateError.None?)
                && (updateError.None? ==> toast == Updated)
                && (updateError.Some? ==> toast == UpdateFailed(UpdateErrorText(updateError.value)))
    {
      var check := CheckPasswords(password, confirm);
      if check != Passed {
        return CheckFailed(check), None, false;
      }
      loading := true;
      sent := Some(password);
      if updateError.None? {
        toast, toHome := Updated, true;
      } else {
        toast, toHome := UpdateFailed(UpdateErrorText(updateError.value)), false;
      }
      loading := false;
    }
  }
}
