/**
 * The sign-in / sign-up dialog: the checks on the two fields, the one auth call of the current
 * mode, the mapping of the auth service's error messages, and the switch between the modes.
 */
module AuthModal {
  import opened Wrappers
  import JsText

  /** The shortest password accepted. */
  const MinPasswordLength: nat := 6

  datatype Mode = Login | Signup

  /** The other mode. */
  function Flip(m: Mode): (r: Mode)
    ensures r != m
  {
    if m == Login then Signup else Login
  }

  /** Switching twice comes back to the first mode. */
  lemma FlipTwice(m: Mode)
    ensures Flip(Flip(m)) == m
  {
  }

  /** The auth call made, with the email and password as typed. */
  datatype AuthCall = SignIn(email: string, password: string) | SignUp(email: string, password: string)

  /** The checks made before any auth call. */
  datatype Check =
    | FieldsMissing     // "이메일과 비밀번호를 입력해주세요."
    | TooShort          // "비밀번호는 6자 이상이어야 합니다."
    | Passed

  /** A blank email or password first, then a password (as typed) under six characters. */
  function CheckFields(email: string, password: string): (r: Check)
    ensures r == FieldsMissing <==> JsText.Blank(email) || JsText.Blank(password)
    ensures r == Passed <==> !JsText.Blank(email) && !JsText.Blank(password) && |password| >= MinPasswordLength
  {
    if JsText.Blank(email) || JsText.Blank(password) then FieldsMissing
    else if |password| < MinPasswordLength then TooShort
    else Passed
  }

  /** Six spaces are refused as blank, not as short; a password padded to six characters passes. */
  lemma CheckFieldsExamples()
    ensures CheckFields("a@b", "      ") == FieldsMissing
    ensures CheckFields("a@b", " abcde") == Passed
    ensures CheckFields("a@b", "abcde") == TooShort
  {
    JsText.BlankIffAllWhitespace("      ");
    JsText.BlankIffAllWhitespace(" abcde");
    assert !JsText.IsWhitespace(" abcde"[1]);
    JsText.BlankIffAllWhitespace("abcde");
    assert !JsText.IsWhitespace("abcde"[0]);
    JsText.BlankIffAllWhitespace("a@b");
    assert !JsText.IsWhitespace("a@b"[0]);
  }

  const InvalidCredentials: string := "Invalid login credentials"
  const EmailNotConfirmed: string := "Email not confirmed"
  const AlreadyRegistered: string := "User already registered"
  const DefaultError: string := "오류가 발생했습니다."

  /**
   * The message shown for an auth error: the three known phrases in this order, then the raw
   * message, then the default when the message is empty.
   */
  function ErrorMessage(message: string): (r: string)
    ensures JsText.Includes(message, InvalidCredentials) ==> r == "이메일 또는 비밀번호가 잘못되었습니다."
    ensures (!JsText.Includes(message, InvalidCredentials) && JsText.Includes(message, EmailNotConfirmed)) ==>
              r == "이메일 확인이 필요합니다. 이메일을 확인해주세요."
    ensures (!JsText.Includes(message, InvalidCredentials) && !JsText.Includes(message, EmailNotConfirmed)
             && JsText.Includes(message, AlreadyRegistered)) ==> r == "이미 가입된 이메일입니다."
    ensures (!JsText.Includes(message, InvalidCredentials) && !JsText.Includes(message, EmailNotConfirmed)
             && !JsText.Includes(message, AlreadyRegistered)) ==> r == if message == "" then DefaultError else message
  {
    if JsText.Includes(message, InvalidCredentials) then "이메일 또는 비밀번호가 잘못되었습니다."
    else if JsText.Includes(message, EmailNotConfirmed) then "이메일 확인이 필요합니다. 이메일을 확인해주세요."
    else if JsText.Includes(message, AlreadyRegistered) then "이미 가입된 이메일입니다."
    else if message != "" then message
    else DefaultError
  }

  /** A shown error is never empty, and the empty message gets the default. */
  lemma ErrorMessageNeverEmpty(message: string)
    ensures ErrorMessage(message) != ""
    ensures ErrorMessage("") == DefaultError
  {
    if message == "" {
      JsText.IncludesIffOccurs("", InvalidCredentials);
      JsText.IncludesIffOccurs("", EmailNotConfirmed);
      JsText.IncludesIffOccurs("", AlreadyRegistered);
    }
  }

  /** A message holding a known phrase inside other text is still recognised. */
  lemma KnownPhraseInContext(before: string, after: string)
    ensures ErrorMessage(before + InvalidCredentials + after) == "이메일 또는 비밀번호가 잘못되었습니다."
  {
    JsText.IncludesMiddle(before, InvalidCredentials, after);
  }

  datatype Toast =
    | CheckFailed(check: Check)
    | LoggedIn        // "로그인 성공!"
    | SignedUp        // "회원가입 성공! 이메일을 확인해주세요."
    | AuthFailed(text: string)

  /**
   * The auth service's answer: success, an error with a message, or an error without one. Reading
   * `.includes` of a missing message throws inside the handler, so no toast is shown.
   */
  datatype AuthAnswer = Success | ErrorWithMessage(message: string) | ErrorWithoutMessage

  class Modal {
    var mode: Mode
    var email: string
    var password: string
    var loading: bool

    constructor (initialMode: Mode)
      ensures mode == initialMode && email == "" && password == "" && !loading
    {
      mode := initialMode;
      email := "";
      password := "";
      loading := false;
    }

    /** The one auth call of the current mode. */
    function CallFor(): (r: AuthCall)
      reads this
      ensures mode == Login <==> r.SignIn?
      ensures r.email == email && r.password == password
    {
      if mode == Login then SignIn(email, password) else SignUp(email, password)
    }

    /**
     * `handleSubmit`. Nothing is called unless the checks pass. On success the dialog closes and
     * both fields are cleared; on an error they are kept. Loading ends either way.
     */
    method HandleSubmit(answer: AuthAnswer) returns (toast: Option<Toast>, call: Option<AuthCall>, closed: bool)
      modifies this`email, this`password, this`loading
      ensures CheckFields(old(email), old(password)) != Passed ==>
                && toast == Some(CheckFailed(CheckFields(old(email), old(password))))
                && call.None? && !closed && unchanged(this)
      ensures CheckFields(old(email), old(password)) == Passed ==>
                && !loading
                && call == Some(if mode == Login then SignIn(old(email), old(password)) else SignUp(old(email), old(password)))
                && (closed <==> answer.Success?)
                && (answer.Success? ==> toast == Some(if mode == Login then LoggedIn else SignedUp) && email == "" && password == "")
                && (answer.ErrorWithMessage? ==>
                      toast == Some(AuthFailed(ErrorMessage(answer.message))) && email == old(email) && password == old(password))
                && (answer.ErrorWithoutMessage? ==> toast.None? && email == old(email) && password == old(password))
    {
      var check := CheckFields(email, password);
      if check != Passed {
        return Some(CheckFailed(check)), None, false;
      }
      loading := true;
      call := Some(CallFor());
      match answer {
        case Success =>
          toast := Some(if mode == Login then LoggedIn else SignedUp);
          closed := true;
          email := "";
          password := "";
        case ErrorWithMessage(m) =>
          toast := Some(AuthFailed(ErrorMessage(m)));
          closed := false;
        case ErrorWithoutMessage =>
          toast := None;
          closed := false;
      }
      loading := false;
    }

    /** `switchMode`: the other mode, with both fields cleared. */
    method SwitchMode()
      modifies this`mode, this`email, this`password
      ensures mode == Flip(old(mode)) && email == "" && password == ""
    {
      mode := Flip(mode);
      email := "";
      password := "";
    }
  }
}
