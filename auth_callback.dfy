/**
 * The OAuth return page: the code exchange, the session read, the new-user test and the signup
 * bonus of a new user, and the redirect to the home page that ends every path.
 */
module AuthCallback {
  import opened Wrappers
  import opened Types
  import opened Database

  /** The session's user as the callback reads it. */
  datatype SessionUser = SessionUser(id: UserId, createdAt: Timestamp, lastSignInAt: Option<Timestamp>)

  /** A user whose last sign-in lies within this many milliseconds of the account's creation is new. */
  const NewUserWindow: int := 5000

  /** The signup bonus. */
  const SignupBonus: int := 1000
  const SignupBonusType: string := "signup_bonus"
  const SignupBonusDescription: string := "Google 회원가입 축하 토큰"

  /** The page every path leads to. */
  const HomePath: string := "/"

  function Abs(x: int): (r: nat)
    ensures r == x || r == -x
  {
    if x < 0 then -x else x
  }

  /** `Math.abs(lastSignIn - createdAt) < 5000`, where a missing last sign-in falls back to the creation time. */
  predicate IsNewUser(u: SessionUser) {
    Abs(u.lastSignInAt.GetOr(u.createdAt) - u.createdAt) < NewUserWindow
  }

  /** The test is a window on both sides of the creation time; without a last sign-in the user is new. */
  lemma IsNewUserWindow(u: SessionUser)
    ensures u.lastSignInAt.None? ==> IsNewUser(u)
    ensures u.lastSignInAt.Some? ==>
              (IsNewUser(u) <==> u.createdAt - NewUserWindow < u.lastSignInAt.value < u.createdAt + NewUserWindow)
  {
  }

  /** What the callback does, once the two auth calls have answered. */
  datatype Step =
    | LoginFailed       // an exchange or a session error
    | NoSession         // a session without a user
    | Returning         // an existing user: a welcome, no bonus
    | NewUser(user: SessionUser)

  /**
   * The decision of `handleAuthCallback`: the exchange error is looked at first, then the session
   * error, then whether the session has a user, then the new-user test.
   */
  function StepOf(exchangeError: Option<string>, session: Result<Option<SessionUser>, string>): (r: Step)
    ensures r == LoginFailed <==> exchangeError.Some? || session.Err?
    ensures r == NoSession <==> exchangeError.None? && session == Ok(None)
    ensures r.NewUser? <==> exchangeError.None? && session.Ok? && session.value.Some? && IsNewUser(session.value.value)
    ensures r.NewUser? ==> session == Ok(Some(r.user))
  {
    if exchangeError.Some? then LoginFailed
    else match session
      case Err(_) => LoginFailed
      case Ok(None) => NoSession
      case Ok(Some(u)) => if IsNewUser(u) then NewUser(u) else Returning
  }

  /** After a successful exchange, a signed-in user reaches the bonus step exactly when new. */
  lemma OnlyNewUsersGetTheBonusStep(u: SessionUser)
    ensures StepOf(None, Ok(Some(u))).NewUser? <==> IsNewUser(u)
    ensures StepOf(None, Ok(Some(u))) == Returning <==> !IsNewUser(u)
  {
  }

  datatype Toast =
    | LoginFailedToast        // "로그인에 실패했습니다."
    | WelcomeWithBonus        // "Google 로그인 성공! 환영 토큰 1000원이 지급되었습니다."
    | Welcome                 // "Google 로그인 성공!"

  /** The bonus row a new user receives. */
  function BonusRow(id: RowId, user: UserId, now: Timestamp): (r: TokenTransaction)
    ensures r.amount == SignupBonus && r.transactionType == SignupBonusType && r.userId == user
    ensures r.referenceId.None?
  {
    TokenTransaction(id, user, SignupBonus, SignupBonusType, Some(SignupBonusDescription), None, now)
  }

  /**
   * `handleAuthCallback`. The answers of the two auth calls and of the bonus write are parameters.
   * A new user gets exactly one bonus row; a failed bonus write is swallowed and the login still
   * succeeds; every path redirects home.
   */
  method HandleAuthCallback(db: Db, exchangeError: Option<string>, session: Result<Option<SessionUser>, string>,
                            bonusError: Option<string>, now: Timestamp)
      returns (toast: Option<Toast>, redirect: string)
    requires db.Valid()
    modifies db
    ensures db.Valid() && redirect == HomePath
    ensures db.ideas == old(db.ideas) && db.investments == old(db.investments)
    ensures db.teams == old(db.teams) && db.teamMembers == old(db.teamMembers)
    ensures StepOf(exchangeError, session) == LoginFailed ==> toast == Some(LoginFailedToast) && unchanged(db)
    ensures StepOf(exchangeError, session) == NoSession ==> toast.None? && unchanged(db)
    ensures StepOf(exchangeError, session) == Returning ==> toast == Some(Welcome) && unchanged(db)
    ensures StepOf(exchangeError, session).NewUser? && bonusError.Some? ==> toast == Some(Welcome) && unchanged(db)
    ensures StepOf(exchangeError, session).NewUser? && bonusError.None? ==>
              && toast == Some(WelcomeWithBonus)
              && db.transactions == old(db.transactions) + [BonusRow(old(db.nextId), StepOf(exchangeError, session).user.id, now)]
  {
    var step := StepOf(exchangeError, session);
    redirect := HomePath;
    match step
    case LoginFailed =>
      toast := Some(LoginFailedToast);
    case NoSession =>
      toast := None;
    case Returning =>
      toast := Some(Welcome);
    case NewUser(u) =>
      if bonusError.Some? {
        toast := Some(Welcome);
      } else {
        var row := AppendTransaction(db, u.id, SignupBonus, SignupBonusType, Some(SignupBonusDescription), None, now);
        toast := Some(WelcomeWithBonus);
      }
  }
}
