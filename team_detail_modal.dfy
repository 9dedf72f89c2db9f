/**
 * The team dialog opened from the team list: whether it renders, which action buttons it shows,
 * and the join action with its classification of failures.
 */
module TeamDetailModal {
  import opened Wrappers
  import opened Types
  import opened Database
  import JsText
  import TeamRules
  import Api

  /** `if (!isOpen || !team) return null`. */
  predicate Renders(isOpen: bool, team: Option<Team>) {
    isOpen && team.Some?
  }

  /** "로그인 필요" (sign-in needed). */
  predicate ShowLoginNeeded(user: Option<UserId>) {
    user.None?
  }

  /** "이미 참여 중" (already a member). */
  predicate ShowAlreadyMember(team: Team, user: Option<UserId>) {
    user.Some? && TeamRules.HasMember(team, user.value)
  }

  /** "인원 마감" (team full): recruiting, but at or over capacity. */
  predicate ShowFull(team: Team) {
    team.currentMembers >= team.maxMembers && team.status == Recruiting
  }

  /** The join button excludes every disabled button, and the full button excludes joining. */
  lemma JoinButtonExclusive(team: Team, user: Option<UserId>)
    ensures TeamRules.CanJoin(team, user) ==>
              !ShowLoginNeeded(user) && !ShowAlreadyMember(team, user) && !ShowFull(team)
    ensures ShowFull(team) ==> !TeamRules.CanJoin(team, user)
  {
  }

  /** A recruiting team always shows the join button or a reason why not. */
  lemma RecruitingShowsSomeAction(team: Team, user: Option<UserId>)
    requires team.status == Recruiting
    ensures TeamRules.CanJoin(team, user) || ShowLoginNeeded(user) || ShowAlreadyMember(team, user) || ShowFull(team)
  {
  }

  /** How a failed join is reported. */
  datatype JoinFailure = AlreadyJoined | TeamFull | JoinFailed {
    function Text(): string {
      match this
      case AlreadyJoined => "이미 참여 중인 팀입니다"
      case TeamFull => "팀 인원이 가득 찼습니다"
      case JoinFailed => "팀 참여에 실패했습니다"
    }
  }

  /** `message?.includes('already')`, then `message?.includes('full')`, else the generic failure. */
  function ClassifyJoinError(message: Option<string>): (r: JoinFailure)
    ensures r == AlreadyJoined <==> message.Some? && JsText.Includes(message.value, "already")
    ensures r == TeamFull <==>
              message.Some? && !JsText.Includes(message.value, "already") && JsText.Includes(message.value, "full")
    ensures message.None? ==> r == JoinFailed
  {
    match message
    case None => JoinFailed
    case Some(m) =>
      if JsText.Includes(m, "already") then AlreadyJoined
      else if JsText.Includes(m, "full") then TeamFull
      else JoinFailed
  }

  /** A message mentioning both words is reported as already joined: that test comes first. */
  lemma AlreadyBeforeFull(a: string, b: string, c: string)
    ensures ClassifyJoinError(Some(a + "already" + b + "full" + c)) == AlreadyJoined
    ensures ClassifyJoinError(Some(a + "full" + b + "already" + c)) == AlreadyJoined
  {
    JsText.IncludesMiddle(a, "already", b + "full" + c);
    assert a + "already" + b + "full" + c == a + "already" + (b + "full" + c);
    JsText.IncludesMiddle(a + "full" + b, "already", c);
  }

  /** The callbacks the dialog invokes, in order. */
  datatype Callback = TeamUpdated | Close

  /** What a join attempt shows. */
  datatype Toast = Success(text: string) | Failure(text: string)

  class Modal {
    const team: Team
    const user: Option<UserId>
    var joining: bool

    constructor (team: Team, user: Option<UserId>)
      ensures this.team == team && this.user == user && !joining
    {
      this.team := team;
      this.user := user;
      joining := false;
    }

    /**
     * `handleJoinTeam`: signed out, an error and no call; otherwise a join request without skills,
     * after which success calls `onTeamUpdated` then `onClose`, and failure is classified.
     */
    method HandleJoinTeam(db: Db, insertError: Option<string>, now: Timestamp)
        returns (toast: Toast, callbacks: seq<Callback>)
      requires db.Valid()
      modifies db, this`joining
      ensures db.Valid()
      ensures db.ideas == old(db.ideas) && db.investments == old(db.investments)
      ensures db.transactions == old(db.transactions) && db.teams == old(db.teams)
      ensures user.None? ==>
                toast == Failure("로그인이 필요합니다") && callbacks == []
                && db.teamMembers == old(db.teamMembers) && joining == old(joining)
      ensures user.Some? ==> !joining
      ensures user.Some? && insertError.Some? ==>
                && toast == Failure(ClassifyJoinError(Some(insertError.value)).Text()) && callbacks == []
                && db.teamMembers == old(db.teamMembers)
      ensures user.Some? && insertError.None? ==>
                && toast == Success("팀에 성공적으로 참여했습니다!") && callbacks == [TeamUpdated, Close]
                && db.teamMembers == old(db.teamMembers) + [Api.JoinRow(old(db.nextId), team.id, user.value, None, now)]
    {
      if user.None? {
        return Failure("로그인이 필요합니다"), [];
      }
      joining := true;
      var r := Api.JoinTeam(db, user, team.id, None, insertError, now);
      if r.Ok? {
        toast, callbacks := Success("팀에 성공적으로 참여했습니다!"), [TeamUpdated, Close];
      } else {
        toast, callbacks := Failure(ClassifyJoinError(Some(r.error.Message())).Text()), [];
      }
      joining := false;
    }
  }
}
