/**
 * The team page: who the viewer is to the team (member, leader, may join), the activity feed and
 * task list edits, result (artifact) submission and the join action.
 */
module TeamDetailPage {
  import opened Wrappers
  import opened Types
  import opened Database
  import JsText
  import TeamRules
  import Api

  /** `isMember`: signed in, the team loaded, and some member row is the viewer's. */
  predicate IsMember(user: Option<UserId>, team: Option<Team>) {
    user.Some? && team.Some? && TeamRules.HasMember(team.value, user.value)
  }

  /** `isLeader`: signed in, the team loaded, and the viewer is its leader. */
  predicate IsLeader(user: Option<UserId>, team: Option<Team>) {
    user.Some? && team.Some? && team.value.leaderId == user.value
  }

  /** `canJoin`: the team loaded and the shared join rule holds. */
  predicate CanJoinTeam(team: Option<Team>, user: Option<UserId>) {
    team.Some? && TeamRules.CanJoin(team.value, user)
  }

  /** Joining is offered exactly to signed-in non-members of a loaded team that is recruiting with room. */
  lemma CanJoinTeamIff(team: Option<Team>, user: Option<UserId>)
    ensures CanJoinTeam(team, user)
        <==> team.Some? && TeamRules.ShowJoinLink(team.value) && user.Some? && !IsMember(user, team)
    ensures CanJoinTeam(team, user) ==> !IsMember(user, team)
  {
  }

  /** The delete button of an artifact: the leader, or the artifact's author. */
  predicate CanDeleteArtifact(user: Option<UserId>, team: Option<Team>, artifact: TeamArtifact) {
    IsLeader(user, team) || (user.Some? && artifact.userId == user.value)
  }

  /** The settings tab and its panel. */
  predicate ShowSettings(user: Option<UserId>, team: Option<Team>) {
    IsLeader(user, team)
  }

  /** The leader may delete every artifact, anyone else only their own, a signed-out viewer none. */
  lemma DeleteRights(user: Option<UserId>, team: Option<Team>, artifact: TeamArtifact)
    ensures IsLeader(user, team) ==> CanDeleteArtifact(user, team, artifact)
    ensures !IsLeader(user, team) && user.Some? ==> (CanDeleteArtifact(user, team, artifact) <==> artifact.userId == user.value)
    ensures user.None? ==> !CanDeleteArtifact(user, team, artifact) && !ShowSettings(user, team)
  {
  }

  // ---------------------------------------------------------------------------------------------
  // Task list edits

  /** `tasks.map(t => t.id === id ? updated : t)`. */
  function ReplaceById(tasks: seq<TeamTask>, id: RowId, updated: TeamTask): (r: seq<TeamTask>)
    ensures |r| == |tasks|
    ensures forall i :: 0 <= i < |r| ==> r[i] == (if tasks[i].id == id then updated else tasks[i])
  {
    if tasks == [] then []
    else [if tasks[0].id == id then updated else tasks[0]] + ReplaceById(tasks[1..], id, updated)
  }

  /** `tasks.filter(t => t.id !== id)`. */
  function RemoveById(tasks: seq<TeamTask>, id: RowId): (r: seq<TeamTask>)
    ensures |r| <= |tasks|
    ensures forall i :: 0 <= i < |r| ==> r[i].id != id && r[i] in tasks
  {
    if tasks == [] then []
    else (if tasks[0].id == id then [] else [tasks[0]]) + RemoveById(tasks[1..], id)
  }

  /** Every task with another id survives removal, and removal distributes over concatenation. */
  lemma {:induction false} RemoveByIdKeepsOthers(tasks: seq<TeamTask>, id: RowId)
    ensures forall t :: t in tasks && t.id != id ==> t in RemoveById(tasks, id)
  {
    if tasks != [] {
      RemoveByIdKeepsOthers(tasks[1..], id);
      assert tasks == [tasks[0]] + tasks[1..];
    }
  }

  /** Removing an id no task has changes nothing. */
  lemma {:induction false} RemoveByIdAbsent(tasks: seq<TeamTask>, id: RowId)
    requires forall i :: 0 <= i < |tasks| ==> tasks[i].id != id
    ensures RemoveById(tasks, id) == tasks
  {
    if tasks != [] {
      RemoveByIdAbsent(tasks[1..], id);
      assert tasks == [tasks[0]] + tasks[1..];
    }
  }

  /** Removing a task after replacing it under the same id is the same as removing it. */
  lemma {:induction false} RemoveAfterReplace(tasks: seq<TeamTask>, id: RowId, updated: TeamTask)
    requires updated.id == id
    ensures RemoveById(ReplaceById(tasks, id, updated), id) == RemoveById(tasks, id)
  {
    if tasks != [] {
      RemoveAfterReplace(tasks[1..], id, updated);
      var r := ReplaceById(tasks, id, updated);
      assert r[1..] == ReplaceById(tasks[1..], id, updated);
    }
  }

  /** A freshly prepended task is dropped again by removing its id. */
  lemma PrependThenRemove(task: TeamTask, tasks: seq<TeamTask>)
    ensures RemoveById([task] + tasks, task.id) == RemoveById(tasks, task.id)
  {
    assert ([task] + tasks)[1..] == tasks;
  }

  // ---------------------------------------------------------------------------------------------
  // Artifacts

  /** The fields `addTeamArtifact` receives; a blank link or description is sent as undefined. */
  datatype ArtifactRequest = ArtifactRequest(teamId: RowId, imageUrl: Option<string>,
                                             linkUrl: Option<string>, description: Option<string>)

  /** `value.trim() || undefined`. */
  function TrimmedOrNone(value: string): (r: Option<string>)
    ensures r.None? <==> JsText.Blank(value)
    ensures r.Some? ==> r.value == JsText.Trim(value) && r.value != []
  {
    if JsText.Trim(value) == [] then None else Some(JsText.Trim(value))
  }

  /** The submit guard `image || link.trim() || description.trim()`. */
  predicate ArtifactAccepted(hasImage: bool, link: string, description: string) {
    hasImage || TrimmedOrNone(link).Some? || TrimmedOrNone(description).Some?
  }

  /** The guard rejects exactly a submission with no image and a blank link and description. */
  lemma ArtifactAcceptedIff(hasImage: bool, link: string, description: string)
    ensures !ArtifactAccepted(hasImage, link, description)
        <==> !hasImage && JsText.AllWhitespace(link) && JsText.AllWhitespace(description)
  {
    JsText.BlankIffAllWhitespace(link);
    JsText.BlankIffAllWhitespace(description);
  }

  /** An accepted submission sends at least one of image, link and description. */
  lemma AcceptedRequestNotEmpty(teamId: RowId, image: Option<string>, link: string, description: string)
    requires ArtifactAccepted(image.Some?, link, description)
    ensures var req := ArtifactRequest(teamId, image, TrimmedOrNone(link), TrimmedOrNone(description));
            req.imageUrl.Some? || req.linkUrl.Some? || req.description.Some?
  {
  }

  // ---------------------------------------------------------------------------------------------
  // The page

  /** What a failed call reports: its `message`, which may be missing. */
  datatype CallError = CallError(message: Option<string>)

  /** `error?.message || fallback`. */
  function ErrorText(message: Option<string>, fallback: string): (r: string)
    ensures message.Some? && message.value != "" ==> r == message.value
    ensures message.None? || message == Some("") ==> r == fallback
  {
    match message
    case None => fallback
    case Some(m) => if m == "" then fallback else m
  }

  /** A notification shown to the viewer. */
  datatype Toast = Success(text: string) | Failure(text: string)

  class Page {
    /** The `teamId` query parameter; `None` when it is missing or empty. */
    const teamId: Option<RowId>
    /** The signed-in viewer. */
    const user: Option<UserId>
    var team: Option<Team>
    var updates: seq<TeamUpdate>
    var tasks: seq<TeamTask>
    var newUpdate: string
    var newTask: string
    var artifacts: seq<TeamArtifact>
    /** The chosen image file, by name. */
    var artifactImage: Option<string>
    var artifactLink: string
    var artifactDesc: string
    var artifactSubmitting: bool
    var joining: bool

    constructor (teamId: Option<RowId>, user: Option<UserId>)
      ensures this.teamId == teamId && this.user == user
      ensures team.None? && updates == [] && tasks == [] && artifacts == []
      ensures newUpdate == "" && newTask == "" && artifactImage.None? && artifactLink == "" && artifactDesc == ""
      ensures !artifactSubmitting && !joining
    {
      this.teamId := teamId;
      this.user := user;
      team := None;
      updates, tasks, artifacts := [], [], [];
      newUpdate, newTask := "", "";
      artifactImage, artifactLink, artifactDesc := None, "", "";
      artifactSubmitting, joining := false, false;
    }

    /**
     * `handleAddUpdate`: a blank entry or a missing team id does nothing; otherwise the trimmed
     * text is sent (`sent`) and the created entry `created` is put first, clearing the input.
     */
    method AddUpdate(created: Result<TeamUpdate, CallError>) returns (sent: Option<string>, toast: Option<Toast>)
      modifies this`updates, this`newUpdate
      ensures JsText.Blank(old(newUpdate)) || teamId.None? ==>
                sent.None? && toast.None? && updates == old(updates) && newUpdate == old(newUpdate)
      ensures !JsText.Blank(old(newUpdate)) && teamId.Some? ==>
                && sent == Some(JsText.Trim(old(newUpdate)))
                && (created.Ok? ==> updates == [created.value] + old(updates) && newUpdate == "" && toast.None?)
                && (created.Err? ==>
                      && updates == old(updates) && newUpdate == old(newUpdate)
                      && toast == Some(Failure(ErrorText(created.error.message, "등록에 실패했습니다"))))
    {
      var value := JsText.Trim(newUpdate);
      if value == [] || teamId.None? {
        return None, None;
      }
      sent := Some(value);
      match created
      case Ok(u) =>
        updates := [u] + updates;
        newUpdate := "";
        toast := None;
      case Err(e) =>
        toast := Some(Failure(ErrorText(e.message, "등록에 실패했습니다")));
    }

    /** `handleAddTask`: as `AddUpdate`, for the task list. */
    method AddTask(created: Result<TeamTask, CallError>) returns (sent: Option<string>, toast: Option<Toast>)
      modifies this`tasks, this`newTask
      ensures JsText.Blank(old(newTask)) || teamId.None? ==>
                sent.None? && toast.None? && tasks == old(tasks) && newTask == old(newTask)
      ensures !JsText.Blank(old(newTask)) && teamId.Some? ==>
                && sent == Some(JsText.Trim(old(newTask)))
                && (created.Ok? ==> tasks == [created.value] + old(tasks) && newTask == "" && toast.None?)
                && (created.Err? ==>
                      && tasks == old(tasks) && newTask == old(newTask)
                      && toast == Some(Failure(ErrorText(created.error.message, "작업 추가에 실패했습니다"))))
    {
      var value := JsText.Trim(newTask);
      if value == [] || teamId.None? {
        return None, None;
      }
      sent := Some(value);
      match created
      case Ok(t) =>
        tasks := [t] + tasks;
        newTask := "";
        toast := None;
      case Err(e) =>
        toast := Some(Failure(ErrorText(e.message, "작업 추가에 실패했습니다")));
    }

    /** `toggleTaskChecked`: the task with the id is replaced by the server's answer. */
    method ToggleTask(id: RowId, updated: Result<TeamTask, CallError>) returns (toast: Option<Toast>)
      modifies this`tasks
      ensures updated.Ok? ==> tasks == ReplaceById(old(tasks), id, updated.value) && toast.None?
      ensures updated.Err? ==>
                tasks == old(tasks) && toast == Some(Failure(ErrorText(updated.error.message, "상태 변경에 실패했습니다")))
    {
      match updated
      case Ok(t) =>
        tasks := ReplaceById(tasks, id, t);
        toast := None;
      case Err(e) =>
        toast := Some(Failure(ErrorText(e.message, "상태 변경에 실패했습니다")));
    }

    /** `removeTask`: once the deletion succeeds, every task with the id leaves the list. */
    method RemoveTask(id: RowId, deleteError: Option<CallError>) returns (toast: Option<Toast>)
      modifies this`tasks
      ensures deleteError.None? ==> tasks == RemoveById(old(tasks), id) && toast.None?
      ensures deleteError.Some? ==>
                tasks == old(tasks) && toast == Some(Failure(ErrorText(deleteError.value.message, "삭제에 실패했습니다")))
    {
      if deleteError.Some? {
        return Some(Failure(ErrorText(deleteError.value.message, "삭제에 실패했습니다")));
      }
      tasks := RemoveById(tasks, id);
      toast := None;
    }

    /**
     * `handleSubmitArtifact`: with a team id, rejects a submission with no image and a blank link
     * and description; otherwise uploads the image if any (`upload`), sends the request (`sent`),
     * and on success clears the form and reloads the list (`reload`).
     */
    method SubmitArtifact(upload: Result<string, CallError>, addError: Option<CallError>,
                          reload: Result<seq<TeamArtifact>, CallError>)
        returns (sent: Option<ArtifactRequest>, toasts: seq<Toast>)
      modifies this`artifactImage, this`artifactLink, this`artifactDesc, this`artifacts, this`artifactSubmitting
      ensures !(teamId.Some? && ArtifactAccepted(old(artifactImage).Some?, old(artifactLink), old(artifactDesc))) ==>
                && sent.None?
                && toasts == (if teamId.None? then [] else [Failure("이미지, 링크, 설명 중 최소 1개는 입력해주세요")])
                && artifactImage == old(artifactImage) && artifactLink == old(artifactLink)
                && artifactDesc == old(artifactDesc) && artifacts == old(artifacts)
                && artifactSubmitting == old(artifactSubmitting)
      ensures sent.Some? ==>
                && teamId.Some? && ArtifactAccepted(old(artifactImage).Some?, old(artifactLink), old(artifactDesc))
                && sent.value == ArtifactRequest(teamId.value,
                                                 if old(artifactImage).Some? && upload.Ok? then Some(upload.value) else None,
                                                 TrimmedOrNone(old(artifactLink)), TrimmedOrNone(old(artifactDesc)))
      ensures teamId.Some? && ArtifactAccepted(old(artifactImage).Some?, old(artifactLink), old(artifactDesc)) ==>
                && !artifactSubmitting
                && (sent.None? <==> old(artifactImage).Some? && upload.Err?)
                && (sent.None? ==> toasts == [Failure(ErrorText(upload.error.message, "업로드에 실패했습니다"))])
                && (sent.Some? && addError.Some? ==>
                      toasts == [Failure(ErrorText(addError.value.message, "업로드에 실패했습니다"))])
                && (sent.Some? && addError.None? ==>
                      toasts == [Success("결과물이 등록되었습니다")]
                                + (if reload.Err? then [Failure(ErrorText(reload.error.message, "업로드에 실패했습니다"))] else []))
                && (sent.Some? && addError.None? ==>
                      artifactImage.None? && artifactLink == "" && artifactDesc == ""
                      && artifacts == (if reload.Ok? then reload.value else old(artifacts)))
                && (sent.None? || addError.Some? ==>
                      && artifactImage == old(artifactImage) && artifactLink == old(artifactLink)
                      && artifactDesc == old(artifactDesc) && artifacts == old(artifacts))
    {
      if teamId.None? {
        return None, [];
      }
      var link, desc := TrimmedOrNone(artifactLink), TrimmedOrNone(artifactDesc);
      if artifactImage.None? && link.None? && desc.None? {
        return None, [Failure("이미지, 링크, 설명 중 최소 1개는 입력해주세요")];
      }
      artifactSubmitting := true;
      var imageUrl: Option<string> := None;
      if artifactImage.Some? {
        if upload.Err? {
          artifactSubmitting := false;
          return None, [Failure(ErrorText(upload.error.message, "업로드에 실패했습니다"))];
        }
        imageUrl := Some(upload.value);
      }
      sent := Some(ArtifactRequest(teamId.value, imageUrl, link, desc));
      if addError.Some? {
        artifactSubmitting := false;
        return sent, [Failure(ErrorText(addError.value.message, "업로드에 실패했습니다"))];
      }
      toasts := [Success("결과물이 등록되었습니다")];
      artifactImage, artifactLink, artifactDesc := None, "", "";
      match reload {
        case Ok(items) =>
          artifacts := items;
        case Err(e) =>
          toasts := toasts + [Failure(ErrorText(e.message, "업로드에 실패했습니다"))];
      }
      artifactSubmitting := false;
    }

    /**
     * `handleJoin`: signed out, only an error toast; otherwise a join request without skills, then
     * the team is read again (`refreshed`) to show the new membership.
     */
    method HandleJoin(db: Db, insertError: Option<string>, refreshed: Result<Team, CallError>, now: Timestamp)
        returns (toasts: seq<Toast>)
      requires teamId.Some?
      requires db.Valid()
      modifies db, this`team, this`joining
      ensures db.Valid()
      ensures db.ideas == old(db.ideas) && db.investments == old(db.investments)
      ensures db.transactions == old(db.transactions) && db.teams == old(db.teams)
      ensures user.None? ==>
                toasts == [Failure("로그인이 필요합니다")] && db.teamMembers == old(db.teamMembers)
                && team == old(team) && joining == old(joining)
      ensures user.Some? && insertError.Some? ==>
                && toasts == [Failure(ErrorText(Some(insertError.value), "팀 참여에 실패했습니다"))]
                && db.teamMembers == old(db.teamMembers) && team == old(team) && !joining
      ensures user.Some? && insertError.None? ==>
                && db.teamMembers == old(db.teamMembers)
                     + [Api.JoinRow(old(db.nextId), teamId.value, user.value, None, now)]
                && toasts == [Success("팀에 참여했습니다")]
                             + (if refreshed.Err? then [Failure(ErrorText(refreshed.error.message, "팀 참여에 실패했습니다"))] else [])
                && team == (if refreshed.Ok? then Some(refreshed.value) else old(team))
                && !joining
    {
      if user.None? {
        return [Failure("로그인이 필요합니다")];
      }
      joining := true;
      var r := Api.JoinTeam(db, user, teamId.value, None, insertError, now);
      if r.Err? {
        joining := false;
        return [Failure(ErrorText(Some(r.error.Message()), "팀 참여에 실패했습니다"))];
      }
      toasts := [Success("팀에 참여했습니다")];
      match refreshed {
        case Ok(t) =>
          team := Some(t);
        case Err(e) =>
          toasts := toasts + [Failure(ErrorText(e.message, "팀 참여에 실패했습니다"))];
      }
      joining := false;
    }
  }
}
