/** The rows the application reads and writes, and the errors its data calls throw. */
module Types {
  import opened Wrappers

  /** Identity-provider user ids. */
  type UserId = string

  /** Ids the data store generates for new rows (uuids in the data store, natural numbers here). */
  type RowId = nat

  /** Instants, in milliseconds since the epoch. */
  type Timestamp = int

  /** `teams.status`. */
  datatype TeamStatus = Recruiting | RecruitmentClosed | Active | Completed {
    function Label(): string {
      match this
      case Recruiting => "모집중"
      case RecruitmentClosed => "모집완료"
      case Active => "활동중"
      case Completed => "완료"
    }
  }

  /** `team_members.role`: team leader or team member. */
  datatype MemberRole = Leader | Member {
    function Label(): string {
      match this
      case Leader => "팀장"
      case Member => "팀원"
    }
  }

  /** `team_members.status`: pending, approved or rejected. */
  datatype MemberStatus = Pending | Approved | Rejected {
    function Label(): string {
      match this
      case Pending => "대기중"
      case Approved => "승인됨"
      case Rejected => "거절됨"
    }
  }

  /** A row of `idea_investments`; `amount` is the investor's cumulative commitment. */
  datatype IdeaInvestment = IdeaInvestment(
    id: RowId, ideaId: RowId, userId: UserId, amount: int, createdAt: Timestamp)

  /**
   * A row of `ideas`. The three optional fields at the end are not stored: the idea service fills
   * them in when it reads an idea together with its investments.
   */
  datatype Idea = Idea(
    id: RowId, title: string, domain: string, problem: string, aiSolution: string,
    tags: seq<string>, userId: UserId, stage: string, isVisible: bool,
    likeUserIds: Option<seq<UserId>>, createdAt: Timestamp,
    totalInvestment: Option<int>, investorCount: Option<nat>,
    investments: Option<seq<IdeaInvestment>>)

  /** The stage every new idea starts in ("idea"). */
  const InitialStage: string := "아이디어"

  /**
   * A row of `token_transactions`. `transactionType` is free text: the application writes
   * `"investment"` and `"signup_bonus"` and displays five known types, more than the declared union.
   */
  datatype TokenTransaction = TokenTransaction(
    id: RowId, userId: UserId, amount: int, transactionType: string,
    description: Option<string>, referenceId: Option<RowId>, createdAt: Timestamp)

  /** A row of `team_members`; `skills` is unset when the insert does not name it. */
  datatype TeamMember = TeamMember(
    id: RowId, teamId: RowId, userId: UserId, role: MemberRole,
    skills: Option<seq<string>>, status: MemberStatus, createdAt: Timestamp)

  /** A row of `teams`; `members` is filled in only when a team is read with its members. */
  datatype Team = Team(
    id: RowId, ideaId: RowId, name: string, description: string,
    maxMembers: int, currentMembers: int, requiredSkills: seq<string>,
    leaderId: UserId, status: TeamStatus, createdAt: Timestamp,
    members: Option<seq<TeamMember>>)

  /** A team's submitted result: an image, a link and a description, each optional. */
  datatype TeamArtifact = TeamArtifact(
    id: RowId, teamId: RowId, userId: UserId,
    imageUrl: Option<string>, linkUrl: Option<string>, description: Option<string>)

  /** An entry of a team's activity feed. */
  datatype TeamUpdate = TeamUpdate(id: RowId, content: string, createdAt: Timestamp, userId: Option<UserId>)

  /** An entry of a team's task list. */
  datatype TeamTask = TeamTask(id: RowId, title: string, done: bool, createdAt: Timestamp, userId: Option<UserId>)

  /** What the data functions throw; `Message` is the thrown error's `message`. */
  datatype Error =
    | LoginRequired
    | IdeaNotFound
    | InsufficientBalance
    | NoSingleRow
    | StorageFailure(message: string)
  {
    function Message(): string {
      match this
      case LoginRequired => "로그인이 필요합니다"
      case IdeaNotFound => "아이디어를 찾을 수 없습니다"
      case InsufficientBalance => "토큰 잔액이 부족합니다"
      case NoSingleRow => "JSON object requested, multiple (or no) rows returned"
      case StorageFailure(m) => m
    }
  }
}
