/**
 * The team predicates the team list, the team page and the team dialog share: membership,
 * leadership, the recruiting-and-under-capacity test behind the join link, and who may join.
 */
module TeamRules {
  import opened Wrappers
  import opened Types
  import opened Database
  import Api

  /** `team.members?.some(m => m.user_id === user)`: false when the members were not loaded. */
  predicate HasMember(team: Team, user: UserId) {
    team.members.Some? && exists i :: 0 <= i < |team.members.value| && team.members.value[i].userId == user
  }

  /** `status === '모집중' && current_members < max_members`: the join link of the team list. */
  predicate ShowJoinLink(team: Team) {
    team.status == Recruiting && team.currentMembers < team.maxMembers
  }

  /** Recruiting, under capacity, signed in and not yet a member. */
  predicate CanJoin(team: Team, user: Option<UserId>) {
    ShowJoinLink(team) && user.Some? && !HasMember(team, user.value)
  }

  /** A member, whatever the status of their row, is never offered to join again. */
  lemma MemberCannotJoin(team: Team, user: UserId)
    requires HasMember(team, user)
    ensures !CanJoin(team, Some(user))
  {
  }

  /** Joining is offered only where the team list shows the join link, and never when signed out. */
  lemma CanJoinNeedsLinkAndUser(team: Team, user: Option<UserId>)
    ensures CanJoin(team, user) ==> ShowJoinLink(team)
    ensures user.None? ==> !CanJoin(team, user)
  {
  }

  /** `team_members` rows of one team, in table order. */
  function MembersOf(rows: seq<TeamMember>, teamId: RowId): (r: seq<TeamMember>)
    ensures |r| <= |rows|
    ensures forall i :: 0 <= i < |r| ==> r[i].teamId == teamId
  {
    if rows == [] then []
    else (if rows[0].teamId == teamId then [rows[0]] else []) + MembersOf(rows[1..], teamId)
  }

  lemma {:induction false} MembersOfAppend(rows: seq<TeamMember>, m: TeamMember, teamId: RowId)
    ensures MembersOf(rows + [m], teamId) == MembersOf(rows, teamId) + (if m.teamId == teamId then [m] else [])
  {
    if rows == [] {
      assert [m][1..] == [];
    } else {
      assert (rows + [m])[1..] == rows[1..] + [m];
      MembersOfAppend(rows[1..], m, teamId);
    }
  }

  /** A team read together with its member rows. */
  function WithMembers(team: Team, rows: seq<TeamMember>): Team {
    team.(members := Some(MembersOf(rows, team.id)))
  }

  /**
   * Once `createTeam` has stored the leader's row, the team read with its members counts the
   * leader as a member, and the leader is never offered to join it.
   */
  lemma LeaderIsMember(rows: seq<TeamMember>, memberId: RowId, team: Team, leader: UserId, now: Timestamp)
    ensures HasMember(WithMembers(team, rows + [Api.LeaderRow(memberId, team.id, leader, now)]), leader)
    ensures !CanJoin(WithMembers(team, rows + [Api.LeaderRow(memberId, team.id, leader, now)]), Some(leader))
  {
    var m := Api.LeaderRow(memberId, team.id, leader, now);
    MembersOfAppend(rows, m, team.id);
    var ms := MembersOf(rows + [m], team.id);
    assert ms[|ms| - 1].userId == leader;
  }

  /**
   * A join request, still pending, already counts as membership: once `joinTeam` has stored it,
   * the requester is no longer offered to join.
   */
  lemma PendingRequestBlocksRejoin(rows: seq<TeamMember>, memberId: RowId, team: Team, user: UserId,
                                   skills: Option<seq<string>>, now: Timestamp)
    ensures HasMember(WithMembers(team, rows + [Api.JoinRow(memberId, team.id, user, skills, now)]), user)
    ensures !CanJoin(WithMembers(team, rows + [Api.JoinRow(memberId, team.id, user, skills, now)]), Some(user))
  {
    var m := Api.JoinRow(memberId, team.id, user, skills, now);
    MembersOfAppend(rows, m, team.id);
    var ms := MembersOf(rows + [m], team.id);
    assert ms[|ms| - 1].userId == user;
  }
}
