/**
 * The data API the pages call: creating and listing ideas, the like toggle, creating a team with
 * its leader as first member, listing teams and asking to join one. `addIdea` and `likeIdea` are
 * also written, identically, in the idea service; they are modelled once, here.
 */
module Api {
  import opened Wrappers
  import opened Types
  import opened Database
  import JsText
  import Sorting
  import ListEdits

  // ---------------------------------------------------------------------------------------------
  // Ideas

  /** The fields a new idea is submitted with; `tags` may be left out. */
  datatype NewIdea = NewIdea(title: string, domain: string, problem: string, aiSolution: string,
                             tags: Option<seq<string>>)

  /**
   * The `ideas` row an insert creates: the submitted fields, the caller as owner, stage "idea",
   * tags defaulting to none, no likes, visible (the `is_visible` column default).
   */
  function IdeaRow(id: RowId, idea: NewIdea, owner: UserId, now: Timestamp): (r: Idea)
    ensures r.stage == InitialStage && r.userId == owner && r.tags == idea.tags.GetOr([])
    ensures r.title == idea.title && r.domain == idea.domain && r.problem == idea.problem
    ensures r.aiSolution == idea.aiSolution && r.isVisible && r.likeUserIds.None?
    ensures r.totalInvestment.None? && r.investorCount.None? && r.investments.None?
  {
    Idea(id, idea.title, idea.domain, idea.problem, idea.aiSolution, idea.tags.GetOr([]), owner,
         InitialStage, true, None, now, None, None, None)
  }

  /** `addIdea(idea)`: login required; one row inserted, or the store's error and no change. */
  method AddIdea(db: Db, user: Option<UserId>, idea: NewIdea, insertError: Option<string>, now: Timestamp)
      returns (r: Result<Idea, Error>)
    requires db.Valid()
    modifies db
    ensures db.Valid()
    ensures db.investments == old(db.investments) && db.transactions == old(db.transactions)
    ensures db.teams == old(db.teams) && db.teamMembers == old(db.teamMembers)
    ensures user.None? ==> r == Err(LoginRequired)
    ensures user.Some? && insertError.Some? ==> r == Err(StorageFailure(insertError.value))
    ensures r.Err? ==> db.ideas == old(db.ideas)
    ensures user.Some? && insertError.None? ==>
              && r == Ok(IdeaRow(old(db.nextId), idea, user.value, now))
              && db.ideas == old(db.ideas) + [r.value]
  {
    if user.None? {
      return Err(LoginRequired);
    }
    if insertError.Some? {
      return Err(StorageFailure(insertError.value));
    }
    var id := db.FreshId();
    var row := IdeaRow(id, idea, user.value, now);
    db.ideas := db.ideas + [row];
    r := Ok(row);
  }

  /**
   * `listIdeas(query)` of the data API: every idea (visible or not), newest first, narrowed by the
   * substring search when the query is non-empty.
   */
  function ListIdeas(ideas: seq<Idea>, query: Option<string>): (r: seq<Idea>)
    ensures Sorting.SortedDesc(r, IdeaCreatedAt)
    ensures multiset(r) == multiset(SearchIfGiven(ideas, query))
    ensures query == None || query == Some("") ==> multiset(r) == multiset(ideas)
  {
    Sorting.SortDesc(SearchIfGiven(ideas, query), IdeaCreatedAt)
  }

  /** With a non-empty query the listing holds exactly the ideas that match it. */
  lemma ListIdeasMatches(ideas: seq<Idea>, q: string)
    requires q != ""
    ensures forall x :: x in ListIdeas(ideas, Some(q)) <==> x in ideas && MatchesQuery(x, q)
  {
    var r := ListIdeas(ideas, Some(q));
    SearchIfGivenMembers(ideas, Some(q));
    forall x ensures x in r <==> x in ideas && MatchesQuery(x, q) {
      assert x in r <==> x in multiset(r);
      assert x in SearchIfGiven(ideas, Some(q)) <==> x in multiset(SearchIfGiven(ideas, Some(q)));
    }
  }

  // ---------------------------------------------------------------------------------------------
  // Likes

  /**
   * The new `like_user_ids` of `likeIdea`: a missing list counts as empty; a user already in it is
   * removed (every occurrence), otherwise appended.
   */
  function ToggleLike(ids: Option<seq<UserId>>, user: UserId): seq<UserId> {
    var current := ids.GetOr([]);
    if user in current then ListEdits.RemoveAll(current, user) else current + [user]
  }

  /** The user is in the new list exactly when they were not in the old one. */
  lemma ToggleLikeFlips(ids: Option<seq<UserId>>, user: UserId)
    ensures user in ToggleLike(ids, user) <==> user !in ids.GetOr([])
  {
    if user in ids.GetOr([]) {
      ListEdits.RemoveAllMembers(ids.GetOr([]), user);
    }
  }

  /** How often any other user occurs is untouched. */
  lemma ToggleLikeKeepsOthers(ids: Option<seq<UserId>>, user: UserId, other: UserId)
    requires other != user
    ensures multiset(ToggleLike(ids, user))[other] == multiset(ids.GetOr([]))[other]
  {
    ListEdits.RemoveAllCounts(ids.GetOr([]), user);
  }

  /** Liking and then unliking an idea the user had not liked gives back the original list. */
  lemma ToggleTwiceFromAbsent(ids: seq<UserId>, user: UserId)
    requires user !in ids
    ensures ToggleLike(Some(ToggleLike(Some(ids), user)), user) == ids
  {
    ListEdits.RemoveAllAppend(ids, [user], user);
    ListEdits.RemoveAllAbsent(ids, user);
    assert [user][1..] == [];
  }

  /** Unliking and liking again leaves the user once, at the end. */
  lemma ToggleTwiceFromPresent(ids: seq<UserId>, user: UserId)
    requires user in ids
    ensures ToggleLike(Some(ToggleLike(Some(ids), user)), user) == ListEdits.RemoveAll(ids, user) + [user]
  {
    ToggleLikeFlips(Some(ids), user);
  }

  /** `.update({ like_user_ids }).eq('id', id)`: every row with that id takes the new list. */
  function SetLikes(ideas: seq<Idea>, id: RowId, likes: seq<UserId>): (r: seq<Idea>)
    ensures |r| == |ideas|
    ensures forall i :: 0 <= i < |r| ==> r[i].id == ideas[i].id
  {
    seq(|ideas|, i requires 0 <= i < |ideas| =>
      if ideas[i].id == id then ideas[i].(likeUserIds := Some(likes)) else ideas[i])
  }

  /** The like update changes exactly the likes of the rows with the id. */
  lemma SetLikesEffect(ideas: seq<Idea>, id: RowId, likes: seq<UserId>, i: nat)
    requires i < |ideas|
    ensures ideas[i].id == id ==> SetLikes(ideas, id, likes)[i].likeUserIds == Some(likes)
    ensures SetLikes(ideas, id, likes)[i].(likeUserIds := ideas[i].likeUserIds) == ideas[i]
  {
  }

  /**
   * `likeIdea(ideaId)`: login required; the `.single()` read of the idea yields nothing when the
   * read fails (`readError`, whose error the code never looks at) or unless exactly one row has
   * the id, and either way that is "idea not found"; then the toggled list is written back.
   */
  method LikeIdea(db: Db, user: Option<UserId>, ideaId: RowId, readError: Option<string>,
                  updateError: Option<string>)
      returns (r: Result<(), Error>)
    requires db.Valid()
    modifies db`ideas
    ensures db.Valid()
    ensures user.None? ==> r == Err(LoginRequired)
    ensures user.Some? && (readError.Some? || |IdeasWithId(old(db.ideas), ideaId)| != 1) ==> r == Err(IdeaNotFound)
    ensures user.Some? && readError.None? && |IdeasWithId(old(db.ideas), ideaId)| == 1 && updateError.Some? ==>
              r == Err(StorageFailure(updateError.value))
    ensures r.Err? ==> db.ideas == old(db.ideas)
    ensures r.Ok? <==> user.Some? && readError.None? && |IdeasWithId(old(db.ideas), ideaId)| == 1 && updateError.None?
    ensures r.Ok? ==>
              db.ideas == SetLikes(old(db.ideas), ideaId,
                                   ToggleLike(IdeasWithId(old(db.ideas), ideaId)[0].likeUserIds, user.value))
  {
    if user.None? {
      return Err(LoginRequired);
    }
    var found := IdeasWithId(db.ideas, ideaId);
    if readError.Some? || |found| != 1 {
      return Err(IdeaNotFound);
    }
    var updated := ToggleLike(found[0].likeUserIds, user.value);
    if updateError.Some? {
      return Err(StorageFailure(updateError.value));
    }
    ghost var before := db.ideas;
    db.ideas := SetLikes(db.ideas, ideaId, updated);
    assert forall i :: 0 <= i < |db.ideas| ==> db.ideas[i].id == before[i].id;
    r := Ok(());
  }

  // ---------------------------------------------------------------------------------------------
  // Teams

  /** The fields a new team is submitted with. */
  datatype NewTeam = NewTeam(ideaId: RowId, name: string, description: string, maxMembers: int,
                             requiredSkills: seq<string>)

  /** The `teams` row `createTeam` inserts: led by the caller, one member, recruiting. */
  function TeamRow(id: RowId, team: NewTeam, leader: UserId, now: Timestamp): (r: Team)
    ensures r.leaderId == leader && r.currentMembers == 1 && r.status == Recruiting
    ensures r.ideaId == team.ideaId && r.name == team.name && r.description == team.description
    ensures r.maxMembers == team.maxMembers && r.requiredSkills == team.requiredSkills
  {
    Team(id, team.ideaId, team.name, team.description, team.maxMembers, 1, team.requiredSkills,
         leader, Recruiting, now, None)
  }

  /** The `team_members` row for the leader: approved, with role leader and no skills given. */
  function LeaderRow(id: RowId, teamId: RowId, leader: UserId, now: Timestamp): (r: TeamMember)
    ensures r.teamId == teamId && r.userId == leader && r.role == Leader && r.status == Approved
  {
    TeamMember(id, teamId, leader, Leader, None, Approved, now)
  }

  /**
   * `createTeam(team)`: login required; the team row is inserted (its failure is thrown), then the
   * leader's member row, whose failure is ignored: the team is returned either way.
   */
  method CreateTeam(db: Db, user: Option<UserId>, team: NewTeam, teamError: Option<string>,
                    memberError: Option<string>, now: Timestamp)
      returns (r: Result<Team, Error>)
    requires db.Valid()
    modifies db
    ensures db.Valid()
    ensures db.ideas == old(db.ideas) && db.investments == old(db.investments)
    ensures db.transactions == old(db.transactions)
    ensures user.None? ==> r == Err(LoginRequired)
    ensures user.Some? && teamError.Some? ==> r == Err(StorageFailure(teamError.value))
    ensures r.Err? ==> db.teams == old(db.teams) && db.teamMembers == old(db.teamMembers)
    ensures user.Some? && teamError.None? ==>
              && r == Ok(TeamRow(old(db.nextId), team, user.value, now))
              && db.teams == old(db.teams) + [r.value]
              && db.teamMembers == old(db.teamMembers) +
                   (if memberError.None? then [LeaderRow(old(db.nextId) + 1, r.value.id, user.value, now)] else [])
  {
    if user.None? {
      return Err(LoginRequired);
    }
    if teamError.Some? {
      return Err(StorageFailure(teamError.value));
    }
    var id := db.FreshId();
    var row := TeamRow(id, team, user.value, now);
    db.teams := db.teams + [row];
    if memberError.None? {
      var memberId := db.FreshId();
      db.teamMembers := db.teamMembers + [LeaderRow(memberId, id, user.value, now)];
    }
    r := Ok(row);
  }

  /** `listTeams()`: every team, newest first (the joined idea columns are not modelled). */
  function ListTeams(teams: seq<Team>): (r: seq<Team>)
    ensures Sorting.SortedDesc(r, TeamCreatedAt)
    ensures multiset(r) == multiset(teams)
  {
    Sorting.SortDesc(teams, TeamCreatedAt)
  }

  /** The `team_members` row a join request inserts: role member, pending, with the given skills. */
  function JoinRow(id: RowId, teamId: RowId, user: UserId, skills: Option<seq<string>>, now: Timestamp): (r: TeamMember)
    ensures r.teamId == teamId && r.userId == user && r.role == Member && r.status == Pending
    ensures r.skills == skills
  {
    TeamMember(id, teamId, user, Member, skills, Pending, now)
  }

  /**
   * `joinTeam(teamId, skills)`: login required; one pending member row. The call itself checks
   * neither capacity nor existing membership; `skills` is `None` when a caller leaves it out.
   */
  method JoinTeam(db: Db, user: Option<UserId>, teamId: RowId, skills: Option<seq<string>>,
                  insertError: Option<string>, now: Timestamp)
      returns (r: Result<TeamMember, Error>)
    requires db.Valid()
    modifies db
    ensures db.Valid()
    ensures db.ideas == old(db.ideas) && db.investments == old(db.investments)
    ensures db.transactions == old(db.transactions) && db.teams == old(db.teams)
    ensures user.None? ==> r == Err(LoginRequired)
    ensures user.Some? && insertError.Some? ==> r == Err(StorageFailure(insertError.value))
    ensures r.Err? ==> db.teamMembers == old(db.teamMembers)
    ensures user.Some? && insertError.None? ==>
              && r == Ok(JoinRow(old(db.nextId), teamId, user.value, skills, now))
              && db.teamMembers == old(db.teamMembers) + [r.value]
  {
    if user.None? {
      return Err(LoginRequired);
    }
    if insertError.Some? {
      return Err(StorageFailure(insertError.value));
    }
    var id := db.FreshId();
    var row := JoinRow(id, teamId, user.value, skills, now);
    db.teamMembers := db.teamMembers + [row];
    r := Ok(row);
  }
}
