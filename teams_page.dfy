/**
 * The team list: loading the teams, the skill preview of each card (at most four badges and a
 * `+k` badge for the rest), the join link and the empty state.
 */
module TeamsPage {
  import opened Wrappers
  import opened Types
  import opened Database
  import Sorting
  import TeamRules
  import Api

  /** How many skill badges a card shows before the `+k` badge. */
  const SkillPreviewSize: nat := 4

  /** The skills section of a card: the first four skills and a `+k` badge, or nothing without skills. */
  function PreviewSkills(team: Team): Sorting.BadgeRow<string> {
    Sorting.BadgesOf(team.requiredSkills, SkillPreviewSize)
  }

  datatype Toast = LoadFailed

  class Page {
    var teams: seq<Team>
    var loading: bool

    /** The first render: no teams yet, and the loading screen. */
    constructor ()
      ensures teams == [] && loading
    {
      teams := [];
      loading := true;
    }

    /** The empty state, shown once loading has finished and there is no team. */
    predicate ShowsEmptyState()
      reads this
    {
      !loading && |teams| == 0
    }

    /**
     * `loadTeams`: on success the list becomes every team, newest first; on failure the list is
     * kept and an error is shown. Loading ends either way.
     */
    method LoadTeams(db: Db, readError: Option<string>) returns (toast: Option<Toast>)
      modifies this
      ensures !loading
      ensures readError.None? ==> teams == Api.ListTeams(db.teams) && toast.None?
      ensures readError.Some? ==> teams == old(teams) && toast == Some(LoadFailed)
    {
      if readError.None? {
        teams := Api.ListTeams(db.teams);
        toast := None;
      } else {
        toast := Some(LoadFailed);
      }
      loading := false;
    }
  }

  /** After a successful load the list holds each stored team exactly as often as the table does. */
  lemma LoadedListIsTable(teams: seq<Team>, t: Team)
    ensures multiset(Api.ListTeams(teams))[t] == multiset(teams)[t]
    ensures |Api.ListTeams(teams)| == 0 <==> |teams| == 0
  {
    var r := Api.ListTeams(teams);
    assert |r| == |multiset(r)| == |multiset(teams)| == |teams|;
  }
}
