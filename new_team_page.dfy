/**
 * The team creation form: choosing the idea the team is built on (pre-selected from the `ideaId`
 * query parameter), the name and description it pre-fills, the member count field, the required
 * skills editor, and submission with its two checks.
 */
module NewTeamPage {
  import opened Wrappers
  import opened Types
  import opened Database
  import JsText
  import ListEdits
  import Api

  /** At most this many required skills. */
  const MaxSkills: nat := 10

  /** The member count the form starts with, and the one an unusable input falls back to. */
  const DefaultMaxMembers: int := 4

  /** The quick-add skill buttons. */
  const CommonSkills: seq<string> := [
    "프론트엔드", "백엔드", "풀스택", "모바일", "AI/ML", "데이터분석",
    "UI/UX", "기획", "마케팅", "비즈니스", "디자인", "DevOps"
  ]

  /** The team name pre-filled for an idea: its title followed by " 팀" ("team"). */
  function TeamNameFor(idea: Idea): string {
    idea.title + " 팀"
  }

  /** The description pre-filled for an idea: a sentence naming it, then its problem and its AI solution. */
  function DescriptionFor(idea: Idea): string {
    idea.title + " 아이디어를 실현하기 위한 팀입니다.\n\n문제: " + idea.problem + "\n\nAI 솔루션: " + idea.aiSolution
  }

  /** A string with a non-whitespace character at some position is not blank. */
  lemma NotBlankAt(s: string, i: nat)
    requires i < |s| && !JsText.IsWhitespace(s[i])
    ensures !JsText.Blank(s)
  {
    JsText.BlankIffAllWhitespace(s);
  }

  /** Whatever the idea, the pre-filled name is never blank. */
  lemma NameNotBlank(idea: Idea)
    ensures !JsText.Blank(TeamNameFor(idea))
  {
    var name := TeamNameFor(idea);
    assert name[|idea.title| + 1] == '팀';
    NotBlankAt(name, |idea.title| + 1);
  }

  /** Whatever the idea, the pre-filled description is never blank. */
  lemma DescriptionNotBlank(idea: Idea)
    ensures !JsText.Blank(DescriptionFor(idea))
  {
    var d := DescriptionFor(idea);
    var head := idea.title + " 아이디어를 실현하기 위한 팀입니다.\n\n문제: ";
    assert d == head + (idea.problem + "\n\nAI 솔루션: " + idea.aiSolution);
    assert d[|idea.title| + 1] == head[|idea.title| + 1] == '아';
    NotBlankAt(d, |idea.title| + 1);
  }

  /** `ideas.find(i => i.id === id)`: the first idea with that id, if any. */
  function FindIdea(ideas: seq<Idea>, id: RowId): (r: Option<Idea>)
    ensures r.Some? <==> exists i :: 0 <= i < |ideas| && ideas[i].id == id
    ensures r.Some? ==> r.value.id == id && r.value in ideas
    ensures r.Some? ==> exists i :: 0 <= i < |ideas| && ideas[i] == r.value && forall j :: 0 <= j < i ==> ideas[j].id != id
  {
    if ideas == [] then None
    else if ideas[0].id == id then Some(ideas[0])
    else
      var r := FindIdea(ideas[1..], id);
      if r.Some? then
        var i :| 0 <= i < |ideas[1..]| && ideas[1..][i] == r.value && forall j :: 0 <= j < i ==> ideas[1..][j].id != id;
        assert ideas[i + 1] == r.value;
        assert forall j :: 0 < j < i + 1 ==> ideas[j].id == ideas[1..][j - 1].id;
        r
      else
        assert forall i :: 0 < i < |ideas| ==> ideas[i] == ideas[1..][i - 1];
        r
  }

  /** `parseInt(text) || 4`: an input that does not parse, or parses to zero, becomes 4. */
  function MaxMembersFromInput(text: string): (r: int)
    ensures r != 0
  {
    match JsText.ParseInt(text)
    case None => DefaultMaxMembers
    case Some(n) => if n == 0 then DefaultMaxMembers else n
  }

  /** What the field yields for typical inputs: a decimal keeps its value, blank or "0" gives 4. */
  lemma MaxMembersFromInputCases(n: nat, blank: string)
    requires JsText.Blank(blank)
    ensures n > 0 ==> MaxMembersFromInput(JsText.ToDecimal(n)) == n
    ensures MaxMembersFromInput(JsText.ToDecimal(0)) == DefaultMaxMembers
    ensures MaxMembersFromInput(blank) == DefaultMaxMembers
  {
    JsText.ParseIntOfDecimal(n, []);
    JsText.ParseIntOfDecimal(0, []);
    assert JsText.ToDecimal(n) + [] == JsText.ToDecimal(n);
    assert JsText.ToDecimal(0) + [] == JsText.ToDecimal(0);
    JsText.ParseIntOfBlank(blank);
  }

  /** The outcome of the submit checks, in the order the handler makes them. */
  datatype Check = MissingRequired | MemberCountOutOfRange | Passed

  /** An idea, a non-blank name and a non-blank description first; then 2 to 20 members. */
  function CheckForm(idea: Option<Idea>, name: string, description: string, maxMembers: int): (r: Check)
    ensures r == MissingRequired <==> idea.None? || JsText.Blank(name) || JsText.Blank(description)
    ensures r == Passed <==>
              idea.Some? && !JsText.Blank(name) && !JsText.Blank(description) && 2 <= maxMembers <= 20
  {
    if idea.None? || JsText.Blank(name) || JsText.Blank(description) then MissingRequired
    else if maxMembers < 2 || maxMembers > 20 then MemberCountOutOfRange
    else Passed
  }

  /** Once an idea is chosen, with its pre-filled texts left as they are, only the member count can fail. */
  lemma ChosenIdeaPassesRequired(idea: Idea, maxMembers: int)
    ensures CheckForm(Some(idea), TeamNameFor(idea), DescriptionFor(idea), maxMembers) != MissingRequired
    ensures CheckForm(Some(idea), TeamNameFor(idea), DescriptionFor(idea), DefaultMaxMembers) == Passed
  {
    NameNotBlank(idea);
    DescriptionNotBlank(idea);
  }

  /** `disabled={loading || !selectedIdea || !teamName.trim() || !description.trim()}`. */
  predicate SubmitDisabled(loading: bool, idea: Option<Idea>, name: string, description: string) {
    loading || idea.None? || JsText.Blank(name) || JsText.Blank(description)
  }

  /** An enabled submit button never meets the first check's error. */
  lemma EnabledSubmitHasRequired(loading: bool, idea: Option<Idea>, name: string, description: string, maxMembers: int)
    requires !SubmitDisabled(loading, idea, name, description)
    ensures CheckForm(idea, name, description, maxMembers) != MissingRequired
  {
  }

  /** What the form shows. */
  datatype Toast =
    | RequiredMissing
    | MemberCountInvalid
    | Created
    | CreateFailed
    | IdeasLoadFailed

  class Page {
    /** The `ideaId` query parameter and the signed-in user. */
    const ideaParam: Option<RowId>
    const user: Option<UserId>
    var ideas: seq<Idea>
    var selectedIdea: Option<Idea>
    var teamName: string
    var description: string
    var maxMembers: int
    var requiredSkills: seq<string>
    var newSkill: string
    var loading: bool

    /** The skill list stays within its cap, duplicate-free and trimmed. */
    predicate Valid()
      reads this
    {
      ListEdits.WellFormed(requiredSkills, MaxSkills)
    }

    constructor (ideaParam: Option<RowId>, user: Option<UserId>)
      ensures Valid()
      ensures this.ideaParam == ideaParam && this.user == user
      ensures ideas == [] && selectedIdea.None? && teamName == "" && description == ""
      ensures maxMembers == DefaultMaxMembers && requiredSkills == [] && newSkill == "" && !loading
    {
      this.ideaParam := ideaParam;
      this.user := user;
      ideas := [];
      selectedIdea := None;
      teamName := "";
      description := "";
      maxMembers := DefaultMaxMembers;
      requiredSkills := [];
      newSkill := "";
      loading := false;
    }

    /** Choosing an idea from the list selects it and pre-fills the name and the description. */
    method SelectIdea(idea: Idea)
      modifies this`selectedIdea, this`teamName, this`description
      ensures selectedIdea == Some(idea) && teamName == TeamNameFor(idea) && description == DescriptionFor(idea)
    {
      selectedIdea := Some(idea);
      teamName := TeamNameFor(idea);
      description := DescriptionFor(idea);
    }

    /** The close button of the chosen idea; the pre-filled texts stay. */
    method ClearIdea()
      modifies this`selectedIdea
      ensures selectedIdea.None?
    {
      selectedIdea := None;
    }

    /**
     * `loadIdeas`: every idea, newest first; when the query names an idea in that list, it is
     * chosen as if clicked. A failed read keeps the form as it is.
     */
    method LoadIdeas(db: Db, readError: Option<string>) returns (toast: Option<Toast>)
      modifies this`ideas, this`selectedIdea, this`teamName, this`description
      ensures readError.Some? ==>
                toast == Some(IdeasLoadFailed) && ideas == old(ideas) && selectedIdea == old(selectedIdea)
                && teamName == old(teamName) && description == old(description)
      ensures readError.None? ==> toast.None? && ideas == Api.ListIdeas(db.ideas, None)
      ensures readError.None? && ideaParam.Some? && FindIdea(ideas, ideaParam.value).Some? ==>
                var idea := FindIdea(ideas, ideaParam.value).value;
                selectedIdea == Some(idea) && teamName == TeamNameFor(idea) && description == DescriptionFor(idea)
      ensures readError.None? && (ideaParam.None? || FindIdea(ideas, ideaParam.value).None?) ==>
                selectedIdea == old(selectedIdea) && teamName == old(teamName) && description == old(description)
    {
      if readError.Some? {
        return Some(IdeasLoadFailed);
      }
      ideas := Api.ListIdeas(db.ideas, None);
      toast := None;
      if ideaParam.Some? {
        var found := FindIdea(ideas, ideaParam.value);
        if found.Some? {
          SelectIdea(found.value);
        }
      }
    }

    /** The member count field. */
    method SetMaxMembers(text: string)
      modifies this`maxMembers
      ensures maxMembers == MaxMembersFromInput(text)
    {
      maxMembers := MaxMembersFromInput(text);
    }

    /**
     * `handleAddSkill(raw)`, from a quick-add button or the text field: an accepted skill is
     * appended trimmed and clears the text field; otherwise nothing changes.
     */
    method AddSkill(raw: string)
      requires Valid()
      modifies this`requiredSkills, this`newSkill
      ensures Valid()
      ensures requiredSkills == ListEdits.AddUnique(old(requiredSkills), raw, MaxSkills)
      ensures newSkill == if ListEdits.Accepts(old(requiredSkills), raw, MaxSkills) then "" else old(newSkill)
    {
      ListEdits.AddKeepsWellFormed(requiredSkills, raw, MaxSkills);
      if ListEdits.Accepts(requiredSkills, raw, MaxSkills) {
        requiredSkills := requiredSkills + [JsText.Trim(raw)];
        newSkill := "";
      }
    }

    /** `handleRemoveSkill(skill)`. */
    method RemoveSkill(skill: string)
      requires Valid()
      modifies this`requiredSkills
      ensures Valid()
      ensures requiredSkills == ListEdits.RemoveAll(old(requiredSkills), skill)
    {
      ListEdits.RemoveKeepsWellFormed(requiredSkills, skill, MaxSkills);
      requiredSkills := ListEdits.RemoveAll(requiredSkills, skill);
    }

    /**
     * `handleSubmit`: the two checks, then `createTeam` with the trimmed texts; success leads to the
     * new team's page. Loading is over once the call returns.
     */
    method Submit(db: Db, teamError: Option<string>, memberError: Option<string>, now: Timestamp)
        returns (toast: Toast, redirect: Option<RowId>)
      requires db.Valid()
      modifies db, this`loading
      ensures db.Valid()
      ensures db.ideas == old(db.ideas) && db.investments == old(db.investments)
      ensures db.transactions == old(db.transactions)
      ensures CheckForm(selectedIdea, teamName, description, maxMembers) == MissingRequired ==>
                toast == RequiredMissing && redirect.None? && unchanged(db) && loading == old(loading)
      ensures CheckForm(selectedIdea, teamName, description, maxMembers) == MemberCountOutOfRange ==>
                toast == MemberCountInvalid && redirect.None? && unchanged(db) && loading == old(loading)
      ensures CheckForm(selectedIdea, teamName, description, maxMembers) == Passed ==>
                !loading
                && (user.Some? && teamError.None? <==> toast == Created)
                && (toast == Created ==>
                      && redirect == Some(old(db.nextId))
                      && db.teams == old(db.teams) + [Api.TeamRow(old(db.nextId), Request(), user.value, now)]
                      && db.teamMembers == old(db.teamMembers) +
                           (if memberError.None? then [Api.LeaderRow(old(db.nextId) + 1, old(db.nextId), user.value, now)] else []))
                && (toast != Created ==>
                      toast == CreateFailed && redirect.None? && db.teams == old(db.teams)
                      && db.teamMembers == old(db.teamMembers))
    {
      var check := CheckForm(selectedIdea, teamName, description, maxMembers);
      if check == MissingRequired {
        return RequiredMissing, None;
      }
      if check == MemberCountOutOfRange {
        return MemberCountInvalid, None;
      }
      toast, redirect := Create(db, teamError, memberError, now);
    }

    /** The part of `handleSubmit` after the checks: the `createTeam` call, with loading shown meanwhile. */
    method Create(db: Db, teamError: Option<string>, memberError: Option<string>, now: Timestamp)
        returns (toast: Toast, redirect: Option<RowId>)
      requires db.Valid() && selectedIdea.Some?
      modifies db, this`loading
      ensures db.Valid() && !loading
      ensures db.ideas == old(db.ideas) && db.investments == old(db.investments)
      ensures db.transactions == old(db.transactions)
      ensures user.Some? && teamError.None? <==> toast == Created
      ensures toast == Created ==>
                && redirect == Some(old(db.nextId))
                && db.teams == old(db.teams) + [Api.TeamRow(old(db.nextId), Request(), user.value, now)]
                && db.teamMembers == old(db.teamMembers) +
                     (if memberError.None? then [Api.LeaderRow(old(db.nextId) + 1, old(db.nextId), user.value, now)] else [])
      ensures toast != Created ==>
                toast == CreateFailed && redirect.None? && db.teams == old(db.teams)
                && db.teamMembers == old(db.teamMembers)
    {
      loading := true;
      var r := Api.CreateTeam(db, user, Request(), teamError, memberError, now);
      if r.Ok? {
        toast, redirect := Created, Some(r.value.id);
      } else {
        toast, redirect := CreateFailed, None;
      }
      loading := false;
    }

    /** The request `handleSubmit` sends once an idea is chosen. */
    function Request(): Api.NewTeam
      requires selectedIdea.Some?
      reads this`selectedIdea, this`teamName, this`description, this`maxMembers, this`requiredSkills
    {
      Api.NewTeam(selectedIdea.value.id, JsText.Trim(teamName), JsText.Trim(description), maxMembers, requiredSkills)
    }
  }

  /** A team created from the form carries the form's trimmed texts, its count and its skills. */
  lemma CreatedTeamCarriesForm(id: RowId, idea: Idea, name: string, description: string, maxMembers: int,
                               skills: seq<string>, leader: UserId, now: Timestamp)
    requires CheckForm(Some(idea), name, description, maxMembers) == Passed
    ensures var t := Api.TeamRow(id, Api.NewTeam(idea.id, JsText.Trim(name), JsText.Trim(description), maxMembers, skills), leader, now);
            && t.ideaId == idea.id && t.name != [] && t.description != [] && 2 <= t.maxMembers <= 20
            && t.requiredSkills == skills && t.currentMembers < t.maxMembers
  {
  }
}
