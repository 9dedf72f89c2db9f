/**
 * The idea submission form: the domain choice, the problem and AI-solution texts, an optional
 * title with its default, the tag editor (at most five tags), and submission.
 */
module NewIdeaPage {
  import opened Wrappers
  import opened Types
  import opened Database
  import JsText
  import ListEdits
  import Api

  /** The domains offered; the first one is preselected. */
  const Domains: seq<string> := [
    "바이오", "교육", "환경", "헬스케어", "모빌리티",
    "문화/예술", "로봇", "데이터/플랫폼", "기타"
  ]

  /** At most this many tags. */
  const MaxTags: nat := 5

  /** Every domain offered is non-empty, so the domain part of the submit check always passes. */
  lemma DomainsNonEmpty(d: string)
    requires d in Domains
    ensures d != ""
  {
  }

  /** `title.trim() || `${domain} 분야 아이디어``: a blank title becomes "<domain> field idea". */
  function DefaultTitle(title: string, domain: string): (r: string)
    ensures !JsText.Blank(title) ==> r == JsText.Trim(title)
    ensures JsText.Blank(title) ==> r == domain + " 분야 아이디어"
  {
    if JsText.Blank(title) then domain + " 분야 아이디어" else JsText.Trim(title)
  }

  /** The stored title is never blank, whatever was typed. */
  lemma DefaultTitleNotBlank(title: string, domain: string)
    ensures DefaultTitle(title, domain) != []
    ensures !JsText.Blank(DefaultTitle(title, domain))
  {
    var r := DefaultTitle(title, domain);
    JsText.BlankIffAllWhitespace(r);
    if JsText.Blank(title) {
      assert r[|domain| + 1] == '분';
    } else {
      JsText.TrimIdempotent(title);
    }
  }

  /** `!domain || !problem.trim() || !aiSolution.trim()`: the required fields are missing. */
  predicate MissingRequired(domain: string, problem: string, aiSolution: string) {
    domain == "" || JsText.Blank(problem) || JsText.Blank(aiSolution)
  }

  /** The idea `handleSubmit` sends: the default title, the trimmed texts and the tags. */
  function Submission(title: string, domain: string, problem: string, aiSolution: string, tags: seq<string>): (r: Api.NewIdea)
    ensures r.domain == domain && r.tags == Some(tags)
    ensures !MissingRequired(domain, problem, aiSolution) ==> r.problem != [] && r.aiSolution != []
  {
    Api.NewIdea(DefaultTitle(title, domain), domain, JsText.Trim(problem), JsText.Trim(aiSolution), Some(tags))
  }

  /** A submitted idea is stored with non-blank title, problem and solution, its tags, at the first stage. */
  lemma StoredIdeaComplete(id: RowId, title: string, domain: string, problem: string, aiSolution: string,
                           tags: seq<string>, owner: UserId, now: Timestamp)
    requires !MissingRequired(domain, problem, aiSolution)
    ensures var row := Api.IdeaRow(id, Submission(title, domain, problem, aiSolution, tags), owner, now);
            && !JsText.Blank(row.title) && row.problem != [] && row.aiSolution != []
            && row.tags == tags && row.stage == InitialStage && row.isVisible
  {
    DefaultTitleNotBlank(title, domain);
  }

  datatype Toast = RequiredMissing | Submitted | SubmitFailed

  class Page {
    const user: Option<UserId>
    var domain: string
    var problem: string
    var aiSolution: string
    var title: string
    var tags: seq<string>
    var newTag: string
    var loading: bool

    /** The tag list stays within its cap, duplicate-free and trimmed. */
    predicate Valid()
      reads this
    {
      ListEdits.WellFormed(tags, MaxTags)
    }

    constructor (user: Option<UserId>)
      ensures Valid() && this.user == user
      ensures domain == Domains[0] && problem == "" && aiSolution == "" && title == ""
      ensures tags == [] && newTag == "" && !loading
    {
      this.user := user;
      domain := Domains[0];
      problem := "";
      aiSolution := "";
      title := "";
      tags := [];
      newTag := "";
      loading := false;
    }

    /** `handleAddTag`: the text field's tag is appended trimmed and the field cleared, when accepted. */
    method AddTag()
      requires Valid()
      modifies this`tags, this`newTag
      ensures Valid()
      ensures tags == ListEdits.AddUnique(old(tags), old(newTag), MaxTags)
      ensures newTag == if ListEdits.Accepts(old(tags), old(newTag), MaxTags) then "" else old(newTag)
    {
      ListEdits.AddKeepsWellFormed(tags, newTag, MaxTags);
      if ListEdits.Accepts(tags, newTag, MaxTags) {
        tags := tags + [JsText.Trim(newTag)];
        newTag := "";
      }
    }

    /** `handleRemoveTag(tag)`. */
    method RemoveTag(tag: string)
      requires Valid()
      modifies this`tags
      ensures Valid()
      ensures tags == ListEdits.RemoveAll(old(tags), tag)
    {
      ListEdits.RemoveKeepsWellFormed(tags, tag, MaxTags);
      tags := ListEdits.RemoveAll(tags, tag);
    }

    /**
     * `handleSubmit`: the required fields, then `addIdea`; success leads to the idea list.
     * Loading is over once the call returns.
     */
    method Submit(db: Db, insertError: Option<string>, now: Timestamp) returns (toast: Toast, toIdeas: bool)
      requires db.Valid()
      modifies db, this`loading
      ensures db.Valid()
      ensures db.investments == old(db.investments) && db.transactions == old(db.transactions)
      ensures db.teams == old(db.teams) && db.teamMembers == old(db.teamMembers)
      ensures MissingRequired(domain, problem, aiSolution) ==>
                toast == RequiredMissing && !toIdeas && unchanged(db) && loading == old(loading)
      ensures !MissingRequired(domain, problem, aiSolution) ==>
                && !loading
                && (toIdeas <==> toast == Submitted)
                && (toast == Submitted <==> user.Some? && insertError.None?)
                && (toast == Submitted ==>
                      db.ideas == old(db.ideas) + [Api.IdeaRow(old(db.nextId),
                                                     Submission(title, domain, problem, aiSolution, tags), user.value, now)])
                && (toast != Submitted ==> toast == SubmitFailed && db.ideas == old(db.ideas))
    {
      if MissingRequired(domain, problem, aiSolution) {
        return RequiredMissing, false;
      }
      loading := true;
      var r := Api.AddIdea(db, user, Submission(title, domain, problem, aiSolution, tags), insertError, now);
      if r.Ok? {
        toast, toIdeas := Submitted, true;
      } else {
        toast, toIdeas := SubmitFailed, false;
      }
      loading := false;
    }
  }
}
