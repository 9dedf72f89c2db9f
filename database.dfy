/**
 * The hosted relational store as the application sees it: the tables it touches, held in memory
 * as sequences, with the store's id generation, the uniqueness the investment upsert relies on,
 * and the `ilike` search filter that `listIdeas` sends.
 */
module Database {
  import opened Wrappers
  import opened Types
  import JsText

  /** At most one `idea_investments` row per (idea, investor) pair. */
  predicate PairsUnique(rows: seq<IdeaInvestment>) {
    forall i, j :: 0 <= i < j < |rows| ==>
      !(rows[i].ideaId == rows[j].ideaId && rows[i].userId == rows[j].userId)
  }

  predicate InvestmentIdsDistinct(rows: seq<IdeaInvestment>) {
    forall i, j :: 0 <= i < j < |rows| ==> rows[i].id != rows[j].id
  }

  predicate IdeaIdsDistinct(rows: seq<Idea>) {
    forall i, j :: 0 <= i < j < |rows| ==> rows[i].id != rows[j].id
  }

  class Db {
    var ideas: seq<Idea>
    var investments: seq<IdeaInvestment>
    var transactions: seq<TokenTransaction>
    var teams: seq<Team>
    var teamMembers: seq<TeamMember>
    /** The next id the store hands out; every stored id is below it. */
    var nextId: RowId

    ghost predicate Valid()
      reads this
    {
      && PairsUnique(investments)
      && InvestmentIdsDistinct(investments)
      && IdeaIdsDistinct(ideas)
      && (forall i :: 0 <= i < |investments| ==> investments[i].id < nextId)
      && (forall i :: 0 <= i < |ideas| ==> ideas[i].id < nextId)
      && (forall i :: 0 <= i < |transactions| ==> transactions[i].id < nextId)
      && (forall i :: 0 <= i < |teams| ==> teams[i].id < nextId)
      && (forall i :: 0 <= i < |teamMembers| ==> teamMembers[i].id < nextId)
    }

    constructor ()
      ensures Valid()
      ensures ideas == [] && investments == [] && transactions == []
      ensures teams == [] && teamMembers == [] && nextId == 0
    {
      ideas, investments, transactions := [], [], [];
      teams, teamMembers := [], [];
      nextId := 0;
    }

    /** The store assigns a new row an id no stored row has. */
    method FreshId() returns (id: RowId)
      requires Valid()
      modifies this`nextId
      ensures Valid()
      ensures id == old(nextId) && nextId == id + 1
    {
      id := nextId;
      nextId := nextId + 1;
    }
  }

  /** `addTokenTransaction`: appends one row to `token_transactions` and nothing else. */
  method AppendTransaction(db: Db, userId: UserId, amount: int, kind: string,
                           description: Option<string>, referenceId: Option<RowId>, now: Timestamp)
      returns (row: TokenTransaction)
    requires db.Valid()
    modifies db
    ensures db.Valid()
    ensures row == TokenTransaction(old(db.nextId), userId, amount, kind, description, referenceId, now)
    ensures db.transactions == old(db.transactions) + [row]
    ensures db.nextId == old(db.nextId) + 1
    ensures db.ideas == old(db.ideas) && db.investments == old(db.investments)
    ensures db.teams == old(db.teams) && db.teamMembers == old(db.teamMembers)
  {
    var id := db.FreshId();
    row := TokenTransaction(id, userId, amount, kind, description, referenceId, now);
    db.transactions := db.transactions + [row];
  }

  /**
   * The `or(title.ilike.%q%, domain.ilike.%q%, problem.ilike.%q%, ai_solution.ilike.%q%)` filter,
   * read as plain substring containment.
   */
  predicate MatchesQuery(idea: Idea, q: string) {
    || JsText.Includes(idea.title, q) || JsText.Includes(idea.domain, q)
    || JsText.Includes(idea.problem, q) || JsText.Includes(idea.aiSolution, q)
  }

  /** The ideas that match the query, in table order. */
  function Search(ideas: seq<Idea>, q: string): (r: seq<Idea>)
    ensures |r| <= |ideas|
  {
    if ideas == [] then []
    else (if MatchesQuery(ideas[0], q) then [ideas[0]] else []) + Search(ideas[1..], q)
  }

  /** The search keeps exactly the stored ideas that match the query. */
  lemma {:induction false} SearchMembers(ideas: seq<Idea>, q: string)
    ensures forall x :: x in Search(ideas, q) <==> x in ideas && MatchesQuery(x, q)
  {
    if ideas != [] {
      SearchMembers(ideas[1..], q);
      assert ideas == [ideas[0]] + ideas[1..];
    }
  }

  /** The search is applied only for a truthy query: a missing or empty query keeps every idea. */
  function SearchIfGiven(ideas: seq<Idea>, query: Option<string>): (r: seq<Idea>)
    ensures query == None || query == Some("") ==> r == ideas
    ensures |r| <= |ideas|
  {
    match query
    case None => ideas
    case Some(q) => if q == "" then ideas else Search(ideas, q)
  }

  /** Every idea the optional search keeps is stored; with a non-empty query, exactly the matching ones. */
  lemma SearchIfGivenMembers(ideas: seq<Idea>, query: Option<string>)
    ensures forall x :: x in SearchIfGiven(ideas, query) ==> x in ideas
    ensures query.Some? && query.value != "" ==>
              forall x :: x in SearchIfGiven(ideas, query) <==> x in ideas && MatchesQuery(x, query.value)
  {
    if query.Some? && query.value != "" {
      SearchMembers(ideas, query.value);
    }
  }

  /** The ideas whose id is `id`. */
  function IdeasWithId(ideas: seq<Idea>, id: RowId): (r: seq<Idea>)
    ensures forall x :: x in r <==> x in ideas && x.id == id
  {
    if ideas == [] then []
    else (if ideas[0].id == id then [ideas[0]] else []) + IdeasWithId(ideas[1..], id)
  }

  lemma {:induction false} NoIdeaWithId(ideas: seq<Idea>, id: RowId)
    requires forall i :: 0 <= i < |ideas| ==> ideas[i].id != id
    ensures IdeasWithId(ideas, id) == []
  {
    if ideas != [] {
      NoIdeaWithId(ideas[1..], id);
    }
  }

  lemma {:induction false} IdeasWithIdOfDistinct(ideas: seq<Idea>, id: RowId)
    requires IdeaIdsDistinct(ideas)
    ensures |IdeasWithId(ideas, id)| <= 1
  {
    if ideas != [] {
      IdeasWithIdOfDistinct(ideas[1..], id);
      if ideas[0].id == id {
        assert forall i :: 0 <= i < |ideas[1..]| ==> ideas[1..][i].id != id by {
          forall i | 0 <= i < |ideas[1..]| ensures ideas[1..][i].id != id {
            assert ideas[1..][i] == ideas[i + 1];
          }
        }
        NoIdeaWithId(ideas[1..], id);
      }
    }
  }

  /** With distinct ids, exactly one idea has the id precisely when some idea has it. */
  lemma IdeasWithIdFound(ideas: seq<Idea>, id: RowId)
    ensures IdeaIdsDistinct(ideas) ==>
              (|IdeasWithId(ideas, id)| == 1 <==> exists i :: 0 <= i < |ideas| && ideas[i].id == id)
  {
    if IdeaIdsDistinct(ideas) {
      IdeasWithIdOfDistinct(ideas, id);
      if exists i :: 0 <= i < |ideas| && ideas[i].id == id {
        var i :| 0 <= i < |ideas| && ideas[i].id == id;
        assert ideas[i] in IdeasWithId(ideas, id);
      }
      if |IdeasWithId(ideas, id)| == 1 {
        var x := IdeasWithId(ideas, id)[0];
        assert x in IdeasWithId(ideas, id);
      }
    }
  }

  /** `order('created_at', { ascending: false })` over ideas. */
  function IdeaCreatedAt(idea: Idea): int { idea.createdAt }

  /** `order('created_at', { ascending: false })` over teams. */
  function TeamCreatedAt(team: Team): int { team.createdAt }
}
