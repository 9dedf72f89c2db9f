/**
 * The idea service: investing tokens in an idea (balance guard, one row per investor and idea,
 * a debit in the token log), the per-idea investment aggregates that listing and lookup attach,
 * and the investment queries of an idea and of the signed-in user.
 */
module IdeaService {
  import opened Wrappers
  import opened Types
  import opened Database
  import Sorting

  // ---------------------------------------------------------------------------------------------
  // Aggregates

  /** `investments.reduce((sum, inv) => sum + inv.amount, 0)`, folded from the left as `reduce` does. */
  function Total(rows: seq<IdeaInvestment>): int {
    if rows == [] then 0 else Total(rows[..|rows| - 1]) + rows[|rows| - 1].amount
  }

  /** The total of two runs of rows is the sum of their totals. */
  lemma {:induction false} TotalAppend(a: seq<IdeaInvestment>, b: seq<IdeaInvestment>)
    ensures Total(a + b) == Total(a) + Total(b)
  {
    if b != [] {
      assert (a + b)[..|a + b| - 1] == a + b[..|b| - 1];
      TotalAppend(a, b[..|b| - 1]);
    } else {
      assert a + b == a;
    }
  }

  lemma TotalCons(x: IdeaInvestment, t: seq<IdeaInvestment>)
    ensures Total([x] + t) == x.amount + Total(t)
  {
    TotalAppend([x], t);
    assert [x][..0] == [];
  }

  /** The `idea_investments` rows embedded under an idea: those whose `idea_id` is the idea's, in table order. */
  function InvestmentsOf(rows: seq<IdeaInvestment>, ideaId: RowId): (r: seq<IdeaInvestment>)
    ensures |r| <= |rows|
    ensures forall i :: 0 <= i < |r| ==> r[i].ideaId == ideaId
  {
    if rows == [] then []
    else (if rows[0].ideaId == ideaId then [rows[0]] else []) + InvestmentsOf(rows[1..], ideaId)
  }

  /** The embedded rows are exactly the table's rows for the idea. */
  lemma {:induction false} InvestmentsOfMembers(rows: seq<IdeaInvestment>, ideaId: RowId)
    ensures forall x :: x in InvestmentsOf(rows, ideaId) <==> x in rows && x.ideaId == ideaId
  {
    if rows != [] {
      InvestmentsOfMembers(rows[1..], ideaId);
      assert rows == [rows[0]] + rows[1..];
    }
  }

  lemma {:induction false} InvestmentsOfAppend(rows: seq<IdeaInvestment>, x: IdeaInvestment, ideaId: RowId)
    ensures InvestmentsOf(rows + [x], ideaId)
         == InvestmentsOf(rows, ideaId) + (if x.ideaId == ideaId then [x] else [])
  {
    if rows == [] {
      assert [x][1..] == [];
    } else {
      assert (rows + [x])[1..] == rows[1..] + [x];
      InvestmentsOfAppend(rows[1..], x, ideaId);
    }
  }

  /** An idea together with `total_investment`, `investor_count` and the rows they are computed from. */
  function WithAggregates(idea: Idea, rows: seq<IdeaInvestment>): Idea {
    idea.(totalInvestment := Some(Total(rows)), investorCount := Some(|rows|), investments := Some(rows))
  }

  /** An idea nobody has invested in shows a total of 0 from 0 investors. */
  lemma AggregatesOfNoInvestments(idea: Idea, rows: seq<IdeaInvestment>)
    requires forall i :: 0 <= i < |rows| ==> rows[i].ideaId != idea.id
    ensures WithAggregates(idea, InvestmentsOf(rows, idea.id)).totalInvestment == Some(0)
    ensures WithAggregates(idea, InvestmentsOf(rows, idea.id)).investorCount == Some(0)
  {
    var mine := InvestmentsOf(rows, idea.id);
    if mine != [] {
      assert false;
    }
  }

  /** The ideas whose `is_visible` is true, in table order. */
  function Visible(ideas: seq<Idea>): (r: seq<Idea>)
    ensures |r| <= |ideas|
  {
    if ideas == [] then []
    else (if ideas[0].isVisible then [ideas[0]] else []) + Visible(ideas[1..])
  }

  /** The visibility filter keeps exactly the stored ideas whose `is_visible` is true. */
  lemma {:induction false} VisibleMembers(ideas: seq<Idea>)
    ensures forall x :: x in Visible(ideas) <==> x in ideas && x.isVisible
  {
    if ideas != [] {
      VisibleMembers(ideas[1..]);
      assert ideas == [ideas[0]] + ideas[1..];
    }
  }

  /** Whatever the query, the search over the visible ideas yields stored, visible ideas. */
  lemma FoundAreVisible(ideas: seq<Idea>, query: Option<string>)
    ensures forall x :: x in SearchIfGiven(Visible(ideas), query) ==> x in ideas && x.isVisible
  {
    VisibleMembers(ideas);
    SearchIfGivenMembers(Visible(ideas), query);
  }

  /** Each idea read together with its own investment rows. */
  function AttachAggregates(ideas: seq<Idea>, rows: seq<IdeaInvestment>): (r: seq<Idea>)
    ensures |r| == |ideas|
  {
    if ideas == [] then []
    else [WithAggregates(ideas[0], InvestmentsOf(rows, ideas[0].id))] + AttachAggregates(ideas[1..], rows)
  }

  lemma {:induction false} AttachAggregatesAt(ideas: seq<Idea>, rows: seq<IdeaInvestment>, i: nat)
    requires i < |ideas|
    ensures AttachAggregates(ideas, rows)[i] == WithAggregates(ideas[i], InvestmentsOf(rows, ideas[i].id))
  {
    if i > 0 {
      AttachAggregatesAt(ideas[1..], rows, i - 1);
    }
  }

  /** Attaching the aggregates maps each idea on its own. */
  lemma AttachAggregatesIsMap(ideas: seq<Idea>, rows: seq<IdeaInvestment>)
    ensures AttachAggregates(ideas, rows) == Sorting.Map(ideas, (x: Idea) => WithAggregates(x, InvestmentsOf(rows, x.id)))
  {
    forall i | 0 <= i < |ideas| {
      AttachAggregatesAt(ideas, rows, i);
    }
  }

  /**
   * `listIdeas(query)`: the visible ideas that match the query, newest first, each carrying the
   * total and the count of its investments (`ListIdeasFromTable`).
   */
  function ListIdeas(ideas: seq<Idea>, investments: seq<IdeaInvestment>, query: Option<string>): (r: seq<Idea>)
    ensures |r| == |SearchIfGiven(Visible(ideas), query)|
    ensures multiset(r) == multiset(AttachAggregates(SearchIfGiven(Visible(ideas), query), investments))
    ensures Sorting.SortedDesc(r, IdeaCreatedAt)
  {
    var found := SearchIfGiven(Visible(ideas), query);
    var base := Sorting.SortDesc(found, IdeaCreatedAt);
    var r := AttachAggregates(base, investments);
    forall i | 0 <= i < |r| ensures IdeaCreatedAt(r[i]) == IdeaCreatedAt(base[i]) {
      AttachAggregatesAt(base, investments, i);
    }
    AttachAggregatesIsMap(base, investments);
    AttachAggregatesIsMap(found, investments);
    Sorting.MapPermutation(base, found, (x: Idea) => WithAggregates(x, InvestmentsOf(investments, x.id)));
    r
  }

  /**
   * Each listed idea is a stored, visible idea that the query selects, read together with its
   * own investments.
   */
  lemma ListIdeasFromTable(ideas: seq<Idea>, investments: seq<IdeaInvestment>, query: Option<string>, i: nat)
    requires i < |ListIdeas(ideas, investments, query)|
    ensures exists e :: e in SearchIfGiven(Visible(ideas), query) && e in ideas && e.isVisible
                        && ListIdeas(ideas, investments, query)[i] == WithAggregates(e, InvestmentsOf(investments, e.id))
  {
    var found := SearchIfGiven(Visible(ideas), query);
    var base := Sorting.SortDesc(found, IdeaCreatedAt);
    FoundAreVisible(ideas, query);
    assert base[i] in multiset(found);
    AttachAggregatesAt(base, investments, i);
  }

  /**
   * `getIdeaById(id)`: a failed read (`readError`) is thrown as the store's error. Otherwise
   * `.single()` yields the idea when exactly one row has the id, with its aggregates; any other
   * count is the store's "no single row" error. Visibility is not checked.
   */
  function GetIdeaById(db: Db, id: RowId, readError: Option<string>): (r: Result<Idea, Error>)
    reads db
    ensures readError.Some? ==> r == Err(StorageFailure(readError.value))
    ensures r.Ok? ==> exists i :: 0 <= i < |db.ideas| && db.ideas[i].id == id
                                  && r.value == WithAggregates(db.ideas[i], InvestmentsOf(db.investments, id))
    ensures r.Ok? ==> r.value.id == id
    ensures r.Ok? ==> r.value.totalInvestment == Some(Total(InvestmentsOf(db.investments, id)))
    ensures r.Ok? ==> r.value.investorCount == Some(|InvestmentsOf(db.investments, id)|)
    ensures readError.None? && r.Err? ==> r.error == NoSingleRow
    ensures readError.None? && IdeaIdsDistinct(db.ideas) ==>
              (r.Ok? <==> exists i :: 0 <= i < |db.ideas| && db.ideas[i].id == id)
  {
    if readError.Some? then Err(StorageFailure(readError.value))
    else
      var ms := IdeasWithId(db.ideas, id);
      IdeasWithIdFound(db.ideas, id);
      if |ms| == 1 then
        assert ms[0] in ms && ms[0] in db.ideas;
        Ok(WithAggregates(ms[0], InvestmentsOf(db.investments, id)))
      else Err(NoSingleRow)
  }

  // ---------------------------------------------------------------------------------------------
  // Investing

  /** The rows of one investor in one idea: what the lookup before the upsert selects. */
  function Matches(rows: seq<IdeaInvestment>, ideaId: RowId, userId: UserId): (r: seq<IdeaInvestment>)
    ensures |r| <= |rows|
    ensures forall i :: 0 <= i < |r| ==> r[i].ideaId == ideaId && r[i].userId == userId
  {
    if rows == [] then []
    else (if rows[0].ideaId == ideaId && rows[0].userId == userId then [rows[0]] else [])
         + Matches(rows[1..], ideaId, userId)
  }

  /** The lookup finds exactly the investor's rows in the idea. */
  lemma {:induction false} MatchesMembers(rows: seq<IdeaInvestment>, ideaId: RowId, userId: UserId)
    ensures forall x :: x in Matches(rows, ideaId, userId) <==> x in rows && x.ideaId == ideaId && x.userId == userId
  {
    if rows != [] {
      MatchesMembers(rows[1..], ideaId, userId);
      assert rows == [rows[0]] + rows[1..];
    }
  }

  lemma {:induction false} NoMatches(rows: seq<IdeaInvestment>, ideaId: RowId, userId: UserId)
    requires forall i :: 0 <= i < |rows| ==> !(rows[i].ideaId == ideaId && rows[i].userId == userId)
    ensures Matches(rows, ideaId, userId) == []
  {
    if rows != [] {
      NoMatches(rows[1..], ideaId, userId);
    }
  }

  /** With the pair unique, the lookup finds at most one row. */
  lemma {:induction false} MatchesOfUnique(rows: seq<IdeaInvestment>, ideaId: RowId, userId: UserId)
    requires PairsUnique(rows)
    ensures |Matches(rows, ideaId, userId)| <= 1
  {
    if rows != [] {
      MatchesOfUnique(rows[1..], ideaId, userId);
      if rows[0].ideaId == ideaId && rows[0].userId == userId {
        assert forall i :: 0 <= i < |rows[1..]| ==> !(rows[1..][i].ideaId == ideaId && rows[1..][i].userId == userId) by {
          forall i | 0 <= i < |rows[1..]| ensures !(rows[1..][i].ideaId == ideaId && rows[1..][i].userId == userId) {
            assert rows[1..][i] == rows[i + 1];
          }
        }
        NoMatches(rows[1..], ideaId, userId);
      }
    }
  }

  /** `.update({ amount }).eq('id', id)`: every row with that id takes the new amount. */
  function SetAmountWhereId(rows: seq<IdeaInvestment>, id: RowId, amount: int): seq<IdeaInvestment> {
    seq(|rows|, i requires 0 <= i < |rows| => if rows[i].id == id then rows[i].(amount := amount) else rows[i])
  }

  /** One row after an investment of `amount` by `userId` in `ideaId`. */
  function BumpRow(x: IdeaInvestment, ideaId: RowId, userId: UserId, amount: int): IdeaInvestment {
    if x.ideaId == ideaId && x.userId == userId then x.(amount := x.amount + amount) else x
  }

  /** The (idea, investor) rows grow by `amount`; every other row is left as it is. */
  function Bump(rows: seq<IdeaInvestment>, ideaId: RowId, userId: UserId, amount: int): seq<IdeaInvestment> {
    if rows == [] then [] else [BumpRow(rows[0], ideaId, userId, amount)] + Bump(rows[1..], ideaId, userId, amount)
  }

  lemma {:induction false} BumpAt(rows: seq<IdeaInvestment>, ideaId: RowId, userId: UserId, amount: int)
    ensures |Bump(rows, ideaId, userId, amount)| == |rows|
    ensures forall i :: 0 <= i < |rows| ==> Bump(rows, ideaId, userId, amount)[i] == BumpRow(rows[i], ideaId, userId, amount)
  {
    if rows != [] {
      BumpAt(rows[1..], ideaId, userId, amount);
    }
  }

  /**
   * The state of `idea_investments` after a successful upsert: when the lookup's `.single()` finds
   * exactly one row, that row's id is updated to the old amount plus the new one; otherwise one row
   * `(ideaId, userId, amount)` is inserted.
   */
  function Upsert(rows: seq<IdeaInvestment>, ideaId: RowId, userId: UserId, amount: int,
                  freshId: RowId, now: Timestamp): seq<IdeaInvestment>
  {
    var existing := Matches(rows, ideaId, userId);
    if |existing| == 1 then SetAmountWhereId(rows, existing[0].id, existing[0].amount + amount)
    else rows + [IdeaInvestment(freshId, ideaId, userId, amount, now)]
  }

  /** A repeat investment adds to the investor's row and creates none. */
  lemma UpsertExisting(rows: seq<IdeaInvestment>, ideaId: RowId, userId: UserId, amount: int,
                       freshId: RowId, now: Timestamp)
    requires PairsUnique(rows) && InvestmentIdsDistinct(rows)
    requires Matches(rows, ideaId, userId) != []
    ensures Upsert(rows, ideaId, userId, amount, freshId, now) == Bump(rows, ideaId, userId, amount)
  {
    MatchesOfUnique(rows, ideaId, userId);
    MatchesMembers(rows, ideaId, userId);
    var m := Matches(rows, ideaId, userId)[0];
    assert m in Matches(rows, ideaId, userId);
    var k :| 0 <= k < |rows| && rows[k] == m;
    var r := Upsert(rows, ideaId, userId, amount, freshId, now);
    var b := Bump(rows, ideaId, userId, amount);
    BumpAt(rows, ideaId, userId, amount);
    forall i | 0 <= i < |rows| ensures r[i] == b[i] {
      if rows[i].ideaId == ideaId && rows[i].userId == userId {
        assert rows[i] in Matches(rows, ideaId, userId);
      } else {
        assert i != k;
        assert rows[i].id != rows[k].id;
      }
    }
  }

  /** A first investment appends exactly one row. */
  lemma UpsertNew(rows: seq<IdeaInvestment>, ideaId: RowId, userId: UserId, amount: int,
                  freshId: RowId, now: Timestamp)
    requires Matches(rows, ideaId, userId) == []
    ensures Upsert(rows, ideaId, userId, amount, freshId, now)
         == rows + [IdeaInvestment(freshId, ideaId, userId, amount, now)]
  {
  }

  lemma {:induction false} BumpOther(rows: seq<IdeaInvestment>, ideaId: RowId, userId: UserId, amount: int,
                                     other: RowId)
    requires other != ideaId
    ensures InvestmentsOf(Bump(rows, ideaId, userId, amount), other) == InvestmentsOf(rows, other)
  {
    if rows != [] {
      BumpOther(rows[1..], ideaId, userId, amount, other);
    }
  }

  lemma {:induction false} InvestmentsOfBump(rows: seq<IdeaInvestment>, ideaId: RowId, userId: UserId, amount: int)
    ensures InvestmentsOf(Bump(rows, ideaId, userId, amount), ideaId)
         == Bump(InvestmentsOf(rows, ideaId), ideaId, userId, amount)
  {
    if rows != [] {
      InvestmentsOfBump(rows[1..], ideaId, userId, amount);
      var x := rows[0];
      var t := InvestmentsOf(rows[1..], ideaId);
      var bt := Bump(rows[1..], ideaId, userId, amount);
      var bx := BumpRow(x, ideaId, userId, amount);
      assert Bump(rows, ideaId, userId, amount) == [bx] + bt;
      assert ([bx] + bt)[1..] == bt;
      if x.ideaId == ideaId {
        assert InvestmentsOf(rows, ideaId) == [x] + t;
        assert ([x] + t)[1..] == t;
        assert InvestmentsOf([bx] + bt, ideaId) == [bx] + InvestmentsOf(bt, ideaId);
        assert Bump([x] + t, ideaId, userId, amount) == [bx] + Bump(t, ideaId, userId, amount);
      } else {
        assert InvestmentsOf(rows, ideaId) == t;
        assert InvestmentsOf([bx] + bt, ideaId) == InvestmentsOf(bt, ideaId);
      }
    }
  }

  lemma {:induction false} MatchesOfInvestmentsOf(rows: seq<IdeaInvestment>, ideaId: RowId, userId: UserId)
    ensures Matches(InvestmentsOf(rows, ideaId), ideaId, userId) == Matches(rows, ideaId, userId)
  {
    if rows != [] {
      MatchesOfInvestmentsOf(rows[1..], ideaId, userId);
      var t := InvestmentsOf(rows[1..], ideaId);
      if rows[0].ideaId == ideaId {
        assert InvestmentsOf(rows, ideaId) == [rows[0]] + t;
        assert ([rows[0]] + t)[1..] == t;
        assert Matches([rows[0]] + t, ideaId, userId)
            == (if rows[0].userId == userId then [rows[0]] else []) + Matches(t, ideaId, userId);
      } else {
        assert InvestmentsOf(rows, ideaId) == t;
      }
    }
  }

  /** Over rows with at most one match, the bump adds `amount` to the total once or not at all. */
  lemma {:induction false} TotalBump(rows: seq<IdeaInvestment>, ideaId: RowId, userId: UserId, amount: int)
    requires |Matches(rows, ideaId, userId)| <= 1
    ensures Total(Bump(rows, ideaId, userId, amount))
         == Total(rows) + (if Matches(rows, ideaId, userId) == [] then 0 else amount)
  {
    if rows != [] {
      var x := rows[0];
      var t := rows[1..];
      var bx := BumpRow(x, ideaId, userId, amount);
      assert rows == [x] + t;
      assert Bump(rows, ideaId, userId, amount) == [bx] + Bump(t, ideaId, userId, amount);
      if x.ideaId == ideaId && x.userId == userId {
        assert Matches(rows, ideaId, userId) == [x] + Matches(t, ideaId, userId);
      } else {
        assert Matches(rows, ideaId, userId) == Matches(t, ideaId, userId);
      }
      TotalBump(t, ideaId, userId, amount);
      TotalCons(bx, Bump(t, ideaId, userId, amount));
      TotalCons(x, t);
    }
  }

  lemma BumpTotal(rows: seq<IdeaInvestment>, ideaId: RowId, userId: UserId, amount: int)
    requires |Matches(rows, ideaId, userId)| <= 1
    ensures Total(InvestmentsOf(Bump(rows, ideaId, userId, amount), ideaId))
         == Total(InvestmentsOf(rows, ideaId)) + (if Matches(rows, ideaId, userId) == [] then 0 else amount)
    ensures |InvestmentsOf(Bump(rows, ideaId, userId, amount), ideaId)| == |InvestmentsOf(rows, ideaId)|
  {
    InvestmentsOfBump(rows, ideaId, userId, amount);
    MatchesOfInvestmentsOf(rows, ideaId, userId);
    TotalBump(InvestmentsOf(rows, ideaId), ideaId, userId, amount);
    BumpAt(InvestmentsOf(rows, ideaId), ideaId, userId, amount);
  }

  /** The upsert raises the idea's total by exactly the amount and leaves every other idea's rows alone. */
  lemma UpsertTotals(rows: seq<IdeaInvestment>, ideaId: RowId, userId: UserId, amount: int,
                     freshId: RowId, now: Timestamp, other: RowId)
    requires PairsUnique(rows) && InvestmentIdsDistinct(rows)
    requires other != ideaId
    ensures Total(InvestmentsOf(Upsert(rows, ideaId, userId, amount, freshId, now), ideaId))
         == Total(InvestmentsOf(rows, ideaId)) + amount
    ensures InvestmentsOf(Upsert(rows, ideaId, userId, amount, freshId, now), other) == InvestmentsOf(rows, other)
  {
    var row := IdeaInvestment(freshId, ideaId, userId, amount, now);
    if Matches(rows, ideaId, userId) != [] {
      MatchesOfUnique(rows, ideaId, userId);
      UpsertExisting(rows, ideaId, userId, amount, freshId, now);
      BumpTotal(rows, ideaId, userId, amount);
      BumpOther(rows, ideaId, userId, amount, other);
    } else {
      InvestmentsOfAppend(rows, row, ideaId);
      InvestmentsOfAppend(rows, row, other);
      TotalAppend(InvestmentsOf(rows, ideaId), [row]);
      assert [row][..0] == [];
    }
  }

  /** The investor count of the idea grows by one exactly when the investor had no row in it. */
  lemma UpsertCount(rows: seq<IdeaInvestment>, ideaId: RowId, userId: UserId, amount: int,
                    freshId: RowId, now: Timestamp)
    requires PairsUnique(rows) && InvestmentIdsDistinct(rows)
    ensures |InvestmentsOf(Upsert(rows, ideaId, userId, amount, freshId, now), ideaId)|
         == |InvestmentsOf(rows, ideaId)| + (if Matches(rows, ideaId, userId) == [] then 1 else 0)
  {
    if Matches(rows, ideaId, userId) != [] {
      MatchesOfUnique(rows, ideaId, userId);
      UpsertExisting(rows, ideaId, userId, amount, freshId, now);
      BumpTotal(rows, ideaId, userId, amount);
    } else {
      InvestmentsOfAppend(rows, IdeaInvestment(freshId, ideaId, userId, amount, now), ideaId);
    }
  }

  /** The upsert keeps one row per (idea, investor) pair and distinct row ids. */
  /** Every id after an upsert is below the fresh id, or is the fresh id of the inserted row. */
  lemma UpsertIdsBelow(rows: seq<IdeaInvestment>, ideaId: RowId, userId: UserId, amount: int,
                       freshId: RowId, now: Timestamp)
    requires forall i :: 0 <= i < |rows| ==> rows[i].id < freshId
    ensures var r := Upsert(rows, ideaId, userId, amount, freshId, now);
            forall i :: 0 <= i < |r| ==> r[i].id < freshId + (if |Matches(rows, ideaId, userId)| == 1 then 0 else 1)
  {
    var existing := Matches(rows, ideaId, userId);
    if |existing| != 1 {
      var r := rows + [IdeaInvestment(freshId, ideaId, userId, amount, now)];
      assert forall i :: 0 <= i < |rows| ==> r[i] == rows[i];
    }
  }

  lemma UpsertKeepsInvariant(rows: seq<IdeaInvestment>, ideaId: RowId, userId: UserId, amount: int,
                             freshId: RowId, now: Timestamp)
    requires PairsUnique(rows) && InvestmentIdsDistinct(rows)
    requires forall i :: 0 <= i < |rows| ==> rows[i].id < freshId
    ensures PairsUnique(Upsert(rows, ideaId, userId, amount, freshId, now))
    ensures InvestmentIdsDistinct(Upsert(rows, ideaId, userId, amount, freshId, now))
    ensures forall x :: x in Upsert(rows, ideaId, userId, amount, freshId, now) ==> x.id <= freshId
  {
    var r := Upsert(rows, ideaId, userId, amount, freshId, now);
    MatchesMembers(rows, ideaId, userId);
    if Matches(rows, ideaId, userId) != [] {
      UpsertExisting(rows, ideaId, userId, amount, freshId, now);
      BumpAt(rows, ideaId, userId, amount);
      assert forall i :: 0 <= i < |r| ==> r[i].id == rows[i].id && r[i].ideaId == rows[i].ideaId
                                          && r[i].userId == rows[i].userId;
    } else {
      forall i, j | 0 <= i < j < |r|
        ensures !(r[i].ideaId == r[j].ideaId && r[i].userId == r[j].userId)
      {
        if j == |rows| {
          assert r[i] == rows[i];
          assert rows[i] !in Matches(rows, ideaId, userId);
        }
      }
    }
  }

  /** Investing twice in an idea leaves one row for the investor holding the sum of both amounts. */
  lemma RepeatInvestmentAccumulates(rows: seq<IdeaInvestment>, ideaId: RowId, userId: UserId,
                                    first: int, second: int, id1: RowId, id2: RowId, t1: Timestamp, t2: Timestamp)
    requires PairsUnique(rows) && InvestmentIdsDistinct(rows)
    requires forall i :: 0 <= i < |rows| ==> rows[i].id < id1
    requires Matches(rows, ideaId, userId) == []
    ensures Matches(Upsert(Upsert(rows, ideaId, userId, first, id1, t1), ideaId, userId, second, id2, t2), ideaId, userId)
         == [IdeaInvestment(id1, ideaId, userId, first + second, t1)]
  {
    var once := Upsert(rows, ideaId, userId, first, id1, t1);
    var row := IdeaInvestment(id1, ideaId, userId, first, t1);
    assert once == rows + [row];
    UpsertKeepsInvariant(rows, ideaId, userId, first, id1, t1);
    MatchesAppend(rows, row, ideaId, userId);
    assert Matches(once, ideaId, userId) == [row];
    UpsertExisting(once, ideaId, userId, second, id2, t2);
    BumpMatches(once, ideaId, userId, second);
  }

  lemma {:induction false} MatchesAppend(rows: seq<IdeaInvestment>, x: IdeaInvestment, ideaId: RowId, userId: UserId)
    ensures Matches(rows + [x], ideaId, userId)
         == Matches(rows, ideaId, userId) + (if x.ideaId == ideaId && x.userId == userId then [x] else [])
  {
    if rows == [] {
      assert [x][1..] == [];
    } else {
      assert (rows + [x])[1..] == rows[1..] + [x];
      MatchesAppend(rows[1..], x, ideaId, userId);
    }
  }

  lemma {:induction false} BumpMatches(rows: seq<IdeaInvestment>, ideaId: RowId, userId: UserId, amount: int)
    ensures Matches(Bump(rows, ideaId, userId, amount), ideaId, userId)
         == Bump(Matches(rows, ideaId, userId), ideaId, userId, amount)
  {
    if rows != [] {
      BumpMatches(rows[1..], ideaId, userId, amount);
      var x := rows[0];
      var t := Matches(rows[1..], ideaId, userId);
      var bt := Bump(rows[1..], ideaId, userId, amount);
      var bx := BumpRow(x, ideaId, userId, amount);
      assert Bump(rows, ideaId, userId, amount) == [bx] + bt;
      assert ([bx] + bt)[1..] == bt;
      if x.ideaId == ideaId && x.userId == userId {
        assert Matches(rows, ideaId, userId) == [x] + t;
        assert ([x] + t)[1..] == t;
        assert Matches([bx] + bt, ideaId, userId) == [bx] + Matches(bt, ideaId, userId);
        assert Bump([x] + t, ideaId, userId, amount) == [bx] + Bump(t, ideaId, userId, amount);
      } else {
        assert Matches(rows, ideaId, userId) == t;
        assert Matches([bx] + bt, ideaId, userId) == Matches(bt, ideaId, userId);
      }
    }
  }

  /** The update half of the investment-row step: the investor's row grows by `amount`. */
  method UpdateInvestmentRow(db: Db, userId: UserId, ideaId: RowId, amount: int, now: Timestamp)
    requires db.Valid() && |Matches(db.investments, ideaId, userId)| == 1
    modifies db`investments
    ensures db.Valid()
    ensures db.investments == Upsert(old(db.investments), ideaId, userId, amount, db.nextId, now)
  {
    var rows := Matches(db.investments, ideaId, userId);
    UpsertKeepsInvariant(db.investments, ideaId, userId, amount, db.nextId, now);
    UpsertIdsBelow(db.investments, ideaId, userId, amount, db.nextId, now);
    db.investments := SetAmountWhereId(db.investments, rows[0].id, rows[0].amount + amount);
  }

  /** The insert half of the investment-row step: a new row under a fresh id. */
  method InsertInvestmentRow(db: Db, userId: UserId, ideaId: RowId, amount: int, now: Timestamp)
    requires db.Valid() && |Matches(db.investments, ideaId, userId)| != 1
    modifies db`investments, db`nextId
    ensures db.Valid()
    ensures db.investments == Upsert(old(db.investments), ideaId, userId, amount, old(db.nextId), now)
    ensures db.nextId == old(db.nextId) + 1
  {
    UpsertKeepsInvariant(db.investments, ideaId, userId, amount, db.nextId, now);
    UpsertIdsBelow(db.investments, ideaId, userId, amount, db.nextId, now);
    var id := db.FreshId();
    db.investments := db.investments + [IdeaInvestment(id, ideaId, userId, amount, now)];
  }

  /**
   * The investment-row step of `investInIdea`: an update of the investor's row when there is one
   * (failing with `updateError`), an insert of a new row otherwise (failing with `insertError`).
   * The error returned is the one of the write that was attempted.
   */
  method WriteInvestment(db: Db, userId: UserId, ideaId: RowId, amount: int,
                         updateError: Option<string>, insertError: Option<string>, now: Timestamp)
      returns (writeError: Option<string>, existing: bool)
    requires db.Valid()
    modifies db`investments, db`nextId
    ensures db.Valid()
    ensures existing <==> |Matches(old(db.investments), ideaId, userId)| == 1
    ensures writeError == if existing then updateError else insertError
    ensures writeError.Some? ==> db.investments == old(db.investments)
    ensures writeError.None? ==> db.investments == Upsert(old(db.investments), ideaId, userId, amount, old(db.nextId), now)
    ensures db.nextId == old(db.nextId) + (if writeError.None? && !existing then 1 else 0)
  {
    existing := |Matches(db.investments, ideaId, userId)| == 1;
    writeError := if existing then updateError else insertError;
    if writeError.None? {
      if existing {
        UpdateInvestmentRow(db, userId, ideaId, amount, now);
      } else {
        InsertInvestmentRow(db, userId, ideaId, amount, now);
      }
    }
  }

  /** The description the investment debit carries ("idea investment"). */
  const InvestmentDescription: string := "아이디어 투자"

  /**
   * `investInIdea(ideaId, amount)`. The steps, each of which can end the call:
   * no signed-in user; the balance read from the token service (`balance`) below `amount`;
   * the update or insert of the investment row failing (`updateError`, `insertError`); the debit
   * append failing (`ledgerError`), which leaves the investment row already written.
   */
  method InvestInIdea(db: Db, user: Option<UserId>, ideaId: RowId, amount: int, balance: int,
                      updateError: Option<string>, insertError: Option<string>,
                      ledgerError: Option<string>, now: Timestamp)
      returns (r: Result<(), Error>)
    requires db.Valid()
    modifies db
    ensures db.Valid()
    ensures db.ideas == old(db.ideas) && db.teams == old(db.teams) && db.teamMembers == old(db.teamMembers)
    ensures user.None? ==> r == Err(LoginRequired)
    ensures user.Some? && balance < amount ==> r == Err(InsufficientBalance)
    ensures user.None? || balance < amount ==>
              db.investments == old(db.investments) && db.transactions == old(db.transactions)
    ensures user.Some? && balance >= amount ==>
      var existing := |Matches(old(db.investments), ideaId, user.value)| == 1;
      var writeError := if existing then updateError else insertError;
      if writeError.Some? then
        && r == Err(StorageFailure(writeError.value))
        && db.investments == old(db.investments) && db.transactions == old(db.transactions)
      else
        && db.investments == Upsert(old(db.investments), ideaId, user.value, amount, old(db.nextId), now)
        && if ledgerError.Some? then
             r == Err(StorageFailure(ledgerError.value)) && db.transactions == old(db.transactions)
           else
             && r == Ok(())
             && db.transactions == old(db.transactions) + [TokenTransaction(
                  old(db.nextId) + (if existing then 0 else 1), user.value, -amount, "investment", Some(InvestmentDescription), Some(ideaId), now)]
  {
    if user.None? {
      return Err(LoginRequired);
    }
    if balance < amount {
      return Err(InsufficientBalance);
    }
    var writeError, _ := WriteInvestment(db, user.value, ideaId, amount, updateError, insertError, now);
    if writeError.Some? {
      return Err(StorageFailure(writeError.value));
    }
    if ledgerError.Some? {
      return Err(StorageFailure(ledgerError.value));
    }
    var _ := AppendTransaction(db, user.value, -amount, "investment", Some(InvestmentDescription), Some(ideaId), now);
    r := Ok(());
  }

  // ---------------------------------------------------------------------------------------------
  // Investment queries

  function Amount(row: IdeaInvestment): int { row.amount }

  function CreatedAt(row: IdeaInvestment): int { row.createdAt }

  /**
   * `getIdeaInvestments(ideaId)`: a failed read is thrown; otherwise the idea's rows, largest
   * amount first (rows with equal amounts keep table order here; the store leaves that order
   * unspecified).
   */
  function GetIdeaInvestments(db: Db, ideaId: RowId, readError: Option<string>): (r: Result<seq<IdeaInvestment>, Error>)
    reads db
    ensures r.Err? <==> readError.Some?
    ensures r.Err? ==> r.error == StorageFailure(readError.value)
    ensures r.Ok? ==> multiset(r.value) == multiset(InvestmentsOf(db.investments, ideaId))
    ensures r.Ok? ==> forall i :: 0 <= i < |r.value| ==> r.value[i].ideaId == ideaId
    ensures r.Ok? ==> Sorting.SortedDesc(r.value, Amount)
  {
    if readError.Some? then Err(StorageFailure(readError.value))
    else
      var rows := InvestmentsOf(db.investments, ideaId);
      var sorted := Sorting.SortDesc(rows, Amount);
      assert forall i :: 0 <= i < |sorted| ==> sorted[i] in multiset(rows);
      Ok(sorted)
  }

  /** The rows of one investor, in table order. */
  function InvestmentsBy(rows: seq<IdeaInvestment>, userId: UserId): (r: seq<IdeaInvestment>)
    ensures |r| <= |rows|
    ensures forall x :: x in r <==> x in rows && x.userId == userId
  {
    if rows == [] then []
    else (if rows[0].userId == userId then [rows[0]] else []) + InvestmentsBy(rows[1..], userId)
  }

  /**
   * `getUserInvestments()`: no user is an error, and so is a failed read; otherwise the signed-in
   * user's rows, newest first.
   */
  function GetUserInvestments(db: Db, user: Option<UserId>, readError: Option<string>): (r: Result<seq<IdeaInvestment>, Error>)
    reads db
    ensures user.None? <==> r == Err(LoginRequired)
    ensures user.Some? && readError.Some? ==> r == Err(StorageFailure(readError.value))
    ensures r.Ok? <==> user.Some? && readError.None?
    ensures r.Ok? ==> multiset(r.value) == multiset(InvestmentsBy(db.investments, user.value))
    ensures r.Ok? ==> forall i :: 0 <= i < |r.value| ==> r.value[i].userId == user.value
    ensures r.Ok? ==> Sorting.SortedDesc(r.value, CreatedAt)
  {
    match user
    case None => Err(LoginRequired)
    case Some(uid) =>
      if readError.Some? then Err(StorageFailure(readError.value))
      else
        var rows := InvestmentsBy(db.investments, uid);
        var sorted := Sorting.SortDesc(rows, CreatedAt);
        assert forall i :: 0 <= i < |sorted| ==> sorted[i] in multiset(rows);
        Ok(sorted)
  }
}
