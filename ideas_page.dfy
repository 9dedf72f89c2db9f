/**
 * The idea investment dashboard: the listing with its two orders, the summary statistics, the top
 * three, the paged display, the tag badges of a card and the invest button.
 */
module IdeasPage {
  import opened Wrappers
  import opened Types
  import opened Database
  import Sorting
  import IdeaService
  import Api

  /** How many ideas a page adds. */
  const PageSize: nat := 12

  /** How many tags a card shows before the `+k` badge. */
  const TagPreviewSize: nat := 3

  /** How many ideas the top list holds. */
  const TopCount: nat := 3

  /** `idea.total_investment || 0`. */
  function Investment(idea: Idea): int {
    idea.totalInvestment.GetOr(0)
  }

  datatype SortMode = Latest | Top

  /** `sort === 'top'`: a stable sort by descending total; `'latest'`: the listing's own order. */
  function Arrange(data: seq<Idea>, sort: SortMode): (r: seq<Idea>)
    ensures multiset(r) == multiset(data) && |r| == |data|
    ensures sort == Latest ==> r == data
    ensures sort == Top ==> Sorting.SortedDesc(r, Investment)
  {
    if sort == Top then Sorting.SortDesc(data, Investment) else data
  }

  /** Ideas with the same total keep the listing's order (newest first) under the top order too. */
  lemma TopKeepsTies(data: seq<Idea>, total: int)
    ensures Sorting.WithKey(Arrange(data, Top), Investment, total) == Sorting.WithKey(data, Investment, total)
  {
    Sorting.SortStable(data, Investment, total);
  }

  // ---------------------------------------------------------------------------------------------
  // Statistics

  /** `ideas.reduce((sum, idea) => sum + (idea.total_investment || 0), 0)`. */
  function TotalInvestment(ideas: seq<Idea>): int {
    if ideas == [] then 0 else Investment(ideas[0]) + TotalInvestment(ideas[1..])
  }

  lemma {:induction false} TotalInvestmentAppend(a: seq<Idea>, b: seq<Idea>)
    ensures TotalInvestment(a + b) == TotalInvestment(a) + TotalInvestment(b)
  {
    if a == [] {
      assert a + b == b;
    } else {
      assert (a + b)[1..] == a[1..] + b;
      TotalInvestmentAppend(a[1..], b);
    }
  }

  /** Taking out the idea at `k` takes its investment out of the total. */
  lemma TotalInvestmentRemove(b: seq<Idea>, k: nat)
    requires k < |b|
    ensures TotalInvestment(b) == Investment(b[k]) + TotalInvestment(b[..k] + b[k + 1..])
  {
    var front, back := b[..k], b[k + 1..];
    Sorting.SplitAt(b, k);
    TotalInvestmentAppend(front, [b[k]] + back);
    TotalInvestmentAppend(front, back);
  }

  /** The total depends only on which ideas are listed, not on their order. */
  lemma {:induction false} TotalInvestmentPermutation(a: seq<Idea>, b: seq<Idea>)
    requires multiset(a) == multiset(b)
    ensures TotalInvestment(a) == TotalInvestment(b)
  {
    if a == [] {
      assert |b| == |multiset(b)| == 0;
    } else {
      var x := a[0];
      assert TotalInvestment(a) == Investment(x) + TotalInvestment(a[1..]);
      assert x in multiset(b);
      var k :| 0 <= k < |b| && b[k] == x;
      var rest := b[..k] + b[k + 1..];
      TotalInvestmentRemove(b, k);
      Sorting.MultisetRemove(b, k);
      Sorting.MultisetTail(a);
      TotalInvestmentPermutation(a[1..], rest);
    }
  }

  /**
   * `totalIdeas > 0 ? Math.round(totalInvestment / totalIdeas) : 0`. `Math.round` rounds half up,
   * so the result is the integer nearest the mean, ties going up.
   */
  function AverageInvestment(total: int, count: nat): (r: int)
    ensures count == 0 ==> r == 0
    ensures count > 0 ==> 2 * count * r - count <= 2 * total < 2 * count * r + count
  {
    if count == 0 then 0
    else
      var q := (2 * total + count) / (2 * count);
      var m := (2 * total + count) % (2 * count);
      assert 2 * total + count == 2 * count * q + m && 0 <= m < 2 * count;
      q
  }

  /** An exact mean is reported as itself. */
  lemma AverageOfExactMean(count: nat, mean: int)
    requires count > 0
    ensures AverageInvestment(count * mean, count) == mean
  {
    var r := AverageInvestment(count * mean, count);
    var d := r - mean;
    assert 2 * count * r == 2 * count * mean + 2 * count * d;
    assert 0 < 2 * count * d + count && 2 * count * d <= count;
    MultipleOutsideBand(2 * count, d);
  }

  /** A nonzero multiple of `c` is at least `c` away from zero. */
  lemma MultipleOutsideBand(c: int, d: int)
    requires c >= 0
    ensures d >= 1 ==> c * d >= c
    ensures d <= -1 ==> c * d <= -c
  {
    if d >= 1 {
      assert c * d == c + c * (d - 1);
    } else if d <= -1 {
      assert c * d == -c - c * (-d - 1);
    }
  }

  /** The summary cards: the total, the number of ideas and the rounded average. */
  datatype Stats = Stats(total: int, count: nat, average: int)

  function StatsOf(ideas: seq<Idea>): Stats {
    var total := TotalInvestment(ideas);
    Stats(total, |ideas|, AverageInvestment(total, |ideas|))
  }

  /** The summary does not depend on the chosen order. */
  lemma StatsIndependentOfSort(data: seq<Idea>)
    ensures StatsOf(Arrange(data, Top)) == StatsOf(Arrange(data, Latest))
  {
    TotalInvestmentPermutation(Arrange(data, Top), data);
  }

  /** `[...ideas].sort(byTotalDesc).slice(0, 3)`. */
  function TopIdeas(ideas: seq<Idea>): (r: seq<Idea>)
    ensures |r| == if |ideas| < TopCount then |ideas| else TopCount
    ensures Sorting.SortedDesc(r, Investment)
    ensures multiset(r) <= multiset(ideas)
    ensures r == Sorting.SortDesc(ideas, Investment)[..|r|]
  {
    var s := Sorting.SortDesc(ideas, Investment);
    var r := Sorting.Take(s, TopCount);
    Sorting.TakeSubMultiset(s, TopCount);
    assert r == s[..|r|];
    r
  }

  /** No idea left out of the top list has a larger total than one in it. */
  lemma TopIdeasDominate(ideas: seq<Idea>, x: Idea, i: nat)
    requires x in ideas && x !in TopIdeas(ideas) && i < |TopIdeas(ideas)|
    ensures Investment(TopIdeas(ideas)[i]) >= Investment(x)
  {
    var s := Sorting.SortDesc(ideas, Investment);
    assert x in multiset(s);
    var k :| 0 <= k < |s| && s[k] == x;
    var r := TopIdeas(ideas);
    assert forall j :: 0 <= j < |r| ==> s[j] == r[j] && r[j] in r;
    assert k >= |r|;
    assert r[i] == s[i];
  }

  /** The first of the top list has the largest total of all ideas. */
  lemma TopIdeaIsMaximum(ideas: seq<Idea>, x: Idea)
    requires x in ideas
    ensures TopIdeas(ideas) != [] && Investment(TopIdeas(ideas)[0]) >= Investment(x)
  {
    var s := Sorting.SortDesc(ideas, Investment);
    assert x in multiset(s);
    var k :| 0 <= k < |s| && s[k] == x;
    assert TopIdeas(ideas)[0] == s[0];
  }

  // ---------------------------------------------------------------------------------------------
  // Paging and cards

  /** `ideas.slice(0, visible)`. */
  function Shown(ideas: seq<Idea>, visible: nat): seq<Idea> {
    Sorting.Take(ideas, visible)
  }

  /** `visible < ideas.length`: the "more" button. */
  predicate HasMore(ideas: seq<Idea>, visible: nat) {
    visible < |ideas|
  }

  /** The "more" button shows exactly when some ideas are not shown yet, and the shown ones come first. */
  lemma HasMoreIffHidden(ideas: seq<Idea>, visible: nat)
    ensures HasMore(ideas, visible) <==> |Shown(ideas, visible)| < |ideas|
    ensures Shown(ideas, visible) == ideas[..|Shown(ideas, visible)|]
  {
  }

  /** After enough presses of "more" every idea is shown. */
  lemma {:induction false} MoreEventuallyShowsAll(ideas: seq<Idea>, presses: nat)
    requires presses * PageSize >= |ideas|
    ensures Shown(ideas, PageSize + presses * PageSize) == ideas
    ensures !HasMore(ideas, PageSize + presses * PageSize)
  {
  }

  /** The tag badges of a card: three tags and a `+k` badge, or nothing without tags. */
  function TagBadges(idea: Idea): Sorting.BadgeRow<string> {
    Sorting.BadgesOf(idea.tags, TagPreviewSize)
  }

  // ---------------------------------------------------------------------------------------------
  // The listing the dashboard reads

  /**
   * The dashboard as written lists ideas through the data API, whose rows carry no aggregates:
   * every stored idea counts as 0, whatever has been invested in it.
   */
  function ListingAsWritten(ideas: seq<Idea>, query: string): seq<Idea> {
    Api.ListIdeas(ideas, Some(query))
  }

  /** No stored idea row carries an aggregate, as `addIdea` stores them. */
  predicate NoStoredAggregates(ideas: seq<Idea>) {
    forall i :: 0 <= i < |ideas| ==> ideas[i].totalInvestment.None?
  }

  lemma {:induction false} TotalOfUnaggregated(ideas: seq<Idea>)
    requires NoStoredAggregates(ideas)
    ensures TotalInvestment(ideas) == 0
    ensures Sorting.SortedDesc(ideas, Investment)
  {
    if ideas != [] {
      assert NoStoredAggregates(ideas[1..]) by {
        forall i | 0 <= i < |ideas[1..]| ensures ideas[1..][i].totalInvestment.None? {
          assert ideas[1..][i] == ideas[i + 1];
        }
      }
      TotalOfUnaggregated(ideas[1..]);
    }
  }

  /** The data API's listing only returns stored rows, so it carries no aggregate either. */
  lemma ListingHasNoAggregates(ideas: seq<Idea>, query: string)
    requires NoStoredAggregates(ideas)
    ensures NoStoredAggregates(Api.ListIdeas(ideas, Some(query)))
  {
    var l := Api.ListIdeas(ideas, Some(query));
    var found := SearchIfGiven(ideas, Some(query));
    SearchIfGivenMembers(ideas, Some(query));
    forall i | 0 <= i < |l| ensures l[i].totalInvestment.None? {
      assert l[i] in multiset(found);
      assert l[i] in found;
      assert l[i] in ideas;
    }
  }

  /**
   * As written, with the rows `addIdea` stores, the total card shows 0 and the top order is the
   * latest order, whatever the investments.
   */
  lemma AsWrittenIgnoresInvestments(ideas: seq<Idea>, query: string)
    requires NoStoredAggregates(ideas)
    ensures StatsOf(Arrange(ListingAsWritten(ideas, query), Top)).total == 0
    ensures StatsOf(Arrange(ListingAsWritten(ideas, query), Top)).average == 0
    ensures Arrange(ListingAsWritten(ideas, query), Top) == Arrange(ListingAsWritten(ideas, query), Latest)
  {
    var l := ListingAsWritten(ideas, query);
    ListingHasNoAggregates(ideas, query);
    TotalOfUnaggregated(l);
    Sorting.SortOfSorted(l, Investment);
    assert Arrange(l, Top) == l;
    assert StatsOf(l).total == 0;
    if |l| > 0 {
      AverageOfExactMean(|l|, 0);
    }
  }

  /** A stored idea with an investment of 300 tokens. */
  lemma AsWrittenExample(idea: Idea, inv: IdeaInvestment)
    requires idea.totalInvestment.None? && idea.isVisible && inv.ideaId == idea.id && inv.amount == 300
    ensures TotalInvestment(Arrange(Api.ListIdeas([idea], Some("")), Top)) == 0
    ensures TotalInvestment(Arrange([IdeaService.WithAggregates(idea, IdeaService.InvestmentsOf([inv], idea.id))], Top)) == 300
  {
    var l := Api.ListIdeas([idea], Some(""));
    assert multiset(l) == multiset{idea};
    assert |l| == 1 && l[0] in multiset(l);
    assert IdeaService.InvestmentsOf([inv], idea.id) == [inv];
    assert IdeaService.Total([inv]) == 300 by {
      assert [inv][..0] == [];
    }
  }

  /** What the dashboard would list with the idea service's aggregating listing, in the chosen order. */
  function Listing(ideas: seq<Idea>, investments: seq<IdeaInvestment>, query: string, sort: SortMode): seq<Idea> {
    Arrange(IdeaService.ListIdeas(ideas, investments, Some(query)), sort)
  }

  /** With the aggregating listing, every listed idea counts with the total of its own investments. */
  lemma ListedTotalsAreInvestments(ideas: seq<Idea>, investments: seq<IdeaInvestment>, query: string, sort: SortMode, i: nat)
    requires i < |Listing(ideas, investments, query, sort)|
    ensures var x := Listing(ideas, investments, query, sort)[i];
            Investment(x) == IdeaService.Total(IdeaService.InvestmentsOf(investments, x.id))
  {
    var l := IdeaService.ListIdeas(ideas, investments, Some(query));
    var x := Arrange(l, sort)[i];
    assert x in multiset(l);
    var k :| 0 <= k < |l| && l[k] == x;
    IdeaService.ListIdeasFromTable(ideas, investments, Some(query), k);
  }

  // ---------------------------------------------------------------------------------------------
  // The page

  datatype Toast = LoadFailed | LoginNeeded

  class Page {
    const user: Option<UserId>
    var query: string
    var ideas: seq<Idea>
    var visible: nat
    var loading: bool
    var sort: SortMode
    var modalOpen: bool
    var selectedIdea: Option<Idea>
    var tokenBalance: int

    constructor (user: Option<UserId>)
      ensures this.user == user && query == "" && ideas == [] && visible == PageSize && !loading
      ensures sort == Latest && !modalOpen && selectedIdea.None? && tokenBalance == 0
    {
      this.user := user;
      query := "";
      ideas := [];
      visible := PageSize;
      loading := false;
      sort := Latest;
      modalOpen := false;
      selectedIdea := None;
      tokenBalance := 0;
    }

    /**
     * `loadIdeas`: the data API's listing for the current query (`ListingAsWritten`), in the chosen
     * order, shown from its first page. A failed read leaves the list as it was; loading ends
     * either way. The listing with the idea service's aggregates is `Listing`.
     */
    method LoadIdeas(db: Db, readError: Option<string>) returns (toast: Option<Toast>)
      modifies this`ideas, this`visible, this`loading
      ensures !loading
      ensures readError.None? ==>
                ideas == Arrange(ListingAsWritten(db.ideas, query), sort) && visible == PageSize && toast.None?
      ensures readError.Some? ==> ideas == old(ideas) && visible == old(visible) && toast == Some(LoadFailed)
    {
      loading := true;
      if readError.Some? {
        toast := Some(LoadFailed);
        loading := false;
        return;
      }
      loading := false;
      visible := PageSize;
      toast := None;
      ideas := Arrange(ListingAsWritten(db.ideas, query), sort);
    }

    /** The "more" button: twelve more ideas. */
    method LoadMore()
      modifies this`visible
      ensures visible == old(visible) + PageSize
    {
      visible := visible + PageSize;
    }

    /** `loadTokenBalance`: only with a user, and a failed read keeps the shown balance. */
    method LoadTokenBalance(balance: Result<int, string>)
      modifies this`tokenBalance
      ensures user.Some? && balance.Ok? ==> tokenBalance == balance.value
      ensures user.None? || balance.Err? ==> tokenBalance == old(tokenBalance)
    {
      if user.Some? && balance.Ok? {
        tokenBalance := balance.value;
      }
    }

    /** `handleInvestClick`: signed out, an error and the dialog stays closed. */
    method HandleInvestClick(idea: Idea) returns (toast: Option<Toast>)
      modifies this`selectedIdea, this`modalOpen
      ensures user.None? ==>
                toast == Some(LoginNeeded) && selectedIdea == old(selectedIdea) && modalOpen == old(modalOpen)
      ensures user.Some? ==> toast.None? && selectedIdea == Some(idea) && modalOpen
    {
      if user.None? {
        return Some(LoginNeeded);
      }
      selectedIdea := Some(idea);
      modalOpen := true;
      toast := None;
    }
  }
}
