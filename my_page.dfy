/**
 * The personal page: the token balance, the invested total and count, the first five
 * investments with a "showing 5 of N" note, and the token history with a label, a badge and a
 * signed amount per row.
 */
module MyPage {
  import opened Wrappers
  import opened Types
  import Sorting

  /** The labels of the five transaction types the page knows. */
  const KnownTypeLabels: map<string, string> := map[
    "signup_bonus" := "회원가입 보너스",
    "purchase" := "토큰 구매",
    "investment" := "아이디어 투자",
    "usage" := "토큰 사용",
    "refund" := "환불"
  ]

  /** `typeMap[type] || type`: a known type shows its label, any other type shows itself. */
  function TransactionTypeLabel(kind: string): (r: string)
    ensures kind in KnownTypeLabels ==> r == KnownTypeLabels[kind]
    ensures kind !in KnownTypeLabels ==> r == kind
  {
    if kind in KnownTypeLabels && KnownTypeLabels[kind] != "" then KnownTypeLabels[kind] else kind
  }

  /** Distinct known types get distinct labels, and a label is empty only for the empty type. */
  lemma LabelsDistinguishKnownTypes(a: string, b: string)
    requires a in KnownTypeLabels && b in KnownTypeLabels && a != b
    ensures TransactionTypeLabel(a) != TransactionTypeLabel(b)
    ensures TransactionTypeLabel(a) != ""
  {
  }

  /** A label is empty exactly when the type is. */
  lemma LabelEmptyIffTypeEmpty(kind: string)
    ensures TransactionTypeLabel(kind) == "" <==> kind == ""
  {
  }

  /** The badge of a history row: "충전" (credit) or "사용" (spend). */
  datatype Badge = Credit | Spend {
    function Text(): string {
      match this
      case Credit => "충전"
      case Spend => "사용"
    }
  }

  /** `getTransactionTypeBadge`: the type is not consulted, only the sign of the amount. */
  function TransactionBadge(kind: string, amount: int): (r: Badge)
    ensures r == Credit <==> amount > 0
  {
    if amount > 0 then Credit else Spend
  }

  datatype Colour = Green | Red

  /** The amount column: a `+` before a positive amount, green for positive, red otherwise. */
  datatype AmountStyle = AmountStyle(prefix: string, colour: Colour)

  function AmountStyleOf(amount: int): (r: AmountStyle)
    ensures r.prefix == "+" <==> amount > 0
    ensures r.prefix == "" <==> amount <= 0
    ensures r.colour == Green <==> amount > 0
  {
    if amount > 0 then AmountStyle("+", Green) else AmountStyle("", Red)
  }

  /** A row's badge, sign and colour agree: all three mark a credit, or none does (zero included). */
  lemma BadgeAgreesWithStyle(t: TokenTransaction)
    ensures TransactionBadge(t.transactionType, t.amount) == Credit
        <==> AmountStyleOf(t.amount).prefix == "+"
    ensures TransactionBadge(t.transactionType, t.amount) == Credit
        <==> AmountStyleOf(t.amount).colour == Green
    ensures t.amount == 0 ==> TransactionBadge(t.transactionType, t.amount) == Spend
  {
  }

  /** What the investment list shows of an investment: its amount, date and the idea's title and domain. */
  datatype UserInvestment = UserInvestment(id: RowId, amount: int, createdAt: Timestamp, title: string, domain: string)

  /** `investments.reduce((sum, inv) => sum + inv.amount, 0)`. */
  function TotalInvested(investments: seq<UserInvestment>): int {
    if investments == [] then 0 else investments[0].amount + TotalInvested(investments[1..])
  }

  lemma {:induction false} TotalInvestedAppend(a: seq<UserInvestment>, b: seq<UserInvestment>)
    ensures TotalInvested(a + b) == TotalInvested(a) + TotalInvested(b)
  {
    if a == [] {
      assert a + b == b;
    } else {
      assert (a + b)[1..] == a[1..] + b;
      TotalInvestedAppend(a[1..], b);
    }
  }

  /** With positive amounts, the total is at least each amount, and positive exactly when there is an investment. */
  lemma {:induction false} TotalInvestedBounds(investments: seq<UserInvestment>, i: nat)
    requires forall j :: 0 <= j < |investments| ==> investments[j].amount > 0
    requires i < |investments|
    ensures TotalInvested(investments) >= investments[i].amount
    ensures TotalInvested(investments) > 0
  {
    TotalInvestedNonNegative(investments[1..]);
    if i > 0 {
      TotalInvestedBounds(investments[1..], i - 1);
    }
  }

  lemma {:induction false} TotalInvestedNonNegative(investments: seq<UserInvestment>)
    requires forall j :: 0 <= j < |investments| ==> investments[j].amount > 0
    ensures TotalInvested(investments) >= 0
  {
    if investments != [] {
      TotalInvestedNonNegative(investments[1..]);
    }
  }

  /** How many investments the list shows. */
  const InvestmentPreviewSize: nat := 5

  /** How many history rows are requested. */
  const TransactionLimit: nat := 20

  /**
   * The investment list: the empty message, or the first five investments and, for more than
   * five, the note "총 N개의 투자 중 5개 표시" holding the full count N.
   */
  datatype InvestmentList = NoInvestments | Listed(shown: seq<UserInvestment>, note: Option<nat>)

  function InvestmentListOf(investments: seq<UserInvestment>): (r: InvestmentList)
    ensures r.NoInvestments? <==> investments == []
    ensures r.Listed? ==> |r.shown| == if |investments| < InvestmentPreviewSize then |investments| else InvestmentPreviewSize
    ensures r.Listed? ==> r.shown == investments[..|r.shown|]
    ensures r.Listed? ==> (r.note.Some? <==> |investments| > InvestmentPreviewSize)
    ensures r.Listed? && r.note.Some? ==> r.note.value == |investments|
  {
    if investments == [] then NoInvestments
    else
      var shown := Sorting.Take(investments, InvestmentPreviewSize);
      assert shown == investments[..|shown|];
      Listed(shown, if |investments| > InvestmentPreviewSize then Some(|investments|) else None)
  }

  /** Every investment is either in the list or counted by the note. */
  lemma InvestmentHiddenOnlyWithNote(investments: seq<UserInvestment>, i: nat)
    requires i < |investments|
    ensures InvestmentListOf(investments).Listed?
    ensures i < InvestmentPreviewSize ==> InvestmentListOf(investments).shown[i] == investments[i]
    ensures i >= InvestmentPreviewSize ==> InvestmentListOf(investments).note == Some(|investments|)
  {
  }

  /** The summary row (total and count) appears only with at least one investment. */
  datatype Summary = Summary(total: int, count: nat)

  function SummaryOf(investments: seq<UserInvestment>): (r: Option<Summary>)
    ensures r.Some? <==> |investments| > 0
    ensures r.Some? ==> r.value.count == |investments| && r.value.total == TotalInvested(investments)
  {
    if |investments| > 0 then Some(Summary(TotalInvested(investments), |investments|)) else None
  }

  class Page {
    const user: Option<UserId>
    var tokenBalance: int
    var transactions: seq<TokenTransaction>
    var investments: seq<UserInvestment>
    var loading: bool

    /** The first render: zero balance, empty lists and the loading screen. */
    constructor (user: Option<UserId>)
      ensures this.user == user && tokenBalance == 0 && transactions == [] && investments == [] && loading
    {
      this.user := user;
      tokenBalance := 0;
      transactions := [];
      investments := [];
      loading := true;
    }

    /**
     * `loadTokenData`: the three reads run together and their results are stored only when all
     * three succeed; loading ends either way.
     */
    method LoadTokenData(balance: Result<int, string>, history: Result<seq<TokenTransaction>, string>,
                         mine: Result<seq<UserInvestment>, string>)
      modifies this`tokenBalance, this`transactions, this`investments, this`loading
      ensures !loading
      ensures balance.Ok? && history.Ok? && mine.Ok? ==>
                tokenBalance == balance.value && transactions == history.value && investments == mine.value
      ensures !(balance.Ok? && history.Ok? && mine.Ok?) ==>
                tokenBalance == old(tokenBalance) && transactions == old(transactions) && investments == old(investments)
    {
      loading := true;
      if balance.Ok? && history.Ok? && mine.Ok? {
        tokenBalance := balance.value;
        transactions := history.value;
        investments := mine.value;
      }
      loading := false;
    }

    /**
     * The effect run when the user is known: data is read only for a signed-in user, and the
     * history is requested with a limit of 20 (`requested`). Without a user nothing changes, so
     * the loading screen stays.
     */
    method OnUser(balance: Result<int, string>, history: Result<seq<TokenTransaction>, string>,
                  mine: Result<seq<UserInvestment>, string>) returns (requested: Option<nat>)
      modifies this`tokenBalance, this`transactions, this`investments, this`loading
      ensures requested.Some? <==> user.Some?
      ensures requested.Some? ==> requested.value == TransactionLimit && !loading
      ensures user.Some? && balance.Ok? && history.Ok? && mine.Ok? ==>
                tokenBalance == balance.value && transactions == history.value && investments == mine.value
      ensures user.None? ==> unchanged(this)
    {
      if user.None? {
        return None;
      }
      requested := Some(TransactionLimit);
      LoadTokenData(balance, history, mine);
    }
  }
}
