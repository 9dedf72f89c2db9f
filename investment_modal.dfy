/**
 * The investment dialog: the typed or quick-picked amount, the checks made before any call
 * (sign-in, a positive whole number, the 100-token minimum, the balance), and the investment.
 */
module InvestmentModal {
  import opened Wrappers
  import opened Types
  import opened Database
  import JsText
  import IdeaService

  /** The smallest investment the dialog lets through. */
  const MinimumInvestment: int := 100

  /** The quick-pick amounts. */
  const QuickAmounts: seq<nat> := [100, 500, 1000, 2000]

  /** How the typed amount fares, in the order the handler checks it. */
  datatype AmountCheck = NotPositive | BelowMinimum | Accepted(value: int)

  /** `parseInt(amount)`: NaN, zero or negative is refused; then anything under 100. */
  function CheckAmount(text: string): (r: AmountCheck)
    ensures r.Accepted? <==> JsText.ParseInt(text).Some? && JsText.ParseInt(text).value >= MinimumInvestment
    ensures r.Accepted? ==> r.value == JsText.ParseInt(text).value
    ensures r == NotPositive <==> JsText.ParseInt(text).None? || JsText.ParseInt(text).value <= 0
  {
    match JsText.ParseInt(text)
    case None => NotPositive
    case Some(n) =>
      if n <= 0 then NotPositive
      else if n < MinimumInvestment then BelowMinimum
      else Accepted(n)
  }

  /** Any whole number of at least 100 typed in decimal is accepted as itself; a blank field is refused. */
  lemma DecimalAmounts(n: nat, blank: string)
    requires JsText.Blank(blank)
    ensures n >= 100 ==> CheckAmount(JsText.ToDecimal(n)) == Accepted(n)
    ensures 0 < n < 100 ==> CheckAmount(JsText.ToDecimal(n)) == BelowMinimum
    ensures CheckAmount(blank) == NotPositive
  {
    JsText.ParseIntOfDecimal(n, []);
    assert JsText.ToDecimal(n) + [] == JsText.ToDecimal(n);
    JsText.ParseIntOfBlank(blank);
  }

  /** Every quick-pick amount, once written into the field, passes the amount checks with its own value. */
  lemma QuickAmountsAccepted(i: nat)
    requires i < |QuickAmounts|
    ensures CheckAmount(JsText.ToDecimal(QuickAmounts[i])) == Accepted(QuickAmounts[i])
  {
    var q := QuickAmounts[i];
    assert q >= MinimumInvestment;
    JsText.ParseIntOfBlank("");
    DecimalAmounts(q, "");
  }

  /** `error.message || '투자에 실패했습니다'`. */
  function ErrorText(message: string): (r: string)
    ensures r != []
    ensures message != [] ==> r == message
  {
    if message == [] then "투자에 실패했습니다" else message
  }

  datatype Toast =
    | LoginNeeded
    | InvalidAmount
    | BelowMinimumAmount
    | NotEnoughTokens
    | Invested(amount: int)
    | Failed(text: string)

  /** The callbacks the dialog invokes, in order. */
  datatype Callback = InvestmentComplete | Close

  /**
   * What the idea service's investment leaves behind once the balance suffices, read off the
   * tables before (`rows`, `ledger`, `nextId`) and after (`rows'`, `ledger'`): a failed write of the
   * investment row changes nothing; a failed debit keeps the written row and reports its error;
   * otherwise the row is upserted, the debit appended and the amount reported.
   */
  predicate InvestmentOutcome(rows: seq<IdeaInvestment>, ledger: seq<TokenTransaction>, nextId: RowId,
                              ideaId: RowId, uid: UserId, n: int, updateError: Option<string>,
                              insertError: Option<string>, ledgerError: Option<string>, now: Timestamp,
                              toast: Toast, rows': seq<IdeaInvestment>, ledger': seq<TokenTransaction>)
  {
    var existing := |IdeaService.Matches(rows, ideaId, uid)| == 1;
    var writeError := if existing then updateError else insertError;
    if writeError.Some? then
      toast == Failed(ErrorText(writeError.value)) && rows' == rows && ledger' == ledger
    else
      && rows' == IdeaService.Upsert(rows, ideaId, uid, n, nextId, now)
      && if ledgerError.Some? then
           toast == Failed(ErrorText(ledgerError.value)) && ledger' == ledger
         else
           && toast == Invested(n)
           && ledger' == ledger + [TokenTransaction(nextId + (if existing then 0 else 1), uid, -n, "investment",
                                                    Some(IdeaService.InvestmentDescription), Some(ideaId), now)]
  }

  /** The dialog's message for the idea service's answer, once the balance check has passed. */
  lemma ServiceOutcome(rows: seq<IdeaInvestment>, ledger: seq<TokenTransaction>, nextId: RowId,
                       ideaId: RowId, uid: UserId, n: int, updateError: Option<string>,
                       insertError: Option<string>, ledgerError: Option<string>, now: Timestamp,
                       r: Result<(), Error>, toast: Toast, rows': seq<IdeaInvestment>, ledger': seq<TokenTransaction>)
    requires toast == if r.Ok? then Invested(n) else Failed(ErrorText(r.error.Message()))
    requires var existing := |IdeaService.Matches(rows, ideaId, uid)| == 1;
             var writeError := if existing then updateError else insertError;
             if writeError.Some? then
               r == Err(StorageFailure(writeError.value)) && rows' == rows && ledger' == ledger
             else
               && rows' == IdeaService.Upsert(rows, ideaId, uid, n, nextId, now)
               && if ledgerError.Some? then
                    r == Err(StorageFailure(ledgerError.value)) && ledger' == ledger
                  else
                    && r == Ok(())
                    && ledger' == ledger + [TokenTransaction(nextId + (if existing then 0 else 1), uid, -n, "investment",
                                                             Some(IdeaService.InvestmentDescription), Some(ideaId), now)]
    ensures InvestmentOutcome(rows, ledger, nextId, ideaId, uid, n, updateError, insertError, ledgerError, now,
                              toast, rows', ledger')
  {
  }

  class Modal {
    const ideaId: RowId
    const user: Option<UserId>
    var amount: string
    var loading: bool

    constructor (ideaId: RowId, user: Option<UserId>)
      ensures this.ideaId == ideaId && this.user == user && amount == "" && !loading
    {
      this.ideaId := ideaId;
      this.user := user;
      amount := "";
      loading := false;
    }

    /** A quick-pick button writes its amount into the field. */
    method PickQuickAmount(i: nat)
      requires i < |QuickAmounts|
      modifies this`amount
      ensures amount == JsText.ToDecimal(QuickAmounts[i])
      ensures CheckAmount(amount) == Accepted(QuickAmounts[i])
    {
      amount := JsText.ToDecimal(QuickAmounts[i]);
      QuickAmountsAccepted(i);
    }

    /**
     * The part of `handleInvest` after the amount checks, for a signed-in user and an accepted
     * amount `n`: the balance check, then the idea service's investment.
     */
    method Invest(db: Db, uid: UserId, n: int, balance: Result<int, string>, updateError: Option<string>,
                  insertError: Option<string>, ledgerError: Option<string>, now: Timestamp)
        returns (toast: Toast, callbacks: seq<Callback>)
      requires db.Valid() && user == Some(uid)
      modifies db, this`amount, this`loading
      ensures db.Valid() && !loading
      ensures db.ideas == old(db.ideas) && db.teams == old(db.teams) && db.teamMembers == old(db.teamMembers)
      ensures toast.Invested? ==> callbacks == [InvestmentComplete, Close] && amount == ""
      ensures !toast.Invested? ==> callbacks == [] && amount == old(amount) && db.transactions == old(db.transactions)
      ensures balance.Err? ==> toast == Failed(ErrorText(balance.error)) && unchanged(db)
      ensures balance.Ok? && balance.value < n ==> toast == NotEnoughTokens && unchanged(db)
      ensures balance.Ok? && balance.value >= n ==>
                InvestmentOutcome(old(db.investments), old(db.transactions), old(db.nextId), ideaId, uid, n,
                                  updateError, insertError, ledgerError, now, toast, db.investments, db.transactions)
    {
      loading := true;
      if balance.Err? {
        toast, callbacks := Failed(ErrorText(balance.error)), [];
      } else if balance.value < n {
        toast, callbacks := NotEnoughTokens, [];
      } else {
        ghost var rows, ledger, nextId := db.investments, db.transactions, db.nextId;
        var r := IdeaService.InvestInIdea(db, user, ideaId, n, balance.value, updateError, insertError, ledgerError, now);
        if r.Ok? {
          toast, callbacks := Invested(n), [InvestmentComplete, Close];
          amount := "";
        } else {
          toast, callbacks := Failed(ErrorText(r.error.Message())), [];
        }
        ServiceOutcome(rows, ledger, nextId, ideaId, uid, n, updateError, insertError, ledgerError, now,
                       r, toast, db.investments, db.transactions);
      }
      loading := false;
    }

    /**
     * `handleInvest`. `balance` is what the balance read returns (its error's message on failure).
     * Nothing is read or written unless the user is signed in and the amount is accepted.
     */
    method HandleInvest(db: Db, balance: Result<int, string>, updateError: Option<string>,
                        insertError: Option<string>, ledgerError: Option<string>, now: Timestamp)
        returns (toast: Toast, callbacks: seq<Callback>)
      requires db.Valid()
      modifies db, this`amount, this`loading
      ensures db.Valid()
      ensures user.None? ==> toast == LoginNeeded && callbacks == [] && unchanged(db) && unchanged(this)
      ensures user.Some? && CheckAmount(old(amount)) == NotPositive ==>
                toast == InvalidAmount && callbacks == [] && unchanged(db) && unchanged(this)
      ensures user.Some? && CheckAmount(old(amount)) == BelowMinimum ==>
                toast == BelowMinimumAmount && callbacks == [] && unchanged(db) && unchanged(this)
      ensures user.Some? && CheckAmount(old(amount)).Accepted? ==>
                var n := CheckAmount(old(amount)).value;
                && !loading
                && (toast.Invested? ==> callbacks == [InvestmentComplete, Close] && amount == "")
                && (!toast.Invested? ==> callbacks == [] && amount == old(amount) && db.transactions == old(db.transactions))
                && (balance.Err? ==> toast == Failed(ErrorText(balance.error)) && unchanged(db))
                && (balance.Ok? && balance.value < n ==> toast == NotEnoughTokens && unchanged(db))
                && (balance.Ok? && balance.value >= n ==>
                      InvestmentOutcome(old(db.investments), old(db.transactions), old(db.nextId), ideaId, user.value, n,
                                        updateError, insertError, ledgerError, now, toast, db.investments, db.transactions))
    {
      if user.None? {
        return LoginNeeded, [];
      }
      var check := CheckAmount(amount);
      if check == NotPositive {
        return InvalidAmount, [];
      }
      if check == BelowMinimum {
        return BelowMinimumAmount, [];
      }
      toast, callbacks := Invest(db, user.value, check.value, balance, updateError, insertError, ledgerError, now);
    }
  }

  /** `disabled={loading || !amount}`: the invest button needs a non-empty field. */
  predicate InvestDisabled(loading: bool, amount: string) {
    loading || amount == ""
  }

  /** An empty field is refused by the amount check too, so the disabled button hides no other path. */
  lemma EmptyAmountRefused()
    ensures CheckAmount("") == NotPositive
  {
    JsText.ParseIntOfBlank("");
  }
}
