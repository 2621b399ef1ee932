/**
 * The transfer endpoint: validate the request, append a DEBIT/CREDIT
 * posting pair, debit the source and credit the destination, all as one
 * atomic transition.
 */
module TransactionResource {
  import opened Wrappers
  import opened Model
  import opened Ids
  import opened Database
  import AccountDao
  import TransactionDao

  /** The posting recorded against the source account. */
  function DebitPosting(d: TransferDetails, postedOn: Timestamp, suffix: Suffix): Transaction
  {
    NewPosting(DebitId(suffix), DEBIT, d.fromAccountId, postedOn, d.amount)
  }

  /** The posting recorded against the destination account. */
  function CreditPosting(d: TransferDetails, postedOn: Timestamp, suffix: Suffix): Transaction
  {
    NewPosting(CreditId(suffix), CREDIT, d.toAccountId, postedOn, d.amount)
  }

  /**
   * Moves `d.amount` from one account to another. The request is rejected
   * when the amount is not positive, when either account is unknown, or
   * when the source is a Loan account; there is no overdraft check, and a
   * Loan destination is credited like any other. The second balance update
   * reads the destination as the first one left it, so a transfer from an
   * account to itself leaves its balance as it was.
   */
  function Transfer(s: Store, d: TransferDetails, postedOn: Timestamp, suffix: Suffix): (r: Result<Store, Error>)
    requires Valid(s)
    requires DebitId(suffix) !in s.transactions && CreditId(suffix) !in s.transactions
    ensures r.Err? <==>
      || d.amount <= 0
      || d.fromAccountId !in s.accounts
      || d.toAccountId !in s.accounts
      || s.accounts[d.fromAccountId].accountType == Loan
    ensures r.Err? ==> r.error == BadRequest
    // the posting pair
    ensures r.Ok? ==>
      var t := r.value.transactions;
      && t.Keys == s.transactions.Keys + {DebitId(suffix), CreditId(suffix)}
      && (forall k | k in s.transactions :: t[k] == s.transactions[k])
      && t[DebitId(suffix)].transactionType == DEBIT
      && t[DebitId(suffix)].account == d.fromAccountId
      && t[CreditId(suffix)].transactionType == CREDIT
      && t[CreditId(suffix)].account == d.toAccountId
      && t[DebitId(suffix)].amount == d.amount == t[CreditId(suffix)].amount
      && t[DebitId(suffix)].postedOn == postedOn == t[CreditId(suffix)].postedOn
      && t[DebitId(suffix)].balanceBefore == DefaultSnapshot == t[DebitId(suffix)].balanceAfter
      && t[CreditId(suffix)].balanceBefore == DefaultSnapshot == t[CreditId(suffix)].balanceAfter
    // the balances
    ensures r.Ok? ==>
      var a, a' := s.accounts, r.value.accounts;
      && a'.Keys == a.Keys
      && (forall k | k in a && k != d.fromAccountId && k != d.toAccountId :: a'[k] == a[k])
      && SameButBalance(a'[d.fromAccountId], a[d.fromAccountId])
      && SameButBalance(a'[d.toAccountId], a[d.toAccountId])
      && (d.fromAccountId != d.toAccountId ==>
            && a'[d.fromAccountId].balance == a[d.fromAccountId].balance - d.amount
            && a'[d.toAccountId].balance == a[d.toAccountId].balance + d.amount
            && a'[d.fromAccountId].balance + a'[d.toAccountId].balance
               == a[d.fromAccountId].balance + a[d.toAccountId].balance)
      && (d.fromAccountId == d.toAccountId ==> a'[d.fromAccountId] == a[d.fromAccountId])
    // nothing else changes, and the invariants are kept
    ensures r.Ok? ==> r.value.customers == s.customers
  {
    var from := AccountDao.FindById(s.accounts, d.fromAccountId);
    var to := AccountDao.FindById(s.accounts, d.toAccountId);
    if d.amount <= 0 || from.None? || to.None? || from.value.accountType == Loan then
      Err(BadRequest)
    else
      Ok(s.(accounts := MoveBalance(s.accounts, d.fromAccountId, d.toAccountId, d.amount),
            transactions := PostPair(s.transactions, d, postedOn, suffix)))
  }

  /** Appends the DEBIT posting, then the CREDIT posting. */
  function PostPair(transactions: map<string, Transaction>, d: TransferDetails,
                    postedOn: Timestamp, suffix: Suffix): (t: map<string, Transaction>)
    requires DebitId(suffix) !in transactions && CreditId(suffix) !in transactions
    ensures t.Keys == transactions.Keys + {DebitId(suffix), CreditId(suffix)}
    ensures forall k | k in transactions :: t[k] == transactions[k]
    ensures t[DebitId(suffix)] == DebitPosting(d, postedOn, suffix)
    ensures t[CreditId(suffix)] == CreditPosting(d, postedOn, suffix)
  {
    var debit := DebitPosting(d, postedOn, suffix);
    var credit := CreditPosting(d, postedOn, suffix);
    TransactionDao.Add(TransactionDao.Add(transactions, debit), credit)
  }

  /**
   * Writes the debited source, then the credited destination as the
   * session holds it after the debit.
   */
  function MoveBalance(accounts: map<string, Account>, from: string, to: string, amount: int): (a': map<string, Account>)
    requires from in accounts && to in accounts
    requires accounts[from].id == from && accounts[to].id == to
    ensures a'.Keys == accounts.Keys
    ensures forall k | k in accounts && k != from && k != to :: a'[k] == accounts[k]
    ensures a'[from].id == from && a'[to].id == to
    ensures SameButBalance(a'[from], accounts[from]) && SameButBalance(a'[to], accounts[to])
    ensures from != to ==> a'[from].balance == accounts[from].balance - amount
    ensures from != to ==> a'[to].balance == accounts[to].balance + amount
    ensures from == to ==> a'[from] == accounts[from]
  {
    var source := accounts[from];
    var debited := AccountDao.Update(accounts, WithBalance(source, source.balance - amount));
    var dest := debited[to];
    AccountDao.Update(debited, WithBalance(dest, dest.balance + amount))
  }

  /** A successful transfer keeps every store invariant. */
  lemma TransferKeepsInvariants(s: Store, d: TransferDetails, postedOn: Timestamp, suffix: Suffix)
    requires Valid(s)
    requires DebitId(suffix) !in s.transactions && CreditId(suffix) !in s.transactions
    ensures var r := Transfer(s, d, postedOn, suffix);
      && (r.Ok? ==> Valid(r.value))
      && (r.Ok? && CustomerLinksResolve(s) ==> CustomerLinksResolve(r.value))
      && (r.Ok? && PostingsResolve(s) ==> PostingsResolve(r.value))
  {
  }

  /** A transfer only moves money: the total over all accounts is unchanged. */
  lemma TransferConservesTotal(s: Store, d: TransferDetails, postedOn: Timestamp, suffix: Suffix)
    requires Valid(s)
    requires DebitId(suffix) !in s.transactions && CreditId(suffix) !in s.transactions
    ensures var r := Transfer(s, d, postedOn, suffix);
      r.Ok? ==> TotalBalance(r.value.accounts) == TotalBalance(s.accounts)
  {
    var r := Transfer(s, d, postedOn, suffix);
    if r.Ok? {
      var a, a' := s.accounts, r.value.accounts;
      var f, t := d.fromAccountId, d.toAccountId;
      if f == t {
        assert a' == a;
      } else {
        var m1 := a[f := a'[f]];
        TotalAfterUpdate(a, f, a'[f]);
        TotalAfterUpdate(m1, t, a'[t]);
        assert m1[t := a'[t]] == a';
      }
    }
  }

  /**
   * The new postings are listed under their accounts: the source's listing
   * gains the DEBIT posting, the destination's the CREDIT one, and every
   * other account's listing stays as it was.
   */
  lemma TransferListsPostings(s: Store, d: TransferDetails, postedOn: Timestamp, suffix: Suffix, id: string)
    requires Valid(s)
    requires DebitId(suffix) !in s.transactions && CreditId(suffix) !in s.transactions
    ensures var r := Transfer(s, d, postedOn, suffix);
      r.Ok? ==>
        PostingsOf(r.value, id)
        == PostingsOf(s, id)
           + (if id == d.fromAccountId then {DebitPosting(d, postedOn, suffix)} else {})
           + (if id == d.toAccountId then {CreditPosting(d, postedOn, suffix)} else {})
  {
  }

  /** Omitting the amount leaves it at its default of 0, which is rejected. */
  lemma TransferWithoutAmountRejected(s: Store, from: string, to: string, postedOn: Timestamp, suffix: Suffix)
    requires Valid(s)
    requires DebitId(suffix) !in s.transactions && CreditId(suffix) !in s.transactions
    ensures Transfer(s, TransferDetails(from, to, DefaultAmount), postedOn, suffix) == Err(BadRequest)
  {
  }

  /**
   * Nothing stops a transfer from overdrawing its source: any amount above
   * a Checking or Savings balance is accepted and leaves it negative.
   */
  lemma TransferMayOverdraw(s: Store, d: TransferDetails, postedOn: Timestamp, suffix: Suffix)
    requires Valid(s)
    requires DebitId(suffix) !in s.transactions && CreditId(suffix) !in s.transactions
    requires d.fromAccountId in s.accounts && d.toAccountId in s.accounts
    requires d.fromAccountId != d.toAccountId
    requires s.accounts[d.fromAccountId].accountType != Loan
    requires 0 < s.accounts[d.fromAccountId].balance < d.amount
    ensures var r := Transfer(s, d, postedOn, suffix);
      r.Ok? && r.value.accounts[d.fromAccountId].balance < 0
  {
  }

  /**
   * A Loan destination is credited like any other account: its balance
   * grows by the amount.
   */
  lemma LoanDestinationIsCredited(s: Store, d: TransferDetails, postedOn: Timestamp, suffix: Suffix)
    requires Valid(s)
    requires DebitId(suffix) !in s.transactions && CreditId(suffix) !in s.transactions
    requires d.toAccountId in s.accounts && s.accounts[d.toAccountId].accountType == Loan
    requires d.fromAccountId != d.toAccountId
    ensures var r := Transfer(s, d, postedOn, suffix);
      r.Ok? ==> r.value.accounts[d.toAccountId].balance == s.accounts[d.toAccountId].balance + d.amount
  {
  }
}
