/** The account endpoints: open, list postings, link to a customer, delete. */
module AccountResource {
  import opened Wrappers
  import opened Model
  import opened Ids
  import opened Database
  import AccountDao
  import CustomerDao

  /**
   * Opens an account: the type must be given and the opening balance must
   * be positive; the account is stamped with `now` and stored under its
   * type-prefixed id, unlinked.
   */
  function AddAccount(s: Store, req: OpeningRequest, now: Timestamp, suffix: Suffix): (r: Result<Store, Error>)
    requires Valid(s)
    requires req.accountType.Some? ==> AccountId(req.accountType.value, suffix) !in s.accounts
    ensures r.Ok? <==> req.accountType.Some? && req.balance > 0
    ensures r.Err? ==> r.error == BadRequest
    ensures r.Ok? ==>
      var id := AccountId(req.accountType.value, suffix);
      && r.value.accounts.Keys == s.accounts.Keys + {id}
      && r.value.accounts[id] == Account(id, req.accountType.value, req.balance, now, None)
      && (forall k | k in s.accounts :: r.value.accounts[k] == s.accounts[k])
      && r.value.transactions == s.transactions
      && r.value.customers == s.customers
  {
    if req.accountType.None? then
      Err(BadRequest)
    else if req.balance <= 0 then
      Err(BadRequest)
    else
      var account := Account("", req.accountType.value, req.balance, now, None);
      Ok(s.(accounts := AccountDao.Add(s.accounts, account, suffix)))
  }

  /** The postings recorded against an account. */
  function ListPostings(s: Store, id: string): (r: Result<set<Transaction>, Error>)
    ensures id !in s.accounts ==> r == Err(NotFound)
    ensures id in s.accounts ==> r.Ok?
    ensures r.Ok? ==> forall t :: t in r.value <==> t in s.transactions.Values && t.account == id
  {
    match AccountDao.FindById(s.accounts, id)
    case None => Err(NotFound)
    case Some(_) => Ok(PostingsOf(s, id))
  }

  /**
   * Links an account to a customer. The account is looked up first, then
   * the customer; whichever is missing gives NotFound.
   */
  function LinkCustomer(s: Store, accountId: string, customerId: string): (r: Result<Store, Error>)
    requires Valid(s)
    ensures accountId !in s.accounts ==> r == Err(NotFound)
    ensures accountId in s.accounts && customerId !in s.customers ==> r == Err(NotFound)
    ensures r.Ok? <==> accountId in s.accounts && customerId in s.customers
    ensures r.Ok? ==>
      var a, a' := s.accounts, r.value.accounts;
      && a'.Keys == a.Keys
      && a'[accountId].customer == Some(customerId)
      && SameButCustomer(a'[accountId], a[accountId])
      && (forall k | k in a && k != accountId :: a'[k] == a[k])
      && r.value.transactions == s.transactions
      && r.value.customers == s.customers
  {
    match AccountDao.FindById(s.accounts, accountId)
    case None => Err(NotFound)
    case Some(account) =>
      match CustomerDao.FindById(s.customers, customerId)
      case None => Err(NotFound)
      case Some(customer) =>
        Ok(s.(accounts := AccountDao.Update(s.accounts, WithCustomer(account, Some(customer.id)))))
  }

  /**
   * Deletes an account. Nothing guards against postings that still point
   * at it.
   */
  function DeleteAccount(s: Store, id: string): (r: Result<Store, Error>)
    requires Valid(s)
    ensures r.Err? <==> id !in s.accounts
    ensures r.Err? ==> r.error == NotFound
    ensures r.Ok? ==>
      && r.value.accounts.Keys == s.accounts.Keys - {id}
      && (forall k | k in r.value.accounts :: r.value.accounts[k] == s.accounts[k])
      && r.value.transactions == s.transactions
      && r.value.customers == s.customers
  {
    match AccountDao.FindById(s.accounts, id)
    case None => Err(NotFound)
    case Some(_) => Ok(s.(accounts := AccountDao.Delete(s.accounts, id)))
  }

  // ----- Invariants and laws -----

  /** Opening an account keeps every store invariant and adds its balance to the total. */
  lemma AddAccountKeepsInvariants(s: Store, req: OpeningRequest, now: Timestamp, suffix: Suffix)
    requires Valid(s)
    requires req.accountType.Some? ==> AccountId(req.accountType.value, suffix) !in s.accounts
    ensures var r := AddAccount(s, req, now, suffix);
      && (r.Ok? ==> Valid(r.value))
      && (r.Ok? && CustomerLinksResolve(s) ==> CustomerLinksResolve(r.value))
      && (r.Ok? && PostingsResolve(s) ==> PostingsResolve(r.value))
      && (r.Ok? ==> TotalBalance(r.value.accounts) == TotalBalance(s.accounts) + req.balance)
  {
    var r := AddAccount(s, req, now, suffix);
    if r.Ok? {
      var id := AccountId(req.accountType.value, suffix);
      assert r.value.accounts == s.accounts[id := r.value.accounts[id]];
      TotalAfterInsert(s.accounts, id, r.value.accounts[id]);
    }
  }

  /** A request that leaves the balance at its default is refused, whatever its type. */
  lemma DefaultBalanceRejected(s: Store, t: Option<AccountType>, now: Timestamp, suffix: Suffix)
    requires Valid(s)
    requires t.Some? ==> AccountId(t.value, suffix) !in s.accounts
    ensures AddAccount(s, OpeningRequest(t, DefaultBalance), now, suffix) == Err(BadRequest)
    ensures AddAccount(s, BlankOpeningRequest, now, suffix) == Err(BadRequest)
  {
  }

  /**
   * Linking moves the account into the new customer's `accounts` and out
   * of every other customer's, and keeps every store invariant.
   */
  lemma LinkCustomerMovesAccount(s: Store, accountId: string, customerId: string, other: string)
    requires Valid(s)
    requires other != customerId
    ensures var r := LinkCustomer(s, accountId, customerId);
      && (r.Ok? ==> LinkedAccounts(r.value, customerId) == LinkedAccounts(s, customerId) + {accountId})
      && (r.Ok? ==> LinkedAccounts(r.value, other) == LinkedAccounts(s, other) - {accountId})
      && (r.Ok? ==> Valid(r.value))
      && (r.Ok? && CustomerLinksResolve(s) ==> CustomerLinksResolve(r.value))
      && (r.Ok? && PostingsResolve(s) ==> PostingsResolve(r.value))
      && (r.Ok? ==> TotalBalance(r.value.accounts) == TotalBalance(s.accounts))
  {
    var r := LinkCustomer(s, accountId, customerId);
    if r.Ok? {
      assert r.value.accounts == s.accounts[accountId := r.value.accounts[accountId]];
      TotalAfterUpdate(s.accounts, accountId, r.value.accounts[accountId]);
    }
  }

  /**
   * Deleting an account keeps the key and customer-link invariants and
   * takes its balance out of the total.
   */
  lemma DeleteAccountKeepsInvariants(s: Store, id: string)
    requires Valid(s)
    ensures var r := DeleteAccount(s, id);
      && (r.Ok? ==> Valid(r.value))
      && (r.Ok? && CustomerLinksResolve(s) ==> CustomerLinksResolve(r.value))
      && (r.Ok? ==> TotalBalance(r.value.accounts) == TotalBalance(s.accounts) - s.accounts[id].balance)
  {
    var r := DeleteAccount(s, id);
    if r.Ok? {
      assert r.value.accounts == s.accounts - {id};
      TotalAfterRemove(s.accounts, id);
    }
  }

  /**
   * Deleting an account that still has postings succeeds and leaves those
   * postings pointing at nothing: the deletion does not keep the posting
   * table's references intact.
   */
  lemma DeleteAccountCanOrphanPostings(s: Store, id: string, postingId: string)
    requires Valid(s)
    requires postingId in s.transactions && s.transactions[postingId].account == id
    requires id in s.accounts
    ensures var r := DeleteAccount(s, id);
      r.Ok? && !PostingsResolve(r.value)
  {
  }
}
