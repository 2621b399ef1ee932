/**
 * The entities of the banking service: accounts, postings (transactions),
 * customers, the transfer request, and the error kinds the endpoints raise.
 * Amounts are exact integers (cents) instead of the source's doubles.
 */
module Model {
  import opened Wrappers

  /** A point in time, kept opaque: formatting and clocks are not modelled. */
  type Timestamp = string

  /** The JAX-RS exceptions the endpoints throw, by HTTP meaning. */
  datatype Error = BadRequest | NotFound | NotAuthorized

  // ----- Account -----

  datatype AccountType = Loan | Checking | Savings

  /**
   * A stored account. `customer` is the optional owning customer's id (a
   * lookup key, never ownership); the account's postings are not stored
   * here but derived from the postings' `account` field.
   */
  datatype Account = Account(
    id: string,
    accountType: AccountType,
    balance: int,
    createdOn: Timestamp,
    customer: Option<string>)

  /** The balance a newly constructed account starts with. */
  const DefaultBalance: int := 0

  /** True when `a` and `b` agree on every field except possibly `balance`. */
  predicate SameButBalance(a: Account, b: Account)
  {
    && a.id == b.id
    && a.accountType == b.accountType
    && a.createdOn == b.createdOn
    && a.customer == b.customer
  }

  /** True when `a` and `b` agree on every field except possibly `customer`. */
  predicate SameButCustomer(a: Account, b: Account)
  {
    && a.id == b.id
    && a.accountType == b.accountType
    && a.balance == b.balance
    && a.createdOn == b.createdOn
  }

  /** The `@With` copy that replaces the balance. */
  function WithBalance(a: Account, balance: int): (r: Account)
    ensures r.balance == balance && SameButBalance(r, a)
  {
    a.(balance := balance)
  }

  /** The `@With` copy that replaces the customer link. */
  function WithCustomer(a: Account, customer: Option<string>): (r: Account)
    ensures r.customer == customer && SameButCustomer(r, a)
  {
    a.(customer := customer)
  }

  /**
   * The JSON body of an account-opening request. Of the Account payload only
   * the (nullable) type and the balance reach the store: the id is generated,
   * the customer back-reference is not deserialized, and the posting list is
   * the inverse side of a relation.
   */
  datatype OpeningRequest = OpeningRequest(accountType: Option<AccountType>, balance: int)

  /** The payload of `new Account()`: no type and the default balance. */
  const BlankOpeningRequest: OpeningRequest := OpeningRequest(None, DefaultBalance)

  // ----- Transaction (a posting) -----

  datatype TransactionType = CREDIT | DEBIT

  /**
   * One posting against one account. `account` is the owning account's id
   * and is never absent, because the join column is non-nullable.
   */
  datatype Transaction = Transaction(
    id: string,
    transactionType: TransactionType,
    amount: int,
    balanceBefore: int,
    balanceAfter: int,
    postedOn: Timestamp,
    account: string)

  /** The default of the amount and of both balance snapshots. */
  const DefaultSnapshot: int := 0

  /**
   * A posting built the way the transfer builds one: a fresh object whose
   * id, account, timestamp, amount and type are set; the two balance
   * snapshots keep their defaults.
   */
  function NewPosting(id: string, transactionType: TransactionType, account: string,
                      postedOn: Timestamp, amount: int): (r: Transaction)
    ensures r.id == id && r.transactionType == transactionType && r.account == account
    ensures r.postedOn == postedOn && r.amount == amount
    ensures r.balanceBefore == DefaultSnapshot && r.balanceAfter == DefaultSnapshot
  {
    Transaction(id, transactionType, amount, DefaultSnapshot, DefaultSnapshot, postedOn, account)
  }

  // ----- Customer -----

  /**
   * A customer. Every profile field is nullable; in an update payload
   * `None` means "not supplied". The customer's accounts are not stored
   * here but derived from the accounts' `customer` field.
   */
  datatype Customer = Customer(
    id: string,
    firstName: Option<string>,
    lastName: Option<string>,
    address: Option<string>,
    email: Option<string>,
    phone: Option<string>,
    dateOfBirth: Option<string>,
    ssn: Option<string>)

  // ----- Transfer request -----

  /** The amount a transfer request carries when the field is omitted. */
  const DefaultAmount: int := 0

  datatype TransferDetails = TransferDetails(fromAccountId: string, toAccountId: string, amount: int)
}
