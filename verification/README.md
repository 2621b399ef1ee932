# Banking ledger bookkeeping, modelled in Dafny

This project models the bookkeeping behind a small banking REST service
(Dropwizard, Hibernate). The service keeps accounts, postings
(`Transaction` records) and customers. Money moves only through the
transfer endpoint. Each endpoint is modelled as one atomic, pure transition
over an in-memory `Database.Store`. The store holds three maps keyed by
string id: accounts, transactions and customers. An endpoint returns
`Ok(newStore)` or, on the inputs the model covers, one of the three error
kinds the JAX-RS resources throw: `BadRequest`, `NotFound` or `NotAuthorized`. An `Err` result carries no
store, so a rejected call leaves the store as it was.

Modules, one per source unit:

- `Wrappers`: `Option` (nullable fields, Guava `Optional`) and `Result`.
- `Table`: the keyed operations both DAOs perform alike. These are the `get`
  by primary key that they inherit from Dropwizard's `AbstractDAO`, and the
  session `merge` and `delete` that each DAO's own `update` and `delete` call.
- `Model`: the `Account`, `Transaction`, `Customer` and `TransferDetails`
  records, the `AccountType` and `TransactionType` enums, the `@With`
  copies and the field defaults. Amounts are integers (cents).
- `Ids`: the generated ids. These are the account type prefix `LN`/`SA`/`CH`,
  `CID` for customers, and `DB`/`CR` for postings, each followed by a
  6-hex-digit suffix. The suffix is taken from a random UUID and is passed
  in as a parameter.
- `Text`: substring matching, which is what the `LIKE '%…%'` email search means.
- `Database`: the store, its invariants and the derived relations. The
  invariants are: every record sits under its own id; every customer link
  resolves; every posting's account exists. The derived relations are a
  customer's `accounts` and an account's `transactions`. The module also
  defines the total of all balances.
- `AccountDao`, `CustomerDao`, `TransactionDao`: the DAOs as map operations.
- `AccountResource`, `CustomerResource`, `TransactionResource`: the endpoints.
- `LedgerLaws`: a law that spans two resources.

Modelling decisions:

- **Self-transfer.** The code does not reject `from == to`. Within one
  Hibernate session both lookups return the same managed object, so the
  credit on line 60 reads the balance that the debit on line 59 left. The
  model does the same. A self-transfer therefore appends both postings and
  leaves the balance as it was.
- **Total balance.** Because of that reading, a transfer preserves the total
  of all balances in every case (`TransferConservesTotal`).
- **Fresh ids.** A generated id is assumed fresh, as a `requires`. What
  happens on an id collision is not modelled.
- **`createdOn`.** `AccountResource.java:53` stamps a `createdOn` date, but
  `Account.java` declares no such field. The model keeps a `createdOn`
  field so that the stamp is visible.
- **`postedOn`.** `TransactionResource.java:48,55` pass a formatted
  `String` to `setPostedOn`, but `Transaction.java:39` declares `postedOn`
  as a `Date`. The opaque `Timestamp` type covers both readings.
- **The transfer code does less than a typical ledger, and the model follows it:**
  - All transfer rejections are `BadRequest`. There are no distinct
    not-found or ineligible-source kinds.
  - There is no insufficient-funds check. An overdraft is accepted
    (`TransferMayOverdraw`).
  - A Loan destination is credited (+amount), not reduced
    (`LoanDestinationIsCredited`).
  - Postings' `balanceBefore` and `balanceAfter` snapshots are never set,
    so they stay 0.
  - Empty ids are not checked separately. An empty id is simply not found.
- **Deleting an account with postings.** `DeleteAccountCanOrphanPostings`
  assumes the database has no foreign-key constraint on
  `transactions.account_id`. The schema is not part of this model. With
  such a constraint, the commit at `AccountDAO.java:79` would fail instead.

## Model

| member | source | states |
|---|---|---|
| `TransactionResource.Transfer` | src/main/java/com/bank/app/resource/TransactionResource.java:33-61 | Rejected with BadRequest exactly when amount <= 0, either id is unknown, or the source is a Loan account. On success: exactly two postings are added, DB+suffix DEBIT on the source and CR+suffix CREDIT on the destination, with the same amount and postedOn and zero snapshots, and old postings are kept. The source loses the amount and the destination gains it (Loan included), and their sum is preserved when from != to. A self-transfer leaves the account as it was. Only balances change, all other accounts are unchanged, and customers are untouched. |
| `TransactionResource.PostPair` | src/main/java/com/bank/app/resource/TransactionResource.java:44-58 | Appends exactly the debit and the credit posting under their two fresh ids and keeps every earlier posting. |
| `TransactionResource.MoveBalance` | src/main/java/com/bank/app/resource/TransactionResource.java:59-60 | Debits the source and then credits the destination as line 59 left it. Keys are unchanged and only the two balances change. For distinct accounts the result is -amount / +amount; for the same account nothing changes. |
| `TransactionResource.TransferConservesTotal` | src/main/java/com/bank/app/resource/TransactionResource.java:59-60 | After a successful transfer, the total of all account balances equals the total before. |
| `TransactionResource.TransferListsPostings` | src/main/java/com/bank/app/resource/TransactionResource.java:47-54 | After a transfer, the source's posting list gains exactly the DEBIT posting and the destination's list gains exactly the CREDIT posting. Every other account's list is unchanged. |
| `TransactionResource.TransferKeepsInvariants` | src/main/java/com/bank/app/resource/TransactionResource.java:44-60 | A successful transfer keeps records under their own ids, keeps customer links resolving, and keeps postings pointing at existing accounts. |
| `TransactionResource.TransferWithoutAmountRejected` | src/main/java/com/bank/app/model/TransferDetails.java:17 | A request that omits the amount carries the default 0 and is rejected with BadRequest. |
| `TransactionResource.TransferMayOverdraw` | src/main/java/com/bank/app/resource/TransactionResource.java:36-40 | No funds check exists: a non-Loan source whose balance is below the amount is still debited and ends up negative. |
| `TransactionResource.LoanDestinationIsCredited` | src/main/java/com/bank/app/resource/TransactionResource.java:60 | A Loan destination's balance grows by the amount, like any other destination's. |
| `AccountDao.Add` | src/main/java/com/bank/app/db/AccountDAO.java:26-39 | The account is stored under the id built from its type and the suffix. Its other fields are kept, only the id is set. All earlier entries are unchanged. |
| `Table.Find` | src/main/java/com/bank/app/db/AccountDAO.java:58-60 | Present exactly when the id is a key, and then it is the stored record. `CustomerDAO.findById` (CustomerDAO.java:78-80) is the same lookup. `AccountDao.FindById` and `CustomerDao.FindById` delegate to it. |
| `Table.Put` | src/main/java/com/bank/app/db/AccountDAO.java:67-69 | The record is written under its id, inserting or overwriting, and every other key is untouched. `CustomerDAO.update` (CustomerDAO.java:87-89) is the same merge. `AccountDao.Update` and `CustomerDao.Update` delegate to it. |
| `Table.Remove` | src/main/java/com/bank/app/db/AccountDAO.java:76-80 | Removes exactly the given key and leaves every other entry as it was. `CustomerDAO.delete` (CustomerDAO.java:96-100) is the same deletion. `AccountDao.Delete` and `CustomerDao.Delete` delegate to it. |
| `Ids.Prefix` | src/main/java/com/bank/app/db/AccountDAO.java:29-36 | Every account type's prefix has two characters. |
| `Ids.AccountId` | src/main/java/com/bank/app/db/AccountDAO.java:27-37 | The id has 8 characters: the type's 2-letter prefix, then the 6-character suffix. The type can be read back from the first two characters. |
| `Ids.AccountIdInjective` | src/main/java/com/bank/app/db/AccountDAO.java:29-37 | Two generated account ids are equal exactly when both the types and the suffixes are equal. |
| `Ids.CustomerId` | src/main/java/com/bank/app/db/CustomerDAO.java:26-28 | The id has 9 characters: "CID" followed by the suffix. |
| `Ids.PostingId` | src/main/java/com/bank/app/resource/TransactionResource.java:44-53 | A posting id has 8 characters: "DB" for the debit or "CR" for the credit, followed by the transfer's suffix. |
| `Ids.PostingIdInjective` | src/main/java/com/bank/app/resource/TransactionResource.java:46-53 | Two posting ids are equal exactly when both their types and their suffixes are equal. In particular the debit and credit ids never clash, and they share the suffix. |
| `CustomerDao.Add` | src/main/java/com/bank/app/db/CustomerDAO.java:25-30 | The customer is stored under "CID"+suffix with its payload fields kept. All earlier entries are unchanged. |
| `CustomerDao.FindByEmail` | src/main/java/com/bank/app/db/CustomerDAO.java:63-70 | Exactly the stored customers whose email is present and contains the argument as a substring. |
| `Text.ContainsIsInfix` | src/main/java/com/bank/app/db/CustomerDAO.java:64-65 | The position-by-position scan used for `%arg%` is true exactly when the argument occurs somewhere in the text. |
| `TransactionDao.Add` | src/main/java/com/bank/app/db/TransactionDAO.java:22-24 | Inserts a posting under its fresh id and keeps every earlier posting. |
| `Model.WithBalance` | src/main/java/com/bank/app/model/Account.java:12 | The copy has the new balance and every other field of the original. |
| `Model.WithCustomer` | src/main/java/com/bank/app/model/Account.java:35 | The copy has the new customer link and every other field of the original. |
| `Model.NewPosting` | src/main/java/com/bank/app/model/Transaction.java:28-35 | A posting built for a transfer carries the given id, type, account, time and amount. Both balance snapshots keep their default 0. |
| `AccountResource.AddAccount` | src/main/java/com/bank/app/resource/AccountResource.java:47-56 | Rejected with BadRequest exactly when the type is missing or the opening balance is <= 0. Otherwise exactly one account is added: under the type-prefixed id, with the given type and balance, stamped with the current time, and unlinked. Nothing else changes. |
| `AccountResource.AddAccountKeepsInvariants` | src/main/java/com/bank/app/resource/AccountResource.java:53-54 | Opening an account keeps every store invariant. The total of all balances grows by exactly the opening balance. |
| `AccountResource.DefaultBalanceRejected` | src/main/java/com/bank/app/model/Account.java:30 | A request that leaves the balance at its default 0 is rejected, whether or not it names a type. The same holds for a blank request. |
| `AccountResource.ListPostings` | src/main/java/com/bank/app/resource/AccountResource.java:93-99 | An unknown account gives NotFound. Otherwise the result is exactly the stored postings whose account is that id. |
| `AccountResource.LinkCustomer` | src/main/java/com/bank/app/resource/AccountResource.java:111-124 | Gives NotFound if the account is missing; otherwise gives NotFound if the customer is missing. On success only that account's customer field changes, and it now names the customer. |
| `AccountResource.LinkCustomerMovesAccount` | src/main/java/com/bank/app/model/Customer.java:53-54 | Linking adds the account to the new customer's `accounts` and removes it from every other customer's. Every invariant and the total balance are kept. |
| `AccountResource.DeleteAccount` | src/main/java/com/bank/app/resource/AccountResource.java:134-141 | An unknown id gives NotFound. Otherwise exactly that account is removed and nothing else changes. |
| `AccountResource.DeleteAccountKeepsInvariants` | src/main/java/com/bank/app/resource/AccountResource.java:136-139 | Deletion keeps keys and customer links valid. The total balance falls by the removed account's balance. |
| `AccountResource.DeleteAccountCanOrphanPostings` | src/main/java/com/bank/app/model/Transaction.java:41-44 | Deleting an account that still has postings succeeds and leaves those postings pointing at no account, so referential integrity is not claimed. This assumes no foreign-key constraint in the database schema. |
| `CustomerResource.MergeProfile` | src/main/java/com/bank/app/resource/CustomerResource.java:68-81 | Each of firstName, lastName, ssn, address, email and phone is replaced exactly when the payload supplies it and is kept otherwise. Id and date of birth are always kept. |
| `CustomerResource.MergeProfileIdempotent` | src/main/java/com/bank/app/resource/CustomerResource.java:70-81 | Merging the same payload twice gives the same customer as merging it once. |
| `CustomerResource.MergeEmptyPatch` | src/main/java/com/bank/app/model/Customer.java:31-50 | A payload that supplies no profile field leaves the customer unchanged. |
| `CustomerResource.CreateCustomer` | src/main/java/com/bank/app/resource/CustomerResource.java:33-35 | Adds exactly the payload under a fresh "CID" id. Accounts and postings are untouched and every invariant is kept. |
| `CustomerResource.UpdateCustomer` | src/main/java/com/bank/app/resource/CustomerResource.java:60-83 | An unknown id gives NotFound, before the payload is checked. A payload that supplies a date of birth gives BadRequest. Otherwise only that customer changes, to the field-wise merge. |
| `CustomerResource.UpdateCustomerIdempotent` | src/main/java/com/bank/app/resource/CustomerResource.java:62-82 | Applying an accepted update a second time returns the store the first application produced. |
| `CustomerResource.UpdateCustomerKeepsInvariants` | src/main/java/com/bank/app/resource/CustomerResource.java:68-82 | An update keeps every store invariant and never changes any customer's `accounts`. |
| `CustomerResource.DeleteCustomer` | src/main/java/com/bank/app/resource/CustomerResource.java:88-97 | An unknown id gives NotFound. A customer with a linked account gives NotAuthorized. Success happens exactly when no account links to the customer, and then exactly that customer is removed. |
| `CustomerResource.DeleteCustomerKeepsInvariants` | src/main/java/com/bank/app/resource/CustomerResource.java:93-96 | A deletion keeps every store invariant. In particular, no account is left linked to a missing customer. |
| `LedgerLaws.LinkedCustomerCannotBeDeleted` | src/main/java/com/bank/app/resource/CustomerResource.java:93-95 | Once an account has been linked to a customer, deleting that customer gives NotAuthorized. |

## Left out

- Floating point: balances and amounts are `Double` in the source and exact integers (cents) here, so rounding is not modelled.
- Concurrency and Hibernate mechanics are not modelled: `@UnitOfWork` atomicity, `merge`, the first-level cache (used only for the self-transfer reading), and the explicit commit inside the DAOs' `delete`. Each endpoint is one atomic transition instead.
- Id collisions are not modelled. Generated ids are required to be fresh. On a collision the inherited `persist` may instead update the stored row. Other persistence failures, such as a failing commit, are not modelled either.
- Randomness and clocks are parameters. UUID generation, `new Date()` and the `SimpleDateFormat` rendering of `postedOn` are not modelled, and timestamps are opaque strings.
- A request body that is literally `null` is not modelled. No parameter carries `@NotNull` or `@Valid`, so each endpoint then throws a NullPointerException, a server error: transfer at `TransactionResource.java:34`, addAccount at `AccountResource.java:49`, linkCustomer at `AccountResource.java:119`, updateCustomer at `CustomerResource.java:65`, and createCustomer through `CustomerDAO.java:28`. In the model every payload is present.
- Logging is not modelled: the `log.info` calls in the resources have no effect on the store.
- Null request ids are not modelled. Ids are plain strings, and Hibernate's behaviour on a null lookup key is library code that is not part of this model.
- AccountResource.AddAccount: a payload with a null balance is not modelled. The balance is a nullable `Double` (`Account.java:30`), so `getBalance() <= 0.0` at `AccountResource.java:51` throws a NullPointerException, which is a server error rather than BadRequest. `OpeningRequest.balance` is an integer that is always present.
- The account-opening payload is reduced to its type and balance. The id is generated, the customer back-reference is not deserialized, and the posting list is not persisted from it.
- CustomerDao.FindByEmail: the argument must contain no `%` or `_`, whose wildcard meaning is not modelled. The query has no ESCAPE clause, so the SQL dialect's default escape character (a backslash in MySQL, PostgreSQL and H2) and any other pattern syntax (such as `[...]` classes in SQL Server) are not modelled; for such arguments the plain-substring contract does not describe the query. The database collation (for example case-insensitive matching) is not modelled either.
- The `findAll` operations of accounts, customers and postings return a whole table and are not modelled. The `findById` endpoints pass straight through to the DAO lookups that are modelled.
- Name search is not modelled: `CustomerDAO.findByName` runs a named query that is never declared, so its behaviour cannot be stated. The dispatch in `CustomerResource.findByName` is left out with it.
- Customer's `@With` copies are not modelled, because no endpoint calls them. The update path mutates fields one by one, and `MergeProfile` states that.
- Employees, the Okta authentication, the application wiring and the configuration are not part of this model.
