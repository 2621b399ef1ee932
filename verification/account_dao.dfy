/** The account table's persistence operations, as map transitions. */
module AccountDao {
  import opened Wrappers
  import opened Model
  import opened Ids
  import Table

  /**
   * Gives the account the id its type and the suffix determine, then
   * inserts it. The generated id is taken to be fresh: what happens on an
   * id collision is not modelled.
   */
  function Add(accounts: map<string, Account>, a: Account, suffix: Suffix): (r: map<string, Account>)
    requires AccountId(a.accountType, suffix) !in accounts
    ensures var id := AccountId(a.accountType, suffix);
      && r.Keys == accounts.Keys + {id}
      && r[id].id == id && r[id].accountType == a.accountType && r[id].balance == a.balance
      && r[id].createdOn == a.createdOn && r[id].customer == a.customer
      && (forall k | k in accounts :: r[k] == accounts[k])
  {
    var id := AccountId(a.accountType, suffix);
    accounts[id := a.(id := id)]
  }

  function FindById(accounts: map<string, Account>, id: string): Option<Account>
  {
    Table.Find(accounts, id)
  }

  /** Writes the record under its own id. */
  function Update(accounts: map<string, Account>, a: Account): map<string, Account>
  {
    Table.Put(accounts, a.id, a)
  }

  function Delete(accounts: map<string, Account>, id: string): map<string, Account>
    requires id in accounts
  {
    Table.Remove(accounts, id)
  }
}
