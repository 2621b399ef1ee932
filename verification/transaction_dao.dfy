/** The posting table: postings are only ever added. */
module TransactionDao {
  import opened Model

  /**
   * Inserts a posting under its id. The id is taken to be fresh: what
   * happens on an id collision is not modelled.
   */
  function Add(transactions: map<string, Transaction>, t: Transaction): (r: map<string, Transaction>)
    requires t.id !in transactions
    ensures r.Keys == transactions.Keys + {t.id}
    ensures r[t.id] == t
    ensures forall k | k in transactions :: r[k] == transactions[k]
  {
    transactions[t.id := t]
  }
}
