/** The customer table's persistence operations, as map transitions. */
module CustomerDao {
  import opened Wrappers
  import opened Model
  import opened Ids
  import Table
  import opened Text

  /** Gives the customer the id `CID` plus the suffix, then inserts it. */
  function Add(customers: map<string, Customer>, c: Customer, suffix: Suffix): (r: map<string, Customer>)
    requires CustomerId(suffix) !in customers
    ensures var id := CustomerId(suffix);
      && r.Keys == customers.Keys + {id}
      && r[id] == c.(id := id)
      && (forall k | k in customers :: r[k] == customers[k])
  {
    var id := CustomerId(suffix);
    customers[id := c.(id := id)]
  }

  function FindById(customers: map<string, Customer>, id: string): Option<Customer>
  {
    Table.Find(customers, id)
  }

  /** Writes the record under its own id. */
  function Update(customers: map<string, Customer>, c: Customer): map<string, Customer>
  {
    Table.Put(customers, c.id, c)
  }

  function Delete(customers: map<string, Customer>, id: string): map<string, Customer>
    requires id in customers
  {
    Table.Remove(customers, id)
  }

  /**
   * The customers whose email matches `LIKE '%pattern%'`: those with an
   * email that contains `pattern`. A customer without an email never
   * matches. The pattern is taken to carry no wildcard of its own.
   */
  function FindByEmail(customers: map<string, Customer>, pattern: string): (r: set<Customer>)
    requires '%' !in pattern && '_' !in pattern
    ensures forall c :: c in r <==> c in customers.Values && c.email.Some? && IsInfix(pattern, c.email.value)
  {
    assert forall e :: Contains(e, pattern) <==> IsInfix(pattern, e) by {
      forall e { ContainsIsInfix(e, pattern); }
    }
    set c | c in customers.Values && c.email.Some? && Contains(c.email.value, pattern)
  }
}
