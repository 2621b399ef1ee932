/**
 * The in-memory store: three tables keyed by id, the representation
 * invariants the persistence layer keeps, the derived (inverse) relations,
 * and the total of all account balances.
 */
module Database {
  import opened Wrappers
  import opened Model

  datatype Store = Store(
    accounts: map<string, Account>,
    transactions: map<string, Transaction>,
    customers: map<string, Customer>)

  const EmptyStore: Store := Store(map[], map[], map[])

  /** Every record sits under its own primary key. */
  predicate Valid(s: Store)
  {
    && (forall k | k in s.accounts :: s.accounts[k].id == k)
    && (forall k | k in s.transactions :: s.transactions[k].id == k)
    && (forall k | k in s.customers :: s.customers[k].id == k)
  }

  /** Every account's customer link names a stored customer. */
  predicate CustomerLinksResolve(s: Store)
  {
    forall k | k in s.accounts && s.accounts[k].customer.Some? :: s.accounts[k].customer.value in s.customers
  }

  /** Every posting belongs to a stored account. */
  predicate PostingsResolve(s: Store)
  {
    forall k | k in s.transactions :: s.transactions[k].account in s.accounts
  }

  /** A customer's `accounts`: the ids of the accounts that point at it. */
  function LinkedAccounts(s: Store, customerId: string): set<string>
  {
    set k | k in s.accounts && s.accounts[k].customer == Some(customerId)
  }

  /** The empty store satisfies every invariant, so each holds from the start. */
  lemma EmptyStoreInvariants()
    ensures Valid(EmptyStore) && CustomerLinksResolve(EmptyStore) && PostingsResolve(EmptyStore)
  {
  }

  /** An account's `transactions`: the postings that point at it. */
  function PostingsOf(s: Store, accountId: string): set<Transaction>
  {
    set t | t in s.transactions.Values && t.account == accountId
  }

  // ----- Sum of balances -----

  /** The sum of the balances of the accounts stored under the keys `ks`. */
  ghost function SumBalances(m: map<string, Account>, ks: set<string>): int
    requires ks <= m.Keys
    decreases ks
  {
    if ks == {} then 0
    else
      var k :| k in ks;
      m[k].balance + SumBalances(m, ks - {k})
  }

  /** The money held by all accounts together. */
  ghost function TotalBalance(m: map<string, Account>): int
  {
    SumBalances(m, m.Keys)
  }

  /** The sum can be split at any key, not only at the one the definition picks. */
  lemma {:induction false} SumPick(m: map<string, Account>, ks: set<string>, x: string)
    requires ks <= m.Keys && x in ks
    ensures SumBalances(m, ks) == m[x].balance + SumBalances(m, ks - {x})
    decreases ks
  {
    var k :| k in ks && SumBalances(m, ks) == m[k].balance + SumBalances(m, ks - {k});
    if k != x {
      SumPick(m, ks - {k}, x);
      SumPick(m, ks - {x}, k);
      assert ks - {k} - {x} == ks - {x} - {k};
    }
  }

  /** Two maps whose balances agree on `ks` have the same sum over `ks`. */
  lemma {:induction false} SumAgree(m1: map<string, Account>, m2: map<string, Account>, ks: set<string>)
    requires ks <= m1.Keys && ks <= m2.Keys
    requires forall k | k in ks :: m1[k].balance == m2[k].balance
    ensures SumBalances(m1, ks) == SumBalances(m2, ks)
    decreases ks
  {
    if ks != {} {
      var x :| x in ks;
      SumPick(m1, ks, x);
      SumPick(m2, ks, x);
      SumAgree(m1, m2, ks - {x});
    }
  }

  /** Overwriting one stored account changes the total by its change of balance. */
  lemma TotalAfterUpdate(m: map<string, Account>, x: string, a: Account)
    requires x in m
    ensures TotalBalance(m[x := a]) == TotalBalance(m) - m[x].balance + a.balance
  {
    var m' := m[x := a];
    assert m'.Keys == m.Keys;
    SumPick(m', m.Keys, x);
    SumPick(m, m.Keys, x);
    SumAgree(m', m, m.Keys - {x});
  }

  /** Inserting a new account adds its balance to the total. */
  lemma TotalAfterInsert(m: map<string, Account>, x: string, a: Account)
    requires x !in m
    ensures TotalBalance(m[x := a]) == TotalBalance(m) + a.balance
  {
    var m' := m[x := a];
    assert m'.Keys == m.Keys + {x};
    SumPick(m', m'.Keys, x);
    assert m'.Keys - {x} == m.Keys;
    SumAgree(m', m, m.Keys);
  }

  /** Removing an account takes its balance out of the total. */
  lemma TotalAfterRemove(m: map<string, Account>, x: string)
    requires x in m
    ensures TotalBalance(m - {x}) == TotalBalance(m) - m[x].balance
  {
    var m' := m - {x};
    assert m'.Keys == m.Keys - {x};
    SumPick(m, m.Keys, x);
    SumAgree(m', m, m'.Keys);
  }
}
