/** Laws that relate endpoints of different resources. */
module LedgerLaws {
  import opened Wrappers
  import opened Model
  import opened Database
  import AccountResource
  import CustomerResource

  /** Once an account is linked to a customer, that customer cannot be deleted. */
  lemma LinkedCustomerCannotBeDeleted(s: Store, accountId: string, customerId: string)
    requires Valid(s)
    ensures var r := AccountResource.LinkCustomer(s, accountId, customerId);
      r.Ok? ==> CustomerResource.DeleteCustomer(r.value, customerId) == Err(NotAuthorized)
  {
  }
}
