/** The customer endpoints: create, partial update, guarded delete. */
module CustomerResource {
  import opened Wrappers
  import opened Model
  import opened Ids
  import opened Database
  import CustomerDao

  /** A supplied value replaces the current one; an absent one keeps it. */
  function Overlay(supplied: Option<string>, current: Option<string>): Option<string>
  {
    if supplied.Some? then supplied else current
  }

  /**
   * The field-wise merge of an update payload into a stored customer: each
   * of the six editable profile fields is replaced exactly when the payload
   * supplies it; id and date of birth are kept.
   */
  function MergeProfile(current: Customer, patch: Customer): (r: Customer)
    ensures patch.firstName.Some? ==> r.firstName == patch.firstName
    ensures patch.firstName.None? ==> r.firstName == current.firstName
    ensures patch.lastName.Some? ==> r.lastName == patch.lastName
    ensures patch.lastName.None? ==> r.lastName == current.lastName
    ensures patch.ssn.Some? ==> r.ssn == patch.ssn
    ensures patch.ssn.None? ==> r.ssn == current.ssn
    ensures patch.address.Some? ==> r.address == patch.address
    ensures patch.address.None? ==> r.address == current.address
    ensures patch.email.Some? ==> r.email == patch.email
    ensures patch.email.None? ==> r.email == current.email
    ensures patch.phone.Some? ==> r.phone == patch.phone
    ensures patch.phone.None? ==> r.phone == current.phone
    ensures r.id == current.id && r.dateOfBirth == current.dateOfBirth
  {
    current.(
      firstName := Overlay(patch.firstName, current.firstName),
      lastName := Overlay(patch.lastName, current.lastName),
      ssn := Overlay(patch.ssn, current.ssn),
      address := Overlay(patch.address, current.address),
      email := Overlay(patch.email, current.email),
      phone := Overlay(patch.phone, current.phone))
  }

  /** Creates a customer from the payload under a `CID` id. */
  function CreateCustomer(s: Store, payload: Customer, suffix: Suffix): (r: Store)
    requires Valid(s)
    requires CustomerId(suffix) !in s.customers
    ensures var id := CustomerId(suffix);
      && r.customers.Keys == s.customers.Keys + {id}
      && r.customers[id] == payload.(id := id)
      && (forall k | k in s.customers :: r.customers[k] == s.customers[k])
      && r.accounts == s.accounts
      && r.transactions == s.transactions
      && Valid(r)
      && (CustomerLinksResolve(s) ==> CustomerLinksResolve(r))
      && (PostingsResolve(s) ==> PostingsResolve(r))
  {
    s.(customers := CustomerDao.Add(s.customers, payload, suffix))
  }

  /**
   * Updates a customer from a payload. An unknown id gives NotFound before
   * the payload is looked at; a payload that supplies a date of birth gives
   * BadRequest; otherwise the payload is merged field by field.
   */
  function UpdateCustomer(s: Store, id: string, patch: Customer): (r: Result<Store, Error>)
    requires Valid(s)
    ensures id !in s.customers ==> r == Err(NotFound)
    ensures id in s.customers && patch.dateOfBirth.Some? ==> r == Err(BadRequest)
    ensures r.Ok? <==> id in s.customers && patch.dateOfBirth.None?
    ensures r.Ok? ==>
      && r.value.customers.Keys == s.customers.Keys
      && r.value.customers[id] == MergeProfile(s.customers[id], patch)
      && (forall k | k in s.customers && k != id :: r.value.customers[k] == s.customers[k])
      && r.value.accounts == s.accounts
      && r.value.transactions == s.transactions
  {
    match CustomerDao.FindById(s.customers, id)
    case None => Err(NotFound)
    case Some(current) =>
      if patch.dateOfBirth.Some? then Err(BadRequest)
      else Ok(s.(customers := CustomerDao.Update(s.customers, MergeProfile(current, patch))))
  }

  /**
   * Deletes a customer. An unknown id gives NotFound; a customer that still
   * has linked accounts gives NotAuthorized.
   */
  function DeleteCustomer(s: Store, id: string): (r: Result<Store, Error>)
    requires Valid(s)
    ensures id !in s.customers ==> r == Err(NotFound)
    ensures id in s.customers && LinkedAccounts(s, id) != {} ==> r == Err(NotAuthorized)
    ensures r.Ok? <==> id in s.customers && forall k | k in s.accounts :: s.accounts[k].customer != Some(id)
    ensures r.Ok? ==>
      && r.value.customers.Keys == s.customers.Keys - {id}
      && (forall k | k in r.value.customers :: r.value.customers[k] == s.customers[k])
      && r.value.accounts == s.accounts
      && r.value.transactions == s.transactions
  {
    match CustomerDao.FindById(s.customers, id)
    case None => Err(NotFound)
    case Some(_) =>
      if |LinkedAccounts(s, id)| > 0 then Err(NotAuthorized)
      else
        assert forall k | k in s.accounts :: s.accounts[k].customer != Some(id) by {
          forall k | k in s.accounts ensures s.accounts[k].customer != Some(id) {
            assert k !in LinkedAccounts(s, id);
          }
        }
        Ok(s.(customers := CustomerDao.Delete(s.customers, id)))
  }

  // ----- Invariants and laws -----

  /** Merging the same payload a second time changes nothing more. */
  lemma MergeProfileIdempotent(current: Customer, patch: Customer)
    ensures MergeProfile(MergeProfile(current, patch), patch) == MergeProfile(current, patch)
  {
  }

  /** A payload that supplies nothing leaves the customer as it was. */
  lemma MergeEmptyPatch(current: Customer, patch: Customer)
    requires patch.firstName.None? && patch.lastName.None? && patch.ssn.None?
    requires patch.address.None? && patch.email.None? && patch.phone.None?
    ensures MergeProfile(current, patch) == current
  {
  }

  /** Sending the same update twice gives the store one update gives. */
  lemma UpdateCustomerIdempotent(s: Store, id: string, patch: Customer)
    requires Valid(s)
    ensures var r := UpdateCustomer(s, id, patch);
      r.Ok? ==> Valid(r.value) && UpdateCustomer(r.value, id, patch) == r
  {
    var r := UpdateCustomer(s, id, patch);
    if r.Ok? {
      var merged := MergeProfile(s.customers[id], patch);
      assert r.value.customers == s.customers[id := merged];
      MergeProfileIdempotent(s.customers[id], patch);
      assert r.value.customers[id := MergeProfile(merged, patch)] == r.value.customers;
    }
  }

  /**
   * An update keeps every store invariant and never changes which accounts
   * a customer has.
   */
  lemma UpdateCustomerKeepsInvariants(s: Store, id: string, patch: Customer, c: string)
    requires Valid(s)
    ensures var r := UpdateCustomer(s, id, patch);
      && (r.Ok? ==> Valid(r.value))
      && (r.Ok? && CustomerLinksResolve(s) ==> CustomerLinksResolve(r.value))
      && (r.Ok? && PostingsResolve(s) ==> PostingsResolve(r.value))
      && (r.Ok? ==> LinkedAccounts(r.value, c) == LinkedAccounts(s, c))
  {
  }

  /**
   * Deleting a customer keeps every store invariant; in particular no
   * account is left linked to a customer that no longer exists.
   */
  lemma DeleteCustomerKeepsInvariants(s: Store, id: string)
    requires Valid(s)
    ensures var r := DeleteCustomer(s, id);
      && (r.Ok? ==> Valid(r.value))
      && (r.Ok? && CustomerLinksResolve(s) ==> CustomerLinksResolve(r.value))
      && (r.Ok? && PostingsResolve(s) ==> PostingsResolve(r.value))
  {
  }
}
