/**
 * Identifier generation. The random part is a 6-character suffix taken from
 * a random UUID (characters 1 to 6 of its text, all inside the first group
 * of hex digits); it is passed in, so generation itself is deterministic.
 */
module Ids {
  import opened Wrappers
  import opened Model

  const HexDigits: string := "0123456789abcdef"

  predicate IsSuffix(s: string)
  {
    |s| == 6 && forall i :: 0 <= i < |s| ==> s[i] in HexDigits
  }

  /** Six lower-case hex digits. */
  type Suffix = s: string | IsSuffix(s) witness "000000"

  /** The two-letter id prefix of an account type. */
  function Prefix(t: AccountType): (p: string)
    ensures |p| == 2
  {
    match t
    case Loan => "LN"
    case Savings => "SA"
    case Checking => "CH"
  }

  /** Reads an account type back from an id prefix. */
  function TypeOfPrefix(p: string): Option<AccountType>
  {
    if p == "LN" then Some(Loan)
    else if p == "SA" then Some(Savings)
    else if p == "CH" then Some(Checking)
    else None
  }

  /** The id `AccountDAO.add` gives an account: type prefix, then suffix. */
  function AccountId(t: AccountType, s: Suffix): (id: string)
    ensures |id| == 8
    ensures id[..2] == Prefix(t) && id[2..] == s
    ensures TypeOfPrefix(id[..2]) == Some(t)
  {
    Prefix(t) + s
  }

  /** Distinct types or distinct suffixes never produce the same account id. */
  lemma AccountIdInjective(t1: AccountType, s1: Suffix, t2: AccountType, s2: Suffix)
    ensures AccountId(t1, s1) == AccountId(t2, s2) <==> t1 == t2 && s1 == s2
  {
  }

  /** The id `CustomerDAO.add` gives a customer. */
  function CustomerId(s: Suffix): (id: string)
    ensures |id| == 9 && id[..3] == "CID" && id[3..] == s
  {
    "CID" + s
  }

  /** The two-letter id prefix of a posting type. */
  function PostingPrefix(t: TransactionType): string
  {
    match t
    case DEBIT => "DB"
    case CREDIT => "CR"
  }

  /** The id of a transfer posting: type prefix, then the transfer's suffix. */
  function PostingId(t: TransactionType, s: Suffix): (id: string)
    ensures |id| == 8 && id[..2] == PostingPrefix(t) && id[2..] == s
    ensures id[0] == (if t == DEBIT then 'D' else 'C')
  {
    PostingPrefix(t) + s
  }

  function DebitId(s: Suffix): string
  {
    PostingId(DEBIT, s)
  }

  function CreditId(s: Suffix): string
  {
    PostingId(CREDIT, s)
  }

  /**
   * Posting ids of different types never coincide, each one determines its
   * suffix, and the two postings of one transfer share it.
   */
  lemma PostingIdInjective(t1: TransactionType, s1: Suffix, t2: TransactionType, s2: Suffix)
    ensures PostingId(t1, s1) == PostingId(t2, s2) <==> t1 == t2 && s1 == s2
    ensures DebitId(s1)[2..] == CreditId(s1)[2..]
  {
  }
}
