/** Small shared datatypes: optional values and the outcome of one database transaction. */
module Basics {

  /** Opaque identifiers of the rows; only their equality is ever used. */
  type InvoiceId = nat
  type MerchantId = nat
  type Network = nat
  type Hash = nat
  type Asset = nat
  /** Milliseconds since an arbitrary origin. */
  type Time = int

  datatype Option<+T> = None | Some(value: T)

  /** A `runInTransaction` body either commits a new state or throws, which leaves the old one. */
  datatype Outcome<+T> = Commit(value: T) | Abort
  {
    predicate IsFailure() { Abort? }

    function PropagateFailure<U>(): Outcome<U>
      requires Abort?
    {
      Abort
    }

    function Extract(): T
      requires Commit?
    {
      value
    }
  }

  predicate Distinct<T(==)>(s: seq<T>) {
    forall i, j :: 0 <= i < j < |s| ==> s[i] != s[j]
  }
}
