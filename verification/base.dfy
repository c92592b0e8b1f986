/** Option and Result wrappers, and the error kinds the store's validation
    and bookkeeping rules raise. */
module Base {

  /** An optional value: a nullable foreign key, an absent form field. */
  datatype Option<+T> = None | Some(value: T)

  /** Why an operation was refused. Each constructor corresponds to one
      `ValidationError` (or lookup failure) raised by the store. */
  datatype Error =
    | InsufficientStock      // quantity exceeds the product's stock
    | ProductNotInOriginal   // returned product absent from the original sale
    | ReturnExceedsOriginal  // returned quantity above the sold quantity
    | MissingInvoice         // cashless sale without an invoice
    | UnpaidInvoice          // cashless sale against an unpaid invoice
    | MissingOriginalSale    // return without an original sale
    | ReturnOfReturn         // return whose original sale is itself a return
    | MissingCashRegister    // cash sale without a cash register
    | CustomerMismatch       // return customer differs from the original sale's
    | DateRangeInverted      // report start date after end date
    | MalformedNumber        // a stored document number does not parse
    | NotFound               // no record with the requested id
    | DuplicateNumber        // a renamed number is still held by another document

  /** The outcome of an operation that may be refused. */
  datatype Result<+T> = Ok(value: T) | Err(error: Error) {

    predicate IsFailure() {
      Err?
    }

    function PropagateFailure<U>(): Result<U>
      requires Err?
    {
      Err(error)
    }

    function Extract(): T
      requires Ok?
    {
      value
    }
  }

  /** Taking out the element at position `k` takes one copy of it out of
      the multiset. */
  lemma RemoveAtMultiset<T>(b: seq<T>, k: nat)
    requires k < |b|
    ensures multiset(b[..k] + b[k + 1..]) == multiset(b) - multiset{b[k]}
  {
    assert b == b[..k] + [b[k]] + b[k + 1..];
  }

  /** A non-empty sequence is its front followed by its last element. */
  lemma SplitLast<T>(a: seq<T>)
    requires a != []
    ensures a == a[..|a| - 1] + [a[|a| - 1]]
  {
  }

  /** Dropping the last element takes one copy of it out of the multiset. */
  lemma DropLastMultiset<T>(a: seq<T>)
    requires a != []
    ensures multiset(a[..|a| - 1]) == multiset(a) - multiset{a[|a| - 1]}
  {
    assert a == a[..|a| - 1] + [a[|a| - 1]];
  }
}
