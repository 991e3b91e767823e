/** Failure-compatible results shared by all modules. */
module Outcomes {

  datatype Option<+T> = None | Some(value: T)

  type U32 = n: nat | n < 0x1_0000_0000

  /** `Err` stands for a C++ exception that leaves the call; its text carries no meaning here. */
  datatype Result<+T> = Ok(value: T) | Err(error: string) {

    predicate IsFailure() {
      Err?
    }

    function PropagateFailure<U>(): Result<U>
      requires Err?
    {
      Err(error)
    }

    function Extract(): T
      requires Ok?
    {
      value
    }
  }

  /** No element occurs twice. */
  ghost predicate NoDuplicates<T>(s: seq<T>) {
    forall i, j :: 0 <= i < j < |s| ==> s[i] != s[j]
  }

  /** `order` visits every element of `keys` exactly once. */
  ghost predicate Enumerates<T(!new)>(order: seq<T>, keys: set<T>) {
    && NoDuplicates(order)
    && forall k :: k in order <==> k in keys
  }

  lemma EnumeratesMember<T(!new)>(order: seq<T>, keys: set<T>, i: nat)
    requires Enumerates(order, keys) && i < |order|
    ensures order[i] in keys
  {
    assert order[i] in order;
  }
}
