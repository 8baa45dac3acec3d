/** Shared value types: Python's None, the exceptions the modelled code can
    raise, and a result type that carries either a value or one of them. */
module Common {

  datatype Option<+T> = None | Some(value: T)

  /** The Python exception classes the modelled code raises. */
  datatype Error =
    | KeyError        // missing dict key
    | TypeError       // bad call signature, subscripting or iterating None
    | ValueError      // int() of a non-number, min/max of nothing, range step 0, concat of nothing
    | IndexError      // list index out of range
    | AttributeError  // attribute of None
    | AssertionError  // failed `assert`

  datatype Result<+T> = Ok(value: T) | Err(error: Error)

  /** No element occurs twice. */
  predicate Distinct<T(==)>(s: seq<T>)
  {
    forall i, j :: 0 <= i < j < |s| ==> s[i] != s[j]
  }

  /** Appending is associative. */
  lemma AppendAssoc<T>(a: seq<T>, b: seq<T>, c: seq<T>)
    ensures (a + b) + c == a + (b + c)
  {
  }

  /** Python's `set.add` on a set kept in insertion order. */
  function AddToSet<T(==,!new)>(s: seq<T>, x: T): (r: seq<T>)
    requires Distinct(s)
    ensures Distinct(r)
    ensures forall y :: y in r <==> y in s || y == x
    ensures |s| <= |r| && r[..|s|] == s
  {
    if x in s then s else s + [x]
  }
}
