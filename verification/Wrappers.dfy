/** What several of the models share. */
module Wrappers {

  datatype Option<+T> = None | Some(value: T)

  datatype Result<+T, +E> = Success(value: T) | Failure(error: E)

  function Abs(n: int): nat {
    if n < 0 then -n else n
  }

  function Ceil(x: real): int {
    -(-x).Floor
  }

  // Some element of a set, for loops that go over its elements in no particular order
  method Pick<T(==)>(s: set<T>) returns (x: T)
    requires s != {}
    ensures x in s
  {
    x :| x in s;
  }
}
