/** Small shared helpers: an optional value (pandas NaN, a missing file,
    a failed parse), integer helpers and a sequence fact used by several
    modules. */
module Basics {

  datatype Option<+T> = None | Some(value: T)

  /** Python's abs() on an int. */
  function Abs(x: int): (r: nat)
    ensures r == x || r == -x
  {
    if x < 0 then -x else x
  }

  /** Python's min() on two ints. */
  function Min(a: int, b: int): (r: int)
    ensures r <= a && r <= b && (r == a || r == b)
  {
    if a <= b then a else b
  }

  /** Python's max() on two ints. */
  function Max(a: int, b: int): (r: int)
    ensures r >= a && r >= b && (r == a || r == b)
  {
    if a >= b then a else b
  }

  /** Concatenation regroups; stated once so that long proofs need not
      rediscover it element by element. */
  lemma ConcatAssoc<T>(a: seq<T>, b: seq<T>, c: seq<T>)
    ensures a + (b + c) == (a + b) + c
  {
  }
}
