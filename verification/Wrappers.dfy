/** Small things several parts share. */
module Wrappers {

  /** A value that may be missing. */
  datatype Option<T> = None | Some(value: T)

  /** `x` before what was read, if it could be read. */
  function Prepend<T>(x: T, rest: Option<seq<T>>): Option<seq<T>> {
    if rest.Some? then Some([x] + rest.value) else None
  }

  function Max(a: nat, b: nat): nat {
    if a < b then b else a
  }

  function Below(n: nat): (r: set<nat>)
    ensures forall k: nat :: k in r <==> k < n
  {
    if n == 0 then {} else Below(n - 1) + {n - 1}
  }

  predicate NoNul(s: string) {
    '\0' !in s
  }
}
