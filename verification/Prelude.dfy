/** Shared vocabulary of the models. */
module Prelude {

  datatype Option<+T> = None | Some(value: T)

  datatype Result<+T, +E> = Ok(value: T) | Err(error: E)

  ghost predicate Distinct<T>(s: seq<T>) {
    forall i, j :: 0 <= i < j < |s| ==> s[i] != s[j]
  }

  function Abs(n: int): nat { if n < 0 then -n else n }

  /** Python's `s or other`. */
  function Or(s: string, other: string): string { if s != "" then s else other }

  function Least(x: nat, y: nat): nat { if x <= y then x else y }

  /** Insertion into a sorted sequence, behind everything `x` does not precede. */
  function Inserted<T>(precedes: (T, T) -> bool, s: seq<T>, x: T): seq<T> {
    if s == [] || !precedes(x, s[|s| - 1]) then s + [x]
    else Inserted(precedes, s[..|s| - 1], x) + [s[|s| - 1]]
  }

  function Take<T>(s: seq<T>, n: nat): seq<T> { s[..Least(n, |s|)] }
}
