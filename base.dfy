/** Shared vocabulary: optional values, the faults that abort a conversion, and
    small sequence helpers. */
module Base {

  datatype Option<T> = None | Some(value: T)

  /** Why a conversion stops with an uncaught error. Each constructor names the
      situation in which the program raises (or exits) instead of returning. */
  datatype Fault =
    | ValueTooWide(value: int, width: nat)  // int2bit_array: value needs more bits than the signal has
    | BadTimescale(text: string)            // timescale text is not "<int> <unit>"
    | BadInteger(text: string)              // a value string without x/z that int() rejects
    | NoScope                               // a declaration or value change before any scope was opened
    | NoTimescale                           // a top-module value change before any timescale
    | UnknownUnit(unit: string)             // timescale unit missing from the conversion table
    | UnknownIdentifier(id: string)         // full mode: identifier not declared in the top module

  datatype Result<T> = Ok(value: T) | Err(fault: Fault)

  /** No element occurs twice. */
  predicate Distinct<T(==)>(s: seq<T>)
  {
    forall i, j :: 0 <= i < j < |s| ==> s[i] != s[j]
  }

  lemma AppendAssoc<T>(a: seq<T>, b: seq<T>, c: seq<T>)
    ensures (a + b) + c == a + (b + c)
  {
  }
}
