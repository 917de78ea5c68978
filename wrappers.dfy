/** The optional value the source writes as `Optional[...]` (a value or `None`). */
module Wrappers {

  datatype Option<+T> = None | Some(value: T)

  /** The list `[x]` for `Some(x)` and `[]` for `None`: what appending a non-`None` result does. */
  function ToSeq<T>(o: Option<T>): (r: seq<T>)
    ensures |r| <= 1
    ensures o.None? <==> r == []
    ensures o.Some? ==> r == [o.value]
  {
    match o
    case None => []
    case Some(v) => [v]
  }
}
