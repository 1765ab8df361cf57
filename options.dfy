/** The optional value that the application's mapping and apply steps return. */
module Options {

  datatype Option<+T> = None | Some(value: T)

  /** The option as a sequence of zero or one elements. */
  function ToSeq<T>(o: Option<T>): (s: seq<T>)
    ensures |s| <= 1
    ensures s == [] <==> o.None?
    ensures o.Some? ==> s[0] == o.value
  {
    match o
    case None => []
    case Some(v) => [v]
  }
}
