// The optional value used wherever the source throws, returns null or returns std::optional, and iteration over a set.
module Wrappers {
  datatype Option<+T> = None | Some(value: T)

  /** Some element of a set, whichever the iteration order of the container yields next. */
  method Pick<T>(s: set<T>) returns (x: T)
    requires s != {}
    ensures x in s && |s - {x}| == |s| - 1
  {
    x :| x in s;
  }
}
