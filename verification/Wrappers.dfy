/** What every other module shares: the optional value, the checked result, and sizes of sets. */
module Wrappers {
  datatype Option<+T> = None | Some(value: T)

  /** The error families of the allocator (idmap.py) that callers tell apart. */
  datatype Error =
    | Configuration
    | Backend
    | Integrity
    | Conflict
    | Exhausted

  datatype Result<+T> = Ok(value: T) | Err(error: Error)

  lemma {:induction false} SubsetSize<T>(a: set<T>, b: set<T>)
    requires a <= b
    ensures |a| <= |b|
    ensures a != b ==> |a| < |b|
  {
    if a != {} {
      var x :| x in a;
      SubsetSize(a - {x}, b - {x});
    }
  }
}
