/** Success/failure and presence/absence, and the search shared by every module. */
module Wrappers {
  datatype Option<+T> = None | Some(value: T)

  datatype Result<+T, +E> = Ok(value: T) | Err(error: E)

  // Where the first wanted element is.
  function First<T>(s: seq<T>, wanted: T -> bool): (i: Option<nat>)
    ensures i.Some? ==> i.value < |s| && wanted(s[i.value]) && forall j | 0 <= j < i.value :: !wanted(s[j])
    ensures i.None? ==> forall j | 0 <= j < |s| :: !wanted(s[j])
  {
    if s == [] then None
    else if wanted(s[0]) then Some(0)
    else
      var rest := First(s[1..], wanted);
      if rest.Some? then Some(rest.value + 1) else None
  }
}
