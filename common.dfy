/** Small value types shared by every part of the model. */
module Common {

  /** A value that may be absent: Python's `None` or a missing dictionary key. */
  datatype Option<+T> = None | Some(value: T) {
    function GetOr(default: T): T {
      match this
      case Some(v) => v
      case None => default
    }
  }

  /** Outcome of an operation that can fail with an error value. */
  datatype Result<+T, +E> = Ok(value: T) | Err(error: E)

  /** The result of a request to the backend or to the local client: either
      the request returned a value, or it raised an exception somewhere on the
      way (network error, timeout, undecodable JSON). */
  datatype Fetch<+T> = Fetched(value: T) | Raised

  /** An HTTP reply: its status code and its decoded body. */
  datatype Reply<+T> = Reply(status: int, body: T)

  /** Python truthiness of an optional string: `None` and `""` are false. */
  predicate Truthy(s: Option<string>) {
    s.Some? && s.value != ""
  }

  /** The index of the first element satisfying `p`, as Python's
      `next((x for x in xs if p(x)), None)` finds it. */
  function First<T>(xs: seq<T>, p: T -> bool): (r: Option<nat>)
    ensures r.Some? ==> r.value < |xs| && p(xs[r.value])
    ensures r.Some? ==> forall j :: 0 <= j < r.value ==> !p(xs[j])
    ensures r.None? ==> forall j :: 0 <= j < |xs| ==> !p(xs[j])
  {
    if |xs| == 0 then None
    else if p(xs[0]) then Some(0)
    else match First(xs[1..], p)
      case None => None
      case Some(i) => Some(i + 1)
  }
}
