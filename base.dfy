/** Shared vocabulary of the data layer: optional values, the errors the
    Python code raises, an HTTP response reduced to "status 200 with a body"
    or "some other status", and an order-preserving filter. */
module Base {

  datatype Option<+T> = None | Some(value: T)

  /** The exceptions `utilities/tools.py` can raise, as values. */
  datatype Error =
    | RemoteStatus(code: int)   // `raise Exception(... Status code: ...)` after a non-200 reply
    | MissingKey(key: string)   // `KeyError` from indexing a JSON object
    | NoMatch(query: string)    // `IndexError` from `.values[0]` on an empty selection

  datatype Result<+T> = Success(value: T) | Failure(error: Error) {
    predicate IsFailure() { Failure? }

    function PropagateFailure<U>(): Result<U>
      requires Failure?
    {
      Failure(error)
    }

    function Extract(): T
      requires Success?
    {
      value
    }
  }

  /** `requests.get(url)`: `Ok` is a reply with status 200 and its decoded
      JSON body; `NotOk` is any other status. */
  datatype Response<+B> = Ok(body: B) | NotOk(status: int)

  /** The elements of `s` that satisfy `keep`, in their original order. */
  function Filter<T>(s: seq<T>, keep: T -> bool): (r: seq<T>)
    ensures |r| <= |s|
    ensures forall x :: x in r ==> keep(x)
  {
    if |s| == 0 then []
    else if keep(s[0]) then [s[0]] + Filter(s[1..], keep)
    else Filter(s[1..], keep)
  }

  /** Filtering a sequence extended at the end extends the filtered
      sequence at the end, so `Filter` keeps the input order. */
  lemma {:induction false} FilterSnoc<T>(s: seq<T>, x: T, keep: T -> bool)
    ensures Filter(s + [x], keep) == Filter(s, keep) + (if keep(x) then [x] else [])
  {
    if |s| == 0 {
      assert s + [x] == [x];
    } else {
      assert (s + [x])[1..] == s[1..] + [x];
      FilterSnoc(s[1..], x, keep);
    }
  }

  /** An element survives the filter exactly when it is in the input and
      satisfies the predicate. */
  lemma {:induction false} FilterMembership<T>(s: seq<T>, keep: T -> bool, x: T)
    ensures x in Filter(s, keep) <==> x in s && keep(x)
  {
    if |s| != 0 {
      FilterMembership(s[1..], keep, x);
      assert s == [s[0]] + s[1..];
    }
  }
}
