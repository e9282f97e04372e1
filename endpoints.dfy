/**
 * What the function-based views of the account API share: the required
 * field check they all begin with, and the `Outcome` of a view that writes
 * (the store it leaves and its response).
 */
module Endpoints {
  import opened Common
  import opened Seqs
  import opened Store

  datatype Outcome<+T, +E> = Outcome(store: Store, response: Result<T, E>)

  /** Selects the fields whose value in `data` is falsy. */
  function Falsy(data: Payload): string -> bool
  {
    f => !Truthy(Get(data, f))
  }

  /** The required fields whose value is falsy, in declared order. */
  function MissingOf(data: Payload, required: seq<string>): (m: seq<string>)
    ensures |m| <= |required|
    ensures forall f | f in m :: f in required && !Truthy(Get(data, f))
    ensures forall f | f in required && !Truthy(Get(data, f)) :: f in m
  {
    Where(required, Falsy(data))
  }

  /** The `for required_field in required_fields` loop that builds `missing_fields`. */
  method CollectMissing(data: Payload, required: seq<string>) returns (missing: seq<string>)
    ensures missing == MissingOf(data, required)
  {
    missing := [];
    var i := 0;
    while i < |required|
      invariant 0 <= i <= |required|
      invariant missing == Where(required[..i], Falsy(data))
    {
      assert required[..i + 1] == required[..i] + [required[i]];
      WhereSnoc(required[..i], required[i], Falsy(data));
      if !Truthy(Get(data, required[i])) {
        missing := missing + [required[i]];
      }
      i := i + 1;
    }
    assert required[..i] == required;
  }

  /** An empty body misses every required field, listed in declared order. */
  lemma EmptyBodyMissesAll(required: seq<string>)
    ensures MissingOf(map[], required) == required
  {
    WhereAll(required, Falsy(map[]));
  }
}
