/** Failure-carrying results shared by the configuration modules. */
module Wrappers {

  datatype Option<+T> = None | Some(value: T)

  datatype Result<+T, +E> = Ok(value: T) | Err(error: E)

  /** The values of `rs` when all of them are `Ok`, else the first error. */
  function Collect<T, E>(rs: seq<Result<T, E>>): (r: Result<seq<T>, E>)
    ensures r.Ok? <==> forall i | 0 <= i < |rs| :: rs[i].Ok?
    ensures r.Ok? ==> |r.value| == |rs| && forall i | 0 <= i < |rs| :: r.value[i] == rs[i].value
    ensures r.Err? ==> exists i | 0 <= i < |rs| :: rs[i].Err? && r.error == rs[i].error
  {
    if |rs| == 0 then Ok([])
    else if rs[0].Err? then Err(rs[0].error)
    else
      var rest := Collect(rs[1..]);
      if rest.Err? then Err(rest.error)
      else Ok([rs[0].value] + rest.value)
  }

  /** The first `n` results are the first `n` values. */
  ghost predicate OkUpTo<T, E>(rs: seq<Result<T, E>>, values: seq<T>, n: nat)
    requires n <= |rs| == |values|
  {
    forall i | 0 <= i < n :: rs[i] == Ok(values[i])
  }

  lemma OkNext<T, E>(rs: seq<Result<T, E>>, before: seq<T>, after: seq<T>, n: nat)
    requires n < |rs| == |before| == |after| && OkUpTo(rs, before, n)
    requires after == before[n := after[n]] && rs[n] == Ok(after[n])
    ensures OkUpTo(rs, after, n + 1)
  {
  }
}
