/** Option and Result, the failure-carrying values used throughout the model. */
module Wrappers {

  datatype Option<+T> = None | Some(value: T) {
    function GetOr(default: T): T {
      match this
      case Some(v) => v
      case None => default
    }
  }

  datatype Result<+T, +E> = Ok(value: T) | Err(error: E)

  /**
   * Running steps in order and stopping at the first failure, as a loop
   * that raises does: all values when every step succeeds.
   */
  function AllOk<T, E>(rs: seq<Result<T, E>>): (r: Result<seq<T>, E>)
    ensures r.Ok? <==> forall k :: 0 <= k < |rs| ==> rs[k].Ok?
    ensures r.Ok? ==> |r.value| == |rs| && forall k :: 0 <= k < |rs| ==> r.value[k] == rs[k].value
  {
    if rs == [] then Ok([])
    else
      var prev := AllOk(rs[..|rs| - 1]);
      if prev.Err? then prev
      else if rs[|rs| - 1].Err? then Err(rs[|rs| - 1].error)
      else Ok(prev.value + [rs[|rs| - 1].value])
  }

  /** The error reported is the first failing step's. */
  lemma {:induction false} AllOkFirstError<T, E>(rs: seq<Result<T, E>>, k: nat)
    requires k < |rs| && rs[k].Err? && forall j :: 0 <= j < k ==> rs[j].Ok?
    ensures AllOk(rs) == Err(rs[k].error)
  {
    if k < |rs| - 1 {
      AllOkFirstError(rs[..|rs| - 1], k);
    }
  }

  /** The loop that runs the steps in order, stopping at the first failure. */
  method CollectAll<T, E>(rs: seq<Result<T, E>>) returns (r: Result<seq<T>, E>)
    ensures r == AllOk(rs)
  {
    var values: seq<T> := [];
    var i := 0;
    while i < |rs|
      invariant 0 <= i <= |rs|
      invariant AllOk(rs[..i]) == Ok(values)
    {
      assert rs[..i + 1][..i] == rs[..i];
      if rs[i].Err? {
        AllOkFirstError(rs, i);
        return Err(rs[i].error);
      }
      values := values + [rs[i].value];
      i := i + 1;
    }
    assert rs[..i] == rs;
    r := Ok(values);
  }
}
