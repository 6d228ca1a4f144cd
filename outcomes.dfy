/** Go's `value, error` and `error`-or-nil returns, and the early-return
    chains of validators that stop at the first failing check. */
module Outcomes {

  datatype Option<+T> = None | Some(value: T)

  /** An `error` result: `Pass` is Go's nil, `Fail(e)` a non-nil error. */
  datatype Outcome<+E> = Pass | Fail(error: E)

  /** Replaces the error of a failing check by `e`, as the validators do when
      they return their own sentinel instead of the callee's error. */
  function Remap<E, F>(o: Outcome<E>, e: F): (r: Outcome<F>)
    ensures r.Pass? <==> o.Pass?
    ensures r.Fail? ==> r.error == e
  {
    if o.Pass? then Pass else Fail(e)
  }

  /** The result of running `checks` in order and returning at the first
      non-nil error: the meaning of a chain of `if err := ...; err != nil { return err }`. */
  function FirstFailure<E(==)>(checks: seq<Outcome<E>>): (r: Outcome<E>)
    ensures r.Pass? <==> forall k :: 0 <= k < |checks| ==> checks[k].Pass?
    ensures r.Fail? ==> exists k :: 0 <= k < |checks| && checks[k] == r
                                   && forall j :: 0 <= j < k ==> checks[j].Pass?
  {
    if |checks| == 0 then Pass
    else if checks[0].Fail? then checks[0]
    else
      var rest := FirstFailure(checks[1..]);
      assert forall k :: 1 <= k < |checks| ==> checks[k] == checks[1..][k - 1];
      if rest.Fail? then
        var k :| 0 <= k < |checks[1..]| && checks[1..][k] == rest
                 && forall j :: 0 <= j < k ==> checks[1..][j].Pass?;
        assert checks[k + 1] == rest;
        rest
      else rest
  }

  /** The error chosen by `FirstFailure` is the one at the first failing index. */
  lemma FirstFailureIsEarliest<E>(checks: seq<Outcome<E>>, k: nat)
    requires k < |checks| && checks[k].Fail?
    requires forall j :: 0 <= j < k ==> checks[j].Pass?
    ensures FirstFailure(checks) == checks[k]
  {
    var r := FirstFailure(checks);
    assert r.Fail?;
    var i :| 0 <= i < |checks| && checks[i] == r && forall j :: 0 <= j < i ==> checks[j].Pass?;
    assert i == k;
  }
}
