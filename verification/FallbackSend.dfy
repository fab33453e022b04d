/**
 * Sending a request through fallback accounts (packages/opencode/src/index.ts): candidates are tried in
 * order until one serves, and every response that is not handed on must have its body cancelled.
 */
module FallbackSend {
  import opened Prelude

  /** What sending to a candidate gives: a response that serves or asks for another account, or a throw. */
  datatype Attempt = Answered(serves: bool) | Aborted | Failed

  /** The first candidate that ends the loop, or their number when none does. */
  function Stop(attempts: seq<Attempt>): (k: nat)
    ensures k <= |attempts|
    ensures forall i :: 0 <= i < k ==> attempts[i] == Answered(false)
    ensures k < |attempts| ==> attempts[k] != Answered(false)
  {
    if attempts == [] || attempts[0] != Answered(false) then 0 else 1 + Stop(attempts[1..])
  }

  lemma {:induction false} StopIsFirst(attempts: seq<Attempt>, i: nat)
    requires i <= |attempts| && (forall j :: 0 <= j < i ==> attempts[j] == Answered(false))
    ensures i <= Stop(attempts)
    ensures i < |attempts| && attempts[i] != Answered(false) ==> Stop(attempts) == i
  {
    if i > 0 {
      StopIsFirst(attempts[1..], i - 1);
    }
  }

  /** `[0, 1, ..., n - 1]`. */
  function UpTo(n: nat): (r: seq<nat>)
    ensures |r| == n && forall i :: 0 <= i < n ==> r[i] == i
  {
    if n == 0 then [] else UpTo(n - 1) + [n - 1]
  }

  /** The response handed on, if any, the candidate it came from, and whether the send throws. */
  datatype Result = Result(response: Option<nat>, source: Option<nat>, throws: bool)

  /**
   * Before the main account. Response `i` is candidate `i`'s. Nobody is tried after the first candidate
   * that serves or throws, only a serving response is handed on, and every other one is cancelled once.
   */
  method TryFallbackFirst(attempts: seq<Attempt>) returns (result: Result, tried: nat, cancelled: seq<nat>)
    ensures var k := Stop(attempts);
            && cancelled == UpTo(k)
            && tried == (if k < |attempts| then k + 1 else k)
            && result.throws == (k < |attempts| && !attempts[k].Answered?)
            && result.response == (if k < |attempts| && attempts[k].Answered? then Some(k) else None)
            && result.source == result.response
  {
    cancelled, tried := [], 0;
    for i := 0 to |attempts|
      invariant tried == i && cancelled == UpTo(i)
      invariant forall j :: 0 <= j < i ==> attempts[j] == Answered(false)
    {
      StopIsFirst(attempts, i);
      tried := tried + 1;
      if !attempts[i].Answered? { return Result(None, None, true), tried, cancelled; }
      if attempts[i].serves { return Result(Some(i), Some(i), false), tried, cancelled; }
      cancelled := cancelled + [i];
    }
    StopIsFirst(attempts, |attempts|);
    result := Result(None, None, false);
  }

  /**
   * After the main account asked for another. Response 0 is the main account's and `i + 1` is candidate
   * `i`'s. The last response obtained is handed on, with the candidate it came from, and exactly the
   * ones before it are cancelled; only when the caller aborts is the last one neither.
   */
  method TryFallbackAccounts(replayable: bool, attempts: seq<Attempt>)
    returns (result: Result, tried: nat, cancelled: seq<nat>)
    ensures !replayable ==> result == Result(Some(0), None, false) && tried == 0 && cancelled == []
    ensures replayable ==>
      var k := Stop(attempts);
      var last := if k < |attempts| && attempts[k].Answered? then k + 1 else k;
      && cancelled == UpTo(last)
      && tried == (if k < |attempts| then k + 1 else k)
      && result.throws == (k < |attempts| && attempts[k].Aborted?)
      && result.response == (if result.throws then None else Some(last))
      && result.source == (if result.throws || last == 0 then None else Some(last - 1))
  {
    cancelled, tried := [], 0;
    if !replayable || attempts == [] { return Result(Some(0), None, false), 0, []; }
    var lastResponse: nat := 0;
    var lastQuotaTarget: Option<nat> := None;
    for i := 0 to |attempts|
      invariant tried == i == lastResponse && cancelled == UpTo(i)
      invariant lastQuotaTarget == if i == 0 then None else Some(i - 1)
      invariant forall j :: 0 <= j < i ==> attempts[j] == Answered(false)
    {
      StopIsFirst(attempts, i);
      tried := tried + 1;
      if attempts[i].Aborted? { return Result(None, None, true), tried, cancelled; }
      if attempts[i].Failed? { return Result(Some(lastResponse), lastQuotaTarget, false), tried, cancelled; }
      cancelled := cancelled + [lastResponse];
      lastResponse, lastQuotaTarget := i + 1, Some(i);
      if attempts[i].serves { return Result(Some(lastResponse), lastQuotaTarget, false), tried, cancelled; }
    }
    StopIsFirst(attempts, |attempts|);
    result := Result(Some(lastResponse), lastQuotaTarget, false);
  }
}
