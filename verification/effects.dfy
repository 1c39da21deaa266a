/** Fail-fast execution of host-changing calls. Each call either succeeds or fails, as the
    oracle `api` says; the first failure stops the run, and the trace records every call that
    was issued, the failing one included. */
module Effects {
  import opened Types

  datatype Outcome = Done | Failed(error: Error)

  /** The calls issued, in order, and how the run ended. */
  datatype Exec = Exec(trace: seq<Call>, outcome: Outcome)

  /** A run that stops before issuing anything (a failed read or parse). */
  function Stop(e: Error): (r: Exec)
    ensures r.trace == [] && r.outcome == Failed(e)
  {
    Exec([], Failed(e))
  }

  /** Every call in `calls` succeeds. */
  predicate AllSucceed(api: Call -> bool, calls: seq<Call>) {
    forall i | 0 <= i < |calls| :: api(calls[i])
  }

  /** Issues `calls` in order until one fails. */
  function RunCalls(api: Call -> bool, calls: seq<Call>): (r: Exec)
    ensures r.trace <= calls
    ensures r.outcome.Done? <==> AllSucceed(api, calls)
    ensures r.outcome.Done? ==> r.trace == calls
    ensures r.outcome.Failed? ==>
      && |r.trace| >= 1
      && AllSucceed(api, r.trace[..|r.trace| - 1])
      && !api(r.trace[|r.trace| - 1])
      && r.outcome.error == CallFailed(r.trace[|r.trace| - 1])
  {
    if |calls| == 0 then Exec([], Done)
    else if !api(calls[0]) then Exec([calls[0]], Failed(CallFailed(calls[0])))
    else
      var rest := RunCalls(api, calls[1..]);
      var r := Exec([calls[0]] + rest.trace, rest.outcome);
      assert r.trace[1..] == rest.trace;
      assert rest.outcome.Failed? ==> r.trace[..|r.trace| - 1] == [calls[0]] + rest.trace[..|rest.trace| - 1];
      r
  }

  /** Runs `next` after `first` unless `first` failed. */
  function Then(first: Exec, next: Exec): (r: Exec)
    ensures first.outcome.Failed? ==> r == first
    ensures first.outcome.Done? ==> r.trace == first.trace + next.trace && r.outcome == next.outcome
  {
    if first.outcome.Failed? then first else Exec(first.trace + next.trace, next.outcome)
  }

  /** Sequencing is associative, so a chain of phases can be grouped either way. */
  lemma ThenAssoc(a: Exec, b: Exec, c: Exec)
    ensures Then(Then(a, b), c) == Then(a, Then(b, c))
  {
    if a.outcome.Done? && b.outcome.Done? {
      assert (a.trace + b.trace) + c.trace == a.trace + (b.trace + c.trace);
    }
  }

  /** Running two lists of calls one after the other is running their concatenation. */
  lemma {:induction false} RunCallsAppend(api: Call -> bool, a: seq<Call>, b: seq<Call>)
    ensures RunCalls(api, a + b) == Then(RunCalls(api, a), RunCalls(api, b))
  {
    if |a| == 0 {
      assert a + b == b;
    } else {
      assert (a + b)[0] == a[0];
      assert (a + b)[1..] == a[1..] + b;
      if api(a[0]) {
        RunCallsAppend(api, a[1..], b);
        var rb := RunCalls(api, b);
        var ra := RunCalls(api, a[1..]);
        if ra.outcome.Done? {
          assert [a[0]] + (ra.trace + rb.trace) == ([a[0]] + ra.trace) + rb.trace;
        }
      }
    }
  }

  /** The i-th issued call is the i-th planned call. */
  lemma RunCallsIssuesInOrder(api: Call -> bool, calls: seq<Call>, i: nat)
    requires i < |RunCalls(api, calls).trace|
    ensures RunCalls(api, calls).trace[i] == calls[i]
  {
  }

  /** A call after the first failing one is never issued. */
  lemma {:induction false} RunCallsStopsAtFailure(api: Call -> bool, calls: seq<Call>, k: nat)
    requires k < |calls| && !api(calls[k])
    ensures |RunCalls(api, calls).trace| <= k + 1
    ensures RunCalls(api, calls).outcome.Failed?
  {
    if k > 0 && api(calls[0]) {
      RunCallsStopsAtFailure(api, calls[1..], k - 1);
    }
  }
}
