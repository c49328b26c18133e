/** The retry policy shared by orientdb::open and orientquery::execute: the body runs
    again, once, after the connection dropped (end of file or broken pipe); every other
    transport error, and a drop during the second run, is raised again as an Exception
    naming the operation; the driver's own Exceptions pass through untouched. */
module Retry {
  import opened Wrappers

  const OPEN_CONTEXT := "orientdb::open(): "
  const EXECUTE_CONTEXT := "orientquery::execute(): "

  /** What a catch block does with an error. */
  datatype Verdict = Again | Raise(error: Error)

  /** The error an operation finally raises for e: its own Exceptions as they are, a
      transport error as an Exception naming the operation and the error's text. */
  function Raised(e: Error, context: string): (x: Error)
    ensures x.Exception?
    ensures e.Exception? ==> x == e
    ensures e.SystemError? ==> x.msg == context + What(e)
  {
    if e.Exception? then e else Exception(context + What(e))
  }

  /** The catch block: a connection loss before any reconnect means run again. */
  function Decide(e: Error, reconnecting: bool, context: string): (v: Verdict)
    ensures v.Again? <==> !reconnecting && IsConnectionLoss(e)
    ensures v.Raise? ==> v.error == Raised(e, context)
  {
    if !reconnecting && IsConnectionLoss(e) then Again else Raise(Raised(e, context))
  }

  /** Reference outcome of a body that ran with outcome first and, if it ran again, with
      outcome second. */
  function Retried<T>(first: Result<T>, second: Result<T>, context: string): Result<T>
  {
    match first
    case Ok(_) => first
    case Err(e) =>
      if IsConnectionLoss(e) then
        match second
        case Ok(_) => second
        case Err(e2) => Err(Raised(e2, context))
      else Err(Raised(e, context))
  }

  /** No transport error escapes a retried operation: whatever fails is an Exception. */
  lemma NoSystemErrorEscapes<T>(first: Result<T>, second: Result<T>, context: string)
    ensures Retried(first, second, context).Err? ==> Retried(first, second, context).error.Exception?
  {
  }

  /** A success of the first run is the result, and the second run is never looked at. */
  lemma FirstSuccessStands<T>(first: Result<T>, second: Result<T>, other: Result<T>, context: string)
    requires first.Ok?
    ensures Retried(first, second, context) == first == Retried(first, other, context)
  {
  }

  /** The body as a loop: attempt k is what run k + 1 returns. It runs once, or twice
      when the first run lost the connection, and ends as the reference says. */
  method RunWithRetry<T>(attempt: nat -> Result<T>, context: string) returns (r: Result<T>, runs: nat)
    ensures r == Retried(attempt(0), attempt(1), context)
    ensures runs == 1 || runs == 2
    ensures runs == 2 <==> attempt(0).Err? && IsConnectionLoss(attempt(0).error)
  {
    var reconnecting := false;
    runs := 0;
    while true
      invariant runs <= 1
      invariant reconnecting <==> runs == 1
      invariant runs == 1 ==> attempt(0).Err? && IsConnectionLoss(attempt(0).error)
      decreases 1 - runs
    {
      var o := attempt(runs);
      runs := runs + 1;
      if o.Ok? {
        return o, runs;
      }
      match Decide(o.error, reconnecting, context)
      case Raise(x) =>
        return Err(x), runs;
      case Again =>
        reconnecting := true;
    }
  }
}
