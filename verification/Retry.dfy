/** Retrying a function with delays in between, where the function may set the delay of the next retry. */
module Retry {

  /** delayFunc: one of the two strategies, or a one-shot delay in front of another delayFunc. */
  datatype DelayFunc =
    | Fixed(delay: int)
    | Increment(base: int, increment: int)
    | Once(duration: int, orig: DelayFunc)

  /** Calling it for an attempt: the delay, and what stands in its place from then on. */
  function Call(f: DelayFunc, attempt: int): (int, DelayFunc) {
    match f
    case Fixed(d) => (d, f)
    case Increment(base, inc) => (base + inc * attempt, f)
    case Once(d, orig) => (d, orig)
  }

  datatype Answer = Success | Again | Failure(error: string)

  /** One call of the retried function: the SetNextRetry calls it makes, its answer, and whether the context
      is done before the following delay is over. */
  datatype Attempt = Attempt(setNext: seq<int>, answer: Answer, cancelled: bool)

  datatype End = Succeeded | Failed(error: string) | GaveUp | Cancelled | StillRunning

  /** How a run ended, how often the function was called, the delays it was made to wait, and the
      delayFunc left behind. */
  datatype Outcome = Outcome(end: End, calls: nat, delays: seq<int>, delayFunc: DelayFunc)

  function SetAll(f: DelayFunc, durations: seq<int>): DelayFunc {
    if durations == [] then f
    else Once(durations[|durations| - 1], SetAll(f, durations[..|durations| - 1]))
  }

  function RunFrom(f: DelayFunc, attempts: nat, maxAttempts: int, script: seq<Attempt>): Outcome
    decreases |script|
  {
    if script == [] then Outcome(StillRunning, 0, [], f)
    else
      var a := script[0];
      var g := SetAll(f, a.setNext);
      match a.answer
      case Failure(e) => Outcome(Failed(e), 1, [], g)
      case Success => Outcome(Succeeded, 1, [], g)
      case Again =>
        var (delay, h) := Call(g, attempts);
        if attempts + 1 == maxAttempts then Outcome(GaveUp, 1, [], h)
        else if a.cancelled then Outcome(Cancelled, 1, [delay], h)
        else
          var rest := RunFrom(h, attempts + 1, maxAttempts, script[1..]);
          rest.(calls := rest.calls + 1, delays := [delay] + rest.delays)
  }

  class Retry {
    const maxAttempts: int
    var delayFunc: DelayFunc

    constructor (maxAttempts: int, delayFunc: DelayFunc)
      ensures this.maxAttempts == maxAttempts && this.delayFunc == delayFunc
    {
      this.maxAttempts, this.delayFunc := maxAttempts, delayFunc;
    }

    method SetNextRetry(duration: int)
      modifies this
      ensures delayFunc == Once(duration, old(delayFunc))
    {
      var orig := delayFunc;
      delayFunc := Once(duration, orig);
    }

    method Delay(attempt: int) returns (delay: int)
      modifies this
      ensures (delay, delayFunc) == Call(old(delayFunc), attempt)
    {
      match delayFunc {
        case Fixed(d) => delay := d;
        case Increment(base, inc) =>
          var stepIncrement := inc * attempt;
          delay := base + stepIncrement;
        case Once(d, orig) =>
          delayFunc := orig;
          delay := d;
      }
    }

    /** The retried function, as far as this object sees it. */
    method CallFunction(a: Attempt) returns (answer: Answer)
      modifies this
      ensures answer == a.answer && delayFunc == SetAll(old(delayFunc), a.setNext)
    {
      for k := 0 to |a.setNext|
        invariant delayFunc == SetAll(old(delayFunc), a.setNext[..k])
      {
        assert a.setNext[..k + 1][..k] == a.setNext[..k];
        SetNextRetry(a.setNext[k]);
      }
      assert a.setNext[..|a.setNext|] == a.setNext;
      answer := a.answer;
    }

    method Run(script: seq<Attempt>) returns (r: Outcome)
      modifies this
      ensures r == RunFrom(old(delayFunc), 0, maxAttempts, script) && delayFunc == r.delayFunc
    {
      var attempts: nat := 0;
      var delays: seq<int> := [];
      ghost var all := RunFrom(delayFunc, 0, maxAttempts, script);
      assert script[0..] == script;
      Shift(all, 0, []);
      while attempts < |script|
        invariant attempts <= |script|
        invariant all == Shifted(RunFrom(delayFunc, attempts, maxAttempts, script[attempts..]), attempts, delays)
      {
        var a := script[attempts];
        assert script[attempts..][0] == a && script[attempts..][1..] == script[attempts + 1..];
        var answer := CallFunction(a);
        match answer {
          case Failure(e) =>
            Shift(Outcome(Failed(e), 1, [], delayFunc), attempts, delays);
            return Outcome(Failed(e), attempts + 1, delays, delayFunc);
          case Success =>
            Shift(Outcome(Succeeded, 1, [], delayFunc), attempts, delays);
            return Outcome(Succeeded, attempts + 1, delays, delayFunc);
          case Again =>
        }
        var delay := Delay(attempts);
        attempts := attempts + 1;
        if attempts == maxAttempts {
          Shift(Outcome(GaveUp, 1, [], delayFunc), attempts - 1, delays);
          return Outcome(GaveUp, attempts, delays, delayFunc);
        }
        if a.cancelled {
          return Outcome(Cancelled, attempts, delays + [delay], delayFunc);
        }
        ghost var rest := RunFrom(delayFunc, attempts, maxAttempts, script[attempts..]);
        assert delays + ([delay] + rest.delays) == (delays + [delay]) + rest.delays;
        delays := delays + [delay];
      }
      assert delays + [] == delays;
      r := Outcome(StillRunning, attempts, delays, delayFunc);
    }
  }

  /** A run that began earlier. */
  function Shifted(o: Outcome, calls: nat, delays: seq<int>): Outcome {
    o.(calls := calls + o.calls, delays := delays + o.delays)
  }

  lemma Shift(o: Outcome, calls: nat, delays: seq<int>)
    ensures Shifted(o, 0, []) == o
    ensures o.delays == [] ==> Shifted(o, calls, delays) == o.(calls := calls + o.calls, delays := delays)
  {
  }
}
