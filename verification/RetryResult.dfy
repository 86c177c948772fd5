/** How often and with which delays a function is retried. */
module RetryResult {
  import opened Retry

  function Sum(s: seq<int>): int {
    if s == [] then 0 else s[0] + Sum(s[1..])
  }

  /** The first `n` calls ask for a retry, and none of the waits between them is cut short. */
  predicate AllAgain(script: seq<Attempt>, n: nat) {
    && n <= |script|
    && (forall i :: 0 <= i < n ==> script[i].answer == Again)
    && (forall i :: 0 <= i < n - 1 ==> !script[i].cancelled)
  }

  lemma {:induction false} BoundedFrom(f: DelayFunc, attempts: nat, n: nat, script: seq<Attempt>)
    requires attempts < n
    ensures var r := RunFrom(f, attempts, n, script);
      && r.calls <= n - attempts && |r.delays| <= n - attempts - 1
      && (r.end == GaveUp <==> AllAgain(script, n - attempts))
      && (r.end == GaveUp ==> r.calls == n - attempts && |r.delays| == n - attempts - 1)
    decreases |script|
  {
    if script != [] && script[0].answer == Again && attempts + 1 < n && !script[0].cancelled {
      var (_, h) := Call(SetAll(f, script[0].setNext), attempts);
      BoundedFrom(h, attempts + 1, n, script[1..]);
      var rest := script[1..];
      assert forall i :: 1 <= i < |script| ==> script[i] == rest[i - 1];
      assert forall i :: 0 <= i < |rest| ==> rest[i] == script[i + 1];
    }
  }

  /** With at least one attempt allowed, the function is called at most that often, and the run gives up
      if and only if that many calls ask for a retry undisturbed; it has then waited once less often. */
  lemma GivesUpIff(f: DelayFunc, n: nat, script: seq<Attempt>)
    requires n >= 1
    ensures var r := RunFrom(f, 0, n, script);
      && r.calls <= n
      && (r.end == GaveUp <==> AllAgain(script, n))
      && (r.end == GaveUp ==> r.calls == n && |r.delays| == n - 1)
  {
    BoundedFrom(f, 0, n, script);
  }

  /** With no attempt allowed there is no giving up: the limit is only compared for equality. */
  lemma {:induction false} NeverGivesUp(f: DelayFunc, attempts: nat, maxAttempts: int, script: seq<Attempt>)
    requires maxAttempts <= attempts
    ensures RunFrom(f, attempts, maxAttempts, script).end != GaveUp
    decreases |script|
  {
    if script != [] && script[0].answer == Again && !script[0].cancelled {
      var (_, h) := Call(SetAll(f, script[0].setNext), attempts);
      NeverGivesUp(h, attempts + 1, maxAttempts, script[1..]);
    }
  }

  /** Some run gives up if and only if at least one attempt is allowed. */
  lemma CanGiveUpIff(f: DelayFunc, maxAttempts: int)
    ensures (exists script :: RunFrom(f, 0, maxAttempts, script).end == GaveUp) <==> maxAttempts >= 1
  {
    if maxAttempts >= 1 {
      var script := seq(maxAttempts, _ => Attempt([], Again, false));
      GivesUpIff(f, maxAttempts, script);
      assert RunFrom(f, 0, maxAttempts, script).end == GaveUp;
    } else {
      forall script ensures RunFrom(f, 0, maxAttempts, script).end != GaveUp {
        NeverGivesUp(f, 0, maxAttempts, script);
      }
    }
  }

  // ---- How a run ends ----

  /** The k-th call is made: all calls before it ask for a retry, no wait before it is cut short, and the
      attempts allowed after `attempts` earlier ones are not used up. */
  predicate Reaches(script: seq<Attempt>, attempts: nat, maxAttempts: int, k: nat) {
    && k < |script|
    && (forall i :: 0 <= i < k ==> script[i].answer == Again && !script[i].cancelled)
    && (attempts < maxAttempts ==> attempts + k < maxAttempts)
  }

  predicate LastAllowed(attempts: nat, maxAttempts: int, k: nat) {
    attempts + k + 1 == maxAttempts
  }

  /** The k-th call is the last one. */
  predicate StopsAt(script: seq<Attempt>, attempts: nat, maxAttempts: int, k: nat) {
    && Reaches(script, attempts, maxAttempts, k)
    && (script[k].answer != Again || script[k].cancelled || LastAllowed(attempts, maxAttempts, k))
  }

  /** What the last call makes of the run. */
  predicate EndsAs(a: Attempt, last: bool, end: End) {
    match a.answer
    case Success => end == Succeeded
    case Failure(e) => end == Failed(e)
    case Again => end == if last then GaveUp else Cancelled
  }

  lemma ReachesTail(script: seq<Attempt>, attempts: nat, maxAttempts: int, k: nat)
    requires script != [] && script[0].answer == Again && !script[0].cancelled && !LastAllowed(attempts, maxAttempts, 0)
    ensures Reaches(script, attempts, maxAttempts, k + 1) <==> Reaches(script[1..], attempts + 1, maxAttempts, k)
  {
    var rest := script[1..];
    assert forall i :: 0 <= i < |rest| ==> rest[i] == script[i + 1];
    assert forall i :: 1 <= i < |script| ==> script[i] == rest[i - 1];
  }

  /** Every run stops at one call, or has not stopped when the script is over. */
  lemma {:induction false} StopsOnce(f: DelayFunc, attempts: nat, maxAttempts: int, script: seq<Attempt>)
    returns (k: nat)
    ensures var r := RunFrom(f, attempts, maxAttempts, script);
      && r.calls == k + (if r.end == StillRunning then 0 else 1)
      && (r.end == StillRunning ==> k == |script| && forall j :: !StopsAt(script, attempts, maxAttempts, j))
      && (r.end != StillRunning ==>
            && StopsAt(script, attempts, maxAttempts, k)
            && EndsAs(script[k], LastAllowed(attempts, maxAttempts, k), r.end)
            && forall j :: StopsAt(script, attempts, maxAttempts, j) ==> j == k)
    decreases |script|
  {
    k := 0;
    if script != [] && script[0].answer == Again && !LastAllowed(attempts, maxAttempts, 0) && !script[0].cancelled {
      var (_, h) := Call(SetAll(f, script[0].setNext), attempts);
      k := StopsOnce(h, attempts + 1, maxAttempts, script[1..]);
      forall j: nat | 1 <= j
        ensures StopsAt(script, attempts, maxAttempts, j) <==> StopsAt(script[1..], attempts + 1, maxAttempts, j - 1)
      {
        ReachesTail(script, attempts, maxAttempts, j - 1);
      }
      assert !StopsAt(script, attempts, maxAttempts, 0);
      k := k + 1;
    } else if script != [] {
      assert StopsAt(script, attempts, maxAttempts, 0);
    }
  }

  /** Success is reported if and only if some call that is reached succeeds, an error if and only if one that is
      reached answers with that error, the context's end if and only if a retry that is asked for within the
      allowed attempts is disturbed, giving up if and only if the last allowed call asks for a retry. */
  lemma EndsIff(f: DelayFunc, maxAttempts: int, script: seq<Attempt>)
    ensures var r := RunFrom(f, 0, maxAttempts, script);
      && (r.end == Succeeded <==>
          exists k: nat :: Reaches(script, 0, maxAttempts, k) && script[k].answer == Success)
      && (forall e :: r.end == Failed(e) <==>
            exists k: nat :: Reaches(script, 0, maxAttempts, k) && script[k].answer == Failure(e))
      && (r.end == Cancelled <==>
          exists k: nat :: Reaches(script, 0, maxAttempts, k) && script[k].answer == Again
                           && script[k].cancelled && k + 1 != maxAttempts)
      && (r.end == GaveUp <==>
          exists k: nat :: Reaches(script, 0, maxAttempts, k) && script[k].answer == Again && k + 1 == maxAttempts)
      && (r.end == StillRunning <==> r.calls == |script| && forall k: nat :: !StopsAt(script, 0, maxAttempts, k))
  {
    var r := RunFrom(f, 0, maxAttempts, script);
    var k := StopsOnce(f, 0, maxAttempts, script);
    forall j: nat | Reaches(script, 0, maxAttempts, j) && script[j].answer != Again
      ensures StopsAt(script, 0, maxAttempts, j)
    {
    }
    forall j: nat | Reaches(script, 0, maxAttempts, j) && (script[j].cancelled || j + 1 == maxAttempts)
      ensures StopsAt(script, 0, maxAttempts, j)
    {
    }
  }

  // ---- Which delays ----

  /** A strategy with one-shot delays in front, the one set last first. */
  predicate IsStrategy(f: DelayFunc) {
    !f.Once?
  }

  function StrategyDelay(f: DelayFunc, attempt: int): int
    requires IsStrategy(f)
  {
    match f
    case Fixed(d) => d
    case Increment(base, inc) => base + inc * attempt
  }

  /** The one-shot delays that are set when attempt `k` is over, before its own delay is taken from the end. */
  function Stacked(pending: seq<int>, script: seq<Attempt>, k: nat): seq<int>
    requires k < |script|
    decreases k, 1
  {
    Left(pending, script, k) + script[k].setNext
  }

  /** The one-shot delays that are left after `k` attempts. */
  function Left(pending: seq<int>, script: seq<Attempt>, k: nat): seq<int>
    requires k <= |script|
    decreases k, 0
  {
    if k == 0 then pending else Pop(Stacked(pending, script, k - 1))
  }

  function Pop(s: seq<int>): seq<int> {
    if s == [] then [] else s[..|s| - 1]
  }

  /** The delay after attempt `k`: the one set last of those that are left, else the strategy's. */
  function DelayAfter(f: DelayFunc, pending: seq<int>, attempts: nat, script: seq<Attempt>, k: nat): int
    requires IsStrategy(f) && k < |script|
  {
    var stack := Stacked(pending, script, k);
    if stack == [] then StrategyDelay(f, attempts + k) else stack[|stack| - 1]
  }

  lemma {:induction false} SetAllTwice(f: DelayFunc, a: seq<int>, b: seq<int>)
    ensures SetAll(SetAll(f, a), b) == SetAll(f, a + b)
    decreases |b|
  {
    if b == [] {
      assert a + b == a;
    } else {
      SetAllTwice(f, a, b[..|b| - 1]);
      assert (a + b)[..|a + b| - 1] == a + b[..|b| - 1];
    }
  }

  lemma CallTop(f: DelayFunc, stack: seq<int>, attempt: nat)
    requires IsStrategy(f)
    ensures Call(SetAll(f, stack), attempt) ==
      (if stack == [] then StrategyDelay(f, attempt) else stack[|stack| - 1], SetAll(f, Pop(stack)))
  {
  }

  /** What is left does not depend on where one starts to look. */
  lemma {:induction false} LeftShift(pending: seq<int>, script: seq<Attempt>, k: nat)
    requires k < |script|
    ensures Left(pending, script, k + 1) == Left(Pop(pending + script[0].setNext), script[1..], k)
  {
    if k > 0 {
      LeftShift(pending, script, k - 1);
    } else {
      assert Left(pending, script, 1) == Pop(Stacked(pending, script, 0));
    }
  }

  /** What is left when a run ends: only a call that succeeds or fails for good takes no delay. */
  function LeftAtEnd(pending: seq<int>, script: seq<Attempt>, r: Outcome): seq<int>
    requires r.calls <= |script| && (r.calls == 0 ==> r.end.StillRunning?)
  {
    if r.end.Succeeded? || r.end.Failed? then Stacked(pending, script, r.calls - 1) else Left(pending, script, r.calls)
  }

  ghost predicate Follows(f: DelayFunc, pending: seq<int>, attempts: nat, script: seq<Attempt>, r: Outcome)
    requires IsStrategy(f)
  {
    && |r.delays| <= r.calls <= |script| && (r.calls == 0 ==> r.end.StillRunning?)
    && (forall k :: 0 <= k < |r.delays| ==> r.delays[k] == DelayAfter(f, pending, attempts, script, k))
    && r.delayFunc == SetAll(f, LeftAtEnd(pending, script, r))
  }

  lemma DelayShift(f: DelayFunc, pending: seq<int>, attempts: nat, script: seq<Attempt>, k: nat)
    requires IsStrategy(f) && 1 <= k < |script|
    ensures DelayAfter(f, pending, attempts, script, k) ==
            DelayAfter(f, Pop(pending + script[0].setNext), attempts + 1, script[1..], k - 1)
  {
    LeftShift(pending, script, k - 1);
    assert Stacked(pending, script, k) == Stacked(Pop(pending + script[0].setNext), script[1..], k - 1);
    assert attempts + 1 + (k - 1) == attempts + k;
  }

  lemma LeftAtEndShift(pending: seq<int>, script: seq<Attempt>, r: Outcome, s: Outcome)
    requires script != [] && s.calls <= |script[1..]| && (s.calls == 0 ==> s.end.StillRunning?)
    requires r.calls == s.calls + 1 && r.end == s.end
    ensures LeftAtEnd(pending, script, r) == LeftAtEnd(Pop(pending + script[0].setNext), script[1..], s)
  {
    LeftShift(pending, script, s.calls);
    if s.calls > 0 {
      LeftShift(pending, script, s.calls - 1);
    }
  }

  lemma FollowsOneMore(f: DelayFunc, pending: seq<int>, attempts: nat, script: seq<Attempt>, r: Outcome, s: Outcome)
    requires IsStrategy(f) && script != []
    requires Follows(f, Pop(pending + script[0].setNext), attempts + 1, script[1..], s)
    requires r == s.(calls := s.calls + 1, delays := [DelayAfter(f, pending, attempts, script, 0)] + s.delays)
    ensures Follows(f, pending, attempts, script, r)
  {
    forall k | 0 <= k < |r.delays| ensures r.delays[k] == DelayAfter(f, pending, attempts, script, k) {
      if k > 0 {
        DelayShift(f, pending, attempts, script, k);
        assert r.delays[k] == s.delays[k - 1];
      }
    }
    LeftAtEndShift(pending, script, r, s);
  }

  /** For every retried function, whatever delays it sets and when: each delay is the one that was set last
      of those not used yet, and the strategy's own, with the number of the attempt, when none is left;
      the delays that are left at the end are in force for the next run. */
  lemma {:induction false} DelaysAreLastSet(f: DelayFunc, pending: seq<int>, attempts: nat, maxAttempts: int,
      script: seq<Attempt>)
    requires IsStrategy(f)
    ensures Follows(f, pending, attempts, script, RunFrom(SetAll(f, pending), attempts, maxAttempts, script))
    decreases |script|
  {
    if script != [] {
      var a, stack := script[0], pending + script[0].setNext;
      SetAllTwice(f, pending, a.setNext);
      CallTop(f, stack, attempts);
      assert Stacked(pending, script, 0) == stack && Left(pending, script, 1) == Pop(stack);
      if a.answer == Again && attempts + 1 != maxAttempts && !a.cancelled {
        DelaysAreLastSet(f, Pop(stack), attempts + 1, maxAttempts, script[1..]);
        FollowsOneMore(f, pending, attempts, script, RunFrom(SetAll(f, pending), attempts, maxAttempts, script),
                       RunFrom(SetAll(f, Pop(stack)), attempts + 1, maxAttempts, script[1..]));
      }
    }
  }

  // ---- When no delay is set meanwhile ----

  /** No call sets a delay. */
  predicate Quiet(script: seq<Attempt>) {
    forall i :: 0 <= i < |script| ==> script[i].setNext == []
  }

  lemma {:induction false} QuietLeft(pending: seq<int>, script: seq<Attempt>, k: nat)
    requires k <= |script| && Quiet(script[..k])
    ensures Left(pending, script, k) == if k < |pending| then pending[..|pending| - k] else []
  {
    if k > 0 {
      assert script[..k][k - 1].setNext == [];
      assert forall i :: 0 <= i < k - 1 ==> script[..k - 1][i] == script[..k][i];
      QuietLeft(pending, script, k - 1);
      assert Stacked(pending, script, k - 1) == Left(pending, script, k - 1);
    }
  }

  lemma QuietDelay(f: DelayFunc, pending: seq<int>, attempts: nat, script: seq<Attempt>, k: nat)
    requires IsStrategy(f) && k < |script| && Quiet(script[..k + 1])
    ensures DelayAfter(f, pending, attempts, script, k) ==
            if k < |pending| then pending[|pending| - 1 - k] else StrategyDelay(f, attempts + k)
  {
    assert forall i :: 0 <= i <= k ==> script[..k + 1][i] == script[i];
    QuietLeft(pending, script, k);
    assert Stacked(pending, script, k) == Left(pending, script, k);
  }

  /** One-shot delays set before are used up last in, first out, one for each failed attempt, and then the
      strategy takes over again. */
  lemma LastSetFirstUsed(f: DelayFunc, pending: seq<int>, attempts: nat, maxAttempts: int, script: seq<Attempt>)
    requires IsStrategy(f) && Quiet(script)
    ensures var r := RunFrom(SetAll(f, pending), attempts, maxAttempts, script);
      forall k :: 0 <= k < |r.delays| ==>
        r.delays[k] == if k < |pending| then pending[|pending| - 1 - k] else StrategyDelay(f, attempts + k)
  {
    DelaysAreLastSet(f, pending, attempts, maxAttempts, script);
    var r := RunFrom(SetAll(f, pending), attempts, maxAttempts, script);
    forall k | 0 <= k < |r.delays|
      ensures DelayAfter(f, pending, attempts, script, k) ==
              if k < |pending| then pending[|pending| - 1 - k] else StrategyDelay(f, attempts + k)
    {
      QuietDelay(f, pending, attempts, script, k);
    }
  }

  lemma {:induction false} SumIncrements(delays: seq<int>, base: int, inc: int, from: nat)
    requires forall k :: 0 <= k < |delays| ==> delays[k] == base + inc * (from + k)
    ensures 2 * Sum(delays) == 2 * (|delays| * base) + inc * Twice(|delays|, from)
    decreases |delays|
  {
    if delays != [] {
      var rest := delays[1..];
      forall k | 0 <= k < |rest| ensures rest[k] == base + inc * (from + 1 + k) {
        assert rest[k] == delays[k + 1];
        assert from + (k + 1) == from + 1 + k;
      }
      SumIncrements(rest, base, inc, from + 1);
      assert delays[0] == base + inc * (from + 0);
      SumStep(|rest|, base, inc, from, Sum(rest));
    }
  }

  lemma SumStep(m: nat, base: int, inc: int, from: nat, sum: int)
    requires 2 * sum == 2 * (m * base) + inc * Twice(m, from + 1)
    ensures 2 * (base + inc * from + sum) == 2 * ((m + 1) * base) + inc * Twice(m + 1, from)
  {
    TwiceMore(m, from);
    Distribute(inc, Twice(m, from + 1), from);
    assert (m + 1) * base == m * base + base;
  }

  /** Twice the sum of n consecutive numbers. */
  function Twice(n: nat, from: nat): int {
    n * (2 * from + n - 1)
  }

  lemma TwiceMore(m: nat, from: nat)
    ensures Twice(m + 1, from) == Twice(m, from + 1) + 2 * from
  {
    var x := 2 * from + m;
    assert (m + 1) * x == m * x + x;
    assert m * (x + 1) == m * x + m;
  }

  lemma Distribute(inc: int, a: int, b: int)
    ensures inc * (a + 2 * b) == inc * a + 2 * (inc * b)
  {
    assert inc * (a + 2 * b) == inc * a + inc * (2 * b);
  }

  /** Giving up after n attempts with growing delays, of which no attempt but the last sets another, has
      taken (n-1)*base + inc*(n-1)*(n-2)/2 of delays. */
  lemma TotalDelay(base: int, inc: int, n: nat, script: seq<Attempt>)
    requires n >= 1 && AllAgain(script, n) && Quiet(script[..n - 1])
    ensures var r := RunFrom(Increment(base, inc), 0, n, script);
      r.end == GaveUp && |r.delays| == n - 1
      && 2 * Sum(r.delays) == 2 * ((n - 1) * base) + inc * ((n - 1) * (n - 2))
  {
    var f := Increment(base, inc);
    GivesUpIff(f, n, script);
    assert SetAll(f, []) == f;
    DelaysAreLastSet(f, [], 0, n, script);
    var delays := RunFrom(f, 0, n, script).delays;
    forall k | 0 <= k < |delays| ensures delays[k] == base + inc * (0 + k) {
      assert script[..k + 1] == script[..n - 1][..k + 1];
      QuietDelay(f, [], 0, script, k);
    }
    SumIncrements(delays, base, inc, 0);
  }

  /** Giving up after n attempts has taken n delays off those that were set, though n - 1 were waited: the one
      set last before the end is lost. */
  lemma GivingUpLosesOne(f: DelayFunc, pending: seq<int>, n: nat, script: seq<Attempt>)
    requires IsStrategy(f) && n >= 1 && AllAgain(script, n)
    ensures var r := RunFrom(SetAll(f, pending), 0, n, script);
      && r.end == GaveUp && |r.delays| == n - 1
      && r.delayFunc == SetAll(f, Left(pending, script, n))
      && Left(pending, script, n) == Pop(Stacked(pending, script, n - 1))
  {
    GivesUpIff(SetAll(f, pending), n, script);
    DelaysAreLastSet(f, pending, 0, n, script);
  }
}
