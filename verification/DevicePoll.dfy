/** The polling schedule of the device grant in porte/devicelogin, section 3.5 of RFC 8628. Times are nanoseconds. */
module DevicePoll {
  import opened Wrappers

  const SLOW_DOWN_STEP := 5_000_000_000

  // What one poll of the token endpoint came to. Lost is a transport error, which is retried.
  datatype Answer = Token(token: string) | Pending | SlowDown | Lost | Denied | ExpiredToken | NoToken | Refused

  datatype Outcome = Granted(token: string) | Failed(answer: Answer) | GaveUp | Cancelled

  predicate Accepted(status: int) {
    200 <= status <= 299
  }

  /** A token only from a success that carries one; only the RFC's two errors let the client go on. */
  function Read(status: int, token: string, error: string): (a: Answer)
    ensures a.Token? || a.NoToken? <==> 200 <= status <= 299
    ensures a.Token? <==> Accepted(status) && token != ""
    ensures a.Token? ==> a.token == token
    ensures a.Pending? <==> !Accepted(status) && error == "authorization_pending"
    ensures a.SlowDown? <==> !Accepted(status) && error == "slow_down"
    ensures a.Denied? <==> !Accepted(status) && error == "access_denied"
    ensures a.ExpiredToken? <==> !Accepted(status) && error == "expired_token"
    ensures a != Lost
  {
    if Accepted(status) then if token == "" then NoToken else Token(token)
    else if error == "authorization_pending" then Pending
    else if error == "slow_down" then SlowDown
    else if error == "access_denied" then Denied
    else if error == "expired_token" then ExpiredToken
    else Refused
  }

  // The answers after which the client goes on.
  predicate GoesOn(a: Answer) {
    a.Pending? || a.SlowDown? || a.Lost?
  }

  function SlowDowns(answers: seq<Answer>): nat {
    if answers == [] then 0
    else SlowDowns(answers[..|answers| - 1]) + if answers[|answers| - 1].SlowDown? then 1 else 0
  }

  function Sum(waits: seq<int>): int {
    if waits == [] then 0 else Sum(waits[..|waits| - 1]) + waits[|waits| - 1]
  }

  // An interval after so many slow_downs.
  function Slowed(interval: int, step: nat, slowDowns: nat): (r: int)
    ensures r >= interval
  {
    if slowDowns == 0 then interval else Slowed(interval, step, slowDowns - 1) + step
  }

  lemma {:induction false} SlowedIsLinear(interval: int, step: nat, slowDowns: nat)
    ensures Slowed(interval, step, slowDowns) == interval + step * slowDowns
  {
    if slowDowns > 0 {
      SlowedIsLinear(interval, step, slowDowns - 1);
    }
  }

  /** Before each poll the client waited its interval, five seconds longer for every slow_down so far. */
  ghost predicate Paced(waits: seq<int>, answers: seq<Answer>, interval: int, step: nat) {
    |waits| == |answers| &&
    forall k :: 0 <= k < |waits| ==> waits[k] == Slowed(interval, step, SlowDowns(answers[..k]))
  }

  // A poll made a full wait after the one before, or the start, which was before the deadline.
  ghost predicate WaitedFor(at: seq<int>, waits: seq<int>, clock: int, expiresIn: int, k: nat)
    requires k < |at| == |waits|
  {
    var previous := if k == 0 then clock else at[k - 1];
    previous < clock + expiresIn && at[k] >= previous + waits[k]
  }

  ghost predicate Waited(at: seq<int>, waits: seq<int>, clock: int, expiresIn: int) {
    |at| == |waits| && forall k :: 0 <= k < |at| ==> WaitedFor(at, waits, clock, expiresIn, k)
  }

  // The caller had cancelled by then; None if it never does.
  predicate CancelledBy(cancelAt: Option<int>, time: int) {
    cancelAt.Some? && cancelAt.value <= time
  }

  class Schedule {
    var interval: int
    const step: int
    const deadline: int
    const cancelAt: Option<int>
    var now: int

    constructor (every: int, slower: int, clock: int, expiresIn: int, cancel: Option<int>)
      ensures interval == every && step == slower && now == clock && deadline == clock + expiresIn && cancelAt == cancel
    {
      interval, step, now, deadline, cancelAt := every, slower, clock, clock + expiresIn, cancel;
    }

    method Meanwhile()
      modifies this`now
      ensures now >= old(now)
    {
      var later: int := *;
      if later > now {
        now := later;
      }
    }

    /** True after a whole interval that began before the deadline; false at once past it, or on a cancellation. */
    method Wait() returns (more: bool)
      requires interval > 0
      modifies this`now
      ensures now >= old(now)
      ensures more ==> old(now) < deadline && now >= old(now) + interval
      ensures !more ==> (old(now) >= deadline && now == old(now)) || CancelledBy(cancelAt, now)
      ensures old(now) < deadline && !CancelledBy(cancelAt, now) ==> more
    {
      if now >= deadline {
        return false;
      }
      // The timer or the cancellation wakes it, and if both have come by then, either may be what it sees.
      var fires, either: bool := now + interval, *;
      if !CancelledBy(cancelAt, fires) {
        now := fires;
      } else if !CancelledBy(cancelAt, now) {
        now := cancelAt.value;
      }
      Meanwhile();
      more := now >= fires && (either || !CancelledBy(cancelAt, now));
    }

    method Slower()
      modifies this`interval
      ensures interval == old(interval) + step
    {
      interval := interval + step;
    }
  }

  // One request to the token endpoint, which takes time and may not come back.
  method Post(clock: Schedule) returns (answer: Answer)
    modifies clock`now
    ensures clock.now >= old(clock.now)
  {
    clock.Meanwhile();
    var lost, status: int, token: string, error: string := *, *, *, *;
    answer := if lost then Lost else Read(status, token, error);
  }

  lemma SumOneMore(waits: seq<int>, wait: int)
    ensures Sum(waits + [wait]) == Sum(waits) + wait
  {
    assert (waits + [wait])[..|waits|] == waits;
  }

  lemma PacedOneMore(waits: seq<int>, answers: seq<Answer>, interval: int, step: nat, wait: int, a: Answer)
    requires Paced(waits, answers, interval, step) && wait == Slowed(interval, step, SlowDowns(answers))
    ensures Paced(waits + [wait], answers + [a], interval, step)
    ensures SlowDowns(answers + [a]) == SlowDowns(answers) + if a.SlowDown? then 1 else 0
  {
    assert (answers + [a])[..|answers|] == answers;
    forall k | 0 <= k <= |waits|
      ensures (waits + [wait])[k] == Slowed(interval, step, SlowDowns((answers + [a])[..k]))
    {
      assert (answers + [a])[..k] == answers[..k];
    }
  }

  lemma WaitedOneMore(at: seq<int>, waits: seq<int>, clock: int, expiresIn: int, polled: int, wait: int)
    requires Waited(at, waits, clock, expiresIn)
    requires var previous := if at == [] then clock else at[|at| - 1];
      previous < clock + expiresIn && polled >= previous + wait
    ensures Waited(at + [polled], waits + [wait], clock, expiresIn)
  {
    var at', waits' := at + [polled], waits + [wait];
    forall k | 0 <= k < |at'|
      ensures WaitedFor(at', waits', clock, expiresIn, k)
    {
      if k < |at| {
        assert WaitedFor(at, waits, clock, expiresIn, k);
      }
    }
  }

  lemma PollsNothing(interval: int, step: nat, clock: int, expiresIn: int)
    ensures Paced([], [], interval, step) && Waited([], [], clock, expiresIn)
    ensures Sum([]) == 0 && Slowed(interval, step, SlowDowns([])) == interval
  {
  }

  lemma SlowedOnce(interval: int, step: nat, slowDowns: nat)
    ensures slowDowns > 0 ==> Slowed(interval, step, slowDowns) == Slowed(interval, step, slowDowns - 1) + step
  {
  }

  /**
   Polls until the user approved, the provider refused, the caller cancelled or the time is over. It ends, keeps
   the pace, and makes an n-th poll only if the first n - 1 waits fit before the deadline; it gives up only past the
   deadline, and reports a cancellation exactly when it stops without an answer after one.
   */
  method Poll(interval: int, step: nat, clock: int, expiresIn: int, cancelAt: Option<int>)
    returns (outcome: Outcome, waits: seq<int>, answers: seq<Answer>, at: seq<int>, end: int)
    requires interval > 0
    ensures Paced(waits, answers, interval, step) && Waited(at, waits, clock, expiresIn)
    ensures |waits| > 0 ==> Sum(waits[..|waits| - 1]) < expiresIn
    ensures forall k :: 0 <= k < |answers| - 1 ==> GoesOn(answers[k])
    ensures outcome.Granted? <==> answers != [] && answers[|answers| - 1].Token?
    ensures outcome.Granted? ==> answers[|answers| - 1] == Token(outcome.token)
    ensures outcome.Failed? ==> answers != [] && answers[|answers| - 1] == outcome.answer && !GoesOn(outcome.answer)
    ensures outcome.GaveUp? || outcome.Cancelled? ==> answers == [] || GoesOn(answers[|answers| - 1])
    ensures outcome.GaveUp? ==> end >= clock + expiresIn && !CancelledBy(cancelAt, end)
    ensures outcome.Cancelled? ==> CancelledBy(cancelAt, end)
    ensures end >= if at == [] then clock else at[|at| - 1]
  {
    hide Paced, Sum, SlowDowns, Slowed, Waited;
    PollsNothing(interval, step, clock, expiresIn);
    waits, answers, at := [], [], [];
    var s := new Schedule(interval, step, clock, expiresIn, cancelAt);
    while true
      invariant fresh(s) && s.step == step && s.deadline == clock + expiresIn && s.cancelAt == cancelAt
      invariant s.interval == Slowed(interval, step, SlowDowns(answers))
      invariant Paced(waits, answers, interval, step)
      invariant Waited(at, waits, clock, expiresIn) && (if at == [] then clock else at[|at| - 1]) <= s.now
      invariant clock + Sum(waits) <= s.now
      invariant |waits| > 0 ==> Sum(waits[..|waits| - 1]) < expiresIn
      invariant forall k :: 0 <= k < |answers| ==> GoesOn(answers[k])
      decreases s.deadline - s.now
    {
      var more := s.Wait();
      if !more {
        outcome, end := if CancelledBy(cancelAt, s.now) then Cancelled else GaveUp, s.now;
        return;
      }
      var wait, polled := s.interval, s.now;
      var answer := Post(s);
      WaitedOneMore(at, waits, clock, expiresIn, polled, wait);
      SumOneMore(waits, wait);
      PacedOneMore(waits, answers, interval, step, wait, answer);
      assert (waits + [wait])[..|waits|] == waits;
      waits, answers, at := waits + [wait], answers + [answer], at + [polled];
      if answer.Token? {
        return Granted(answer.token), waits, answers, at, s.now;
      }
      if !GoesOn(answer) {
        return Failed(answer), waits, answers, at, s.now;
      }
      if answer.SlowDown? {
        s.Slower();
        SlowedOnce(interval, step, SlowDowns(answers));
      }
    }
  }

  /******* How many polls *******/

  lemma {:induction false} SumAtLeast(waits: seq<int>, answers: seq<Answer>, interval: int, step: nat)
    requires Paced(waits, answers, interval, step)
    ensures Sum(waits) >= |waits| * interval
  {
    hide SlowDowns, Slowed;
    if waits != [] {
      var last := |waits| - 1;
      PacedPrefix(waits, answers, interval, step);
      SumAtLeast(waits[..last], answers[..last], interval, step);
      assert waits[last] == Slowed(interval, step, SlowDowns(answers[..last]));
      OneMoreTime(last, interval);
    }
  }

  lemma OneMoreTime(n: nat, interval: int)
    ensures (n + 1) * interval == n * interval + interval
  {
  }

  lemma PacedPrefix(waits: seq<int>, answers: seq<Answer>, interval: int, step: nat)
    requires Paced(waits, answers, interval, step) && waits != []
    ensures Paced(waits[..|waits| - 1], answers[..|waits| - 1], interval, step)
  {
    var last := |waits| - 1;
    forall k | 0 <= k < last
      ensures waits[..last][k] == Slowed(interval, step, SlowDowns(answers[..last][..k]))
    {
      assert answers[..last][..k] == answers[..k];
    }
  }

  /** A run of n polls takes n - 1 intervals at the least. */
  lemma PollsAreBounded(waits: seq<int>, answers: seq<Answer>, interval: int, step: nat, expiresIn: int)
    requires Paced(waits, answers, interval, step) && interval > 0
    requires |waits| > 0 ==> Sum(waits[..|waits| - 1]) < expiresIn
    ensures |waits| > 0 ==> (|waits| - 1) * interval < expiresIn
  {
    if |waits| > 0 {
      PacedPrefix(waits, answers, interval, step);
      SumAtLeast(waits[..|waits| - 1], answers[..|waits| - 1], interval, step);
    }
  }

  lemma {:induction false} AllSlow(answers: seq<Answer>)
    requires forall k :: 0 <= k < |answers| ==> answers[k].SlowDown?
    ensures SlowDowns(answers) == |answers|
  {
    if answers != [] {
      AllSlow(answers[..|answers| - 1]);
    }
  }

  // Twice the sum of n intervals, each a step longer than the one before.
  function Twice(n: nat, interval: int, step: nat): int {
    if n == 0 then 0 else Twice(n - 1, interval, step) + 2 * Slowed(interval, step, n - 1)
  }

  function Line(interval: int, step: nat, n: nat): int {
    interval + step * n
  }

  function Quadratic(n: nat, interval: int, step: nat): int {
    2 * (n * interval) + step * (n * (n - 1))
  }

  lemma {:induction false} TwiceIsQuadratic(n: nat, interval: int, step: nat)
    ensures Twice(n, interval, step) == Quadratic(n, interval, step)
  {
    if n > 0 {
      hide Line, Quadratic, Slowed;
      TwiceIsQuadratic(n - 1, interval, step);
      LinearSlowed(interval, step, n - 1);
      QuadraticStep(n - 1, interval, step);
    }
  }

  lemma LinearSlowed(interval: int, step: nat, n: nat)
    ensures Slowed(interval, step, n) == Line(interval, step, n)
  {
    SlowedIsLinear(interval, step, n);
  }

  lemma QuadraticStep(n: nat, interval: int, step: nat)
    ensures Quadratic(n + 1, interval, step) == Quadratic(n, interval, step) + 2 * Line(interval, step, n)
  {
    OneMoreTime(n, interval);
    assert (n + 1) * n == n * (n - 1) + 2 * n;
    Distribute(step, n * (n - 1), 2 * n);
    assert step * (2 * n) == 2 * (step * n);
  }

  lemma Distribute(a: int, b: int, c: int)
    ensures a * (b + c) == a * b + a * c
  {
  }

  lemma {:induction false} AllSlowSum(waits: seq<int>, answers: seq<Answer>, interval: int, step: nat)
    requires Paced(waits, answers, interval, step)
    requires forall k :: 0 <= k < |answers| ==> answers[k].SlowDown?
    ensures 2 * Sum(waits) == Twice(|waits|, interval, step)
  {
    if waits != [] {
      var last := |waits| - 1;
      PacedPrefix(waits, answers, interval, step);
      AllSlowSum(waits[..last], answers[..last], interval, step);
      AllSlow(answers[..last]);
      assert waits[last] == Slowed(interval, step, SlowDowns(answers[..last]));
    }
  }

  /** If the provider slows every poll down, their number is bounded by the root of the time there is. */
  lemma SlowedPollsAreFew(waits: seq<int>, answers: seq<Answer>, interval: int, expiresIn: int)
    requires Paced(waits, answers, interval, SLOW_DOWN_STEP) && interval > 0
    requires |waits| > 0 && Sum(waits[..|waits| - 1]) < expiresIn
    requires forall k :: 0 <= k < |answers| - 1 ==> answers[k].SlowDown?
    ensures var n := |waits| - 1;
      2 * (n * interval) + SLOW_DOWN_STEP * (n * (n - 1)) < 2 * expiresIn
  {
    PacedPrefix(waits, answers, interval, SLOW_DOWN_STEP);
    AllSlowSum(waits[..|waits| - 1], answers[..|waits| - 1], interval, SLOW_DOWN_STEP);
    TwiceIsQuadratic(|waits| - 1, interval, SLOW_DOWN_STEP);
  }
}
