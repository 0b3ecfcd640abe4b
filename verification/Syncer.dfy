/**
 The syncer of porte/directory, step by step: nudges into a one-slot channel, the loop that empties it, and calls
 of Sync that take turns on a mutex. Call 0 is the loop's own. The directory is every version it has had, in order;
 a moment is a place in that list. A restored directory may have a version again, or a lower one.
 */
module Syncer {
  import opened Wrappers

  // Where Run is: at its select, asleep for the debounce, about to drain, inside its pull, or returned.
  datatype Loop = Selecting | Debouncing | Draining | Pulling | Stopped

  // Where a call of Sync is; fetch is the place of its fetch among all fetches, since the moment it was sent, and
  // moment the one its answer is of.
  datatype Call = Waiting | Fetching(fetch: nat, since: nat) | Applying(fetch: nat, moment: nat)

  datatype Commit = Commit(fetch: nat, moment: nat)

  datatype World = World(
    slot: bool,
    loop: Loop,
    holder: Option<nat>,
    calls: map<nat, Call>,
    applied: nat,
    versions: seq<nat>,
    // The rest only observes: nudges no pull has followed yet, the moment last nudged about, the moment the app was
    // last made or found equal to, the snapshots committed, the fetches started, and whether the last pull to end
    // had failed.
    pending: set<nat>,
    owed: nat,
    held: nat,
    commits: seq<Commit>,
    fetches: nat,
    failed: bool)

  datatype Event =
    | Change(version: nat)
    | Nudge(id: nat)
    | Tick
    | Take
    | Slept
    | Drain
    | End
    | Sync(call: nat)
    | Acquire(call: nat)
    | Fetched(call: nat, ok: bool, moment: nat)
    | Applied(call: nat, ok: bool)

  // Run pulls once before its first select.
  const START := World(false, Pulling, None, map[0 := Waiting], 0, [0], {}, 0, 0, [], 0, false)

  function Now(w: World): int {
    |w.versions| - 1
  }

  predicate Enabled(w: World, e: Event) {
    match e
    case Change(_) => true
    case Nudge(_) => w.versions != []
    case Tick => w.loop.Selecting?
    case Take => w.loop.Selecting? && w.slot
    case Slept => w.loop.Debouncing?
    case Drain => w.loop.Draining?
    case End => w.loop.Selecting? || w.loop.Debouncing?
    case Sync(call) => call != 0 && call !in w.calls
    case Acquire(call) => call in w.calls && w.calls[call].Waiting? && w.holder.None? && w.versions != []
    case Fetched(call, _, moment) =>
      call in w.calls && w.calls[call].Fetching? && w.calls[call].since <= moment <= Now(w)
    case Applied(call, _) => call in w.calls && w.calls[call].Applying? && w.calls[call].moment <= Now(w)
  }

  // The call returns and gives the mutex back; the loop's own returns to its select.
  function Return(w: World, call: nat, failed: bool): World {
    w.(calls := w.calls - {call}, holder := None, failed := failed,
       loop := if call == 0 then Selecting else w.loop)
  }

  function Apply(w: World, e: Event): World {
    if !Enabled(w, e) then w
    else
      match e
      case Change(version) => w.(versions := w.versions + [version])
      case Nudge(id) => w.(slot := true, pending := w.pending + {id}, owed := Now(w))
      case Tick => w.(loop := Pulling, calls := w.calls[0 := Waiting])
      case Take => w.(slot := false, loop := Debouncing)
      case Slept => w.(loop := Draining)
      case Drain => w.(slot := false, loop := Pulling, calls := w.calls[0 := Waiting])
      case End => w.(loop := Stopped)
      case Sync(call) => w.(calls := w.calls[call := Waiting])
      case Acquire(call) =>
        w.(holder := Some(call), calls := w.calls[call := Fetching(w.fetches, Now(w))], fetches := w.fetches + 1,
           pending := {})
      case Fetched(call, ok, moment) =>
        if !ok then Return(w, call, true)
        else if w.versions[moment] != 0 && w.versions[moment] == w.applied then
          Return(w.(held := moment), call, false)
        else w.(calls := w.calls[call := Applying(w.calls[call].fetch, moment)])
      case Applied(call, ok) =>
        if !ok then Return(w, call, true)
        else
          var c := w.calls[call];
          Return(w.(applied := w.versions[c.moment], held := c.moment,
                    commits := w.commits + [Commit(c.fetch, c.moment)]), call, false)
  }

  function Run(w: World, events: seq<Event>): World
    decreases |events|
  {
    if events == [] then w else Run(Apply(w, events[0]), events[1..])
  }

  /******* What every step keeps *******/

  ghost predicate LoopCalls(w: World) {
    0 in w.calls <==> w.loop.Pulling?
  }

  // One call at a time is past the mutex.
  ghost predicate TakesTurns(w: World) {
    && (forall c :: c in w.calls && !w.calls[c].Waiting? ==> w.holder == Some(c))
    && (w.holder.Some? ==> w.holder.value in w.calls && !w.calls[w.holder.value].Waiting?)
  }

  // A pending nudge is in the slot, or the loop is committed to a pull it has not started.
  ghost predicate NudgeKept(w: World) {
    w.pending == {} || w.slot || w.loop.Debouncing? || w.loop.Draining? || w.loop.Stopped?
      || (w.loop.Pulling? && 0 in w.calls && w.calls[0].Waiting?)
  }

  ghost predicate InOrder(commits: seq<Commit>) {
    forall i, j :: 0 <= i < j < |commits| ==>
      commits[i].fetch < commits[j].fetch && commits[i].moment <= commits[j].moment
  }

  ghost predicate Before(commits: seq<Commit>, fetch: nat) {
    forall k :: 0 <= k < |commits| ==> commits[k].fetch < fetch
  }

  ghost predicate UpTo(commits: seq<Commit>, moment: nat) {
    forall k :: 0 <= k < |commits| ==> commits[k].moment <= moment
  }

  // The fetch under way is newer than every commit, and so is what it brought.
  ghost predicate Newest(w: World) {
    && Before(w.commits, w.fetches) && UpTo(w.commits, w.held)
    && (forall c :: c in w.calls && !w.calls[c].Waiting? ==>
          w.calls[c].fetch < w.fetches && Before(w.commits, w.calls[c].fetch))
    && (forall c :: c in w.calls && w.calls[c].Fetching? ==> w.held <= w.calls[c].since <= Now(w))
    && (forall c :: c in w.calls && w.calls[c].Applying? ==>
          && w.held <= w.calls[c].moment <= Now(w)
          && (w.versions[w.calls[c].moment] == 0 || w.versions[w.calls[c].moment] != w.applied))
  }

  // The version of the last commit, 0 when there is none.
  function Committed(commits: seq<Commit>, versions: seq<nat>): nat {
    if commits == [] then 0
    else
      var moment := commits[|commits| - 1].moment;
      if moment < |versions| then versions[moment] else 0
  }

  ghost predicate AppliedIsLast(w: World) {
    && w.held <= Now(w) && w.applied == w.versions[w.held]
    && w.applied == Committed(w.commits, w.versions)
    && (w.commits != [] ==> w.commits[|w.commits| - 1].moment <= Now(w))
  }

  // With every nudge followed by a pull that ended well, the app has what they were about.
  ghost predicate Catching(w: World) {
    && w.owed <= Now(w)
    && (w.owed <= w.held || w.pending != {} || w.holder.Some? || w.failed)
    && (forall c :: c in w.calls && w.calls[c].Fetching? && w.pending == {} ==> w.owed <= w.calls[c].since)
    && (forall c :: c in w.calls && w.calls[c].Applying? && w.pending == {} ==> w.owed <= w.calls[c].moment)
  }

  ghost predicate Inv(w: World) {
    LoopCalls(w) && TakesTurns(w) && NudgeKept(w) && Ordered(w) && Catching(w)
  }

  ghost predicate Ordered(w: World) {
    InOrder(w.commits) && Newest(w) && AppliedIsLast(w)
  }

  lemma ApplyKeeps(w: World, e: Event)
    requires Inv(w)
    ensures Inv(Apply(w, e))
  {
    TurnsKept(w, e);
    NudgesKept(w, e);
    OrderKept(w, e);
    CatchingKept(w, e);
    hide Apply, Enabled, LoopCalls, TakesTurns, NudgeKept, InOrder, Newest, AppliedIsLast, Catching;
  }

  lemma TurnsKept(w: World, e: Event)
    requires LoopCalls(w) && TakesTurns(w)
    ensures LoopCalls(Apply(w, e)) && TakesTurns(Apply(w, e))
  {
  }

  lemma NudgesKept(w: World, e: Event)
    requires LoopCalls(w) && TakesTurns(w) && NudgeKept(w)
    ensures NudgeKept(Apply(w, e))
  {
  }

  lemma OrderKept(w: World, e: Event)
    requires TakesTurns(w) && LoopCalls(w) && Ordered(w)
    ensures Ordered(Apply(w, e))
  {
    if e.Applied? {
      AppliedOrder(w, e.call, e.ok);
    } else if e.Acquire? {
      AcquiredOrder(w, e.call);
    } else if e.Fetched? {
      FetchedOrder(w, e.call, e.ok, e.moment);
    } else {
      OtherOrder(w, e);
    }
  }

  lemma FetchedOrder(w: World, call: nat, ok: bool, moment: nat)
    requires TakesTurns(w) && Ordered(w)
    ensures Ordered(Apply(w, Fetched(call, ok, moment)))
  {
    FetchedDoes(w, call, ok, moment);
    hide Apply, Enabled, InOrder, Before, Committed;
  }

  // The call ends, or goes on to apply what it was answered.
  lemma FetchedDoes(w: World, call: nat, ok: bool, moment: nat)
    ensures var v := Apply(w, Fetched(call, ok, moment));
      && v.commits == w.commits && v.versions == w.versions && v.fetches == w.fetches && v.applied == w.applied
      && (v == w
          || (call in w.calls && w.calls[call].Fetching? && w.calls[call].since <= moment <= Now(w)
              && if v.calls == w.calls - {call} then
                   v.held == w.held || (v.held == moment && w.applied == w.versions[moment])
                 else
                   && v.held == w.held && v.calls == w.calls[call := Applying(w.calls[call].fetch, moment)]
                   && (w.versions[moment] == 0 || w.versions[moment] != w.applied)))
  {
  }

  lemma AppliedOrder(w: World, call: nat, ok: bool)
    requires TakesTurns(w) && Ordered(w)
    ensures Ordered(Apply(w, Applied(call, ok)))
  {
  }

  lemma AcquiredOrder(w: World, call: nat)
    requires TakesTurns(w) && Ordered(w)
    ensures Ordered(Apply(w, Acquire(call)))
  {
    hide InOrder, UpTo;
  }

  lemma OtherOrder(w: World, e: Event)
    requires TakesTurns(w) && LoopCalls(w) && Ordered(w) && !e.Applied? && !e.Acquire? && !e.Fetched?
    ensures Ordered(Apply(w, e))
  {
    OtherDoes(w, e);
    var v := Apply(w, e);
    hide Apply, Enabled;
    StillOrdered(w, v);
  }

  lemma StillOrdered(w: World, v: World)
    requires Ordered(w)
    requires v.commits == w.commits && v.fetches == w.fetches && v.applied == w.applied && v.held == w.held
    requires w.versions <= v.versions
    requires forall c :: c in v.calls && !v.calls[c].Waiting? ==> c in w.calls && v.calls[c] == w.calls[c]
    ensures Ordered(v)
  {
    hide InOrder, UpTo, Before;
  }

  // Only calls that wait come to be.
  lemma OtherDoes(w: World, e: Event)
    requires LoopCalls(w) && !e.Applied? && !e.Acquire? && !e.Fetched?
    ensures var v := Apply(w, e);
      && v.commits == w.commits && v.fetches == w.fetches && v.applied == w.applied && v.held == w.held
      && (v.versions == w.versions || (e.Change? && v.versions == w.versions + [e.version]))
      && forall c :: c in v.calls && !v.calls[c].Waiting? ==> c in w.calls && v.calls[c] == w.calls[c]
  {
  }

  lemma CatchingKept(w: World, e: Event)
    requires TakesTurns(w) && LoopCalls(w) && Newest(w) && AppliedIsLast(w) && Catching(w)
    ensures Catching(Apply(w, e))
  {
    hide Before, UpTo;
    if e.Fetched? || e.Applied? {
      EndCatching(w, e);
    }
  }

  lemma EndCatching(w: World, e: Event)
    requires TakesTurns(w) && Newest(w) && AppliedIsLast(w) && Catching(w) && (e.Fetched? || e.Applied?)
    ensures Catching(Apply(w, e))
  {
    hide Before, UpTo;
  }

  lemma {:induction false} RunKeeps(w: World, events: seq<Event>)
    requires Inv(w)
    ensures Inv(Run(w, events))
    decreases |events|
  {
    if events != [] {
      ApplyKeeps(w, events[0]);
      hide Inv, Apply;
      RunKeeps(Apply(w, events[0]), events[1..]);
    }
  }

  /******* Main results *******/

  /** No nudge is lost, whatever the interleaving. */
  lemma NoNudgeIsLost(events: seq<Event>)
    ensures NudgeKept(Run(START, events))
  {
    RunKeeps(START, events);
  }

  /** Snapshots commit in the order they were fetched, each of the directory as it was then or later. */
  lemma CommitsInFetchOrder(events: seq<Event>)
    ensures InOrder(Run(START, events).commits)
  {
    RunKeeps(START, events);
  }

  ghost predicate Rising(versions: seq<nat>) {
    forall i, j :: 0 <= i <= j < |versions| ==> versions[i] <= versions[j]
  }

  /** So if the directory is never restored, the version applied never goes back. */
  lemma VersionsNeverGoBack(events: seq<Event>, i: nat, j: nat)
    requires var w := Run(START, events); Rising(w.versions) && i <= j < |w.commits|
    ensures var w := Run(START, events);
      && w.commits[i].moment <= w.commits[j].moment < |w.versions|
      && w.versions[w.commits[i].moment] <= w.versions[w.commits[j].moment]
  {
    RunKeeps(START, events);
    hide Run, Inv;
    CommitsRise(Run(START, events), i, j);
  }

  lemma CommitsRise(w: World, i: nat, j: nat)
    requires Inv(w) && Rising(w.versions) && i <= j < |w.commits|
    ensures w.commits[i].moment <= w.commits[j].moment < |w.versions|
    ensures w.versions[w.commits[i].moment] <= w.versions[w.commits[j].moment]
  {
    hide Newest, Catching, NudgeKept, TakesTurns, LoopCalls, Committed;
  }

  /** Two applies never overlap. */
  lemma OneApplyAtATime(events: seq<Event>, a: nat, b: nat)
    requires var calls := Run(START, events).calls;
      a in calls && b in calls && calls[a].Applying? && calls[b].Applying?
    ensures a == b
  {
    RunKeeps(START, events);
  }

  /**
   Once every nudge was followed by a pull that ended without an error, the version applied is the directory's of a
   moment not before the last nudge; with a directory that is never restored, it is no older than was nudged about.
   */
  lemma NudgedVersionsArrive(events: seq<Event>)
    ensures var w := Run(START, events);
      w.pending == {} && w.holder.None? && !w.failed ==>
        && w.owed <= w.held < |w.versions| && w.applied == w.versions[w.held]
        && (Rising(w.versions) ==> w.versions[w.owed] <= w.applied)
  {
    RunKeeps(START, events);
  }

  /**
   A snapshot is skipped exactly when it has the very version committed last, so one whose apply failed is
   fetched into Apply again.
   */
  lemma OnlyTheLastCommitIsSkipped(events: seq<Event>, call: nat, moment: nat)
    requires Enabled(Run(START, events), Fetched(call, true, moment))
    ensures var w := Run(START, events);
      var v := Apply(w, Fetched(call, true, moment));
      call !in v.calls <==>
        w.versions[moment] != 0 && w.commits != [] && Committed(w.commits, w.versions) == w.versions[moment]
  {
    RunKeeps(START, events);
  }

  // A pull at version 5, and then the directory restored to 3 and changed to another 5.
  const PULLED := World(false, Selecting, None, map[], 5, [0, 5], {}, 0, 1, [Commit(0, 1)], 1, false)
  const RESTORED := [Change(3), Change(5), Tick, Acquire(0), Fetched(0, true, 3)]

  /** A restored directory that comes by the version applied before is skipped, whatever it holds by then. */
  lemma RestoredVersionIsSkipped()
    ensures Run(START, [Change(5), Acquire(0), Fetched(0, true, 1), Applied(0, true)]) == PULLED
    ensures var w := Run(PULLED, RESTORED);
      w.commits == PULLED.commits && Now(w) == 3 && w.versions[3] == w.versions[1] && 0 !in w.calls && !w.failed
  {
    RunFour(START, Change(5), Acquire(0), Fetched(0, true, 1), Applied(0, true));
    PulledAt5();
    var a := PULLED.(versions := [0, 5, 3]);
    assert Apply(PULLED, Change(3)) == a;
    RunOne(PULLED, Change(3), RESTORED[1..]);
    RunFour(a, Change(5), Tick, Acquire(0), Fetched(0, true, 3));
    SkippedAt5(a);
  }

  lemma PulledAt5()
    ensures Apply(Apply(Apply(Apply(START, Change(5)), Acquire(0)), Fetched(0, true, 1)), Applied(0, true)) == PULLED
  {
    var a := START.(versions := [0, 5]);
    assert Apply(START, Change(5)) == a;
    var b := a.(holder := Some(0), calls := map[0 := Fetching(0, 1)], fetches := 1);
    assert Apply(a, Acquire(0)) == b;
    var c := b.(calls := map[0 := Applying(0, 1)]);
    assert Apply(b, Fetched(0, true, 1)) == c;
  }

  lemma SkippedAt5(a: World)
    requires a == PULLED.(versions := [0, 5, 3])
    ensures var w := Apply(Apply(Apply(Apply(a, Change(5)), Tick), Acquire(0)), Fetched(0, true, 3));
      w.commits == PULLED.commits && w.versions == [0, 5, 3, 5] && 0 !in w.calls && !w.failed
  {
    var b := a.(versions := [0, 5, 3, 5]);
    assert Apply(a, Change(5)) == b;
    var c := b.(loop := Pulling, calls := map[0 := Waiting]);
    assert Apply(b, Tick) == c;
    var d := c.(holder := Some(0), calls := map[0 := Fetching(1, 3)], fetches := 2);
    assert Apply(c, Acquire(0)) == d;
  }

  /** What failed to apply reaches Apply again when the next pull brings the same version. */
  lemma FailedApplyStaysEligible(events: seq<Event>, call: nat, next: nat)
    requires var w := Run(START, events);
      && call in w.calls && w.calls[call].Applying? && w.calls[call].moment <= Now(w)
      && w.versions[w.calls[call].moment] == w.versions[Now(w)] && next != 0 && next !in w.calls
    ensures var w := Run(START, events);
      var v := Run(w, [Applied(call, false), Sync(next), Acquire(next), Fetched(next, true, Now(w))]);
      v.commits == w.commits && next in v.calls && v.calls[next] == Applying(w.fetches, Now(w))
  {
    RunKeeps(START, events);
    Eligible(Run(START, events), call, next);
  }

  lemma Eligible(w: World, call: nat, next: nat)
    requires TakesTurns(w) && Newest(w)
    requires call in w.calls && w.calls[call].Applying? && w.versions[w.calls[call].moment] == w.versions[Now(w)]
    requires next != 0 && next !in w.calls
    ensures var v := Run(w, [Applied(call, false), Sync(next), Acquire(next), Fetched(next, true, Now(w))]);
      v.commits == w.commits && next in v.calls && v.calls[next] == Applying(w.fetches, Now(w))
  {
    hide Before, UpTo, TakesTurns, Newest, Apply;
    ReturnedFree(w, call, next);
    var a := Apply(w, Applied(call, false));
    TriesAgain(a, next);
    RunFour(w, Applied(call, false), Sync(next), Acquire(next), Fetched(next, true, Now(w)));
  }

  lemma ReturnedFree(w: World, call: nat, next: nat)
    requires TakesTurns(w) && Newest(w) && next !in w.calls
    requires call in w.calls && w.calls[call].Applying? && w.versions[w.calls[call].moment] == w.versions[Now(w)]
    ensures var a := Apply(w, Applied(call, false));
      && a.holder.None? && next !in a.calls && a.applied == w.applied && a.versions == w.versions
      && a.commits == w.commits && a.fetches == w.fetches
      && w.versions != [] && (w.versions[Now(w)] == 0 || w.versions[Now(w)] != a.applied)
  {
    hide Before, UpTo;
  }

  lemma TriesAgain(a: World, next: nat)
    requires a.holder.None? && next != 0 && next !in a.calls && a.versions != []
    requires a.versions[Now(a)] == 0 || a.versions[Now(a)] != a.applied
    ensures var v := Apply(Apply(Apply(a, Sync(next)), Acquire(next)), Fetched(next, true, Now(a)));
      v.commits == a.commits && next in v.calls && v.calls[next] == Applying(a.fetches, Now(a))
  {
    var b := Apply(a, Sync(next));
    assert b == a.(calls := a.calls[next := Waiting]);
    var c := Apply(b, Acquire(next));
    assert c.calls[next] == Fetching(a.fetches, Now(a)) && c.applied == a.applied && c.versions == a.versions;
  }

  lemma RunFour(w: World, d: Event, e: Event, f: Event, g: Event)
    ensures Run(w, [d, e, f, g]) == Apply(Apply(Apply(Apply(w, d), e), f), g)
  {
    hide Apply;
    RunOne(w, d, [e, f, g]);
    RunOne(Apply(w, d), e, [f, g]);
    RunOne(Apply(Apply(w, d), e), f, [g]);
    RunOne(Apply(Apply(Apply(w, d), e), f), g, []);
    assert [d, e, f, g] == [d] + [e, f, g] && [e, f, g] == [e] + [f, g] && [f, g] == [f] + [g] && [g] == [g] + [];
  }

  lemma RunOne(w: World, e: Event, rest: seq<Event>)
    ensures Run(w, [e] + rest) == Run(Apply(w, e), rest)
  {
    hide Apply;
    assert ([e] + rest)[1..] == rest;
  }

  /******* How soon *******/

  // How many more steps of the loop's own until its next pull starts.
  function Distance(w: World): nat {
    match w.loop
    case Stopped => 0
    case Selecting => 4
    case Debouncing => 3
    case Draining => 2
    case Pulling =>
      if 0 !in w.calls then 0
      else
        match w.calls[0]
        case Waiting => 1
        case Fetching(_, _) => 6
        case Applying(_, _) => 5
  }

  predicate OwnStep(e: Event) {
    e.Tick? || e.Take? || e.Slept? || e.Drain? || ((e.Acquire? || e.Fetched? || e.Applied?) && e.call == 0)
  }

  /** While a nudge is pending every step the loop takes brings its next pull nearer, and that pull serves it. */
  lemma EveryStepGetsNearer(events: seq<Event>, e: Event)
    requires OwnStep(e) && Enabled(Run(START, events), e) && Run(START, events).pending != {}
    ensures var w := Run(START, events);
      var v := Apply(w, e);
      Distance(v) < Distance(w) || (e == Acquire(0) && v.pending == {})
  {
    RunKeeps(START, events);
    var w := Run(START, events);
    assert LoopCalls(w) && TakesTurns(w) && NudgeKept(w);
    hide Run, Inv, LoopCalls, TakesTurns, NudgeKept;
    StepIsNearer(w, e);
  }

  lemma StepIsNearer(w: World, e: Event)
    requires LoopCalls(w) && TakesTurns(w) && NudgeKept(w)
    requires OwnStep(e) && Enabled(w, e) && w.pending != {}
    ensures var v := Apply(w, e);
      Distance(v) < Distance(w) || (e == Acquire(0) && v.pending == {})
  {
  }

  /******* How often *******/

  // The pulls of the loop's own that an event starts, and the triggers it is.
  function Starts(w: World, e: Event): nat {
    if e == Acquire(0) && Enabled(w, e) then 1 else 0
  }

  function Triggers(events: seq<Event>): nat
    decreases |events|
  {
    if events == [] then 0 else Triggers(events[1..]) + if events[0].Nudge? || events[0].Tick? then 1 else 0
  }

  function Pulls(w: World, events: seq<Event>): nat
    decreases |events|
  {
    if events == [] then 0 else Starts(w, events[0]) + Pulls(Apply(w, events[0]), events[1..])
  }

  // The pulls that triggers so far still entitle the loop to: by the slot, the debounce, or the one about to start.
  function Earned(w: World): nat {
    (if w.slot then 1 else 0) + (if w.loop.Debouncing? || w.loop.Draining? then 1 else 0)
    + if 0 in w.calls && w.calls[0].Waiting? then 1 else 0
  }

  /** The loop pulls once at the start and at most once for each nudge and tick, however they interleave. */
  lemma PullsAreEarned(events: seq<Event>)
    ensures Pulls(START, events) <= 1 + Triggers(events)
  {
    PullsWithin(START, events);
  }

  lemma {:induction false} PullsWithin(w: World, events: seq<Event>)
    ensures Pulls(w, events) + Earned(Run(w, events)) <= Earned(w) + Triggers(events)
    decreases |events|
  {
    if events != [] {
      EarnedStep(w, events[0]);
      hide Apply, Earned, Starts;
      PullsWithin(Apply(w, events[0]), events[1..]);
    }
  }

  lemma EarnedStep(w: World, e: Event)
    ensures Starts(w, e) + Earned(Apply(w, e)) <= Earned(w) + if e.Nudge? || e.Tick? then 1 else 0
  {
  }
}
