/**
 The timed executor: one worker thread, a priority queue under a mutex, a condition
 variable, cancellation and stop.  A step is what one thread does between two points where
 others can get in: with the queue's mutex held, or at one atomic access.  The theorems hold
 for every interleaving of clients, worker and clock.
 */
module TimedExecutor {
  import opened Counting

  const UINT64_MAX: nat := 0xFFFF_FFFF_FFFF_FFFF
  /** Ten years, in nanoseconds. */
  const INFINITE_WAIT: nat := 315_360_000_000_000_000

  /** Queue capacity, whether a stop drops tasks, and how late a wait can start after its timeout was computed. */
  datatype Config = Config(cap: nat, drop: bool, lag: nat)

  /**
   Where the worker is: asleep until a deadline or until it notices a signal; awake with the
   mutex held; holding a popped task; running it; on its way back to the mutex; gone.
   */
  datatype Phase =
    | Waiting(deadline: nat, signalled: bool) | Checking | Popped(id: nat) | Running(id: nat) | Done | Exited

  /**
   The executor's variables, and what happened to the tasks, which are numbered as they are
   pushed: `ran[i]` was started at time `at[i]`; `skipped` were found cancelled; `wins` are
   those of the calls to cancel that returned true; `early` were cancelled before they
   started; `late` were pushed since the worker has gone.  `callers` and `stoppers` have
   found the executor running and not yet taken the mutex.  `stale` tells that the executor
   was run again with a timestamp ahead that its former life left behind.
   */
  datatype State = State(
    now: nat, running: bool, update: bool, next: nat, phase: Phase, callers: nat, stoppers: nat, stale: bool,
    ts: seq<nat>, queued: set<nat>, cancelled: set<nat>, wins: seq<nat>,
    ran: seq<nat>, at: seq<nat>, skipped: set<nat>, dropped: set<nat>, early: set<nat>, late: set<nat>)

  /** `Run` is a further call after the first, which leads to `Start`. */
  datatype Event =
    | Tick(dt: nat)
    | CheckRunning | Push(ts: nat) | Cancel(id: nat) | CheckStop | Stop | Run
    | Recheck | Wake | Discard(id: nat) | Decide(id: nat, lag: nat) | Execute | Finish | Relock

  function Start(now: nat): State {
    State(now, true, false, UINT64_MAX, Waiting(now + INFINITE_WAIT, true), 0, 0, false,
          [], {}, {}, [], [], [], {}, {}, {}, {})
  }

  /** The worker's wake-up condition. */
  predicate Due(s: State) {
    !s.running || s.update || s.now > s.next
  }

  predicate CanWake(s: State) {
    s.phase.Waiting? && ((s.phase.signalled && Due(s)) || s.now >= s.phase.deadline)
  }

  function Notify(p: Phase): Phase {
    if p.Waiting? then p.(signalled := true) else p
  }

  /** A queued task with the least timestamp. */
  predicate Top(s: State, id: nat) {
    id in s.queued && id < |s.ts| && forall j | j in s.queued && j < |s.ts| :: s.ts[id] <= s.ts[j]
  }

  predicate Enabled(c: Config, s: State, ev: Event) {
    match ev
    case Tick(dt) => s.now + dt + INFINITE_WAIT <= UINT64_MAX
    case CheckRunning => s.running
    case Push(t) => s.callers > 0 && s.phase != Checking && t <= UINT64_MAX
    case Cancel(id) => id < |s.ts| && s.phase != Running(id)
    case CheckStop => s.running
    case Stop => s.stoppers > 0 && s.phase != Checking
    case Run => !s.running && s.phase == Exited
    case Recheck => s.phase.Waiting? && s.phase.signalled && !Due(s)
    case Wake => CanWake(s)
    case Discard(id) => s.phase == Checking && Top(s, id) && id in s.cancelled
    case Decide(id, lag) => s.phase == Checking && lag <= c.lag && (s.queued == {} || Top(s, id))
    case Execute => s.phase.Popped?
    case Finish => s.phase.Running?
    case Relock => s.phase == Done
  }

  function Less(n: nat): nat {
    if n > 0 then n - 1 else 0
  }

  /** A client that found the executor running has the mutex. */
  function Push1(c: Config, s: State, t: nat): State {
    if |s.queued| >= c.cap then s.(callers := Less(s.callers))
    else
      var id, least := |s.ts|, t < s.next;
      s.(callers := Less(s.callers), ts := s.ts + [t], queued := s.queued + {id}, phase := Notify(s.phase),
         late := if s.phase == Exited then s.late + {id} else s.late,
         next := if least then t else s.next, update := s.update || least, stale := s.stale && !least)
  }

  /** A stop that found the executor running has the mutex. */
  function Stop1(c: Config, s: State): State {
    s.(running := false, phase := Notify(s.phase), stoppers := Less(s.stoppers),
       queued := if c.drop then {} else s.queued, dropped := if c.drop then s.dropped + s.queued else s.dropped)
  }

  /** What the call to cancel returns: whether it is the first for this task. */
  predicate CancelReturns(s: State, id: nat) {
    id !in s.cancelled
  }

  function Cancel1(s: State, id: nat): State {
    s.(cancelled := s.cancelled + {id}, wins := if CancelReturns(s, id) then s.wins + [id] else s.wins,
       early := if id in s.ran then s.early else s.early + {id})
  }

  /**
   A timestamp left from before the stop lies ahead, unnoticed, and comes up before a worker
   that goes to sleep now for want of anything to do looks again.
   */
  predicate Stale(c: Config, s: State) {
    && !s.update && s.now <= s.next
    && s.next + c.lag < s.now + INFINITE_WAIT && s.next + c.lag + INFINITE_WAIT <= UINT64_MAX
  }

  /** The new worker starts as the first one did, but nobody has reset the next timestamp. */
  function Run1(c: Config, s: State): State {
    s.(running := true, phase := Waiting(s.now + INFINITE_WAIT, true), late := {}, stale := Stale(c, s))
  }

  function Decide1(s: State, id: nat, lag: nat): State {
    if s.queued == {} then
      if !s.running then s.(phase := Exited)
      else s.(next := UINT64_MAX, phase := Waiting(s.now + INFINITE_WAIT, true))
    else if id >= |s.ts| then s
    else if s.now < s.ts[id] then s.(next := s.ts[id], phase := Waiting(s.ts[id] + lag, true))
    else s.(next := s.ts[id], queued := s.queued - {id}, phase := Popped(id))
  }

  function Step(c: Config, s: State, ev: Event): State
    requires Enabled(c, s, ev)
  {
    match ev
    case Tick(dt) => s.(now := s.now + dt)
    case CheckRunning => s.(callers := s.callers + 1)
    case Push(t) => Push1(c, s, t)
    case Cancel(id) => Cancel1(s, id)
    case CheckStop => s.(stoppers := s.stoppers + 1)
    case Stop => Stop1(c, s)
    case Run => Run1(c, s)
    case Recheck => s.(phase := s.phase.(signalled := false))
    case Wake => s.(phase := Checking, update := false, stale := false)
    case Discard(id) => s.(queued := s.queued - {id}, skipped := s.skipped + {id})
    case Decide(id, lag) => Decide1(s, id, lag)
    case Execute =>
      var id := s.phase.id;
      if id in s.cancelled then s.(phase := Done, skipped := s.skipped + {id})
      else s.(phase := Running(id), ran := s.ran + [id], at := s.at + [s.now])
    case Finish => s.(phase := Done)
    case Relock => s.(phase := Waiting(s.now, true))
  }

  // ------------------------------------------------------------------------ invariants

  /** The next timestamp is not after any queued one, and the queue respects its capacity. */
  predicate NextIsLeast(c: Config, s: State) {
    && |s.queued| <= c.cap && s.next <= UINT64_MAX && s.now + INFINITE_WAIT <= UINT64_MAX
    && forall id | id in s.queued :: id < |s.ts| && s.next <= s.ts[id] <= UINT64_MAX
  }

  /**
   A sleeping worker has seen every change; unless a stale timestamp misled it, its deadline is
   up with the next timestamp, or that has come up before it fell asleep, or never comes up.
   */
  predicate SleepsRight(c: Config, s: State) {
    s.phase.Waiting? ==>
      && (!s.phase.signalled ==> s.running && !s.update)
      && (s.stale || s.update || s.phase.deadline <= s.next + c.lag || s.phase.deadline <= s.now
          || (s.phase.signalled && s.next < s.now) || UINT64_MAX < s.next + c.lag + INFINITE_WAIT)
  }

  predicate OnTime(ts: seq<nat>, ran: seq<nat>, at: seq<nat>) {
    |ran| == |at| && forall i | 0 <= i < |ran| :: ran[i] < |ts| && ts[ran[i]] <= at[i]
  }

  /** Nothing starts before its time, and nothing starts twice. */
  predicate StartsRight(s: State) {
    && OnTime(s.ts, s.ran, s.at)
    && Once(s.ran)
    && (s.phase.Popped? ==> s.phase.id < |s.ts| && s.ts[s.phase.id] <= s.now)
  }

  /** A task that was pushed is in exactly one place; no other task is anywhere. */
  predicate Placed(s: State, id: nat) {
    One(id in s.queued) + One(s.phase == Popped(id)) + One(id in s.ran) + One(id in s.skipped) + One(id in s.dropped)
      == One(id < |s.ts|)
  }

  /** Cancelled in time is never run, and only cancelled is skipped; of the calls to cancel a task one returns true. */
  ghost predicate CancelsRight(s: State) {
    && (forall id | id in s.early :: id in s.cancelled && id !in s.ran)
    && s.skipped <= s.cancelled
    && Once(s.wins) && (forall id: nat :: id in s.wins <==> id in s.cancelled)
  }

  predicate AllLate(queued: set<nat>, late: set<nat>, dropped: set<nat>) {
    queued == late - dropped
  }

  /** Only a dropping executor drops; the worker left nothing behind. */
  predicate EndsRight(c: Config, s: State) {
    && (s.dropped != {} ==> c.drop)
    && (s.phase == Exited ==> !s.running && AllLate(s.queued, s.late, s.dropped))
    && (s.phase != Exited ==> s.late == {})
  }

  ghost predicate Inv(c: Config, s: State) {
    && NextIsLeast(c, s) && SleepsRight(c, s) && StartsRight(s) && CancelsRight(s) && EndsRight(c, s)
    && forall id: nat :: Placed(s, id)
  }

  lemma PushNext(c: Config, s: State, t: nat)
    requires NextIsLeast(c, s) && t <= UINT64_MAX
    ensures NextIsLeast(c, Push1(c, s, t))
  {
  }

  lemma DecideNext(c: Config, s: State, id: nat, lag: nat)
    requires NextIsLeast(c, s) && (s.queued == {} || Top(s, id))
    ensures NextIsLeast(c, Decide1(s, id, lag))
  {
  }

  lemma StepNext(c: Config, s: State, ev: Event)
    requires NextIsLeast(c, s) && Enabled(c, s, ev)
    ensures NextIsLeast(c, Step(c, s, ev))
  {
    hide Push1;
    hide Decide1;
    hide Due;
    match ev
    case Push(t) => PushNext(c, s, t);
    case Decide(id, lag) => DecideNext(c, s, id, lag);
    case _ =>
  }

  lemma StepSleeps(c: Config, s: State, ev: Event)
    requires NextIsLeast(c, s) && SleepsRight(c, s) && Enabled(c, s, ev)
    ensures SleepsRight(c, Step(c, s, ev))
  {
  }

  lemma StepStarts(c: Config, s: State, ev: Event)
    requires StartsRight(s) && Enabled(c, s, ev) && (s.phase.Popped? ==> s.phase.id !in s.ran)
    ensures StartsRight(Step(c, s, ev))
  {
    hide Due;
    hide OnTime;
    hide Once;
    hide Push1;
    hide Decide1;
    match ev
    case Push(t) => PushStarts(c, s, t);
    case Decide(id, lag) => DecideStarts(s, id, lag);
    case Execute => OnTimeRun(s.ts, s.ran, s.at, s.phase.id, s.now);
    case _ =>
  }

  lemma PushStarts(c: Config, s: State, t: nat)
    requires StartsRight(s)
    ensures StartsRight(Push1(c, s, t))
  {
    hide OnTime;
    hide Once;
    OnTimePush(s.ts, t, s.ran, s.at);
  }

  lemma DecideStarts(s: State, id: nat, lag: nat)
    requires StartsRight(s) && s.phase == Checking
    ensures StartsRight(Decide1(s, id, lag))
  {
    hide OnTime;
    hide Once;
  }

  lemma OnTimePush(ts: seq<nat>, t: nat, ran: seq<nat>, at: seq<nat>)
    requires OnTime(ts, ran, at)
    ensures OnTime(ts + [t], ran, at)
  {
  }

  lemma OnTimeRun(ts: seq<nat>, ran: seq<nat>, at: seq<nat>, id: nat, now: nat)
    requires OnTime(ts, ran, at) && Once(ran) && id < |ts| && ts[id] <= now && id !in ran
    ensures OnTime(ts, ran + [id], at + [now]) && Once(ran + [id])
  {
    OnceMore(ran, id);
  }

  lemma PushPlaced(c: Config, s: State, t: nat, id: nat)
    requires Placed(s, id) && Placed(s, |s.ts|)
    ensures Placed(Push1(c, s, t), id)
  {
  }

  lemma DecidePlaced(s: State, top: nat, lag: nat, id: nat)
    requires Placed(s, id) && s.phase == Checking && (s.queued == {} || top in s.queued)
    ensures Placed(Decide1(s, top, lag), id)
  {
  }

  lemma StepPlaced(c: Config, s: State, ev: Event, id: nat)
    requires Placed(s, id) && Placed(s, |s.ts|) && Enabled(c, s, ev)
    ensures Placed(Step(c, s, ev), id)
  {
    hide Push1;
    hide Decide1;
    hide Due;
    match ev
    case Push(t) => PushPlaced(c, s, t, id);
    case Decide(top, lag) => DecidePlaced(s, top, lag, id);
    case _ =>
  }

  lemma StepCancels(c: Config, s: State, ev: Event)
    requires CancelsRight(s) && Enabled(c, s, ev)
    ensures CancelsRight(Step(c, s, ev))
  {
    hide Push1;
    hide Decide1;
    hide Due;
    hide Once;
    match ev
    case Cancel(id) => CancelKeeps(s, id);
    case Push(t) => PushHistory(c, s, t);
    case Decide(id, lag) => DecideHistory(s, id, lag);
    case _ =>
  }

  lemma CancelKeeps(s: State, id: nat)
    requires CancelsRight(s)
    ensures CancelsRight(Cancel1(s, id))
  {
    if CancelReturns(s, id) {
      OnceMore(s.wins, id);
    }
  }

  predicate SameHistory(s: State, t: State) {
    t.ran == s.ran && t.wins == s.wins && t.early == s.early && t.cancelled == s.cancelled && t.dropped == s.dropped
    && t.skipped == s.skipped
  }

  lemma PushHistory(c: Config, s: State, t: nat)
    ensures SameHistory(s, Push1(c, s, t))
  {
  }

  lemma DecideHistory(s: State, id: nat, lag: nat)
    ensures SameHistory(s, Decide1(s, id, lag))
  {
  }

  lemma StepEnds(c: Config, s: State, ev: Event)
    requires EndsRight(c, s) && Placed(s, |s.ts|) && Enabled(c, s, ev)
    ensures EndsRight(c, Step(c, s, ev))
  {
    hide Push1;
    hide Stop1;
    hide Decide1;
    hide Due;
    match ev
    case Push(t) => PushEnds(c, s, t);
    case Stop => StopEnds(c, s);
    case Decide(id, lag) => DecideEnds(c, s, id, lag);
    case _ =>
  }

  lemma PushEnds(c: Config, s: State, t: nat)
    requires EndsRight(c, s) && |s.ts| !in s.dropped
    ensures EndsRight(c, Push1(c, s, t))
  {
    hide AllLate;
    if s.phase == Exited {
      LateGrows(s.late, s.dropped, s.queued, |s.ts|);
    }
  }

  lemma LateGrows(late: set<nat>, dropped: set<nat>, queued: set<nat>, id: nat)
    requires AllLate(queued, late, dropped) && id !in dropped
    ensures AllLate(queued + {id}, late + {id}, dropped)
  {
  }

  lemma StopEnds(c: Config, s: State)
    requires EndsRight(c, s)
    ensures EndsRight(c, Stop1(c, s))
  {
  }

  lemma DecideEnds(c: Config, s: State, id: nat, lag: nat)
    requires EndsRight(c, s) && s.phase == Checking
    ensures EndsRight(c, Decide1(s, id, lag))
  {
  }

  /** Every step of every thread keeps the executor in order. */
  lemma StepKeeps(c: Config, s: State, ev: Event)
    requires Inv(c, s) && Enabled(c, s, ev)
    ensures Inv(c, Step(c, s, ev))
  {
    StepNext(c, s, ev);
    StepSleeps(c, s, ev);
    if s.phase.Popped? {
      assert Placed(s, s.phase.id);
    }
    StepStarts(c, s, ev);
    StepCancels(c, s, ev);
    assert Placed(s, |s.ts|);
    StepEnds(c, s, ev);
    forall id: nat
      ensures Placed(Step(c, s, ev), id)
    {
      StepPlaced(c, s, ev, id);
    }
  }

  // ------------------------------------------------------------------------ whole runs

  /** An event that cannot happen in the state is skipped, so that every sequence is a run. */
  function After(c: Config, s: State, run: seq<Event>): State
    decreases |run|
  {
    if run == [] then s
    else After(c, if Enabled(c, s, run[0]) then Step(c, s, run[0]) else s, run[1..])
  }

  lemma Prepend(c: Config, s: State, ev: Event, t: State, run: seq<Event>) returns (run': seq<Event>)
    requires Enabled(c, s, ev) && After(c, Step(c, s, ev), run) == t
    ensures After(c, s, run') == t
  {
    run' := [ev] + run;
    assert run'[1..] == run;
  }

  lemma {:induction false} AfterBoth(c: Config, s: State, a: seq<Event>, b: seq<Event>)
    ensures After(c, s, a + b) == After(c, After(c, s, a), b)
    decreases |a|
  {
    if a == [] {
      assert a + b == b;
    } else {
      assert (a + b)[1..] == a[1..] + b;
      AfterBoth(c, if Enabled(c, s, a[0]) then Step(c, s, a[0]) else s, a[1..], b);
    }
  }

  lemma {:induction false} RunsKeep(c: Config, s: State, run: seq<Event>)
    requires Inv(c, s)
    ensures Inv(c, After(c, s, run))
    decreases |run|
  {
    if run != [] {
      if Enabled(c, s, run[0]) {
        StepKeeps(c, s, run[0]);
        RunsKeep(c, Step(c, s, run[0]), run[1..]);
      } else {
        RunsKeep(c, s, run[1..]);
      }
    }
  }

  lemma StartKeeps(c: Config, now: nat)
    requires now + INFINITE_WAIT <= UINT64_MAX
    ensures Inv(c, Start(now))
  {
    hide Placed;
    forall id: nat
      ensures Placed(Start(now), id)
    {
      StartPlaced(now, id);
    }
  }

  lemma StartPlaced(now: nat, id: nat)
    ensures Placed(Start(now), id)
  {
  }

  /** The worker sleeps on although there is something to do: a stop, or a task overdue by the lag. */
  predicate Missed(c: Config, s: State) {
    && s.phase.Waiting? && !CanWake(s)
    && (!s.running || exists id :: id in s.queued && id < |s.ts| && s.ts[id] + c.lag <= s.now)
  }

  /**
   No deadline is missed: in every run, a sleeping worker can wake up whenever a queued task
   is due by more than the lag, or the executor has been stopped, provided that it was not
   run again with a stale timestamp.
   */
  lemma NeverMissed(c: Config, now: nat, run: seq<Event>)
    requires now + INFINITE_WAIT <= UINT64_MAX
    ensures var s := After(c, Start(now), run); !s.stale || !s.running ==> !Missed(c, s)
    ensures Run !in run ==> !After(c, Start(now), run).stale
  {
    StartKeeps(c, now);
    RunsKeep(c, Start(now), run);
    var s := After(c, Start(now), run);
    if !s.stale || !s.running {
      AwakeInTime(c, s);
    }
    if Run !in run {
      StaleComesFromRun(c, Start(now), run);
    }
  }

  lemma AwakeInTime(c: Config, s: State)
    requires Inv(c, s) && (!s.stale || !s.running)
    ensures !Missed(c, s)
  {
  }

  lemma {:induction false} StaleComesFromRun(c: Config, s: State, run: seq<Event>)
    requires !s.stale && Run !in run
    ensures !After(c, s, run).stale
    decreases |run|
  {
    if run != [] {
      StaleComesFromRun(c, if Enabled(c, s, run[0]) then Step(c, s, run[0]) else s, run[1..]);
    }
  }

  /** With a stale timestamp, a task pushed for that time is missed. */
  lemma StaleMisses(c: Config, s: State) returns (run: seq<Event>)
    requires Inv(c, s) && Enabled(c, s, Run) && |s.queued| < c.cap && Stale(c, s)
    ensures Run !in run && Missed(c, After(c, Step(c, s, Run), run))
  {
    var t := Step(c, s, Run);
    var t1 := Step(c, t, CheckRunning);
    var t2 := Step(c, t1, Push(s.next));
    var t3 := Step(c, t2, Recheck);
    var dt := s.next + c.lag - s.now;
    var t4 := Step(c, t3, Tick(dt));
    assert |s.ts| in t4.queued && t4.ts[|s.ts|] == s.next;
    run := [CheckRunning, Push(s.next), Recheck, Tick(dt)];
    assert run[1..] == [Push(s.next), Recheck, Tick(dt)];
    assert After(c, t3, [Tick(dt)]) == t4;
    assert After(c, t2, [Recheck, Tick(dt)]) == After(c, t3, [Tick(dt)]);
    assert After(c, t1, [Push(s.next), Recheck, Tick(dt)]) == After(c, t2, [Recheck, Tick(dt)]);
  }

  /**
   An executor that is run again, and that can still take a task, misses nothing until it is
   run once more if and only if no stale timestamp is left when it is run.
   */
  lemma RunAgain(c: Config, s: State)
    requires Inv(c, s) && Enabled(c, s, Run) && |s.queued| < c.cap
    ensures (forall run: seq<Event> | Run !in run :: !Missed(c, After(c, Step(c, s, Run), run))) <==> !Stale(c, s)
  {
    var t := Step(c, s, Run);
    if Stale(c, s) {
      var run := StaleMisses(c, s);
    } else {
      StepKeeps(c, s, Run);
      forall run: seq<Event> | Run !in run
        ensures !Missed(c, After(c, t, run))
      {
        RunsKeep(c, t, run);
        StaleComesFromRun(c, t, run);
        AwakeInTime(c, After(c, t, run));
      }
    }
  }

  /**
   None is anticipated either: in every run, no task starts before its timestamp, or twice, or
   after a timely cancel.
   */
  lemma NeverEarly(c: Config, now: nat, run: seq<Event>)
    requires now + INFINITE_WAIT <= UINT64_MAX
    ensures var s := After(c, Start(now), run);
            && OnTime(s.ts, s.ran, s.at) && Once(s.ran) && forall id | id in s.early :: id !in s.ran
  {
    StartKeeps(c, now);
    RunsKeep(c, Start(now), run);
  }

  /**
   Tasks are conserved: in every run, each pushed task is in exactly one place; one that was
   skipped had been cancelled by a call, one that was dropped was by a stop that drops.
   */
  lemma Conservation(c: Config, now: nat, run: seq<Event>, id: nat)
    requires now + INFINITE_WAIT <= UINT64_MAX
    ensures var s := After(c, Start(now), run);
            var places := One(id in s.queued) + One(s.phase == Popped(id)) + One(id in s.ran) + One(id in s.skipped);
            && places + One(id in s.dropped) == One(id < |s.ts|)
            && |s.queued| <= c.cap
            && (id in s.skipped ==> Cancel(id) in run) && (id in s.dropped ==> c.drop && Stop in run)
  {
    StartKeeps(c, now);
    RunsKeep(c, Start(now), run);
    assert Placed(After(c, Start(now), run), id);
    Reasons(c, Start(now), run, id);
  }

  /** Tasks are cancelled and dropped only by those who ask for it. */
  lemma {:induction false} Reasons(c: Config, s: State, run: seq<Event>, id: nat)
    ensures var t := After(c, s, run);
            && (id in t.cancelled ==> id in s.cancelled || Cancel(id) in run)
            && (id in t.dropped ==> id in s.dropped || Stop in run)
    decreases |run|
  {
    if run != [] {
      if Enabled(c, s, run[0]) {
        StepReasons(c, s, run[0], id);
        Reasons(c, Step(c, s, run[0]), run[1..], id);
      } else {
        Reasons(c, s, run[1..], id);
      }
    }
  }

  lemma StepReasons(c: Config, s: State, ev: Event, id: nat)
    requires Enabled(c, s, ev)
    ensures var t := Step(c, s, ev);
            && (id in t.cancelled ==> id in s.cancelled || ev == Cancel(id))
            && (id in t.dropped ==> id in s.dropped || ev == Stop)
  {
    hide Push1;
    hide Decide1;
    hide Due;
    match ev
    case Push(t) => PushHistory(c, s, t);
    case Decide(top, lag) => DecideHistory(s, top, lag);
    case _ =>
  }

  /** The push is refused exactly if the queue is full; otherwise the task is queued with its timestamp. */
  predicate Pushed(c: Config, s: State, t: nat, u: State) {
    if |s.queued| == c.cap then u.ts == s.ts && u.queued == s.queued
    else u.ts == s.ts + [t] && u.queued == s.queued + {|s.ts|} && |s.ts| !in s.queued
  }

  lemma PushExact(c: Config, now: nat, run: seq<Event>, t: nat)
    requires now + INFINITE_WAIT <= UINT64_MAX
    ensures var s := After(c, Start(now), run); Enabled(c, s, Push(t)) ==> Pushed(c, s, t, Step(c, s, Push(t)))
  {
    hide Pushed;
    hide Push1;
    hide Inv;
    StartKeeps(c, now);
    RunsKeep(c, Start(now), run);
    var s := After(c, Start(now), run);
    NewIsNew(c, s);
    PushPushes(c, s, t);
  }

  lemma NewIsNew(c: Config, s: State)
    requires Inv(c, s)
    ensures |s.queued| <= c.cap && |s.ts| !in s.queued
  {
    assert Placed(s, |s.ts|);
  }

  lemma PushPushes(c: Config, s: State, t: nat)
    requires |s.queued| <= c.cap && |s.ts| !in s.queued
    ensures Pushed(c, s, t, Push1(c, s, t))
  {
  }

  /** A task of the queue has come due. */
  predicate SomeDue(s: State) {
    exists j :: j in s.queued && j < |s.ts| && s.ts[j] <= s.now
  }

  /**
   The worker takes a task from the queue exactly if one is due, and then one with the least
   timestamp of all, which it notes down; it leaves exactly if it finds the queue empty and the
   executor stopped.
   */
  ghost predicate TookLeast(s: State, t: State) {
    && (t.phase.Popped? <==> SomeDue(s))
    && (t.phase.Popped? ==> Top(s, t.phase.id) && t.queued == s.queued - {t.phase.id})
    && (s.queued != {} ==> exists j: nat :: Top(s, j) && t.next == s.ts[j])
    && (s.queued == {} && s.running ==> t.next == UINT64_MAX)
    && (!t.phase.Popped? ==> t.queued == s.queued)
    && (t.phase == Exited <==> s.queued == {} && !s.running)
  }

  lemma TakesLeast(c: Config, now: nat, run: seq<Event>, id: nat, lag: nat)
    requires now + INFINITE_WAIT <= UINT64_MAX
    ensures var s, ev := After(c, Start(now), run), Decide(id, lag); Enabled(c, s, ev) ==> TookLeast(s, Step(c, s, ev))
  {
    hide TookLeast;
    hide Decide1;
    hide Due;
    var s := After(c, Start(now), run);
    if Enabled(c, s, Decide(id, lag)) {
      DecideTakes(s, id, lag);
    }
  }

  lemma DecideTakes(s: State, id: nat, lag: nat)
    requires s.phase == Checking && (s.queued == {} || Top(s, id))
    ensures TookLeast(s, Decide1(s, id, lag))
  {
  }

  /** In every run, a task that was taken runs exactly if it has not been cancelled, however late it is. */
  lemma RunsUnlessCancelled(c: Config, now: nat, run: seq<Event>)
    requires now + INFINITE_WAIT <= UINT64_MAX
    ensures var s := After(c, Start(now), run);
            s.phase.Popped? ==>
              && Enabled(c, s, Execute)
              && var t := Step(c, s, Execute);
                 if s.phase.id in s.cancelled then t.ran == s.ran && s.phase.id in t.skipped
                 else t.ran == s.ran + [s.phase.id] && t.at == s.at + [s.now]
  {
  }

  // ------------------------------------------------------------------------- progress

  predicate OfWorker(ev: Event) {
    ev.Recheck? || ev.Wake? || ev.Discard? || ev.Decide? || ev.Execute? || ev.Finish? || ev.Relock?
  }

  predicate WorkerOnly(run: seq<Event>) {
    forall i | 0 <= i < |run| :: OfWorker(run[i])
  }

  function PhaseRank(p: Phase): nat {
    match p
    case Popped(_) => 4
    case Running(_) => 3
    case Done => 2
    case Waiting(_, _) => 1
    case _ => 0
  }

  /** A queue that is not empty has a first task. */
  lemma TopExists(s: State, q: set<nat>) returns (id: nat)
    requires q != {} && forall j | j in q :: j < |s.ts|
    ensures id in q && forall j | j in q :: s.ts[id] <= s.ts[j]
    decreases |q|
  {
    var first :| first in q;
    var rest := q - {first};
    id := first;
    if rest != {} {
      var k := TopExists(s, rest);
      if s.ts[k] < s.ts[first] {
        id := k;
      }
      forall j | j in q
        ensures s.ts[id] <= s.ts[j]
      {
        assert j == first || j in rest;
      }
    } else {
      assert forall j | j in q :: j == first || j in rest;
    }
  }

  /** The step the worker takes next: in every state it has not left, unless it sleeps rightly, it can go on. */
  lemma NextStep(c: Config, s: State) returns (ev: Event)
    requires Inv(c, s) && s.phase != Exited && (s.phase.Waiting? ==> CanWake(s))
    ensures OfWorker(ev) && Enabled(c, s, ev)
    ensures match s.phase
            case Waiting(_, _) => ev == Wake
            case Checking => ev.Decide? && (s.queued != {} ==> Top(s, ev.id))
            case Popped(_) => ev == Execute
            case Running(_) => ev == Finish
            case Done => ev == Relock
  {
    match s.phase
    case Waiting(_, _) => ev := Wake;
    case Checking =>
      ev := Decide(0, 0);
      if s.queued != {} {
        var id := TopExists(s, s.queued);
        ev := Decide(id, 0);
      }
    case Popped(_) => ev := Execute;
    case Running(_) => ev := Finish;
    case Done => ev := Relock;
  }

  lemma WorkerPrepend(c: Config, s: State, ev: Event, run: seq<Event>) returns (run': seq<Event>)
    requires Enabled(c, s, ev) && OfWorker(ev) && WorkerOnly(run)
    ensures WorkerOnly(run') && After(c, s, run') == After(c, Step(c, s, ev), run)
  {
    run' := [ev] + run;
    assert run'[1..] == run;
  }

  /** What a step of the worker leaves as it is. */
  lemma WorkerStep(c: Config, s: State, ev: Event)
    requires Enabled(c, s, ev) && OfWorker(ev) && !s.stale
    ensures var t := Step(c, s, ev);
            && !t.stale && t.now == s.now && t.ts == s.ts && t.cancelled == s.cancelled && t.running == s.running
            && t.queued <= s.queued && s.ran <= t.ran
  {
    hide Decide1;
    hide Due;
    if ev.Decide? {
      DecideQueue(s, ev.id, ev.lag);
    }
  }

  lemma DecideQueue(s: State, id: nat, lag: nat)
    ensures var t := Decide1(s, id, lag);
            && t.stale == s.stale && t.now == s.now && t.ts == s.ts && t.cancelled == s.cancelled
            && t.running == s.running && t.queued <= s.queued && t.ran == s.ran
  {
  }

  /** What the worker's next step does to the queue and to its phase. */
  lemma NextMoves(c: Config, s: State, ev: Event)
    requires Inv(c, s) && Enabled(c, s, ev) && OfWorker(ev) && ev != Recheck && !ev.Discard?
    ensures var t := Step(c, s, ev);
            if s.phase == Checking then t.phase.Popped? ==> t.phase.id == ev.id && t.queued == s.queued - {ev.id}
            else
              && PhaseRank(t.phase) < PhaseRank(s.phase) && t.phase != Exited
              && t.queued == s.queued && (t.phase.Waiting? ==> CanWake(t))
  {
  }

  /**
   Every task is served: in every state that is not misled by a stale timestamp, as long as
   the worker has not left, a queued task that is overdue by the lag and not cancelled is
   run if only the worker goes on.
   */
  lemma Served(c: Config, s: State, id: nat) returns (run: seq<Event>)
    requires Inv(c, s) && !s.stale && s.phase != Exited
    requires id in s.queued && id < |s.ts| && s.ts[id] + c.lag <= s.now && id !in s.cancelled
    ensures WorkerOnly(run) && id in After(c, s, run).ran
    decreases |s.queued|, PhaseRank(s.phase)
  {
    AwakeInTime(c, s);
    var ev := NextStep(c, s);
    var t := Step(c, s, ev);
    StepKeeps(c, s, ev);
    WorkerStep(c, s, ev);
    NextMoves(c, s, ev);
    if s.phase == Checking {
      DueTaken(c, s, ev.id, ev.lag, id);
      if ev.id == id {
        var u := Step(c, t, Execute);
        assert After(c, u, []) == u;
        run := WorkerPrepend(c, t, Execute, []);
      } else {
        run := Served(c, t, id);
      }
    } else {
      run := Served(c, t, id);
    }
    run := WorkerPrepend(c, s, ev, run);
  }

  lemma DueTaken(c: Config, s: State, top: nat, lag: nat, id: nat)
    requires s.phase == Checking && Top(s, top) && id in s.queued && id < |s.ts| && s.ts[id] <= s.now
    ensures var t := Decide1(s, top, lag);
            t.phase == Popped(top) && t.queued == s.queued - {top} && |t.queued| < |s.queued|
  {
  }

  /** A stopped executor with nothing queued lets its worker leave. */
  lemma Leaves(c: Config, s: State) returns (run: seq<Event>)
    requires Inv(c, s) && !s.stale && !s.running && s.queued == {}
    ensures WorkerOnly(run) && After(c, s, run).phase == Exited
    decreases PhaseRank(s.phase)
  {
    if s.phase == Exited {
      run := [];
    } else {
      AwakeInTime(c, s);
      var ev := NextStep(c, s);
      var t := Step(c, s, ev);
      StepKeeps(c, s, ev);
      WorkerStep(c, s, ev);
      NextMoves(c, s, ev);
      run := [];
      if s.phase != Checking {
        run := Leaves(c, t);
      }
      run := WorkerPrepend(c, s, ev, run);
    }
  }

  /**
   A stop takes effect for good: in every continuation without a further run, the executor is
   not running, and no more tasks come in than there were callers past their check; a dropping
   one drops exactly what was queued, the other nothing.
   */
  lemma StopTakesEffect(c: Config, s: State, run: seq<Event>)
    requires Inv(c, s) && Enabled(c, s, Stop) && Run !in run
    ensures var t, u := After(c, Step(c, s, Stop), run), Step(c, s, Stop);
            && !t.running && |t.ts| + t.callers <= |s.ts| + s.callers
            && u.dropped == s.dropped + (if c.drop then s.queued else {})
            && u.queued == (if c.drop then {} else s.queued)
            && u.ran == s.ran && u.skipped == s.skipped && u.dropped <= t.dropped
  {
    StaysStopped(c, Step(c, s, Stop), run);
  }

  lemma {:induction false} StaysStopped(c: Config, s: State, run: seq<Event>)
    requires !s.running && Run !in run
    ensures var t := After(c, s, run); !t.running && |t.ts| + t.callers <= |s.ts| + s.callers && s.dropped <= t.dropped
    decreases |run|
  {
    if run != [] {
      if Enabled(c, s, run[0]) {
        StoppedStep(c, s, run[0]);
        StaysStopped(c, Step(c, s, run[0]), run[1..]);
      } else {
        StaysStopped(c, s, run[1..]);
      }
    }
  }

  lemma StoppedStep(c: Config, s: State, ev: Event)
    requires !s.running && ev != Run && Enabled(c, s, ev)
    ensures var t := Step(c, s, ev); !t.running && |t.ts| + t.callers <= |s.ts| + s.callers && s.dropped <= t.dropped
  {
  }

  const DROPPING := Config(1, true, 0)

  /** The executor has been stopped while it waited for a task of the next nanosecond, and dropped it. */
  function Emptied(now: nat): State {
    Start(now).(ts := [now + 1], next := now + 1, running := false, dropped := {0}, phase := Exited)
  }

  lemma ReachEmptied(now: nat) returns (run: seq<Event>)
    requires now + 1 + INFINITE_WAIT <= UINT64_MAX
    ensures After(DROPPING, Start(now), run) == Emptied(now)
  {
    var s := Start(now);
    var s1 := s.(callers := 1);
    assert Step(DROPPING, s, CheckRunning) == s1;
    var s2 := s.(ts := [now + 1], queued := {0}, next := now + 1, update := true);
    assert Step(DROPPING, s1, Push(now + 1)) == s2;
    var s3 := s2.(phase := Checking, update := false);
    assert Step(DROPPING, s2, Wake) == s3;
    var s4 := s3.(phase := Waiting(now + 1, true));
    assert Step(DROPPING, s3, Decide(0, 0)) == s4;
    run := StopsEmpty(now, s4);
    run := Prepend(DROPPING, s3, Decide(0, 0), Emptied(now), run);
    run := Prepend(DROPPING, s2, Wake, Emptied(now), run);
    run := Prepend(DROPPING, s1, Push(now + 1), Emptied(now), run);
    run := Prepend(DROPPING, s, CheckRunning, Emptied(now), run);
  }

  lemma StopsEmpty(now: nat, s: State) returns (run: seq<Event>)
    requires s == Start(now).(ts := [now + 1], queued := {0}, next := now + 1, phase := Waiting(now + 1, true))
    ensures After(DROPPING, s, run) == Emptied(now)
  {
    var s1 := s.(stoppers := 1);
    assert Step(DROPPING, s, CheckStop) == s1;
    var s2 := s.(queued := {}, dropped := {0}, running := false);
    assert Step(DROPPING, s1, Stop) == s2;
    var s3 := s2.(phase := Checking);
    assert Step(DROPPING, s2, Wake) == s3;
    run := Prepend(DROPPING, s3, Decide(0, 0), Emptied(now), []);
    run := Prepend(DROPPING, s2, Wake, Emptied(now), run);
    run := Prepend(DROPPING, s1, Stop, Emptied(now), run);
    run := Prepend(DROPPING, s, CheckStop, Emptied(now), run);
  }

  /** A stale timestamp can be left: a run that stops, runs again and then misses a task. */
  lemma MissesWhenRunAgain(now: nat) returns (run: seq<Event>)
    requires now + 1 + INFINITE_WAIT <= UINT64_MAX
    ensures Missed(DROPPING, After(DROPPING, Start(now), run))
  {
    var c, s := DROPPING, Emptied(now);
    var a := ReachEmptied(now);
    StartKeeps(c, now);
    RunsKeep(c, Start(now), a);
    var b := StaleMisses(c, s);
    var t := After(c, Step(c, s, Run), b);
    var d := Prepend(c, s, Run, t, b);
    AfterBoth(c, Start(now), a, d);
    run := a + d;
  }

  lemma {:induction false} HistoryGrows(c: Config, s: State, run: seq<Event>)
    ensures var t := After(c, s, run); s.early <= t.early && s.ran <= t.ran && s.wins <= t.wins
    decreases |run|
  {
    if run != [] {
      if Enabled(c, s, run[0]) {
        StepHistory(c, s, run[0]);
        HistoryGrows(c, Step(c, s, run[0]), run[1..]);
      } else {
        HistoryGrows(c, s, run[1..]);
      }
    }
  }

  lemma StepHistory(c: Config, s: State, ev: Event)
    requires Enabled(c, s, ev)
    ensures var t := Step(c, s, ev); s.early <= t.early && s.ran <= t.ran && s.wins <= t.wins
  {
    hide Push1;
    hide Decide1;
    hide Due;
    match ev
    case Push(t) => PushHistory(c, s, t);
    case Decide(id, lag) => DecideHistory(s, id, lag);
    case _ =>
  }

  /**
   A call to cancel prevents the task for good exactly if the task has not started, whatever
   the call returns; and in every continuation just one of the calls has returned true.
   */
  lemma CancelPrevents(c: Config, s: State, id: nat, run: seq<Event>)
    requires Inv(c, s) && Enabled(c, s, Cancel(id))
    ensures var t := After(c, Step(c, s, Cancel(id)), run);
            (id in t.ran <==> id in s.ran) && id in t.wins && Once(t.wins)
  {
    var t := Step(c, s, Cancel(id));
    StepKeeps(c, s, Cancel(id));
    RunsKeep(c, t, run);
    HistoryGrows(c, t, run);
  }

  const ONE := Config(1, false, 0)

  /** The state in which a task pushed for now has been taken from the queue. */
  function Taken(now: nat): State {
    Start(now).(ts := [now], next := now, phase := Popped(0))
  }

  lemma ReachTaken(now: nat) returns (run: seq<Event>)
    requires now + INFINITE_WAIT <= UINT64_MAX
    ensures After(ONE, Start(now), run) == Taken(now)
  {
    var s := Start(now);
    var s1 := s.(callers := 1);
    assert Step(ONE, s, CheckRunning) == s1;
    var s2 := s.(ts := [now], queued := {0}, next := now, update := true);
    assert Step(ONE, s1, Push(now)) == s2;
    var s3 := s2.(phase := Checking, update := false);
    assert Step(ONE, s2, Wake) == s3;
    assert Step(ONE, s3, Decide(0, 0)) == Taken(now);
    run := Prepend(ONE, s3, Decide(0, 0), Taken(now), []);
    run := Prepend(ONE, s2, Wake, Taken(now), run);
    run := Prepend(ONE, s1, Push(now), Taken(now), run);
    run := Prepend(ONE, s, CheckRunning, Taken(now), run);
  }

  /** A call can return true for a task that has run to its end. */
  lemma CancelsTooLate(now: nat) returns (run: seq<Event>)
    requires now + INFINITE_WAIT <= UINT64_MAX
    ensures var s := After(ONE, Start(now), run);
            Enabled(ONE, s, Cancel(0)) && CancelReturns(s, 0) && s.ran == [0] && s.phase == Done
  {
    var a := ReachTaken(now);
    var s1 := Taken(now).(phase := Running(0), ran := [0], at := [now]);
    assert Step(ONE, Taken(now), Execute) == s1;
    var s2 := s1.(phase := Done);
    var b := Prepend(ONE, s1, Finish, s2, []);
    b := Prepend(ONE, Taken(now), Execute, s2, b);
    AfterBoth(ONE, Start(now), a, b);
    run := a + b;
  }

  /**
   When the worker has exited, the tasks in the queue are exactly those pushed since it left,
   through the gap between the check of the running flag and the lock, and not dropped by
   another stop that came through the same gap.
   */
  lemma ExitLeavesOnlyLate(c: Config, now: nat, run: seq<Event>)
    requires now + INFINITE_WAIT <= UINT64_MAX
    ensures var s := After(c, Start(now), run);
            s.phase == Exited ==> !s.running && s.queued == s.late - s.dropped && (!c.drop ==> s.dropped == {})
  {
    StartKeeps(c, now);
    RunsKeep(c, Start(now), run);
  }

  /**
   Such a task stays queued, in every continuation in which the executor is not run again,
   if and only if no dropping stop was past its check and now gets the lock; then it is dropped.
   */
  lemma {:induction false} StrandedUnless(c: Config, s: State, run: seq<Event>, id: nat)
    requires s.phase == Exited && !s.running && id in s.queued && id < |s.ts| && Run !in run
    ensures var t := After(c, s, run); var hit := c.drop && s.stoppers > 0 && Stop in run;
            && t.phase == Exited && !t.running
            && (id in t.queued <==> !hit) && (hit ==> id in t.dropped)
    decreases |run|
  {
    if run != [] {
      var t := if Enabled(c, s, run[0]) then Step(c, s, run[0]) else s;
      assert run == [run[0]] + run[1..];
      if run[0] == Stop && c.drop && s.stoppers > 0 {
        StaysDropped(c, t, run[1..], id);
      } else {
        StrandedUnless(c, t, run[1..], id);
      }
    }
  }

  lemma {:induction false} StaysDropped(c: Config, s: State, run: seq<Event>, id: nat)
    requires s.phase == Exited && !s.running && id < |s.ts| && id !in s.queued && id in s.dropped && Run !in run
    ensures var t := After(c, s, run);
            t.phase == Exited && !t.running && id !in t.queued && id in t.dropped
    decreases |run|
  {
    if run != [] {
      StaysDropped(c, if Enabled(c, s, run[0]) then Step(c, s, run[0]) else s, run[1..], id);
    }
  }

  /** The gap is real, for tasks ... */
  lemma Stranded(now: nat, drop: bool) returns (run: seq<Event>)
    requires now + INFINITE_WAIT <= UINT64_MAX
    ensures var s := After(Config(1, drop, 0), Start(now), run);
            s.phase == Exited && !s.running && |s.ts| == 1 && s.queued == s.late == {0} && s.stoppers == 1
  {
    var c, s := Config(1, drop, 0), Start(now);
    var s1 := s.(callers := 1);
    assert Step(c, s, CheckRunning) == s1;
    var s2 := s1.(stoppers := 1);
    assert Step(c, s1, CheckStop) == s2;
    var s3 := s2.(stoppers := 2);
    assert Step(c, s2, CheckStop) == s3;
    var s4 := s3.(stoppers := 1, running := false);
    assert Step(c, s3, Stop) == s4;
    var s5 := s4.(phase := Checking);
    assert Step(c, s4, Wake) == s5;
    var s6 := s5.(phase := Exited);
    assert Step(c, s5, Decide(0, 0)) == s6;
    var s7 := s6.(callers := 0, ts := [7], queued := {0}, late := {0}, next := 7, update := true);
    assert Step(c, s6, Push(7)) == s7;
    run := Prepend(c, s6, Push(7), s7, []);
    run := Prepend(c, s5, Decide(0, 0), s7, run);
    run := Prepend(c, s4, Wake, s7, run);
    run := Prepend(c, s3, Stop, s7, run);
    run := Prepend(c, s2, CheckStop, s7, run);
    run := Prepend(c, s1, CheckStop, s7, run);
    run := Prepend(c, s, CheckRunning, s7, run);
  }

  /** ... and for stops, which may then drop the stranded task. */
  lemma StrandedThenDropped(now: nat) returns (run: seq<Event>)
    requires now + INFINITE_WAIT <= UINT64_MAX
    ensures var s := After(Config(1, true, 0), Start(now), run); s.phase == Exited && 0 in s.late && 0 in s.dropped
  {
    var c := Config(1, true, 0);
    var a := Stranded(now, true);
    var s := After(c, Start(now), a);
    StrandedUnless(c, s, [Stop], 0);
    AfterBoth(c, Start(now), a, [Stop]);
    run := a + [Stop];
  }
}
