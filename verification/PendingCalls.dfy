/**
 The table of pending calls of an HTTP connection.  Submission failures, closing streams,
 connection errors and a stop race to finish a call; a successful erase from the table is
 the claim to finish it.  A step is one atomic access to the table or to a flag, or one
 call's completion.  Handlers run on the connection's I/O thread, one after the other.
 */
module PendingCalls {
  import opened Counting

  /** `Run` starts the I/O thread; a stop clears the flag, joins the thread, and then cancels what is pending. */
  datatype Life = Fresh | Up | Stopping | Cancelling | Stopped

  /**
   Calls are numbered as they are inserted.  `callers` have found the connection ready and not
   yet inserted their call; `claimed` have been erased and not yet been finished; `finished` in
   that order.  A cancellation, on the I/O thread or by a stop, has the keys still to visit of
   those it found when it began, and `...Before` calls had been inserted then.
   */
  datatype State = State(
    life: Life, io: bool, ready: bool, callers: nat, inserted: nat,
    pending: set<nat>, claimed: set<nat>, finished: seq<nat>,
    ioDue: set<nat>, ioBefore: nat, stopDue: set<nat>, stopBefore: nat)

  /** `Close`: a submission fails or a stream closes, and the call's own handler tries to claim it. */
  datatype Event =
    | Check | Insert | Finish(id: nat)
    | Connect | Disconnect | Close(id: nat) | ErrorBegin | ErrorNext(id: nat) | IoEnd | IoThrows
    | Run | StopBegin | StopCancel | StopNext(id: nat) | StopReturn

  const START := State(Fresh, false, false, 0, 0, {}, {}, [], {}, 0, {}, 0)

  /** The I/O thread is there, and between two handlers. */
  predicate Idle(s: State) {
    s.io && s.ioDue == {}
  }

  predicate Enabled(s: State, ev: Event) {
    match ev
    case Check => s.ready
    case Insert => s.callers > 0
    case Finish(id) => id in s.claimed
    case Connect => Idle(s)
    case Disconnect => Idle(s)
    case Close(id) => Idle(s) && id < s.inserted
    case ErrorBegin => Idle(s)
    case ErrorNext(id) => s.io && id in s.ioDue
    case IoEnd => Idle(s) && s.life == Stopping
    case IoThrows => Idle(s)
    case Run => s.life == Fresh || s.life == Stopped
    case StopBegin => s.life == Up || s.life == Stopped
    case StopCancel => s.life == Stopping && !s.io
    case StopNext(id) => s.life == Cancelling && id in s.stopDue
    case StopReturn => s.life == Cancelling && s.stopDue == {}
  }

  /** Erase the key, and take the call over if it was there. */
  function Claim(s: State, id: nat): State {
    if id in s.pending then s.(pending := s.pending - {id}, claimed := s.claimed + {id}) else s
  }

  function Step(s: State, ev: Event): State
    requires Enabled(s, ev)
  {
    match ev
    case Check => s.(callers := s.callers + 1)
    case Insert => s.(callers := s.callers - 1, inserted := s.inserted + 1, pending := s.pending + {s.inserted})
    case Finish(id) => s.(claimed := s.claimed - {id}, finished := s.finished + [id])
    case Connect => s.(ready := true)
    case Disconnect => s.(ready := false)
    case Close(id) => Claim(s, id)
    case ErrorBegin => s.(ioDue := s.pending, ioBefore := s.inserted)
    case ErrorNext(id) => Claim(s, id).(ioDue := s.ioDue - {id})
    case IoEnd => s.(io := false)
    case IoThrows => s.(io := false, ready := false)
    case Run => s.(life := Up, io := true, ready := false)
    case StopBegin => s.(life := Stopping, ready := false)
    case StopCancel => s.(life := Cancelling, stopDue := s.pending, stopBefore := s.inserted)
    case StopNext(id) => Claim(s, id).(stopDue := s.stopDue - {id})
    case StopReturn => s.(life := Stopped)
  }

  // ------------------------------------------------------------------------ invariants

  /** An inserted call is pending, claimed or finished, and only one of these; no other call is any. */
  predicate Placed(s: State, id: nat) {
    One(id in s.pending) + One(id in s.claimed) + One(id in s.finished) == One(id < s.inserted)
  }

  /** What a cancellation has not visited of the calls it found is all of them that can be pending. */
  predicate Visited(pending: set<nat>, inserted: nat, due: set<nat>, before: nat) {
    && before <= inserted && (forall id | id in due :: id < before)
    && forall id | id in pending :: id in due || before <= id
  }

  /** From the moment a stop cancels, what is pending is what it has to visit and what came later. */
  ghost predicate Exact(pending: set<nat>, inserted: nat, due: set<nat>, before: nat) {
    && before <= inserted && (forall id | id in due :: id < before)
    && forall id: nat :: id in pending <==> id in due || before <= id < inserted
  }

  ghost predicate LifeRight(s: State) {
    && (!s.io ==> s.ioDue == {}) && s.stopBefore <= s.inserted
    && (s.life == Fresh || s.life == Cancelling || s.life == Stopped ==> !s.io)
    && (s.life != Cancelling ==> s.stopDue == {})
    && (s.life == Cancelling || s.life == Stopped ==> Exact(s.pending, s.inserted, s.stopDue, s.stopBefore))
  }

  ghost predicate Inv(s: State) {
    && (forall id: nat :: Placed(s, id))
    && Once(s.finished)
    && Visited(s.pending, s.inserted, s.ioDue, s.ioBefore)
    && LifeRight(s)
  }

  lemma StepPlaced(s: State, ev: Event, id: nat)
    requires Placed(s, id) && Placed(s, s.inserted) && Enabled(s, ev)
    ensures Placed(Step(s, ev), id)
  {
  }

  lemma StepVisits(s: State, ev: Event)
    requires Visited(s.pending, s.inserted, s.ioDue, s.ioBefore) && Enabled(s, ev)
    requires forall id | id in s.pending :: id < s.inserted
    ensures var t := Step(s, ev); Visited(t.pending, t.inserted, t.ioDue, t.ioBefore)
  {
  }

  lemma StepLives(s: State, ev: Event)
    requires LifeRight(s) && Enabled(s, ev) && (forall id | id in s.pending :: id < s.inserted)
    ensures LifeRight(Step(s, ev))
  {
  }

  lemma StepKeeps(s: State, ev: Event)
    requires Inv(s) && Enabled(s, ev)
    ensures Inv(Step(s, ev))
  {
    var t := Step(s, ev);
    forall id: nat
      ensures Placed(t, id)
    {
      StepPlaced(s, ev, id);
    }
    if ev.Finish? {
      assert Placed(s, ev.id);
      OnceMore(s.finished, ev.id);
    }
    forall id | id in s.pending
      ensures id < s.inserted
    {
      assert Placed(s, id);
    }
    StepVisits(s, ev);
    StepLives(s, ev);
  }

  // ------------------------------------------------------------------------ whole runs

  /** An event that cannot happen in the state is skipped, so that every sequence is a run. */
  function After(s: State, run: seq<Event>): State
    decreases |run|
  {
    if run == [] then s else After(if Enabled(s, run[0]) then Step(s, run[0]) else s, run[1..])
  }

  lemma {:induction false} RunsKeep(s: State, run: seq<Event>)
    requires Inv(s)
    ensures Inv(After(s, run))
    decreases |run|
  {
    if run != [] {
      if Enabled(s, run[0]) {
        StepKeeps(s, run[0]);
        RunsKeep(Step(s, run[0]), run[1..]);
      } else {
        RunsKeep(s, run[1..]);
      }
    }
  }

  /** In every run no call is finished twice and none is lost. */
  lemma FinishedOnceNoneLost(run: seq<Event>, id: nat)
    ensures var s := After(START, run);
            && One(id in s.pending) + One(id in s.claimed) + One(id in s.finished) == One(id < s.inserted)
            && Once(s.finished)
  {
    RunsKeep(START, run);
    assert Placed(After(START, run), id);
  }

  // ------------------------------------------------------------- the fate of every call

  /** The handler of the call, a connection error or a stop erases its key. */
  predicate Claims(ev: Event, id: nat) {
    ev == Close(id) || ev == ErrorNext(id) || ev == StopNext(id)
  }

  function Next(s: State, ev: Event): State {
    if Enabled(s, ev) then Step(s, ev) else s
  }

  /** Whether such an event happens in a run; whether the call is finished in it; how many calls are inserted. */
  predicate Claimed(s: State, run: seq<Event>, id: nat)
    decreases |run|
  {
    run != [] && ((Enabled(s, run[0]) && Claims(run[0], id)) || Claimed(Next(s, run[0]), run[1..], id))
  }

  predicate Completed(s: State, run: seq<Event>, id: nat)
    decreases |run|
  {
    run != [] && ((Enabled(s, run[0]) && run[0] == Finish(id)) || Completed(Next(s, run[0]), run[1..], id))
  }

  function Inserts(s: State, run: seq<Event>): nat
    decreases |run|
  {
    if run == [] then 0
    else (if Enabled(s, run[0]) && run[0] == Insert then 1 else 0) + Inserts(Next(s, run[0]), run[1..])
  }

  /** What one event does to a call. */
  ghost predicate Treated(s: State, t: State, ev: Event, id: nat) {
    && (id in t.pending <==> (id in s.pending && !Claims(ev, id)) || (ev == Insert && id == s.inserted))
    && (id in t.finished <==> id in s.finished || ev == Finish(id))
    && t.inserted == s.inserted + (if ev == Insert then 1 else 0)
    && (Claims(ev, id) ==> id < s.inserted)
  }

  lemma StepTreats(s: State, ev: Event, id: nat)
    requires Inv(s) && Enabled(s, ev)
    ensures Treated(s, Step(s, ev), ev, id)
  {
    assert Placed(s, id);
  }

  lemma {:induction false} RunTreats(s: State, run: seq<Event>, id: nat)
    requires Inv(s)
    ensures var t := After(s, run);
            && t.inserted == s.inserted + Inserts(s, run)
            && (id in t.pending <==> (id in s.pending || s.inserted <= id < t.inserted) && !Claimed(s, run, id))
            && (id in t.finished <==> id in s.finished || Completed(s, run, id))
    decreases |run|
  {
    hide Step;
    hide Enabled;
    assert Placed(s, id);
    hide Inv;
    if run != [] {
      if Enabled(s, run[0]) {
        StepKeeps(s, run[0]);
        StepTreats(s, run[0], id);
        RunTreats(Step(s, run[0]), run[1..], id);
      } else {
        RunTreats(s, run[1..], id);
      }
    }
  }

  /**
   In every run, a call is pending exactly if it has been inserted and neither its handler nor a
   connection error nor a stop has got to it; it is finished exactly if whoever got to it first
   has finished it, and until then it can.
   */
  lemma FateExact(run: seq<Event>, id: nat)
    ensures var s := After(START, run);
            && s.inserted == Inserts(START, run)
            && (id in s.pending <==> id < s.inserted && !Claimed(START, run, id))
            && (id in s.finished <==> Completed(START, run, id))
            && (id in s.claimed <==> id < s.inserted && Claimed(START, run, id) && !Completed(START, run, id))
            && (id in s.claimed <==> Enabled(s, Finish(id)))
  {
    RunsKeep(START, run);
    RunTreats(START, run, id);
    assert Placed(After(START, run), id);
  }

  /** As long as the I/O thread lives, the handler of a call that is pending can claim and finish it. */
  lemma HandlerFinishes(s: State, id: nat)
    requires Inv(s) && Idle(s) && id in s.pending
    ensures Enabled(s, Close(id)) && Enabled(Step(s, Close(id)), Finish(id))
    ensures var t := Step(Step(s, Close(id)), Finish(id)); id in t.finished && id !in t.pending && id !in t.claimed
  {
    assert Placed(s, id);
  }

  /**
   In every run, when a connection error's cancellation is through, only calls inserted since it
   began are pending.
   */
  lemma CancelLeavesNone(run: seq<Event>, id: nat)
    ensures var s := After(START, run); s.ioDue == {} && id in s.pending ==> s.ioBefore <= id < s.inserted
  {
    RunsKeep(START, run);
    assert Placed(After(START, run), id);
  }

  /**
   In every run, when a stop's cancellation is through, the calls pending are exactly those
   inserted since it began; the earlier ones have all been claimed or finished.
   */
  lemma StopLeavesOnlyLate(run: seq<Event>, id: nat)
    ensures var s := After(START, run);
            s.life == Stopped || (s.life == Cancelling && s.stopDue == {}) ==>
              && (id in s.pending <==> s.stopBefore <= id < s.inserted)
              && (id < s.stopBefore ==> id in s.claimed || id in s.finished)
  {
    RunsKeep(START, run);
    assert Placed(After(START, run), id);
  }

  /** Such a call stays pending in every continuation in which the connection is not run or stopped once more. */
  lemma {:induction false} OrphanForever(s: State, run: seq<Event>, id: nat)
    requires Inv(s) && s.life == Stopped && id in s.pending && Run !in run && StopBegin !in run
    ensures var t := After(s, run); t.life == Stopped && id in t.pending && id !in t.finished
    decreases |run|
  {
    if run == [] {
      assert Placed(s, id);
    } else if Enabled(s, run[0]) {
      StepKeeps(s, run[0]);
      OrphanForever(Step(s, run[0]), run[1..], id);
    } else {
      OrphanForever(s, run[1..], id);
    }
  }

  lemma {:induction false} BeforesGrow(s: State, run: seq<Event>)
    requires Inv(s)
    ensures var t := After(s, run); s.ioBefore <= t.ioBefore && s.stopBefore <= t.stopBefore && s.inserted <= t.inserted
    decreases |run|
  {
    hide Placed;
    if run != [] {
      if Enabled(s, run[0]) {
        StepKeeps(s, run[0]);
        BeforesStep(s, run[0]);
        BeforesGrow(Step(s, run[0]), run[1..]);
      } else {
        BeforesGrow(s, run[1..]);
      }
    }
  }

  lemma BeforesStep(s: State, ev: Event)
    requires Enabled(s, ev) && s.ioBefore <= s.inserted && s.stopBefore <= s.inserted
    ensures var t := Step(s, ev); s.ioBefore <= t.ioBefore && s.stopBefore <= t.stopBefore && s.inserted <= t.inserted
  {
  }

  /** A connection error cancels every call there is: once it is through, none of them is pending any more. */
  lemma ErrorCancels(s: State, run: seq<Event>, id: nat)
    requires Inv(s) && Enabled(s, ErrorBegin) && id < s.inserted
    ensures var t := After(Step(s, ErrorBegin), run); t.ioDue == {} ==> id in t.claimed || id in t.finished
  {
    StepKeeps(s, ErrorBegin);
    RunsKeep(Step(s, ErrorBegin), run);
    BeforesGrow(Step(s, ErrorBegin), run);
    assert Placed(After(Step(s, ErrorBegin), run), id);
  }

  /** So does a stop, by the time it returns. */
  lemma StopCancels(s: State, run: seq<Event>, id: nat)
    requires Inv(s) && Enabled(s, StopCancel) && id < s.inserted
    ensures var t := After(Step(s, StopCancel), run); t.life == Stopped ==> id in t.claimed || id in t.finished
  {
    StepKeeps(s, StopCancel);
    RunsKeep(Step(s, StopCancel), run);
    BeforesGrow(Step(s, StopCancel), run);
    assert Placed(After(Step(s, StopCancel), run), id);
  }

  /** A stop that cancels comes to its end. */
  lemma StopReturns(s: State) returns (run: seq<Event>)
    requires Inv(s) && s.life == Cancelling
    ensures After(s, run).life == Stopped && After(s, run).inserted == s.inserted
    decreases |s.stopDue|
  {
    if s.stopDue == {} {
      var t := Step(s, StopReturn);
      assert After(t, []) == t;
      run := Prepend(s, StopReturn, t, []);
    } else {
      var id :| id in s.stopDue;
      StepKeeps(s, StopNext(id));
      var t := Step(s, StopNext(id));
      assert t.stopDue == s.stopDue - {id};
      run := StopReturns(t);
      run := Prepend(s, StopNext(id), After(t, run), run);
    }
  }

  /**
   When the connection is lost or stopped, no more calls come in, in any continuation without a
   new connection, than there are callers past their check.
   */
  lemma GateCloses(s: State, ev: Event, run: seq<Event>)
    requires Enabled(s, ev) && (ev == Disconnect || ev == IoThrows || ev == StopBegin || ev == Run) && Connect !in run
    ensures var t := After(Step(s, ev), run); !t.ready && t.inserted + t.callers <= s.inserted + s.callers
  {
    StaysClosed(Step(s, ev), run);
  }

  /** When the I/O thread has ended or died, no handler runs any more, in any continuation without a further run. */
  lemma ThreadGone(s: State, ev: Event, run: seq<Event>, h: Event)
    requires Inv(s) && Enabled(s, ev) && (ev == IoEnd || ev == IoThrows) && Run !in run
    requires h.Connect? || h.Disconnect? || h.Close? || h.ErrorBegin? || h.ErrorNext?
    ensures !Enabled(After(Step(s, ev), run), h)
  {
    StaysGone(Step(s, ev), run);
  }

  lemma {:induction false} StaysGone(s: State, run: seq<Event>)
    requires !s.io && Run !in run
    ensures !After(s, run).io
    decreases |run|
  {
    if run != [] {
      StaysGone(Next(s, run[0]), run[1..]);
    }
  }

  lemma {:induction false} StaysClosed(s: State, run: seq<Event>)
    requires !s.ready && Connect !in run
    ensures var t := After(s, run); !t.ready && t.inserted + t.callers <= s.inserted + s.callers
    decreases |run|
  {
    if run != [] {
      StaysClosed(Next(s, run[0]), run[1..]);
    }
  }

  lemma Prepend(s: State, ev: Event, t: State, run: seq<Event>) returns (run': seq<Event>)
    requires Enabled(s, ev) && After(Step(s, ev), run) == t
    ensures After(s, run') == t
  {
    run' := [ev] + run;
    assert run'[1..] == run;
  }

  /** If it is stopped once more, that stop finds the call and claims it. */
  lemma NextStopClaims(s: State, id: nat) returns (run: seq<Event>)
    requires Inv(s) && s.life == Stopped && id in s.pending
    ensures id in After(s, run).claimed
  {
    var s1 := Step(s, StopBegin);
    var s2 := Step(s1, StopCancel);
    var s3 := Step(s2, StopNext(id));
    run := Prepend(s2, StopNext(id), s3, []);
    run := Prepend(s1, StopCancel, s3, run);
    run := Prepend(s, StopBegin, s3, run);
  }

  /** A call can come in so late, through the gap between the check of the flag and the insertion. */
  lemma Orphan() returns (run: seq<Event>)
    ensures var s := After(START, run); s.life == Stopped && !s.ready && s.callers == 0 && s.pending == {0}
  {
    var s1 := START.(life := Up, io := true);
    assert Step(START, Run) == s1;
    var s2 := s1.(ready := true);
    assert Step(s1, Connect) == s2;
    var s3 := s2.(callers := 1);
    assert Step(s2, Check) == s3;
    var s4 := s3.(life := Stopping, ready := false);
    assert Step(s3, StopBegin) == s4;
    var s5 := s4.(io := false);
    assert Step(s4, IoEnd) == s5;
    var s6 := s5.(life := Cancelling);
    assert Step(s5, StopCancel) == s6;
    var s7 := s6.(life := Stopped);
    assert Step(s6, StopReturn) == s7;
    var s8 := s7.(callers := 0, inserted := 1, pending := {0});
    assert Step(s7, Insert) == s8;
    run := Prepend(s7, Insert, s8, []);
    run := Prepend(s6, StopReturn, s8, run);
    run := Prepend(s5, StopCancel, s8, run);
    run := Prepend(s4, IoEnd, s8, run);
    run := Prepend(s3, StopBegin, s8, run);
    run := Prepend(s2, Check, s8, run);
    run := Prepend(s1, Connect, s8, run);
    run := Prepend(START, Run, s8, run);
  }
}
