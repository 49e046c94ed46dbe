/**
 What clients of the auto-expiry map can rely on, over whole runs: how entries come, change and
 go, that a round visits everything and comes to an end, that rounds go on, and that a stop
 succeeds.
 */
module ExpiryLaws {
  import opened Counting
  import opened ExpiryMap

  // ------------------------------------------------------------------ entries and records

  /** The event is an answer to remove the key's record. */
  predicate Removes(s: State, ev: Event, key: nat) {
    ev.Collector? && ev.g.Answer? && ev.g.remove && ev.g.r < |s.recs| && s.recs[ev.g.r].key == key
  }

  /** What an event does to the entry of a key. */
  predicate EntryChange(life: nat, s: State, t: State, ev: Event, key: nat) {
    if key in s.entries then
      if ev == Client(Erase(key)) || Removes(s, ev, key) then key !in t.entries
      else key in t.entries && t.entries[key] == s.entries[key]
    else if ev == Client(Insert(key)) then
      key in t.entries && t.entries[key] == |s.recs| && t.recs == s.recs + [Rec(key, false, true, s.now + life)]
    else key !in t.entries
  }

  lemma ClientChanges(life: nat, s: State, e: ClientEvent, key: nat)
    requires ClientCan(s, e)
    ensures EntryChange(life, s, ClientStep(life, s, e), Client(e), key)
  {
  }

  lemma CollectorChanges(life: nat, s: State, g: CollectorEvent, key: nat)
    requires CollectorCan(s, g)
    ensures EntryChange(life, s, CollectorStep(s, g), Collector(g), key)
  {
    if !g.Answer? {
      CollectorSpares(s, g);
    }
  }

  lemma ControlChanges(life: nat, s: State, x: ControlEvent, key: nat)
    requires ControlCan(s, x)
    ensures EntryChange(life, s, ControlStep(s, x), Control(x), key)
  {
  }

  /**
   An entry comes into the map only by its insertion, fresh, and leaves it only by its erasure
   or by an answer to remove it: every other step leaves every key's entry as it is.
   */
  lemma EntriesExact(life: nat, s: State, ev: Event, key: nat)
    requires Enabled(s, ev)
    ensures EntryChange(life, s, Step(life, s, ev), ev, key)
  {
    hide EntryChange;
    hide ClientStep;
    hide CollectorStep;
    hide ControlStep;
    match ev
    case Client(e) => ClientChanges(life, s, e, key);
    case Collector(g) => CollectorChanges(life, s, g, key);
    case Control(x) => ControlChanges(life, s, x, key);
  }

  /** What an event does to a record, member by member. */
  predicate RecordChange(life: nat, s: State, t: State, ev: Event, r: nat)
    requires r < |s.recs|
  {
    var x := s.recs[r];
    var marks := ev == Collector(Mark(r)) && x.evictable && x.expires < s.now;
    var answers := ev == Collector(Answer(r, false)) || (ev == Collector(Answer(r, true)) && x.key !in s.entries);
    && r < |t.recs| && t.recs[r].key == x.key
    && t.recs[r].evictable == (ev == Client(Unpin(r)) || (x.evictable && ev != Client(Pin(r))))
    && t.recs[r].expires == (if ev == Client(Extend(r)) then s.now + life else x.expires)
    && t.recs[r].evicting == if marks then true else if answers then false else x.evicting
  }

  lemma ClientRecords(life: nat, s: State, e: ClientEvent, r: nat)
    requires ClientCan(s, e) && r < |s.recs|
    ensures RecordChange(life, s, ClientStep(life, s, e), Client(e), r)
  {
  }

  lemma CollectorRecords(life: nat, s: State, g: CollectorEvent, r: nat)
    requires CollectorCan(s, g) && r < |s.recs|
    ensures RecordChange(life, s, CollectorStep(s, g), Collector(g), r)
  {
    hide Marked;
    hide Answered;
    match g
    case Mark(q) => MarkRecords(life, s, q, r);
    case Answer(q, remove) => AnswerRecords(life, s, q, remove, r);
    case _ =>
  }

  lemma MarkRecords(life: nat, s: State, q: nat, r: nat)
    requires q < |s.recs| && r < |s.recs|
    ensures RecordChange(life, s, Marked(s, q), Collector(Mark(q)), r)
  {
  }

  lemma AnswerRecords(life: nat, s: State, q: nat, remove: bool, r: nat)
    requires q < |s.recs| && r < |s.recs|
    ensures RecordChange(life, s, Answered(s, q, remove), Collector(Answer(q, remove)), r)
  {
  }

  /**
   A record is pinned, unpinned and extended only by clients, marked only by the collector and
   only if it is evictable and expired, and unmarked only by an answer; its key never changes.
   */
  lemma RecordsExact(life: nat, s: State, ev: Event, r: nat)
    requires Enabled(s, ev) && r < |s.recs|
    ensures RecordChange(life, s, Step(life, s, ev), ev, r)
  {
    hide RecordChange;
    hide ClientStep;
    hide CollectorStep;
    match ev
    case Client(e) => ClientRecords(life, s, e, r);
    case Collector(g) => CollectorRecords(life, s, g, r);
    case Control(x) => ControlRecords(life, s, x, r);
  }

  lemma ControlRecords(life: nat, s: State, x: ControlEvent, r: nat)
    requires ControlCan(s, x) && r < |s.recs|
    ensures RecordChange(life, s, ControlStep(s, x), Control(x), r)
  {
  }

  /** In every run, an entry that is safe survives every step but its erasure and an answer about an erased one. */
  lemma SafeStays(life: nat, run: seq<Event>, ev: Event, key: nat)
    ensures var s := After(life, START, run);
            && Enabled(s, ev) && Safe(s, key) && ev != Client(Erase(key))
            && (ev.Collector? && ev.g.Answer? ==> ev.g.r !in s.gone)
            ==> key in Step(life, s, ev).entries && Step(life, s, ev).entries[key] == s.entries[key]
  {
    hide Inv;
    hide Step;
    RunsKeep(life, START, run);
    var s := After(life, START, run);
    if Enabled(s, ev) {
      EntriesExact(life, s, ev, key);
      if ev.Collector? && ev.g.Answer? {
        MarkedFacts(s, ev.g.r);
      }
    }
  }

  /** An answer to keep an entry changes nothing but its mark. */
  lemma KeptIfRefused(life: nat, s: State, r: nat)
    requires Enabled(s, Collector(Answer(r, false)))
    ensures var t := Step(life, s, Collector(Answer(r, false)));
            t.entries == s.entries && t.recs == s.recs[r := s.recs[r].(evicting := false)] && t.marked == s.marked - {r}
  {
  }

  /** Pinning an entry that nobody has erased pins it for good, as long as it is left so. */
  lemma PinHolds(life: nat, s: State, r: nat, run: seq<Event>)
    requires Inv(s) && Enabled(s, Client(Pin(r))) && Current(s, r)
    requires forall q | q in s.looked || q in s.marked :: Undisputed(s, s.recs[r].key, q)
    requires Client(Unpin(r)) !in run && Client(Erase(s.recs[r].key)) !in run
    ensures var key := s.recs[r].key; var t := After(life, Step(life, s, Client(Pin(r))), run);
            key in t.entries && t.entries[key] == r && r < |t.recs| && !t.recs[r].evictable
  {
    var t := Step(life, s, Client(Pin(r)));
    StepKeeps(life, s, Client(Pin(r)));
    assert Pinned(t, s.recs[r].key, r) by {
      forall q | q in t.looked || q in t.marked
        ensures Undisputed(t, s.recs[r].key, q)
      {
        assert Undisputed(s, s.recs[r].key, q);
      }
    }
    PinnedStays(life, t, run, s.recs[r].key, r);
  }

  /** Extending an entry makes it safe for a lifetime. */
  lemma ExtendHolds(life: nat, s: State, r: nat, dt: nat)
    requires Enabled(s, Client(Extend(r))) && Current(s, r) && dt <= life
    ensures Safe(ControlStep(Step(life, s, Client(Extend(r))), Tick(dt)), s.recs[r].key)
  {
  }

  // ----------------------------------------------------------------------- one round

  /**
   In every run, a callback is called only for a record that is marked, evictable and expired,
   and not twice in a round; and an answer is given only to a callback that has been called.
   */
  lemma AskedOnce(life: nat, run: seq<Event>, r: nat)
    ensures var s := After(life, START, run);
            && (Enabled(s, Collector(Issue(r))) ==> Evictable(s, r) && r !in s.asked)
            && (Enabled(s, Collector(Issue(r))) ==> r in Step(life, s, Collector(Issue(r))).asked)
            && (forall b :: Enabled(s, Collector(Answer(r, b))) ==> r in s.asked)
  {
    RunsKeep(life, START, run);
    IssueFacts(After(life, START, run), r);
  }

  lemma IssueFacts(s: State, r: nat)
    requires Inv(s)
    ensures r in s.unissued ==> Evictable(s, r) && r !in s.asked
    ensures r in s.marked && s.run != Marking && r !in s.unissued ==> r in s.asked
  {
  }

  /** A round visits every key that was in the map when it began. */
  lemma {:induction false} RoundCovers(life: nat, s: State, run: seq<Event>, key: nat)
    requires key in s.todo && Collector(Begin) !in run
    ensures key in After(life, s, run).todo || Collector(Lookup(key)) in run
    decreases |run|
  {
    if run != [] {
      if Enabled(s, run[0]) {
        if run[0] != Collector(Lookup(key)) {
          TodoStep(life, s, run[0], key);
          RoundCovers(life, Step(life, s, run[0]), run[1..], key);
        }
      } else {
        RoundCovers(life, s, run[1..], key);
      }
    }
  }

  lemma TodoStep(life: nat, s: State, ev: Event, key: nat)
    requires key in s.todo && Enabled(s, ev) && ev != Collector(Begin) && ev != Collector(Lookup(key))
    ensures key in Step(life, s, ev).todo
  {
    hide Marked;
    hide Answered;
    match ev
    case Client(_) =>
    case Collector(Mark(r)) => MarkTodo(s, r);
    case Collector(Answer(r, remove)) => AnswerTodo(s, r, remove);
    case Collector(_) =>
    case Control(_) =>
  }

  lemma MarkTodo(s: State, r: nat)
    requires r < |s.recs|
    ensures Marked(s, r).todo == s.todo
  {
  }

  lemma AnswerTodo(s: State, r: nat, remove: bool)
    requires r < |s.recs|
    ensures Answered(s, r, remove).todo == s.todo
  {
  }

  /** The collector has everything to do that is in the map, and marks only when it is through with it. */
  lemma RoundBegins(life: nat, s: State)
    requires Enabled(s, Collector(Begin))
    ensures var t := Step(life, s, Collector(Begin));
            t.todo == s.entries.Keys && forall run: seq<Event> :: Collector(Begin) !in run ==>
              (After(life, t, run).todo == {} ==> forall key | key in s.entries :: Collector(Lookup(key)) in run)
  {
    var t := Step(life, s, Collector(Begin));
    forall run: seq<Event>, key | Collector(Begin) !in run && After(life, t, run).todo == {} && key in s.entries
      ensures Collector(Lookup(key)) in run
    {
      RoundCovers(life, t, run, key);
    }
  }

  // ------------------------------------------------------------------------- progress

  /** A round is scheduled, under way, or being rescheduled, and only one. */
  predicate Alive(s: State) {
    s.running ==> s.scheduled + s.resched + One(Busy(s)) == 1
  }

  lemma CollectorAlive(s: State, g: CollectorEvent)
    requires Inv(s) && Alive(s) && CollectorCan(s, g)
    ensures Alive(CollectorStep(s, g))
  {
    hide MarkedRight;
    hide Distinct;
    hide AllTracked;
    hide OnePerKey;
    hide Asked;
    hide Marked;
    hide Answered;
    match g
    case Mark(r) => MarkAlive(s, r);
    case Answer(r, remove) => AnswerAlive(s, r, remove);
    case _ =>
  }

  lemma MarkAlive(s: State, r: nat)
    requires Alive(s) && r < |s.recs|
    ensures Alive(Marked(s, r))
  {
  }

  lemma AnswerAlive(s: State, r: nat, remove: bool)
    requires Alive(s) && r < |s.recs|
    ensures Alive(Answered(s, r, remove))
  {
  }

  lemma ControlAlive(s: State, x: ControlEvent)
    requires Inv(s) && Alive(s) && ControlCan(s, x) && x != Reschedule(false)
    ensures Alive(ControlStep(s, x))
  {
    hide MarkedRight;
    hide Distinct;
    hide AllTracked;
    hide OnePerKey;
    hide Asked;
  }

  lemma ClientAlive(life: nat, s: State, e: ClientEvent)
    requires Alive(s) && ClientCan(s, e)
    ensures Alive(ClientStep(life, s, e))
  {
  }

  lemma {:induction false} StaysAlive(life: nat, s: State, run: seq<Event>)
    requires Inv(s) && Alive(s) && Control(Reschedule(false)) !in run
    ensures Alive(After(life, s, run))
    decreases |run|
  {
    hide Inv;
    hide Alive;
    hide ClientStep;
    hide CollectorStep;
    hide ControlStep;
    if run != [] {
      if Enabled(s, run[0]) {
        StepKeeps(life, s, run[0]);
        match run[0] {
          case Client(e) => ClientAlive(life, s, e);
          case Collector(g) => CollectorAlive(s, g);
          case Control(x) => ControlAlive(s, x);
        }
        StaysAlive(life, Step(life, s, run[0]), run[1..]);
      } else {
        StaysAlive(life, s, run[1..]);
      }
    }
  }

  /**
   Collection goes on: in every run in which the executor takes every round it is given, as
   long as the map is not stopped, exactly one round is scheduled, under way or being
   rescheduled.
   */
  lemma NeverStalls(life: nat, run: seq<Event>)
    requires Control(Reschedule(false)) !in run
    ensures var s := After(life, START, run); s.running ==> s.scheduled + s.resched + One(Busy(s)) == 1
  {
    hide Inv;
    hide Step;
    hide Enabled;
    StartsAlive();
    StaysAlive(life, START, run);
  }

  lemma StartsAlive()
    ensures Inv(START) && Alive(START)
  {
  }

  /** Steps of the collector and of the callbacks it has called. */
  predicate OfRound(ev: Event) {
    match ev
    case Collector(g) => g != Begin && g != BeginFails
    case Control(x) => x == Count
    case Client(_) => false
  }

  function RunRank(r: Run): nat {
    match r
    case Marking => 2
    case Issuing => 1
    case None => 0
  }

  /** The step a round takes next: as long as it is not over, it can go on. */
  lemma NextOfRound(s: State) returns (ev: Event)
    requires Inv(s) && Busy(s)
    ensures Enabled(s, ev) && OfRound(ev) && (s.run != None ==> ev.Collector? && !ev.g.Answer?)
  {
    hide AllTracked;
    hide OnePerKey;
    hide Asked;
    match s.run
    case Marking =>
      if s.looked != {} {
        var r :| r in s.looked;
        ev := Collector(Mark(r));
      } else if s.todo != {} {
        var k :| k in s.todo;
        ev := Collector(Lookup(k));
      } else {
        ev := Collector(EndMarking);
      }
    case Issuing =>
      var r :| r in s.unissued;
      ev := Collector(Issue(r));
    case None =>
      if s.applied > 0 {
        ev := Control(Count);
      } else {
        var r :| r in s.marked;
        assert Evictable(s, r);
        ev := Collector(Answer(r, false));
      }
  }

  /** The round is closer to its end: in the keys to visit, to lock, callbacks to call, answers to give and to count. */
  predicate Closer(s: State, t: State) {
    || RunRank(t.run) < RunRank(s.run)
    || (t.run == s.run && |t.todo| < |s.todo|)
    || (t.run == s.run && t.todo == s.todo && CloserStill(s, t))
  }

  predicate CloserStill(s: State, t: State) {
    || |t.looked| < |s.looked|
    || (t.looked == s.looked && |t.unissued| < |s.unissued|)
    || (t.looked == s.looked && t.unissued == s.unissued && |t.marked| < |s.marked|)
    || (t.looked == s.looked && t.unissued == s.unissued && t.marked == s.marked && t.applied < s.applied)
  }

  /** Nothing else is affected by the steps of a round. */
  predicate SameRound(s: State, t: State) {
    t.running == s.running && t.rounds == s.rounds && t.scheduled == s.scheduled && t.cancelled == s.cancelled
  }

  lemma Fewer(a: set<nat>, x: nat)
    requires x in a
    ensures |a - {x}| < |a|
  {
  }

  lemma MarkCloser(s: State, r: nat)
    requires r in s.looked && r < |s.recs|
    ensures Closer(s, Marked(s, r)) && SameRound(s, Marked(s, r))
  {
    Fewer(s.looked, r);
  }

  lemma AnswerCloser(s: State, r: nat, remove: bool)
    requires r in s.marked && r < |s.recs|
    ensures Closer(s, Answered(s, r, remove)) && SameRound(s, Answered(s, r, remove))
  {
    Fewer(s.marked, r);
  }

  lemma LookupCloser(s: State, k: nat)
    requires CollectorCan(s, Lookup(k))
    ensures Closer(s, CollectorStep(s, Lookup(k))) && SameRound(s, CollectorStep(s, Lookup(k)))
  {
    Fewer(s.todo, k);
  }

  lemma IssueCloser(s: State, r: nat)
    requires CollectorCan(s, Issue(r))
    ensures Closer(s, CollectorStep(s, Issue(r))) && SameRound(s, CollectorStep(s, Issue(r)))
  {
    Fewer(s.unissued, r);
  }

  lemma EndCloser(s: State)
    requires CollectorCan(s, EndMarking)
    ensures Closer(s, CollectorStep(s, EndMarking)) && SameRound(s, CollectorStep(s, EndMarking))
  {
  }

  lemma RoundCloser(life: nat, s: State, ev: Event)
    requires Enabled(s, ev) && OfRound(ev)
    ensures Closer(s, Step(life, s, ev)) && SameRound(s, Step(life, s, ev))
  {
    hide Marked;
    hide Answered;
    match ev
    case Collector(g) => CollectorCloser(s, g);
    case Control(_) =>
  }

  lemma CollectorCloser(s: State, g: CollectorEvent)
    requires CollectorCan(s, g) && OfRound(Collector(g))
    ensures Closer(s, CollectorStep(s, g)) && SameRound(s, CollectorStep(s, g))
  {
    hide Marked;
    hide Answered;
    hide Closer;
    hide SameRound;
    match g
    case Mark(r) => MarkCloser(s, r);
    case Answer(r, remove) => AnswerCloser(s, r, remove);
    case Lookup(k) => LookupCloser(s, k);
    case Issue(r) => IssueCloser(s, r);
    case EndMarking => EndCloser(s);
    case Skip => SkipCloser(s);
  }

  lemma SkipCloser(s: State)
    requires CollectorCan(s, Skip)
    ensures Closer(s, CollectorStep(s, Skip)) && SameRound(s, CollectorStep(s, Skip))
  {
  }

  predicate RoundOnly(run: seq<Event>) {
    forall i | 0 <= i < |run| :: OfRound(run[i])
  }

  /** Every round can be brought to its end by the collector and the answers to it alone. */
  lemma {:induction false} RoundEnds(life: nat, s: State) returns (run: seq<Event>)
    requires Inv(s)
    ensures RoundOnly(run) && !Busy(After(life, s, run)) && SameRound(s, After(life, s, run))
    decreases RunRank(s.run), |s.todo|, |s.looked|, |s.unissued|, |s.marked|, s.applied
  {
    hide Step;
    hide OfRound;
    if Busy(s) {
      var ev := NextOfRound(s);
      var t := Step(life, s, ev);
      RoundCloser(life, s, ev);
      StepKeeps(life, s, ev);
      hide Inv;
      run := RoundEnds(life, t);
      var more := run;
      run := [ev] + more;
      assert run[1..] == more;
    } else {
      run := [];
    }
  }

  lemma {:induction false} AfterThen(life: nat, s: State, run: seq<Event>, ev: Event)
    ensures var t := After(life, s, run); After(life, s, run + [ev]) == if Enabled(t, ev) then Step(life, t, ev) else t
  {
    AfterBoth(life, s, run, [ev]);
    var t := After(life, s, run);
    assert [ev][1..] == [];
  }

  // ------------------------------------------------------------- collecting what has expired

  /** Until the last callback is called, a marked record stays marked and the map as it is. */
  lemma RoundHolds(life: nat, s: State, ev: Event, r: nat)
    requires Enabled(s, ev) && OfRound(ev) && s.run != None && ev.Collector? && !ev.g.Answer? && r in s.marked
    ensures var t := Step(life, s, ev); r in t.marked && t.entries == s.entries
  {
    hide Marked;
    match ev.g
    case Mark(q) => MarkHolds(s, q, r);
    case _ =>
  }

  lemma MarkHolds(s: State, q: nat, r: nat)
    requires q < |s.recs|
    ensures var t := Marked(s, q); s.marked <= t.marked && t.entries == s.entries
  {
  }

  lemma KeyHolds(life: nat, s: State, ev: Event, r: nat)
    requires Enabled(s, ev) && r < |s.recs|
    ensures r < |Step(life, s, ev).recs| && Step(life, s, ev).recs[r].key == s.recs[r].key
  {
    RecordsExact(life, s, ev, r);
  }

  /** A marked record gets its callback called and can be answered about. */
  lemma {:induction false} GetsAsked(life: nat, s: State, r: nat) returns (run: seq<Event>)
    requires Inv(s) && r in s.marked && r < |s.recs| && s.run != None
    ensures var t := After(life, s, run);
            && RoundOnly(run) && Enabled(t, Collector(Answer(r, true))) && Inv(t)
            && t.entries == s.entries && r < |t.recs| && t.recs[r].key == s.recs[r].key
    decreases RunRank(s.run), |s.todo|, |s.looked|, |s.unissued|, |s.marked|, s.applied
  {
    hide Step;
    hide OfRound;
    hide Inv;
    hide Enabled;
    var ev := NextOfRound(s);
    var t := Step(life, s, ev);
    RoundCloser(life, s, ev);
    RoundHolds(life, s, ev, r);
    KeyHolds(life, s, ev, r);
    StepKeeps(life, s, ev);
    var more := [];
    if t.run != None {
      more := GetsAsked(life, t, r);
    } else {
      Answerable(t, r);
    }
    run := [ev] + more;
    assert run[1..] == more;
  }

  lemma Answerable(s: State, r: nat)
    requires Inv(s) && s.run == None && r in s.marked && r < |s.recs|
    ensures Enabled(s, Collector(Answer(r, true)))
  {
  }

  lemma BeginSees(life: nat, s: State, key: nat)
    requires Inv(s) && s.scheduled > 0 && key in s.entries
    ensures s.entries[key] < |s.recs| && s.recs[s.entries[key]].key == key && Enabled(s, Collector(Begin))
    ensures var t := Step(life, s, Collector(Begin));
            && t.entries == s.entries && t.recs == s.recs && t.now == s.now && t.run == Marking
            && key in t.todo && t.looked == {}
  {
    assert EntryRight(s, key);
  }

  lemma LookupSees(life: nat, s: State, key: nat)
    requires key in s.entries && key in s.todo && s.run == Marking && s.looked == {}
    ensures Enabled(s, Collector(Lookup(key)))
    ensures var t := Step(life, s, Collector(Lookup(key)));
            && t.entries == s.entries && t.recs == s.recs && t.now == s.now && t.run == Marking
            && s.entries[key] in t.looked
  {
  }

  lemma MarkSees(life: nat, s: State, r: nat)
    requires r in s.looked && r < |s.recs| && s.run == Marking && s.recs[r].evictable && s.recs[r].expires < s.now
    ensures Enabled(s, Collector(Mark(r)))
    ensures var t := Step(life, s, Collector(Mark(r)));
            && t.entries == s.entries && t.run == Marking && r in t.marked
            && r < |t.recs| && t.recs[r].key == s.recs[r].key
  {
  }

  /** The collector begins a round, looks a key up and marks its record. */
  lemma GetsMarked(life: nat, s: State, key: nat) returns (t: State, run: seq<Event>)
    requires Inv(s) && s.scheduled > 0 && key in s.entries && s.entries[key] < |s.recs|
    requires s.recs[s.entries[key]].evictable && s.recs[s.entries[key]].expires < s.now
    ensures t == After(life, s, run) && Inv(t) && t.entries == s.entries && t.run == Marking
    ensures s.entries[key] in t.marked && s.entries[key] < |t.recs| && t.recs[s.entries[key]].key == key
  {
    hide Inv;
    hide Step;
    hide Enabled;
    BeginSees(life, s, key);
    var r := s.entries[key];
    var b := Step(life, s, Collector(Begin));
    StepKeeps(life, s, Collector(Begin));
    LookupSees(life, b, key);
    var l := Step(life, b, Collector(Lookup(key)));
    StepKeeps(life, b, Collector(Lookup(key)));
    MarkSees(life, l, r);
    t := Step(life, l, Collector(Mark(r)));
    StepKeeps(life, l, Collector(Mark(r)));
    assert After(life, t, []) == t;
    run := Prepend(life, l, Collector(Mark(r)), t, []);
    run := Prepend(life, b, Collector(Lookup(key)), t, run);
    run := Prepend(life, s, Collector(Begin), t, run);
  }

  /**
   What has expired is collected: if a round is scheduled, the entry of a key that is evictable
   and has expired is asked about in it, and goes if the answer is to remove it.
   */
  lemma ExpiredCollected(life: nat, s: State, key: nat) returns (run: seq<Event>)
    requires Inv(s) && s.scheduled > 0 && key in s.entries && s.entries[key] < |s.recs|
    requires s.recs[s.entries[key]].evictable && s.recs[s.entries[key]].expires < s.now
    ensures key !in After(life, s, run + [Collector(Answer(s.entries[key], true))]).entries
    ensures var t := After(life, s, run + [Collector(Answer(s.entries[key], false))]);
            key in t.entries && t.entries[key] == s.entries[key]
  {
    hide Inv;
    hide Step;
    hide Enabled;
    var r := s.entries[key];
    var t, a := GetsMarked(life, s, key);
    var b := GetsAsked(life, t, r);
    AfterBoth(life, s, a, b);
    run := a + b;
    var u := After(life, s, run);
    AnswerAny(u, r);
    AfterThen(life, s, run, Collector(Answer(r, true)));
    AfterThen(life, s, run, Collector(Answer(r, false)));
    EntriesExact(life, u, Collector(Answer(r, true)), key);
    EntriesExact(life, u, Collector(Answer(r, false)), key);
  }

  lemma AnswerAny(s: State, r: nat)
    requires Enabled(s, Collector(Answer(r, true)))
    ensures Enabled(s, Collector(Answer(r, false)))
  {
  }

  // ----------------------------------------------------------------------------- stopping

  lemma DownStep(life: nat, s: State, ev: Event)
    requires !s.running && Enabled(s, ev)
    ensures var t := Step(life, s, ev); !t.running && t.rounds + t.scheduled <= s.rounds + s.scheduled
  {
    hide Marked;
    hide Answered;
    match ev
    case Client(_) =>
    case Collector(Mark(r)) => MarkDown(s, r);
    case Collector(Answer(r, remove)) => AnswerDown(s, r, remove);
    case Collector(_) =>
    case Control(_) =>
  }

  lemma MarkDown(s: State, r: nat)
    requires r < |s.recs|
    ensures SameRound(s, Marked(s, r))
  {
  }

  lemma AnswerDown(s: State, r: nat, remove: bool)
    requires r < |s.recs|
    ensures SameRound(s, Answered(s, r, remove))
  {
  }

  lemma {:induction false} StaysDown(life: nat, s: State, run: seq<Event>)
    requires !s.running
    ensures var t := After(life, s, run); !t.running && t.rounds + t.scheduled <= s.rounds + s.scheduled
    decreases |run|
  {
    hide Step;
    hide Enabled;
    if run != [] {
      if Enabled(s, run[0]) {
        DownStep(life, s, run[0]);
        StaysDown(life, Step(life, s, run[0]), run[1..]);
      } else {
        StaysDown(life, s, run[1..]);
      }
    }
  }

  /** Once a stop has cleared the flag, no round begins in any continuation but one scheduled before. */
  lemma StopHolds(life: nat, s: State, run: seq<Event>)
    requires Inv(s) && Enabled(s, Control(StopFlag))
    ensures var t := After(life, Step(life, s, Control(StopFlag)), run);
            !t.running && t.rounds <= s.rounds + s.scheduled && s.scheduled <= 1
  {
    StaysDown(life, Step(life, s, Control(StopFlag)), run);
  }

  /** And a stop can always succeed, when the answers to the round under way come in. */
  lemma StopSucceeds(life: nat, s: State) returns (run: seq<Event>)
    requires Inv(s) && !s.running
    ensures After(life, s, run).stopped
  {
    var a := RoundEnds(life, s);
    var t := After(life, s, a);
    AfterThen(life, s, a, Control(StopCancel));
    var u := Step(life, t, Control(StopCancel));
    AfterThen(life, s, a + [Control(StopCancel)], Control(StopDone));
    run := a + [Control(StopCancel)] + [Control(StopDone)];
  }
}
