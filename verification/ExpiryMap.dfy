/**
 The garbage collection protocol of the auto-expiry map: a scheduled round visits the keys,
 marks expired entries, asks a callback about each, erases or unmarks it on the answer, and
 reschedules after the last one, while clients insert, find, pin, extend and erase.

 A step is one atomic access to the shared map, one critical section of a record's lock, or
 one access to the counter of pending callbacks.  Clients hold on to records they looked up,
 so a client step on a record can come at any time after its insertion.
 */
module ExpiryMap {
  import opened Counting

  /** An entry of the map. */
  datatype Rec = Rec(key: nat, evicting: bool, evictable: bool, expires: nat)

  /** Where an activation of the collector is: none, going through the keys, or calling the callbacks. */
  datatype Run = None | Marking | Issuing

  /**
   Records are numbered as they are inserted.  `looked` is the record the collector has
   looked up and not yet locked; `marked` are the records it has marked and not yet been
   answered about, `unissued` those whose callback is still to be called and `asked` those
   whose callback has been called in this round; `applied` counts
   answers that have been applied and not yet been counted in `pending`; `resched` counts
   calls to schedule a round that are under way; `clash` records that a round began while
   another one was not over; `gone` are the records clients have erased.
   */
  datatype State = State(
    now: nat, running: bool, cancelled: bool, stopped: bool,
    scheduled: nat, run: Run, todo: set<nat>, looked: set<nat>, marked: set<nat>, unissued: set<nat>, asked: set<nat>,
    pending: nat, applied: nat, resched: nat, rounds: nat, attempts: nat, clash: bool,
    entries: map<nat, nat>, recs: seq<Rec>, gone: set<nat>)

  datatype ClientEvent = Insert(key: nat) | Erase(key: nat) | Pin(r: nat) | Unpin(r: nat) | Extend(r: nat)
  datatype CollectorEvent =
    | Begin | BeginFails | Lookup(key: nat) | Skip | Mark(r: nat) | EndMarking
    | Issue(r: nat) | Answer(r: nat, remove: bool)
  datatype ControlEvent = Tick(dt: nat) | Count | Reschedule(accepted: bool) | StopFlag | StopCancel | StopDone
  datatype Event = Client(e: ClientEvent) | Collector(g: CollectorEvent) | Control(x: ControlEvent)

  /** After `Run`: the first round has been scheduled. */
  const START := State(0, true, false, false, 1, None, {}, {}, {}, {}, {}, 0, 0, 0, 0, 1, false, map[], [], {})

  /** Clients pin, unpin and extend a record only if they find it unmarked. */
  predicate ClientCan(s: State, e: ClientEvent) {
    match e
    case Insert(_) => true
    case Erase(_) => true
    case Pin(r) => r < |s.recs| && !s.recs[r].evicting
    case Unpin(r) => r < |s.recs| && !s.recs[r].evicting
    case Extend(r) => r < |s.recs| && !s.recs[r].evicting
  }

  predicate CollectorCan(s: State, g: CollectorEvent) {
    match g
    case Begin => s.scheduled > 0
    case BeginFails => s.scheduled > 0
    case Lookup(key) => s.run == Marking && s.looked == {} && key in s.todo
    case Skip => s.run == Marking && s.looked != {}
    case Mark(r) => s.run == Marking && r in s.looked && r < |s.recs|
    case EndMarking => s.run == Marking && s.looked == {} && s.todo == {}
    case Issue(r) => s.run == Issuing && r in s.unissued
    case Answer(r, _) => r in s.marked && r !in s.unissued && s.run != Marking && r < |s.recs|
  }

  predicate ControlCan(s: State, x: ControlEvent) {
    match x
    case Tick(_) => true
    case Count => s.applied > 0 && s.pending > 0
    case Reschedule(_) => s.resched > 0
    case StopFlag => s.running
    case StopCancel => !s.running && s.run == None
    case StopDone => s.cancelled && s.pending == 0
  }

  predicate Enabled(s: State, ev: Event) {
    match ev
    case Client(e) => ClientCan(s, e)
    case Collector(g) => CollectorCan(s, g)
    case Control(x) => ControlCan(s, x)
  }

  function SetRec(s: State, r: nat, x: Rec): State {
    if r < |s.recs| then s.(recs := s.recs[r := x]) else s
  }

  /** A round is not over. */
  predicate Busy(s: State) {
    s.run != None || s.pending > 0
  }

  function BeginRound(s: State): State
    requires s.scheduled > 0
  {
    s.(scheduled := s.scheduled - 1, rounds := s.rounds + 1, clash := s.clash || Busy(s) || s.resched > 0)
  }

  /** The collector marks a record that is evictable and expired. */
  function Marked(s: State, r: nat): State
    requires r < |s.recs|
  {
    var x := s.recs[r];
    if x.evictable && x.expires < s.now
    then SetRec(s, r, x.(evicting := true)).(looked := {}, marked := s.marked + {r})
    else s.(looked := {})
  }

  /** The answer about a record: erase its key, or unmark the record; also unmark it if the key was gone. */
  function Answered(s: State, r: nat, remove: bool): State
    requires r < |s.recs|
  {
    var t := s.(marked := s.marked - {r}, applied := s.applied + 1);
    var key := s.recs[r].key;
    if remove && key in s.entries then t.(entries := s.entries - {key})
    else SetRec(t, r, s.recs[r].(evicting := false))
  }

  function ClientStep(life: nat, s: State, e: ClientEvent): State
    requires ClientCan(s, e)
  {
    match e
    case Insert(key) =>
      if key in s.entries then s
      else s.(entries := s.entries[key := |s.recs|], recs := s.recs + [Rec(key, false, true, s.now + life)])
    case Erase(key) =>
      if key in s.entries then s.(entries := s.entries - {key}, gone := s.gone + {s.entries[key]}) else s
    case Pin(r) => SetRec(s, r, s.recs[r].(evictable := false))
    case Unpin(r) => SetRec(s, r, s.recs[r].(evictable := true))
    case Extend(r) => SetRec(s, r, s.recs[r].(expires := s.now + life))
  }

  function CollectorStep(s: State, g: CollectorEvent): State
    requires CollectorCan(s, g)
  {
    match g
    case Begin =>
      BeginRound(s).(run := Marking, todo := s.entries.Keys, looked := {}, marked := {}, unissued := {}, asked := {})
    case BeginFails => BeginRound(s).(resched := s.resched + 1)
    case Lookup(key) => s.(todo := s.todo - {key}, looked := if key in s.entries then {s.entries[key]} else {})
    case Skip => s.(looked := {})
    case Mark(r) => Marked(s, r)
    case EndMarking =>
      if s.marked == {} then s.(run := None, resched := s.resched + 1)
      else s.(run := Issuing, unissued := s.marked, pending := |s.marked|)
    case Issue(r) =>
      s.(unissued := s.unissued - {r}, asked := s.asked + {r}, run := if s.unissued == {r} then None else Issuing)
    case Answer(r, remove) => Answered(s, r, remove)
  }

  function ControlStep(s: State, x: ControlEvent): State
    requires ControlCan(s, x)
  {
    match x
    case Tick(dt) => s.(now := s.now + dt)
    case Count => s.(applied := s.applied - 1, pending := s.pending - 1,
                     resched := if s.pending == 1 then s.resched + 1 else s.resched)
    case Reschedule(accepted) =>
      s.(resched := s.resched - 1, attempts := s.attempts + 1,
         scheduled := if s.running && accepted then s.scheduled + 1 else s.scheduled)
    case StopFlag => s.(running := false)
    case StopCancel => s.(scheduled := 0, cancelled := true)
    case StopDone => s.(stopped := true)
  }

  function Step(life: nat, s: State, ev: Event): State
    requires Enabled(s, ev)
  {
    match ev
    case Client(e) => ClientStep(life, s, e)
    case Collector(g) => CollectorStep(s, g)
    case Control(x) => ControlStep(s, x)
  }

  // ------------------------------------------------------------------------ invariants

  /**
   At most one round is scheduled, running, waiting for answers or being rescheduled; each tries to
   reschedule once.
   */
  predicate OneRound(s: State) {
    && !s.clash
    && s.scheduled + s.resched + One(Busy(s)) <= 1
    && s.attempts + s.resched + One(Busy(s)) == s.rounds + 1
  }

  /** The counter counts the answers still to come and those not yet counted. */
  predicate Counted(s: State) {
    && s.unissued <= s.marked
    && (s.run != Marking ==> s.looked == {} && s.pending == |s.marked| + s.applied)
    && (s.run == Marking ==> s.pending == 0 && s.applied == 0 && s.unissued == {})
    && (s.run == None ==> s.unissued == {})
    && (s.run == Issuing ==> s.unissued != {})
  }

  /** Each callback is called once in a round, and every answer that is due has been asked for or will be. */
  predicate Asked(run: Run, marked: set<nat>, unissued: set<nat>, asked: set<nat>) {
    && asked !! unissued
    && if run == Marking then asked == {} else marked <= asked + unissued
  }

  predicate AskedRight(s: State) {
    Asked(s.run, s.marked, s.unissued, s.asked)
  }

  predicate EntryRight(s: State, k: nat)
    requires k in s.entries
  {
    var r := s.entries[k];
    r < |s.recs| && r !in s.gone && s.recs[r].key == k && (s.recs[r].evicting ==> r in s.marked)
  }

  predicate Evictable(s: State, r: nat) {
    r < |s.recs| && s.recs[r].evicting && s.recs[r].evictable && s.recs[r].expires < s.now
  }

  /** Every key maps to a record inserted for it; marked records are on the collector's list, expired and evictable. */
  predicate MarkedRight(s: State) {
    && (forall k | k in s.entries :: EntryRight(s, k))
    && (forall r | r in s.marked :: Evictable(s, r))
    && (forall r | r in s.looked :: r < |s.recs|)
    && (forall r | r in s.gone :: r < |s.recs|)
  }

  predicate Visited(s: State, r: nat) {
    r < |s.recs| && s.recs[r].key !in s.todo
  }

  /** The list has no key twice, and none that is still to be visited. */
  predicate Distinct(s: State) {
    s.run == Marking ==>
      && |s.looked| <= 1 && s.looked !! s.marked
      && (forall r | r in s.looked :: Visited(s, r)) && (forall r | r in s.marked :: Visited(s, r))
  }

  predicate Stops(s: State) {
    && (s.cancelled ==> !s.running && s.scheduled == 0 && s.run == None)
    && (s.stopped ==> s.cancelled && s.pending == 0)
  }

  /** The record is the one its key maps to. */
  predicate Current(s: State, r: nat) {
    r < |s.recs| && s.recs[r].key in s.entries && s.entries[s.recs[r].key] == r
  }

  /** A record the collector is dealing with is its key's unless a client has erased it. */
  predicate Tracked(s: State, r: nat) {
    r < |s.recs| && (Current(s, r) <==> r !in s.gone)
  }

  predicate AllTracked(s: State) {
    && (forall r | r in s.looked :: Tracked(s, r)) && (forall r | r in s.marked :: Tracked(s, r))
  }

  predicate KeysDiffer(s: State, r: nat, q: nat) {
    r < |s.recs| && q < |s.recs| && s.recs[r].key != s.recs[q].key
  }

  /** It deals with no two records of one key. */
  predicate OnePerKey(s: State) {
    && (forall r, q {:trigger KeysDiffer(s, r, q)} | r in s.marked && q in s.marked && r != q :: KeysDiffer(s, r, q))
    && (forall r, q {:trigger KeysDiffer(s, r, q)} | r in s.marked && q in s.looked && r != q :: KeysDiffer(s, r, q))
  }

  predicate Inv(s: State) {
    && OneRound(s) && Counted(s) && AskedRight(s) && MarkedRight(s) && Distinct(s) && Stops(s)
    && AllTracked(s) && OnePerKey(s)
  }

  /** Nothing the two predicates speak of has changed, except that less may be looked up. */
  lemma SameTracks(s: State, t: State)
    requires AllTracked(s) && OnePerKey(s)
    requires t.marked <= s.marked && t.looked <= s.looked
    requires t.entries == s.entries && t.recs == s.recs && t.gone == s.gone
    ensures AllTracked(t) && OnePerKey(t)
  {
    forall q | q in t.marked || q in t.looked
      ensures Tracked(t, q)
    {
      assert Tracked(s, q);
    }
    forall p, q | p in t.marked && (q in t.marked || q in t.looked) && p != q
      ensures KeysDiffer(t, p, q)
    {
      assert KeysDiffer(s, p, q);
    }
  }

  lemma ControlKeeps(s: State, x: ControlEvent)
    requires Inv(s) && ControlCan(s, x)
    ensures Inv(ControlStep(s, x))
  {
    hide AllTracked;
    hide OnePerKey;
    hide Asked;
    SameTracks(s, ControlStep(s, x));
  }

  lemma CollectorCounts(s: State, g: CollectorEvent)
    requires OneRound(s) && Counted(s) && Stops(s) && CollectorCan(s, g)
    ensures OneRound(CollectorStep(s, g)) && Counted(CollectorStep(s, g)) && Stops(CollectorStep(s, g))
  {
    hide Marked;
    hide Answered;
    match g
    case Mark(r) => MarkCounts(s, r);
    case Answer(r, remove) => AnswerCounts(s, r, remove);
    case _ =>
  }

  lemma MarkCounts(s: State, r: nat)
    requires OneRound(s) && Counted(s) && Stops(s) && CollectorCan(s, Mark(r))
    ensures OneRound(Marked(s, r)) && Counted(Marked(s, r)) && Stops(Marked(s, r))
  {
  }

  lemma AnswerCounts(s: State, r: nat, remove: bool)
    requires OneRound(s) && Counted(s) && Stops(s) && CollectorCan(s, Answer(r, remove))
    ensures var t := Answered(s, r, remove); OneRound(t) && Counted(t) && Stops(t)
  {
  }

  lemma MarkDistinct(s: State, r: nat)
    requires Distinct(s) && s.run == Marking && r in s.looked && r < |s.recs|
    ensures Distinct(Marked(s, r))
  {
    var t := Marked(s, r);
    forall q | q in t.marked
      ensures Visited(t, q)
    {
      assert Visited(s, q);
    }
  }

  lemma MarkKeeps(s: State, r: nat)
    requires MarkedRight(s) && s.run == Marking && r in s.looked && r < |s.recs|
    ensures MarkedRight(Marked(s, r))
  {
    var t := Marked(s, r);
    forall k | k in t.entries
      ensures EntryRight(t, k)
    {
      assert EntryRight(s, k);
    }
    forall q | q in t.marked
      ensures Evictable(t, q)
    {
      assert q in s.marked ==> Evictable(s, q);
    }
  }

  lemma AnswerKeeps(s: State, r: nat, remove: bool)
    requires MarkedRight(s) && r in s.marked && s.run != Marking && r < |s.recs|
    ensures MarkedRight(Answered(s, r, remove)) && Answered(s, r, remove).run != Marking
  {
    var t := Answered(s, r, remove);
    forall k | k in t.entries
      ensures EntryRight(t, k)
    {
      assert EntryRight(s, k);
    }
    forall q | q in t.marked
      ensures Evictable(t, q)
    {
      assert Evictable(s, q);
    }
  }

  lemma AskedLess(run: Run, marked: set<nat>, unissued: set<nat>, asked: set<nat>, r: nat)
    requires Asked(run, marked, unissued, asked)
    ensures Asked(run, marked - {r}, unissued, asked)
  {
  }

  lemma AskedIssue(run: Run, run': Run, marked: set<nat>, unissued: set<nat>, asked: set<nat>, r: nat)
    requires Asked(run, marked, unissued, asked) && run != Marking && run' != Marking && r in unissued
    ensures Asked(run', marked, unissued - {r}, asked + {r})
  {
  }

  lemma AskedStart(run: Run, marked: set<nat>)
    requires run != Marking
    ensures Asked(run, marked, marked, {}) && Asked(run, {}, {}, {}) && Asked(Marking, {}, {}, {})
  {
  }

  lemma CollectorAsks(s: State, g: CollectorEvent)
    requires AskedRight(s) && Counted(s) && CollectorCan(s, g)
    ensures AskedRight(CollectorStep(s, g))
  {
    hide Marked;
    hide Answered;
    hide Asked;
    match g
    case Begin => AskedStart(None, {});
    case BeginFails =>
    case Lookup(_) =>
    case Skip =>
    case Mark(r) => MarkAsks(s, r);
    case EndMarking => EndAsks(s);
    case Issue(r) => AskedIssue(s.run, CollectorStep(s, g).run, s.marked, s.unissued, s.asked, r);
    case Answer(r, remove) => AnswerAsks(s, r, remove);
  }

  lemma MarkAsks(s: State, r: nat)
    requires AskedRight(s) && s.run == Marking && s.unissued == {} && r < |s.recs|
    ensures AskedRight(Marked(s, r))
  {
  }

  lemma EndAsks(s: State)
    requires AskedRight(s) && Counted(s) && CollectorCan(s, EndMarking)
    ensures AskedRight(CollectorStep(s, EndMarking))
  {
  }

  lemma AnswerAsks(s: State, r: nat, remove: bool)
    requires AskedRight(s) && r < |s.recs|
    ensures AskedRight(Answered(s, r, remove))
  {
    hide Asked;
    AskedLess(s.run, s.marked, s.unissued, s.asked, r);
  }

  lemma CollectorMarks(s: State, g: CollectorEvent)
    requires Inv(s) && CollectorCan(s, g)
    ensures MarkedRight(CollectorStep(s, g)) && Distinct(CollectorStep(s, g))
  {
    hide Marked;
    hide Answered;
    hide Asked;
    hide AllTracked;
    hide OnePerKey;
    match g
    case Mark(r) =>
      MarkKeeps(s, r);
      MarkDistinct(s, r);
    case Answer(r, remove) => AnswerKeeps(s, r, remove);
    case _ =>
  }

  lemma MarkTracks(s: State, r: nat)
    requires AllTracked(s) && OnePerKey(s) && r in s.looked && r < |s.recs|
    ensures AllTracked(Marked(s, r)) && OnePerKey(Marked(s, r))
  {
    var t := Marked(s, r);
    forall q | q in t.marked
      ensures Tracked(t, q)
    {
      assert Tracked(s, q);
    }
    forall p, q | p in t.marked && q in t.marked && p != q
      ensures KeysDiffer(t, p, q)
    {
      assert KeysDiffer(s, p, q) || KeysDiffer(s, q, p);
    }
  }

  lemma LookupTracks(s: State, key: nat)
    requires MarkedRight(s) && Distinct(s) && AllTracked(s) && OnePerKey(s) && CollectorCan(s, Lookup(key))
    ensures AllTracked(CollectorStep(s, Lookup(key))) && OnePerKey(CollectorStep(s, Lookup(key)))
  {
    var t := CollectorStep(s, Lookup(key));
    assert key in s.entries ==> EntryRight(s, key);
    forall q | q in t.marked
      ensures Tracked(t, q)
    {
      assert Tracked(s, q);
    }
    forall p, q | p in t.marked && q in t.marked && p != q
      ensures KeysDiffer(t, p, q)
    {
      assert KeysDiffer(s, p, q);
    }
    forall p, q | p in t.marked && q in t.looked && p != q
      ensures KeysDiffer(t, p, q)
    {
      assert Visited(s, p);
    }
  }

  lemma AnswerTracks(s: State, r: nat, remove: bool)
    requires AllTracked(s) && OnePerKey(s) && s.looked == {} && r in s.marked && r < |s.recs|
    ensures AllTracked(Answered(s, r, remove)) && OnePerKey(Answered(s, r, remove))
  {
    var t := Answered(s, r, remove);
    forall q | q in t.marked
      ensures Tracked(t, q)
    {
      assert Tracked(s, q) && KeysDiffer(s, r, q);
    }
    forall p, q | p in t.marked && q in t.marked && p != q
      ensures KeysDiffer(t, p, q)
    {
      assert KeysDiffer(s, p, q);
    }
  }

  lemma CollectorTracks(s: State, g: CollectorEvent)
    requires Inv(s) && CollectorCan(s, g)
    ensures AllTracked(CollectorStep(s, g)) && OnePerKey(CollectorStep(s, g))
  {
    hide Marked;
    hide Answered;
    hide AllTracked;
    hide OnePerKey;
    hide MarkedRight;
    hide Distinct;
    hide Asked;
    match g
    case Lookup(key) => LookupTracks(s, key);
    case Mark(r) => MarkTracks(s, r);
    case Answer(r, remove) => AnswerTracks(s, r, remove);
    case Begin => SameTracks(s, CollectorStep(s, g));
    case BeginFails => SameTracks(s, CollectorStep(s, g));
    case Skip => SameTracks(s, CollectorStep(s, g));
    case EndMarking => SameTracks(s, CollectorStep(s, g));
    case Issue(_) => SameTracks(s, CollectorStep(s, g));
  }

  lemma InsertMarks(life: nat, s: State, key: nat)
    requires MarkedRight(s)
    ensures MarkedRight(ClientStep(life, s, Insert(key)))
  {
    var t := ClientStep(life, s, Insert(key));
    forall k | k in t.entries
      ensures EntryRight(t, k)
    {
      assert k in s.entries ==> EntryRight(s, k);
    }
    forall q | q in t.marked
      ensures Evictable(t, q)
    {
      assert Evictable(s, q);
    }
  }

  lemma EraseMarks(life: nat, s: State, key: nat)
    requires MarkedRight(s)
    ensures MarkedRight(ClientStep(life, s, Erase(key)))
  {
    var t := ClientStep(life, s, Erase(key));
    assert key in s.entries ==> EntryRight(s, key);
    forall k | k in t.entries
      ensures EntryRight(t, k)
    {
      assert EntryRight(s, k);
    }
    forall q | q in t.marked
      ensures Evictable(t, q)
    {
      assert Evictable(s, q);
    }
  }

  /** Clients change a record only while it is unmarked, and neither its key nor its mark. */
  lemma RecordMarks(s: State, r: nat, x: Rec)
    requires MarkedRight(s) && r < |s.recs| && !s.recs[r].evicting && x.key == s.recs[r].key && !x.evicting
    ensures MarkedRight(SetRec(s, r, x))
  {
    var t := SetRec(s, r, x);
    forall k | k in t.entries
      ensures EntryRight(t, k)
    {
      assert EntryRight(s, k);
    }
    forall q | q in t.marked
      ensures Evictable(t, q)
    {
      assert Evictable(s, q);
    }
  }

  lemma ClientMarks(life: nat, s: State, e: ClientEvent)
    requires MarkedRight(s) && ClientCan(s, e)
    ensures MarkedRight(ClientStep(life, s, e))
  {
    hide MarkedRight;
    hide SetRec;
    match e
    case Insert(key) => InsertMarks(life, s, key);
    case Erase(key) => EraseMarks(life, s, key);
    case Pin(r) => RecordMarks(s, r, s.recs[r].(evictable := false));
    case Unpin(r) => RecordMarks(s, r, s.recs[r].(evictable := true));
    case Extend(r) => RecordMarks(s, r, s.recs[r].(expires := s.now + life));
  }

  lemma ClientTracks(life: nat, s: State, e: ClientEvent)
    requires MarkedRight(s) && AllTracked(s) && OnePerKey(s) && ClientCan(s, e)
    ensures AllTracked(ClientStep(life, s, e)) && OnePerKey(ClientStep(life, s, e))
  {
    var t := ClientStep(life, s, e);
    forall q | q in t.marked || q in t.looked
      ensures Tracked(t, q)
    {
      assert Tracked(s, q);
      assert e.Erase? && e.key in s.entries ==> EntryRight(s, e.key);
    }
    forall p, q | p in t.marked && (q in t.marked || q in t.looked) && p != q
      ensures KeysDiffer(t, p, q)
    {
      assert KeysDiffer(s, p, q);
    }
  }

  lemma ClientKeeps(life: nat, s: State, e: ClientEvent)
    requires Inv(s) && ClientCan(s, e)
    ensures Inv(ClientStep(life, s, e))
  {
    hide MarkedRight;
    hide AllTracked;
    hide OnePerKey;
    hide Asked;
    ClientMarks(life, s, e);
    ClientTracks(life, s, e);
  }

  /** Every step of every party keeps the protocol in order. */
  lemma StepKeeps(life: nat, s: State, ev: Event)
    requires Inv(s) && Enabled(s, ev)
    ensures Inv(Step(life, s, ev))
  {
    match ev
    case Client(e) => ClientKeeps(life, s, e);
    case Collector(g) =>
      CollectorCounts(s, g);
      CollectorAsks(s, g);
      CollectorMarks(s, g);
      CollectorTracks(s, g);
    case Control(x) => ControlKeeps(s, x);
  }

  // ------------------------------------------------------------------------ whole runs

  /** An event that cannot happen in the state is skipped, so that every sequence is a run. */
  function After(life: nat, s: State, run: seq<Event>): State
    decreases |run|
  {
    if run == [] then s
    else After(life, if Enabled(s, run[0]) then Step(life, s, run[0]) else s, run[1..])
  }

  lemma {:induction false} RunsKeep(life: nat, s: State, run: seq<Event>)
    requires Inv(s)
    ensures Inv(After(life, s, run))
    decreases |run|
  {
    if run != [] {
      if Enabled(s, run[0]) {
        StepKeeps(life, s, run[0]);
        RunsKeep(life, Step(life, s, run[0]), run[1..]);
      } else {
        RunsKeep(life, s, run[1..]);
      }
    }
  }

  /**
   In every run, whatever the clients do: a round never begins before the last one is over,
   every round that is over has tried to reschedule exactly once, and between rounds no entry
   of the map is marked.
   */
  lemma OneRoundAtATime(life: nat, run: seq<Event>)
    ensures var s := After(life, START, run);
            && !s.clash && s.scheduled + s.resched + One(Busy(s)) <= 1
            && (!Busy(s) && s.resched == 0 ==> s.attempts == s.rounds + 1)
            && (!Busy(s) ==> forall k | k in s.entries :: s.entries[k] < |s.recs| && !s.recs[s.entries[k]].evicting)
  {
    RunsKeep(life, START, run);
  }

  /**
   From `s` to `t` exactly one entry has gone: the record's, which was marked, evictable, so not
   pinned, and expired.
   */
  predicate RemovesRightly(s: State, t: State, r: nat) {
    && Evictable(s, r) && Current(s, r) && s.recs[r].key !in t.entries
    && (forall k | k in s.entries :: k == s.recs[r].key || (k in t.entries && t.entries[k] == s.entries[k]))
  }

  /**
   In every run, whatever the clients do, an answer to remove an entry removes what it may if
   and only if no client has erased that entry: in between lookup, marking and answer, the
   collector does not look again.
   */
  lemma RemovesOnlyWhatItMay(life: nat, run: seq<Event>, r: nat)
    ensures var s, ev := After(life, START, run), Collector(Answer(r, true));
            Enabled(s, ev) ==> (RemovesRightly(s, Step(life, s, ev), r) <==> r !in s.gone)
  {
    hide Inv;
    RunsKeep(life, START, run);
    var s := After(life, START, run);
    if Enabled(s, Collector(Answer(r, true))) {
      MarkedFacts(s, r);
    }
  }

  lemma MarkedFacts(s: State, r: nat)
    requires Inv(s) && r in s.marked
    ensures Evictable(s, r) && Tracked(s, r)
  {
  }

  /** The key's entry is pinned, or has not expired. */
  predicate Safe(s: State, key: nat) {
    && key in s.entries && s.entries[key] < |s.recs|
    && !(s.recs[s.entries[key]].evictable && s.recs[s.entries[key]].expires < s.now)
  }

  lemma CollectorSpares(s: State, g: CollectorEvent)
    requires CollectorCan(s, g) && !g.Answer?
    ensures CollectorStep(s, g).entries == s.entries
  {
  }

  /** The key's entry is the record `q`, which is pinned, and the collector deals with no erased record of the key. */
  predicate Pinned(s: State, key: nat, q: nat) {
    && key in s.entries && s.entries[key] == q && q < |s.recs| && !s.recs[q].evictable
    && (forall r | r in s.looked :: Undisputed(s, key, r)) && (forall r | r in s.marked :: Undisputed(s, key, r))
  }

  predicate Undisputed(s: State, key: nat, r: nat) {
    r < |s.recs| && (s.recs[r].key == key ==> r !in s.gone)
  }

  lemma ClientPins(life: nat, s: State, e: ClientEvent, key: nat, q: nat)
    requires MarkedRight(s) && Pinned(s, key, q) && ClientCan(s, e) && e != Erase(key) && e != Unpin(q)
    ensures Pinned(ClientStep(life, s, e), key, q)
  {
    var t := ClientStep(life, s, e);
    assert e.Erase? && e.key in s.entries ==> EntryRight(s, e.key);
    forall r | r in t.marked || r in t.looked
      ensures Undisputed(t, key, r)
    {
      assert Undisputed(s, key, r);
    }
  }

  lemma AnswerPins(s: State, r: nat, remove: bool, key: nat, q: nat)
    requires MarkedRight(s) && AllTracked(s) && Pinned(s, key, q) && CollectorCan(s, Answer(r, remove))
    ensures Pinned(Answered(s, r, remove), key, q)
  {
    var t := Answered(s, r, remove);
    assert Undisputed(s, key, r) && Evictable(s, r) && Tracked(s, r);
    assert s.recs[r].key != key;
    forall p | p in t.marked
      ensures Undisputed(t, key, p)
    {
      assert Undisputed(s, key, p);
    }
  }

  lemma MarkPins(s: State, r: nat, key: nat, q: nat)
    requires Pinned(s, key, q) && r in s.looked && r < |s.recs|
    ensures Pinned(Marked(s, r), key, q)
  {
    var t := Marked(s, r);
    forall p | p in t.marked
      ensures Undisputed(t, key, p)
    {
      assert Undisputed(s, key, p);
    }
  }

  lemma LookupPins(s: State, k: nat, key: nat, q: nat)
    requires MarkedRight(s) && Pinned(s, key, q) && CollectorCan(s, Lookup(k))
    ensures Pinned(CollectorStep(s, Lookup(k)), key, q)
  {
    assert k in s.entries ==> EntryRight(s, k);
    SamePins(s, CollectorStep(s, Lookup(k)).(looked := {}), key, q);
  }

  /** Nothing the predicate speaks of has changed, except that the collector may deal with less. */
  lemma SamePins(s: State, t: State, key: nat, q: nat)
    requires Pinned(s, key, q) && t.entries == s.entries && t.recs == s.recs && t.gone == s.gone
    requires t.looked <= s.looked && t.marked <= s.marked
    ensures Pinned(t, key, q)
  {
    forall r | r in t.looked || r in t.marked
      ensures Undisputed(t, key, r)
    {
      assert Undisputed(s, key, r);
    }
  }

  lemma CollectorPins(s: State, g: CollectorEvent, key: nat, q: nat)
    requires MarkedRight(s) && AllTracked(s) && Pinned(s, key, q) && CollectorCan(s, g)
    ensures Pinned(CollectorStep(s, g), key, q)
  {
    hide Marked;
    hide Answered;
    hide Pinned;
    hide MarkedRight;
    hide AllTracked;
    match g
    case Answer(r, remove) => AnswerPins(s, r, remove, key, q);
    case Mark(r) => MarkPins(s, r, key, q);
    case Lookup(k) => LookupPins(s, k, key, q);
    case Begin => SamePins(s, CollectorStep(s, g), key, q);
    case BeginFails => SamePins(s, CollectorStep(s, g), key, q);
    case Skip => SamePins(s, CollectorStep(s, g), key, q);
    case EndMarking => SamePins(s, CollectorStep(s, g), key, q);
    case Issue(_) => SamePins(s, CollectorStep(s, g), key, q);
  }

  lemma ControlPins(s: State, x: ControlEvent, key: nat, q: nat)
    requires Pinned(s, key, q) && ControlCan(s, x)
    ensures Pinned(ControlStep(s, x), key, q)
  {
    hide Pinned;
    SamePins(s, ControlStep(s, x), key, q);
  }

  /**
   A pinned entry stays: in every continuation in which it is not unpinned and its key not
   erased by a client, the key keeps its record, unless the collector was already dealing
   with an erased record of the same key.
   */
  lemma {:induction false} PinnedStays(life: nat, s: State, run: seq<Event>, key: nat, q: nat)
    requires Inv(s) && Pinned(s, key, q)
    requires Client(Unpin(q)) !in run && Client(Erase(key)) !in run
    ensures Pinned(After(life, s, run), key, q)
    decreases |run|
  {
    hide Inv;
    hide Pinned;
    if run != [] {
      if Enabled(s, run[0]) {
        StepKeeps(life, s, run[0]);
        StepPins(life, s, run[0], key, q);
        PinnedStays(life, Step(life, s, run[0]), run[1..], key, q);
      } else {
        PinnedStays(life, s, run[1..], key, q);
      }
    }
  }

  lemma StepPins(life: nat, s: State, ev: Event, key: nat, q: nat)
    requires Inv(s) && Pinned(s, key, q) && Enabled(s, ev) && ev != Client(Unpin(q)) && ev != Client(Erase(key))
    ensures Pinned(Step(life, s, ev), key, q)
  {
    hide MarkedRight;
    hide AllTracked;
    hide OnePerKey;
    hide Asked;
    hide Pinned;
    hide ClientStep;
    hide CollectorStep;
    hide ControlStep;
    match ev
    case Client(e) => ClientPins(life, s, e, key, q);
    case Collector(g) => CollectorPins(s, g, key, q);
    case Control(x) => ControlPins(s, x, key, q);
  }

  /** What `Find` or an `Insert` that finds the key occupied does with the record, in blocking mode. */
  predicate Served(s: State, r: nat) {
    r < |s.recs| && !s.recs[r].evicting
  }

  /** In every run, an entry of the map is withheld from clients exactly while an answer about it is to come. */
  lemma WithheldWhileMarked(life: nat, run: seq<Event>, key: nat)
    ensures var s := After(life, START, run);
            key in s.entries ==> (Served(s, s.entries[key]) <==> s.entries[key] !in s.marked)
  {
    RunsKeep(life, START, run);
  }

  /** After `Stop` has returned, no round ever runs again. */
  lemma {:induction false} StopIsFinal(life: nat, s: State, run: seq<Event>)
    requires Inv(s) && s.stopped
    ensures var t := After(life, s, run); t.rounds == s.rounds && t.run == None && t.pending == 0
    decreases |run|
  {
    hide MarkedRight;
    hide AllTracked;
    hide OnePerKey;
    hide Asked;
    hide Marked;
    hide Answered;
    if run != [] {
      if Enabled(s, run[0]) {
        StepKeeps(life, s, run[0]);
        StoppedStep(life, s, run[0]);
        StopIsFinal(life, Step(life, s, run[0]), run[1..]);
      } else {
        StopIsFinal(life, s, run[1..]);
      }
    }
  }

  lemma StoppedStep(life: nat, s: State, ev: Event)
    requires Enabled(s, ev) && s.stopped && s.scheduled == 0
    ensures Step(life, s, ev).stopped && Step(life, s, ev).rounds == s.rounds
  {
    hide Marked;
    hide Answered;
    match ev
    case Client(_) =>
    case Collector(Mark(r)) => MarkQuiet(s, r);
    case Collector(Answer(r, remove)) => AnswerQuiet(s, r, remove);
    case Collector(_) =>
    case Control(_) =>
  }

  lemma MarkQuiet(s: State, r: nat)
    requires r < |s.recs|
    ensures Marked(s, r).stopped == s.stopped && Marked(s, r).rounds == s.rounds
  {
  }

  lemma AnswerQuiet(s: State, r: nat, remove: bool)
    requires r < |s.recs|
    ensures Answered(s, r, remove).stopped == s.stopped && Answered(s, r, remove).rounds == s.rounds
  {
  }

  lemma Prepend(life: nat, s: State, ev: Event, t: State, run: seq<Event>) returns (run': seq<Event>)
    requires Enabled(s, ev) && After(life, Step(life, s, ev), run) == t
    ensures After(life, s, run') == t
  {
    run' := [ev] + run;
    assert run'[1..] == run;
  }

  /** A record has been looked up and its key erased. */
  const LOOKED_UP := START.(now := 2, scheduled := 0, run := Marking, looked := {0}, rounds := 1,
                            recs := [Rec(7, false, true, 1)],
                               gone := {0})

  lemma ReachLookedUp() returns (run: seq<Event>)
    ensures After(1, START, run) == LOOKED_UP
  {
    var life := 1;
    var s1 := START.(entries := map[7 := 0], recs := [Rec(7, false, true, 1)]);
    assert Step(life, START, Client(Insert(7))) == s1;
    var s2 := s1.(now := 2);
    assert Step(life, s1, Control(Tick(2))) == s2;
    var s3 := s2.(scheduled := 0, run := Marking, rounds := 1, todo := {7});
    assert Step(life, s2, Collector(Begin)) == s3;
    var s4 := s3.(todo := {}, looked := {0});
    assert Step(life, s3, Collector(Lookup(7))) == s4;
    assert Step(life, s4, Client(Erase(7))) == LOOKED_UP;
    run := Prepend(life, s4, Client(Erase(7)), LOOKED_UP, []);
    run := Prepend(life, s3, Collector(Lookup(7)), LOOKED_UP, run);
    run := Prepend(life, s2, Collector(Begin), LOOKED_UP, run);
    run := Prepend(life, s1, Control(Tick(2)), LOOKED_UP, run);
    run := Prepend(life, START, Client(Insert(7)), LOOKED_UP, run);
  }

  /** The key is back with a new record, and the callback about the old one has been called. */
  const MISTAKEN := LOOKED_UP.(run := None, looked := {}, marked := {0}, asked := {0}, pending := 1,
                               entries := map[7 := 1], recs := [Rec(7, true, true, 1), Rec(7, false, true, 3)])

  lemma ReachMistaken() returns (run: seq<Event>)
    ensures After(1, LOOKED_UP, run) == MISTAKEN
  {
    var life := 1;
    var s1 := LOOKED_UP.(entries := map[7 := 1], recs := [Rec(7, false, true, 1), Rec(7, false, true, 3)]);
    assert Step(life, LOOKED_UP, Client(Insert(7))) == s1;
    var s2 := s1.(looked := {}, marked := {0}, recs := [Rec(7, true, true, 1), Rec(7, false, true, 3)]);
    assert Step(life, s1, Collector(Mark(0))) == s2;
    var s3 := s2.(run := Issuing, unissued := {0}, pending := 1);
    assert Step(life, s2, Collector(EndMarking)) == s3;
    assert Step(life, s3, Collector(Issue(0))) == MISTAKEN;
    run := Prepend(life, s3, Collector(Issue(0)), MISTAKEN, []);
    run := Prepend(life, s2, Collector(EndMarking), MISTAKEN, run);
    run := Prepend(life, s1, Collector(Mark(0)), MISTAKEN, run);
    run := Prepend(life, LOOKED_UP, Client(Insert(7)), MISTAKEN, run);
  }

  lemma {:induction false} AfterBoth(life: nat, s: State, a: seq<Event>, b: seq<Event>)
    ensures After(life, s, a + b) == After(life, After(life, s, a), b)
    decreases |a|
  {
    if a == [] {
      assert a + b == b;
    } else {
      assert (a + b)[1..] == a[1..] + b;
      AfterBoth(life, if Enabled(s, a[0]) then Step(life, s, a[0]) else s, a[1..], b);
    }
  }

  /**
   If one has, the answer may remove an entry inserted a moment ago: a client erases and inserts
   the key again even before the record the collector looked up is marked.
   */
  lemma RemovesNewEntry() returns (life: nat, run: seq<Event>)
    ensures var s := After(life, START, run);
            && Enabled(s, Collector(Answer(0, true)))
            && 7 in s.entries && s.entries[7] == 1 && |s.recs| == 2 && s.recs[1].expires > s.now
            && 7 !in Step(life, s, Collector(Answer(0, true))).entries
  {
    life := 1;
    var a := ReachLookedUp();
    var b := ReachMistaken();
    AfterBoth(life, START, a, b);
    run := a + b;
  }
}
