/**
 The proxy session as a step machine: the handshake on the client's bytes, then two
 independent channels, one per direction.  The environment completes outstanding reads and
 writes in any order, with any byte counts and with or without an error.  `After` is the
 state after any sequence of completions; the theorems hold for every such sequence.
 */
module Forwarding {
  import opened Bytes
  import opened Socks5

  /** Reading is held back while this much is buffered. */
  const MAX_BUFFER := 1024 * 1024
  /** What each read reserves, at least. */
  const READ_SIZE := 64 * 1024

  /** Whether `total` is what a reservation of at least `size` bytes in blocks of `cap` bytes may be. */
  predicate Granted(total: nat, size: nat, cap: nat) {
    size <= total < size + cap
  }

  /**
   One direction: the flags of its source and its sink, the size of the outstanding read's
   reservation and of what is offered to the outstanding write, the buffer, and its history:
   the bytes it started with, read and wrote, whether the sink's sending side has been shut
   down, and whether the source's receiving side has.
   */
  datatype Channel = Channel(reading: bool, readable: bool, writing: bool, writable: bool, span: nat, offer: nat,
                             data: seq<Byte>, first: seq<Byte>, taken: seq<Byte>, sent: seq<Byte>,
                             shut: bool, deaf: bool)

  function Open(first: seq<Byte>): Channel {
    Channel(false, true, false, true, 0, 0, first, first, [], [], false, false)
  }

  /** Starts a read if one is due; `total` is what its reservation gets. */
  function PumpRead(c: Channel, total: nat): Channel {
    if !c.reading && c.readable && c.writable && |c.data| < MAX_BUFFER then c.(reading := true, span := total) else c
  }

  /** Starts a write if one is due. */
  function PumpWrite(c: Channel): Channel {
    if !c.writing && c.writable && |c.data| > 0 then c.(writing := true, offer := |c.data|) else c
  }

  function Pump(c: Channel, total: nat): Channel {
    PumpWrite(PumpRead(c, total))
  }

  /** A read completes with some bytes; on an error or end of file the source is finished. */
  function ReadDone(c: Channel, bytes: seq<Byte>, failed: bool): Channel {
    var d := c.(reading := false, span := 0, data := c.data + bytes, taken := c.taken + bytes);
    if failed then d.(readable := false, shut := d.shut || |d.data| == 0) else d
  }

  /** A write completes; once the source is finished and all is written, the sink is shut down. */
  function WriteDone(c: Channel, n: nat, failed: bool): Channel
    requires n <= |c.data|
  {
    var d := c.(writing := false, offer := 0, data := c.data[n..], sent := c.sent + c.data[..n]);
    var f := if failed then d.(writable := false, deaf := true) else d;
    if !f.readable && |f.data| == 0 then f.(writable := false, shut := true) else f
  }

  // ------------------------------------------------------------ what a channel keeps

  /** Every byte that came in has been written or is still there, in order. */
  predicate Conserved(c: Channel) {
    c.sent + c.data == c.first + c.taken
  }

  /** The buffered data, with what the outstanding read may add, stays below the limit. */
  predicate Bounded(c: Channel, cap: nat) {
    |c.data| + (if c.reading then c.span else 0) < MAX_BUFFER + READ_SIZE + cap
  }

  /** Operations are outstanding only where they may be. */
  predicate Flagged(c: Channel) {
    && (c.reading ==> c.readable)
    && (c.writing ==> c.writable && 0 < c.offer <= |c.data|)
    && (c.deaf ==> !c.writable) && (!c.writable ==> c.shut || c.deaf)
  }

  /** A sink is shut down exactly when its source has ended and everything is written; nothing happens after that. */
  predicate HalfClosed(c: Channel) {
    && (c.shut <==> !c.readable && c.data == [])
    && (c.shut ==> !c.reading && !c.writing)
  }

  /** Whatever can be started has been started. */
  predicate Pumped(c: Channel) {
    c.writable ==> (c.data != [] ==> c.writing) && (c.readable && |c.data| < MAX_BUFFER ==> c.reading)
  }

  predicate Sane(c: Channel, cap: nat) {
    Conserved(c) && Bounded(c, cap) && Flagged(c) && HalfClosed(c)
  }

  lemma PumpLaw(c: Channel, total: nat, cap: nat)
    requires Sane(c, cap) && Granted(total, READ_SIZE, cap)
    ensures Sane(Pump(c, total), cap) && Pumped(Pump(c, total))
    ensures Pumped(c) ==> Pump(c, total) == c
    ensures !c.reading && Pump(c, total).reading ==> Pump(c, total).span == total
    ensures !c.writing && Pump(c, total).writing ==> Pump(c, total).offer == |c.data|
  {
  }

  lemma ReadLaw(c: Channel, bytes: seq<Byte>, failed: bool, cap: nat)
    requires Sane(c, cap) && c.reading && |bytes| <= c.span
    ensures Sane(ReadDone(c, bytes, failed), cap)
  {
    assert c.sent + (c.data + bytes) == (c.sent + c.data) + bytes;
    assert c.first + (c.taken + bytes) == (c.first + c.taken) + bytes;
  }

  lemma WriteLaw(c: Channel, n: nat, failed: bool, cap: nat)
    requires Sane(c, cap) && c.writing && n <= c.offer
    ensures Sane(WriteDone(c, n, failed), cap)
  {
    assert (c.sent + c.data[..n]) + c.data[n..] == c.sent + c.data;
  }

  // --------------------------------------------------------------------- the session

  /**
   A session: whether a handshake read is outstanding, all bytes those reads brought, the
   parser with the bytes it has left, and, once the destination is connected, the channels.
   */
  datatype Session = Session(handshaking: bool, input: seq<Byte>, conf: Conf, forwarding: bool, up: Channel,
                             down: Channel)

  datatype Event =
    | HandshakeRead(bytes: seq<Byte>, failed: bool)
    | Connected(failed: bool)
    | ClientRead(bytes: seq<Byte>, failed: bool)
    | DestWritten(n: nat, failed: bool)
    | DestRead(bytes: seq<Byte>, failed: bool)
    | ClientWritten(n: nat, failed: bool)

  const FRESH := Session(true, [], START, false, Open([]), Open([]))

  /** The events the environment can produce in a state. */
  predicate Enabled(s: Session, ev: Event, cap: nat) {
    match ev
    case HandshakeRead(bytes, _) => s.handshaking && |bytes| <= cap
    case Connected(_) => !s.forwarding && !s.handshaking && s.conf.state in {WaitConnect, WaitAccept, Fail}
    case ClientRead(bytes, _) => s.forwarding && s.up.reading && |bytes| <= s.up.span
    case DestWritten(n, _) => s.forwarding && s.up.writing && n <= s.up.offer <= |s.up.data|
    case DestRead(bytes, _) => s.forwarding && s.down.reading && |bytes| <= s.down.span
    case ClientWritten(n, _) => s.forwarding && s.down.writing && n <= s.down.offer <= |s.down.data|
  }

  function Forward(s: Session, up: Channel, down: Channel, grants: (nat, nat)): Session {
    s.(up := Pump(up, grants.0), down := Pump(down, grants.1))
  }

  /** The handler of an enabled event. */
  function Handle(e: Env, s: Session, ev: Event, grants: (nat, nat), cap: nat): Session
    requires Enabled(s, ev, cap) && Wf(s.conf)
  {
    match ev
    case HandshakeRead(bytes, failed) =>
      var t := s.(handshaking := false, input := s.input + bytes, conf := Feed(s.conf, bytes));
      if failed then t
      else
        var c := Run(e, t.conf);
        t.(conf := c, handshaking := |c.rest| < c.required)
    case Connected(failed) =>
      if failed then s
      else
        var (c, ok) := ConnectionSucceed(e, s.conf);
        if ok then Forward(s.(conf := c, forwarding := true), Open(c.rest), Open([]), grants) else s.(conf := c)
    case ClientRead(bytes, failed) => Forward(s, ReadDone(s.up, bytes, failed), s.down, grants)
    case DestWritten(n, failed) => Forward(s, WriteDone(s.up, n, failed), s.down, grants)
    case DestRead(bytes, failed) => Forward(s, s.up, ReadDone(s.down, bytes, failed), grants)
    case ClientWritten(n, failed) => Forward(s, s.up, WriteDone(s.down, n, failed), grants)
  }

  // ---------------------------------------------------------------- what a session keeps

  /** In the handshake: the parser is where one run over all the input would be. */
  predicate InHandshake(e: Env, s: Session, cap: nat) {
    && (s.handshaking ==> |s.conf.rest| < 256 && s.conf.required > 0 && s.conf.state !in {WaitConnect, WaitAccept})
    && |s.conf.rest| < 256 + cap
    && (s.handshaking || s.conf.state in {WaitConnect, WaitAccept} ==> Same(s.conf, Run(e, Feed(START, s.input))))
  }

  /** When forwarding: the client bytes behind the handshake come first, and nothing is left undone. */
  predicate InForwarding(e: Env, s: Session, cap: nat) {
    && !s.handshaking
    && s.up.first == Run(e, Feed(START, s.input)).rest && s.down.first == []
    && Sane(s.up, cap) && Sane(s.down, cap) && Pumped(s.up) && Pumped(s.down)
  }

  predicate Inv(e: Env, s: Session, cap: nat) {
    Wf(s.conf) && if s.forwarding then InForwarding(e, s, cap) else InHandshake(e, s, cap)
  }

  /** A run leaves no more bytes than there were, and asks for less than 256. */
  lemma RunShort(e: Env, c: Conf)
    requires Wf(c)
    ensures Wf(Run(e, c)) && |Run(e, c).rest| <= |c.rest| && Run(e, c).required < 256
    ensures Run(e, c).state in {WaitConnect, WaitAccept} ==> Run(e, c).required == 0
  {
    hide Step;
    RunLaw(e, c);
  }

  lemma HandshakeKeeps(e: Env, s: Session, bytes: seq<Byte>, failed: bool, grants: (nat, nat), cap: nat)
    requires Inv(e, s, cap) && Enabled(s, HandshakeRead(bytes, failed), cap) && cap > 0
    ensures Inv(e, Handle(e, s, HandshakeRead(bytes, failed), grants, cap), cap)
  {
    hide Step;
    hide Suffix;
    hide ConnectionSucceed;
    hide Forward;
    var c := Feed(s.conf, bytes);
    RunLaw(e, c);
    RunShort(e, c);
    RunFeed(e, Feed(START, s.input), bytes);
    assert Feed(Feed(START, s.input), bytes) == Feed(START, s.input + bytes);
    RunSame(e, c, Feed(Run(e, Feed(START, s.input)), bytes));
  }

  lemma ForwardKeeps(e: Env, s: Session, up: Channel, down: Channel, grants: (nat, nat), cap: nat)
    requires Wf(s.conf) && s.forwarding && !s.handshaking && Sane(up, cap) && Sane(down, cap)
    requires up.first == Run(e, Feed(START, s.input)).rest && down.first == []
    requires Granted(grants.0, READ_SIZE, cap) && Granted(grants.1, READ_SIZE, cap)
    ensures Inv(e, Forward(s, up, down, grants), cap)
  {
    PumpLaw(up, grants.0, cap);
    PumpLaw(down, grants.1, cap);
  }

  /** Every handler keeps the session in order. */
  lemma HandleKeeps(e: Env, s: Session, ev: Event, grants: (nat, nat), cap: nat)
    requires Inv(e, s, cap) && Enabled(s, ev, cap) && cap > 0
    requires Granted(grants.0, READ_SIZE, cap) && Granted(grants.1, READ_SIZE, cap)
    ensures Inv(e, Handle(e, s, ev, grants, cap), cap)
  {
    match ev
    case HandshakeRead(bytes, failed) => HandshakeKeeps(e, s, bytes, failed, grants, cap);
    case Connected(failed) =>
      if !failed && (s.conf.state == WaitConnect || s.conf.state == WaitAccept) {
        var c := ConnectionSucceed(e, s.conf).0;
        ForwardKeeps(e, s.(conf := c, forwarding := true), Open(c.rest), Open([]), grants, cap);
      }
    case ClientRead(bytes, failed) =>
      ReadLaw(s.up, bytes, failed, cap);
      ForwardKeeps(e, s, ReadDone(s.up, bytes, failed), s.down, grants, cap);
    case DestWritten(n, failed) =>
      WriteLaw(s.up, n, failed, cap);
      ForwardKeeps(e, s, WriteDone(s.up, n, failed), s.down, grants, cap);
    case DestRead(bytes, failed) =>
      ReadLaw(s.down, bytes, failed, cap);
      ForwardKeeps(e, s, s.up, ReadDone(s.down, bytes, failed), grants, cap);
    case ClientWritten(n, failed) =>
      WriteLaw(s.down, n, failed, cap);
      ForwardKeeps(e, s, s.up, WriteDone(s.down, n, failed), grants, cap);
  }

  /** The session after a handler of a forwarding session left its channels at `up` and `down`. */
  predicate Forwarded(e: Env, t: Session, up: Channel, down: Channel, grants: (nat, nat), cap: nat) {
    && Inv(e, t, cap) && t.forwarding
    && t.up == Pump(up, grants.0) && t.down == Pump(down, grants.1)
    && t.up.shut == up.shut && t.down.shut == down.shut && t.up.sent == up.sent && t.down.sent == down.sent
    && t.up.deaf == up.deaf && t.down.deaf == down.deaf
  }

  lemma ClientReadLaw(e: Env, s: Session, bytes: seq<Byte>, failed: bool, grants: (nat, nat), cap: nat)
    requires Inv(e, s, cap) && Enabled(s, ClientRead(bytes, failed), cap) && cap > 0
    requires Granted(grants.0, READ_SIZE, cap) && Granted(grants.1, READ_SIZE, cap)
    ensures Forwarded(e, Handle(e, s, ClientRead(bytes, failed), grants, cap), ReadDone(s.up, bytes, failed), s.down,
                      grants, cap)
  {
    hide Inv;
    HandleKeeps(e, s, ClientRead(bytes, failed), grants, cap);
  }

  lemma DestWrittenLaw(e: Env, s: Session, n: nat, failed: bool, grants: (nat, nat), cap: nat)
    requires Inv(e, s, cap) && Enabled(s, DestWritten(n, failed), cap) && cap > 0
    requires Granted(grants.0, READ_SIZE, cap) && Granted(grants.1, READ_SIZE, cap)
    ensures Forwarded(e, Handle(e, s, DestWritten(n, failed), grants, cap), WriteDone(s.up, n, failed), s.down,
                      grants, cap)
  {
    hide Inv;
    HandleKeeps(e, s, DestWritten(n, failed), grants, cap);
  }

  lemma DestReadLaw(e: Env, s: Session, bytes: seq<Byte>, failed: bool, grants: (nat, nat), cap: nat)
    requires Inv(e, s, cap) && Enabled(s, DestRead(bytes, failed), cap) && cap > 0
    requires Granted(grants.0, READ_SIZE, cap) && Granted(grants.1, READ_SIZE, cap)
    ensures Forwarded(e, Handle(e, s, DestRead(bytes, failed), grants, cap), s.up, ReadDone(s.down, bytes, failed),
                      grants, cap)
  {
    hide Inv;
    HandleKeeps(e, s, DestRead(bytes, failed), grants, cap);
  }

  lemma ClientWrittenLaw(e: Env, s: Session, n: nat, failed: bool, grants: (nat, nat), cap: nat)
    requires Inv(e, s, cap) && Enabled(s, ClientWritten(n, failed), cap) && cap > 0
    requires Granted(grants.0, READ_SIZE, cap) && Granted(grants.1, READ_SIZE, cap)
    ensures Forwarded(e, Handle(e, s, ClientWritten(n, failed), grants, cap), s.up, WriteDone(s.down, n, failed),
                      grants, cap)
  {
    hide Inv;
    HandleKeeps(e, s, ClientWritten(n, failed), grants, cap);
  }

  /** A connection that is there: forwarding begins, or the handshake has failed. */
  lemma ConnectedLaw(e: Env, s: Session, grants: (nat, nat), cap: nat)
    requires Inv(e, s, cap) && Enabled(s, Connected(false), cap) && cap > 0
    requires Granted(grants.0, READ_SIZE, cap) && Granted(grants.1, READ_SIZE, cap)
    ensures var (c, ok) := ConnectionSucceed(e, s.conf);
            var t := Handle(e, s, Connected(false), grants, cap);
            if ok then Forwarded(e, t, Open(s.conf.rest), Open([]), grants, cap)
            else t == s.(conf := c) && Inv(e, t, cap)
  {
    hide Inv;
    hide CreateResp;
    HandleKeeps(e, s, Connected(false), grants, cap);
  }

  lemma ConnectFails(e: Env, s: Session, grants: (nat, nat), cap: nat)
    requires Wf(s.conf) && Enabled(s, Connected(true), cap)
    ensures Handle(e, s, Connected(true), grants, cap) == s
  {
  }

  lemma InvWf(e: Env, s: Session, cap: nat)
    requires Inv(e, s, cap)
    ensures Wf(s.conf)
  {
  }

  lemma ReadSends(c: Channel, bytes: seq<Byte>, failed: bool)
    ensures ReadDone(c, bytes, failed).sent == c.sent && ReadDone(c, bytes, failed).deaf == c.deaf
  {
  }

  lemma WriteSends(c: Channel, n: nat, failed: bool)
    requires n <= |c.data|
    ensures WriteDone(c, n, failed).sent == c.sent + c.data[..n] && WriteDone(c, n, failed).deaf == (c.deaf || failed)
  {
  }

  // ------------------------------------------------------------------------ whole runs

  /** An event, and what the reservations made by its handler get. */
  datatype Completion = Completion(event: Event, grants: (nat, nat))

  /** An event that cannot happen in the state is skipped, so that every sequence is a run. */
  function Next(e: Env, s: Session, x: Completion, cap: nat): Session {
    if Happens(s, x, cap) then Handle(e, s, x.event, x.grants, cap) else s
  }

  predicate Happens(s: Session, x: Completion, cap: nat) {
    && Granted(x.grants.0, READ_SIZE, cap) && Granted(x.grants.1, READ_SIZE, cap)
    && Wf(s.conf) && Enabled(s, x.event, cap)
  }

  function After(e: Env, s: Session, run: seq<Completion>, cap: nat): Session
    decreases |run|
  {
    if run == [] then s else After(e, Next(e, s, run[0], cap), run[1..], cap)
  }

  lemma {:induction false} RunsKeep(e: Env, s: Session, run: seq<Completion>, cap: nat)
    requires Inv(e, s, cap) && cap > 0
    ensures Inv(e, After(e, s, run, cap), cap)
    decreases |run|
  {
    if run != [] {
      if Next(e, s, run[0], cap) != s {
        HandleKeeps(e, s, run[0].event, run[0].grants, cap);
      }
      RunsKeep(e, Next(e, s, run[0], cap), run[1..], cap);
    }
  }

  lemma FreshSane(e: Env, cap: nat)
    requires cap > 0
    ensures Inv(e, FRESH, cap)
  {
    assert Feed(START, []) == START;
    RunUnfold(e, START);
  }

  // ------------------------------------------------- what the environment did in a run

  /** The two directions: from the client to the destination, and back. */
  datatype Direction = Up | Down

  function Side(s: Session, d: Direction): Channel {
    if d == Up then s.up else s.down
  }

  /** The bytes an event brings from the source of a direction, and those it takes to its sink. */
  function Brought(ev: Event, d: Direction): seq<Byte> {
    if d == Up && ev.ClientRead? then ev.bytes else if d == Down && ev.DestRead? then ev.bytes else []
  }

  function Took(ev: Event, d: Direction): nat {
    if d == Up && ev.DestWritten? then ev.n else if d == Down && ev.ClientWritten? then ev.n else 0
  }

  /** The event ends the source of a direction, or breaks its sink. */
  predicate Ends(ev: Event, d: Direction) {
    if d == Up then ev.ClientRead? && ev.failed else ev.DestRead? && ev.failed
  }

  predicate Breaks(ev: Event, d: Direction) {
    if d == Up then ev.DestWritten? && ev.failed else ev.ClientWritten? && ev.failed
  }

  predicate Writes(ev: Event, d: Direction) {
    if d == Up then ev.DestWritten? else ev.ClientWritten?
  }

  /** It is a write that failed, or one after which nothing of an ended source is left. */
  predicate GivesUp(c: Channel, ev: Event, d: Direction) {
    && Writes(ev, d)
    && (Breaks(ev, d) || (!c.readable && c.data == []))
  }

  /** The same for the events that happen in a run, in their order. */
  function AllBrought(e: Env, s: Session, run: seq<Completion>, cap: nat, d: Direction): seq<Byte>
    decreases |run|
  {
    if run == [] then []
    else (if Happens(s, run[0], cap) then Brought(run[0].event, d) else [])
         + AllBrought(e, Next(e, s, run[0], cap), run[1..], cap, d)
  }

  function AllTook(e: Env, s: Session, run: seq<Completion>, cap: nat, d: Direction): nat
    decreases |run|
  {
    if run == [] then 0
    else (if Happens(s, run[0], cap) then Took(run[0].event, d) else 0)
         + AllTook(e, Next(e, s, run[0], cap), run[1..], cap, d)
  }

  predicate EverEnds(e: Env, s: Session, run: seq<Completion>, cap: nat, d: Direction)
    decreases |run|
  {
    run != [] && ((Happens(s, run[0], cap) && Ends(run[0].event, d))
                  || EverEnds(e, Next(e, s, run[0], cap), run[1..], cap, d))
  }

  predicate EverBreaks(e: Env, s: Session, run: seq<Completion>, cap: nat, d: Direction)
    decreases |run|
  {
    run != [] && ((Happens(s, run[0], cap) && Breaks(run[0].event, d))
                  || EverBreaks(e, Next(e, s, run[0], cap), run[1..], cap, d))
  }

  predicate EverGivesUp(e: Env, s: Session, run: seq<Completion>, cap: nat, d: Direction)
    decreases |run|
  {
    run != [] &&
    var t := Next(e, s, run[0], cap);
    (Happens(s, run[0], cap) && GivesUp(Side(t, d), run[0].event, d)) || EverGivesUp(e, t, run[1..], cap, d)
  }

  /** The bytes handshake reads bring, and whether one of them fails. */
  function Greeted(e: Env, s: Session, run: seq<Completion>, cap: nat): seq<Byte>
    decreases |run|
  {
    if run == [] then []
    else (if Happens(s, run[0], cap) && run[0].event.HandshakeRead? then run[0].event.bytes else [])
         + Greeted(e, Next(e, s, run[0], cap), run[1..], cap)
  }

  predicate GreetingBreaks(e: Env, s: Session, run: seq<Completion>, cap: nat)
    decreases |run|
  {
    run != [] && ((Happens(s, run[0], cap) && run[0].event.HandshakeRead? && run[0].event.failed)
                  || GreetingBreaks(e, Next(e, s, run[0], cap), run[1..], cap))
  }

  /** Before the connection is there the channels are untouched. */
  predicate Untouched(s: Session) {
    !s.forwarding ==> s.up == Open([]) && s.down == Open([])
  }

  /** What one event does to the history of a direction. */
  ghost predicate Recorded(c: Channel, c': Channel, ev: Event, d: Direction) {
    && c'.taken == c.taken + Brought(ev, d)
    && |c'.sent| == |c.sent| + Took(ev, d)
    && (c'.readable <==> c.readable && !Ends(ev, d))
    && (c'.deaf <==> c.deaf || Breaks(ev, d))
    && (c'.writable <==> c.writable && !GivesUp(c', ev, d))
  }

  lemma PumpRecords(c: Channel, total: nat)
    ensures var p := Pump(c, total);
            && p.taken == c.taken && p.sent == c.sent && p.data == c.data && p.first == c.first
            && p.readable == c.readable && p.writable == c.writable && p.deaf == c.deaf
  {
  }

  lemma PumpRecorded(c: Channel, m: Channel, total: nat, ev: Event, d: Direction)
    requires Recorded(c, m, ev, d)
    ensures Recorded(c, Pump(m, total), ev, d)
  {
    hide Pump;
    PumpRecords(m, total);
  }

  lemma ReadRecorded(c: Channel, bytes: seq<Byte>, failed: bool, ev: Event, d: Direction)
    requires ev == if d == Up then ClientRead(bytes, failed) else DestRead(bytes, failed)
    ensures Recorded(c, ReadDone(c, bytes, failed), ev, d)
  {
  }

  lemma WriteRecorded(c: Channel, n: nat, failed: bool, ev: Event, d: Direction)
    requires n <= |c.data| && ev == if d == Up then DestWritten(n, failed) else ClientWritten(n, failed)
    ensures Recorded(c, WriteDone(c, n, failed), ev, d)
  {
  }

  lemma NothingRecorded(c: Channel, ev: Event, d: Direction)
    requires Brought(ev, d) == [] && !Ends(ev, d) && !Writes(ev, d)
    ensures Recorded(c, c, ev, d)
  {
    assert c.taken + [] == c.taken;
  }

  lemma ForwardRecorded(e: Env, s: Session, up: Channel, down: Channel, grants: (nat, nat), ev: Event, d: Direction)
    requires Recorded(Side(s, d), if d == Up then up else down, ev, d) && s.forwarding
    ensures var t := Forward(s, up, down, grants);
            Recorded(Side(s, d), Side(t, d), ev, d) && t.forwarding && t.input == s.input
  {
    hide Recorded;
    hide Pump;
    PumpRecorded(Side(s, d), if d == Up then up else down, if d == Up then grants.0 else grants.1, ev, d);
  }

  lemma OpenRecorded(first: seq<Byte>, total: nat, ev: Event, d: Direction)
    requires Brought(ev, d) == [] && !Ends(ev, d) && !Writes(ev, d)
    ensures Recorded(Open([]), Pump(Open(first), total), ev, d)
  {
  }

  lemma StepRecords(e: Env, s: Session, ev: Event, grants: (nat, nat), cap: nat, d: Direction)
    requires Wf(s.conf) && Enabled(s, ev, cap) && Untouched(s)
    ensures var t := Handle(e, s, ev, grants, cap);
            && Recorded(Side(s, d), Side(t, d), ev, d) && Untouched(t)
            && t.input == s.input + (if ev.HandshakeRead? then ev.bytes else [])
  {
    hide Pump;
    hide ReadDone;
    hide WriteDone;
    hide Recorded;
    hide ConnectionSucceed;
    hide Forward;
    assert s.input + [] == s.input;
    match ev
    case HandshakeRead(_, _) => NothingRecorded(Side(s, d), ev, d);
    case Connected(failed) =>
      NothingRecorded(Side(s, d), ev, d);
      if !failed {
        ConnectRecords(e, s, grants, cap, d);
      }
    case ClientRead(bytes, failed) =>
      if d == Up { ReadRecorded(s.up, bytes, failed, ev, d); } else { NothingRecorded(s.down, ev, d); }
      ForwardRecorded(e, s, ReadDone(s.up, bytes, failed), s.down, grants, ev, d);
    case DestWritten(n, failed) =>
      if d == Up { WriteRecorded(s.up, n, failed, ev, d); } else { NothingRecorded(s.down, ev, d); }
      ForwardRecorded(e, s, WriteDone(s.up, n, failed), s.down, grants, ev, d);
    case DestRead(bytes, failed) =>
      if d == Down { ReadRecorded(s.down, bytes, failed, ev, d); } else { NothingRecorded(s.up, ev, d); }
      ForwardRecorded(e, s, s.up, ReadDone(s.down, bytes, failed), grants, ev, d);
    case ClientWritten(n, failed) =>
      if d == Down { WriteRecorded(s.down, n, failed, ev, d); } else { NothingRecorded(s.up, ev, d); }
      ForwardRecorded(e, s, s.up, WriteDone(s.down, n, failed), grants, ev, d);
  }

  lemma ConnectRecords(e: Env, s: Session, grants: (nat, nat), cap: nat, d: Direction)
    requires Wf(s.conf) && Enabled(s, Connected(false), cap) && Untouched(s)
    ensures var t := Handle(e, s, Connected(false), grants, cap);
            Recorded(Side(s, d), Side(t, d), Connected(false), d) && Untouched(t) && t.input == s.input
  {
    hide Pump;
    hide Recorded;
    hide ConnectionSucceed;
    var (c, ok) := ConnectionSucceed(e, s.conf);
    NothingRecorded(Side(s, d), Connected(false), d);
    OpenRecorded(if d == Up then c.rest else [], if d == Up then grants.0 else grants.1, Connected(false), d);
  }

  /** The channels' histories are what the environment did. */
  lemma {:induction false} RunRecords(e: Env, s: Session, run: seq<Completion>, cap: nat, d: Direction)
    requires Untouched(s)
    ensures var t := After(e, s, run, cap); var c, c' := Side(s, d), Side(t, d);
            && t.input == s.input + Greeted(e, s, run, cap)
            && c'.taken == c.taken + AllBrought(e, s, run, cap, d)
            && |c'.sent| == |c.sent| + AllTook(e, s, run, cap, d)
            && (c'.readable <==> c.readable && !EverEnds(e, s, run, cap, d))
            && (c'.writable <==> c.writable && !EverGivesUp(e, s, run, cap, d))
            && (c'.deaf <==> c.deaf || EverBreaks(e, s, run, cap, d))
    decreases |run|
  {
    hide Handle;
    hide Happens;
    hide Enabled;
    hide Untouched;
    hide Brought;
    hide Took;
    hide Ends;
    hide Breaks;
    hide GivesUp;
    if run == [] {
      assert s.input + [] == s.input && Side(s, d).taken + [] == Side(s, d).taken;
    } else {
      var x, t := run[0], Next(e, s, run[0], cap);
      HappensRecords(e, s, x, cap, d);
      RunRecords(e, t, run[1..], cap, d);
    }
  }

  lemma HappensRecords(e: Env, s: Session, x: Completion, cap: nat, d: Direction)
    requires Untouched(s)
    ensures var t := Next(e, s, x, cap);
            && Untouched(t)
            && if Happens(s, x, cap) then
                 && Recorded(Side(s, d), Side(t, d), x.event, d)
                 && t.input == s.input + (if x.event.HandshakeRead? then x.event.bytes else [])
               else t == s
  {
    hide Handle;
    hide Enabled;
    if Happens(s, x, cap) {
      StepRecords(e, s, x.event, x.grants, cap, d);
    }
  }

  /** All bytes for a direction's sink: in the client's direction those behind its handshake, and what was read. */
  function AllBytes(e: Env, run: seq<Completion>, cap: nat, d: Direction): seq<Byte> {
    (if d == Up then Run(e, Feed(START, Greeted(e, FRESH, run, cap))).rest else []) + AllBrought(e, FRESH, run, cap, d)
  }

  /**
   In every run and in each direction: of the bytes the environment delivered, the client's
   bytes behind its handshake first, exactly those it took have been written, in order, and
   the others are buffered; the source counts as ended exactly if a read has failed; the sink
   is given up exactly if a write has failed, and then the source is told, or one completed
   that left nothing of an ended source; the sink is told exactly when the source has ended and
   all is written.
   */
  lemma EndToEnd(e: Env, run: seq<Completion>, cap: nat, d: Direction)
    requires cap > 0
    ensures var s := After(e, FRESH, run, cap); var c, n := Side(s, d), AllTook(e, FRESH, run, cap, d);
            s.forwarding ==>
              && n <= |AllBytes(e, run, cap, d)|
              && c.sent == AllBytes(e, run, cap, d)[..n] && c.data == AllBytes(e, run, cap, d)[n..]
              && (c.readable <==> !EverEnds(e, FRESH, run, cap, d))
              && (c.deaf <==> EverBreaks(e, FRESH, run, cap, d))
              && (c.writable <==> !EverGivesUp(e, FRESH, run, cap, d))
              && (c.deaf ==> !c.writable) && (!c.writable ==> c.shut || c.deaf)
              && (c.shut <==> EverEnds(e, FRESH, run, cap, d) && n == |AllBytes(e, run, cap, d)|)
  {
    hide Handle;
    hide Inv;
    hide Open;
    FreshSane(e, cap);
    FreshOpen(d);
    RunsKeep(e, FRESH, run, cap);
    RunRecords(e, FRESH, run, cap, d);
    var s := After(e, FRESH, run, cap);
    if s.forwarding {
      SideKept(e, s, cap, d);
      assert s.input == Greeted(e, FRESH, run, cap) && Side(s, d).taken == AllBrought(e, FRESH, run, cap, d);
      Split(Side(s, d).sent, Side(s, d).data, AllBytes(e, run, cap, d), AllTook(e, FRESH, run, cap, d));
    }
  }

  lemma FreshOpen(d: Direction)
    ensures Untouched(FRESH) && FRESH.input == []
    ensures var c := Side(FRESH, d); c.taken == [] && c.sent == [] && c.readable && c.writable && !c.deaf
  {
  }

  lemma SideKept(e: Env, s: Session, cap: nat, d: Direction)
    requires Inv(e, s, cap) && s.forwarding
    ensures var c := Side(s, d);
            && c.sent + c.data == (if d == Up then Run(e, Feed(START, s.input)).rest else []) + c.taken
            && (c.shut <==> !c.readable && c.data == [])
            && (c.deaf ==> !c.writable) && (!c.writable ==> c.shut || c.deaf)
  {
  }

  lemma Split(a: seq<Byte>, b: seq<Byte>, all: seq<Byte>, n: nat)
    requires a + b == all && |a| == n
    ensures n <= |all| && a == all[..n] && b == all[n..] && (b == [] <==> n == |all|)
  {
  }

  // --------------------------------------------------------------------- the handshake

  /** The parser is where one run over the input would be, and a read is outstanding exactly if it lacks bytes. */
  predicate Parsed(e: Env, s: Session) {
    !s.forwarding ==>
      && Same(s.conf, Run(e, Feed(START, s.input)))
      && (s.handshaking <==> |s.conf.rest| < s.conf.required)
  }

  lemma StepParses(e: Env, s: Session, ev: Event, grants: (nat, nat), cap: nat)
    requires Inv(e, s, cap) && Enabled(s, ev, cap) && Parsed(e, s) && !(ev.HandshakeRead? && ev.failed)
    ensures Parsed(e, Handle(e, s, ev, grants, cap))
  {
    hide Step;
    hide Suffix;
    hide Pump;
    hide ReadDone;
    hide WriteDone;
    if ev.HandshakeRead? {
      var c := Feed(s.conf, ev.bytes);
      RunLaw(e, c);
      RunFeed(e, Feed(START, s.input), ev.bytes);
      assert Feed(Feed(START, s.input), ev.bytes) == Feed(START, s.input + ev.bytes);
      RunSame(e, c, Feed(Run(e, Feed(START, s.input)), ev.bytes));
    }
  }

  lemma {:induction false} RunParses(e: Env, s: Session, run: seq<Completion>, cap: nat)
    requires Inv(e, s, cap) && Parsed(e, s) && cap > 0 && !GreetingBreaks(e, s, run, cap)
    ensures Parsed(e, After(e, s, run, cap))
    decreases |run|
  {
    hide Handle;
    hide Enabled;
    hide Inv;
    if run != [] {
      var x := run[0];
      if Happens(s, x, cap) {
        HandleKeeps(e, s, x.event, x.grants, cap);
        StepParses(e, s, x.event, x.grants, cap);
      }
      RunParses(e, Next(e, s, x, cap), run[1..], cap);
    }
  }

  /**
   The handshake does not wedge either: in every run without a failed handshake read, the
   parser has taken in exactly the bytes the client sent, and unless it is forwarding, reading
   on, or through with its part, waiting for a connection or failed, it does not rest.
   */
  lemma HandshakeGoesOn(e: Env, run: seq<Completion>, cap: nat)
    requires cap > 0 && !GreetingBreaks(e, FRESH, run, cap)
    ensures var s := After(e, FRESH, run, cap); var w := Run(e, Feed(START, Greeted(e, FRESH, run, cap)));
            !s.forwarding ==> && Same(s.conf, w) && (w.state != Fail ==> (s.handshaking <==> |w.rest| < w.required))
                              && (!s.handshaking ==> Rank(s.conf.state) == 0)
  {
    hide Handle;
    hide Step;
    hide Inv;
    FreshSane(e, cap);
    FreshOpen(Up);
    FreshParsed(e);
    RunRecords(e, FRESH, run, cap, Up);
    RunParses(e, FRESH, run, cap);
    var s := After(e, FRESH, run, cap);
    assert Greeted(e, FRESH, run, cap) == s.input;
    RunEnds(e, Feed(START, s.input));
  }

  lemma FreshParsed(e: Env)
    ensures Parsed(e, FRESH)
  {
    assert Feed(START, []) == START;
    RunUnfold(e, START);
  }

  /** A run comes to an end in a final state, or where bytes are lacking. */
  lemma {:induction false} RunEnds(e: Env, c: Conf)
    requires Wf(c)
    ensures Rank(Run(e, c).state) == 0 || |Run(e, c).rest| < Run(e, c).required
    decreases Rank(c.state)
  {
    hide Step;
    if c.state != Success {
      RunUnfold(e, c);
      if Step(e, c).1 {
        RunEnds(e, Step(e, c).0);
      } else if c.required <= |c.rest| {
        StepStuck(e, c);
      } else {
        StepIdle(e, c);
      }
    }
  }

  /** In every run, the buffered data of a direction stays below its bound. */
  lemma BoundedBuffering(e: Env, run: seq<Completion>, cap: nat)
    requires cap > 0
    ensures var s := After(e, FRESH, run, cap);
            s.forwarding ==> |s.up.data| < MAX_BUFFER + READ_SIZE + cap && |s.down.data| < MAX_BUFFER + READ_SIZE + cap
  {
    FreshSane(e, cap);
    RunsKeep(e, FRESH, run, cap);
  }

  /** A direction comes to rest only if its sink is gone or its source is finished and all is delivered. */
  predicate AtRest(c: Channel) {
    !c.writable || (!c.readable && c.data == [] && c.sent == c.first + c.taken)
  }

  lemma NoWedge(e: Env, run: seq<Completion>, cap: nat)
    requires cap > 0
    ensures var s := After(e, FRESH, run, cap);
            s.forwarding ==> && (!s.up.reading && !s.up.writing ==> AtRest(s.up))
                             && (!s.down.reading && !s.down.writing ==> AtRest(s.down))
  {
    FreshSane(e, cap);
    RunsKeep(e, FRESH, run, cap);
    var s := After(e, FRESH, run, cap);
    assert s.up.data == [] ==> s.up.sent + s.up.data == s.up.sent;
    assert s.down.data == [] ==> s.down.sent + s.down.data == s.down.sent;
  }

  /** A channel whose sink is shut down never changes again. */
  lemma {:induction false} ShutForever(e: Env, s: Session, run: seq<Completion>, cap: nat)
    requires Inv(e, s, cap) && s.forwarding && cap > 0
    ensures After(e, s, run, cap).forwarding
    ensures s.up.shut ==> After(e, s, run, cap).up == s.up
    ensures s.down.shut ==> After(e, s, run, cap).down == s.down
    decreases |run|
  {
    if run != [] {
      RunsKeep(e, s, [run[0]], cap);
      assert After(e, s, [run[0]], cap) == Next(e, s, run[0], cap);
      ShutForever(e, Next(e, s, run[0], cap), run[1..], cap);
    }
  }

  /** The source has ended and every byte it sent has been written. */
  predicate Delivered(c: Channel) {
    !c.readable && c.sent == c.first + c.taken
  }

  /**
   Half-close never truncates: when a sink has been shut down, its source has ended, every
   byte has been written, and nothing more is written however the run goes on.
   */
  lemma HalfCloseNeverTruncates(e: Env, run: seq<Completion>, more: seq<Completion>, cap: nat)
    requires cap > 0
    ensures var s := After(e, FRESH, run, cap); var t := After(e, s, more, cap);
            && (s.forwarding && s.up.shut ==> Delivered(s.up) && t.up == s.up)
            && (s.forwarding && s.down.shut ==> Delivered(s.down) && t.down == s.down)
  {
    FreshSane(e, cap);
    RunsKeep(e, FRESH, run, cap);
    var s := After(e, FRESH, run, cap);
    if s.forwarding {
      ShutForever(e, s, more, cap);
      assert s.up.data == [] ==> s.up.sent + s.up.data == s.up.sent;
      assert s.down.data == [] ==> s.down.sent + s.down.data == s.down.sent;
    }
  }
}
