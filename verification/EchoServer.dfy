/** The event loop of inf17-1/main.c: an echo server that answers every byte in upper case.

    Connection `i` owns slot `i` of the append-only table `fds` and entry `i` of `entities`. The kernel is
    modelled by what it knows of each connection: the bytes that its peer sends in all, how many have been
    read, what has been written back, and for which direction the descriptor is armed. */
module EchoServer {
  import opened Bytes

  /** MAX_FD + 2. */
  const SLOTS: nat := 1026

  datatype Direction = ForRead | ForWrite

  /** `mark`, the `label` of the source, is 0 for nothing pending, positive for a pending byte and -1 for a
      finished stream. */
  datatype Entity = Entity(byte: Byte, mark: int)

  datatype Peer = Peer(fd: int, input: seq<Byte>, consumed: nat, output: seq<Byte>, armed: Direction, isOpen: bool)

  /** One reported event, and what the system calls made for it will answer. */
  datatype Event = Event(index: nat, readable: bool, writable: bool, hup: bool,
                         accepted: int, arriving: seq<Byte>, readFails: bool, writeFails: bool)

  datatype State = State(stopFd: int, socketFd: int, fds: seq<int>, entities: seq<Entity>, fdsIter: nat,
                         terminate: bool, peers: seq<Peer>)

  function ToUpper(b: Byte): Byte { if 97 <= b <= 122 then b - 32 else b }

  function Upper(bytes: seq<Byte>): (r: seq<Byte>)
    ensures |r| == |bytes|
    ensures forall i :: 0 <= i < |r| ==> r[i] == ToUpper(bytes[i])
  {
    seq(|bytes|, i requires 0 <= i < |bytes| => ToUpper(bytes[i]))
  }

  // ---------------------------------------------------------------- one connection

  /** The read branch: at most one byte, or the end of the stream; then arm for writing. */
  function Receive(c: Entity, p: Peer, e: Event): (Entity, Peer) {
    if e.readFails then (c, p.(armed := ForWrite))
    else if p.consumed < |p.input| then
      (Entity(ToUpper(p.input[p.consumed]), 1), p.(consumed := p.consumed + 1, armed := ForWrite))
    else
      (c.(mark := if c.mark == 0 then -1 else c.mark), p.(armed := ForWrite))
  }

  /** The write branch: the pending byte, or the end of the connection. */
  function Answer(c: Entity, p: Peer, e: Event): (Entity, Peer) {
    if 0 < c.mark then
      (c.(mark := 0), p.(output := if e.writeFails then p.output else p.output + [c.byte], armed := ForRead))
    else if c.mark == -1 then (c, p.(isOpen := false))
    else (c, p)
  }

  function HandleConn(c: Entity, p: Peer, e: Event): (Entity, Peer) {
    if e.readable || e.hup then Receive(c, p, e)
    else if e.writable then Answer(c, p, e)
    else (c, p)
  }

  /** epoll reports only what a connection is armed for, and hang-ups at any time. */
  predicate ReportedConn(p: Peer, e: Event) {
    p.isOpen && (e.readable ==> p.armed == ForRead) && (e.writable ==> p.armed == ForWrite)
  }

  function Pending(c: Entity): nat { if 0 < c.mark then 1 else 0 }

  ghost predicate ConnInv(c: Entity, p: Peer) {
    && p.consumed <= |p.input|
    && -1 <= c.mark <= 1
    && (c.mark != 0 ==> p.armed == ForWrite)
    && (c.mark == -1 ==> p.consumed == |p.input|)
    && (0 <= p.fd && !p.isOpen ==> c.mark == -1)
    && |p.output| + Pending(c) <= p.consumed
  }

  /** What has been answered, with the byte still to be answered, is what has been read in upper case. */
  ghost predicate Echo(c: Entity, p: Peer)
    requires p.consumed <= |p.input|
  {
    p.output + (if 0 < c.mark then [c.byte] else []) == Upper(p.input[..p.consumed])
  }

  /** The bytes read that are neither answered nor pending. */
  function Lost(c: Entity, p: Peer): int { p.consumed - |p.output| - Pending(c) }

  /** A hang-up makes the loop read over the pending byte, or the write of the pending byte fails. */
  predicate Lossy(c: Entity, p: Peer, e: Event) {
    && 0 < c.mark
    && if e.readable || e.hup then !e.readFails && p.consumed < |p.input| else e.writable && e.writeFails
  }

  lemma ConnStep(c: Entity, p: Peer, e: Event)
    requires ConnInv(c, p) && ReportedConn(p, e)
    ensures var (c', p') := HandleConn(c, p, e);
            && ConnInv(c', p') && p'.input == p.input && p'.fd == p.fd
            && Lost(c', p') == Lost(c, p) + if Lossy(c, p, e) then 1 else 0
  {
  }

  lemma UpperSnoc(input: seq<Byte>, n: nat)
    requires n < |input|
    ensures Upper(input[..n + 1]) == Upper(input[..n]) + [ToUpper(input[n])]
  {
    assert input[..n + 1] == input[..n] + [input[n]];
  }

  /** A step keeps the echo exactly when it loses no byte. */
  lemma EchoStepIff(c: Entity, p: Peer, e: Event)
    requires ConnInv(c, p) && ReportedConn(p, e) && Echo(c, p)
    ensures var (c', p') := HandleConn(c, p, e);
            p'.consumed <= |p'.input| && (Echo(c', p') <==> !Lossy(c, p, e))
  {
    ConnStep(c, p, e);
    if p.consumed < |p.input| {
      UpperSnoc(p.input, p.consumed);
    }
    var (c', p') := HandleConn(c, p, e);
    if Echo(c', p') {
      assert Lost(c', p') == 0;
    }
    if Echo(c, p) {
      assert Lost(c, p) == 0;
    }
  }

  // ---------------------------------------------------------------- the table

  /** A slot holds the descriptor accepted into it while that is open, and -1 otherwise. */
  ghost predicate SlotOk(s: State, i: nat)
    requires i < |s.fds| && i < |s.entities| && i < |s.peers|
  {
    var p := s.peers[i];
    && s.fds[i] == (if p.isOpen then p.fd else -1)
    && (p.isOpen ==> 0 <= p.fd != s.stopFd && p.fd != s.socketFd)
    && ConnInv(s.entities[i], p)
  }

  ghost predicate SlotInv(s: State) {
    && |s.fds| == SLOTS && |s.entities| == SLOTS
    && 1 <= s.fdsIter < SLOTS && |s.peers| == s.fdsIter + 1
    && 0 <= s.stopFd && 0 <= s.socketFd && s.stopFd != s.socketFd
    && s.fds[0] == s.stopFd && s.fds[1] == s.socketFd && s.peers[0] == NO_PEER && s.peers[1] == NO_PEER
    && (forall i :: 2 <= i <= s.fdsIter ==> SlotOk(s, i))
    && (forall i, j :: 2 <= i < j <= s.fdsIter && s.peers[i].isOpen && s.peers[j].isOpen
          ==> s.peers[i].fd != s.peers[j].fd)
    && (forall i :: s.fdsIter < i < SLOTS ==> s.entities[i].mark == 0)
  }

  /** What `epoll_wait` may report in state `s`. */
  predicate Reported(s: State, e: Event) {
    && e.index <= s.fdsIter < |s.peers|
    && (e.index < 2 ==> !e.writable)
    && (2 <= e.index ==> ReportedConn(s.peers[e.index], e))
  }

  /** The stop pipe and the listening socket have no peer of their own. */
  const NO_PEER := Peer(-1, [], 0, [], ForRead, false)

  predicate Accepts(e: Event) { e.index == 1 && (e.readable || e.hup) }

  /** What `accept` may answer when the event is handled: an error or a descriptor that is not open, with
      a slot left to put it in. */
  ghost predicate AnswerOk(s: State, e: Event)
    requires |s.peers| == s.fdsIter + 1
  {
    Accepts(e) ==>
      && s.fdsIter + 1 < SLOTS
      && (e.accepted == -1
          || (&& 0 <= e.accepted != s.stopFd && e.accepted != s.socketFd
              && forall i :: 2 <= i <= s.fdsIter && s.peers[i].isOpen ==> s.peers[i].fd != e.accepted))
  }

  function NewPeer(e: Event): Peer {
    Peer(e.accepted, e.arriving, 0, [], ForRead, e.accepted != -1)
  }

  /** Events reach the branch they are meant for: the descriptor comparisons tell the indices apart. */
  lemma Dispatch(s: State, e: Event)
    requires SlotInv(s) && Reported(s, e)
    ensures s.fds[e.index] == s.stopFd <==> e.index == 0
    ensures s.fds[e.index] == s.socketFd <==> e.index == 1
    ensures 2 <= e.index ==> s.fds[e.index] == s.peers[e.index].fd && ConnInv(s.entities[e.index], s.peers[e.index])
  {
    if 2 <= e.index {
      assert SlotOk(s, e.index);
    }
  }

  ghost predicate Ready(s: State, e: Event) {
    SlotInv(s) && Reported(s, e) && AnswerOk(s, e)
  }

  /** The body of the loop over the events, dispatching on the descriptor as the code does. */
  ghost function Handle(s: State, e: Event): State
    requires Ready(s, e)
  {
    Dispatch(s, e);
    var i := e.index;
    if s.fds[i] == s.stopFd then s.(terminate := true)
    else if (e.readable || e.hup) && s.fds[i] == s.socketFd then
      s.(fdsIter := s.fdsIter + 1, fds := s.fds[s.fdsIter + 1 := e.accepted], peers := s.peers + [NewPeer(e)])
    else
      var (c, p) := HandleConn(s.entities[i], s.peers[i], e);
      s.(entities := s.entities[i := c], peers := s.peers[i := p],
         fds := if s.peers[i].isOpen && !p.isOpen then s.fds[i := -1] else s.fds)
  }

  lemma StepSlotInv(s: State, e: Event)
    requires Ready(s, e)
    ensures SlotInv(Handle(s, e))
  {
    Dispatch(s, e);
    var s' := Handle(s, e);
    if 2 <= e.index {
      ConnStep(s.entities[e.index], s.peers[e.index], e);
    }
    forall i | 2 <= i <= s'.fdsIter ensures SlotOk(s', i) {
      if i <= s.fdsIter {
        assert SlotOk(s, i);
      }
    }
  }

  /** Handling one event leaves what was reported for other indices true, so the rest of a batch is never
      stale. */
  lemma OthersStayReported(s: State, e: Event, f: Event)
    requires Ready(s, e) && Reported(s, f) && f.index != e.index
    ensures Reported(Handle(s, e), f)
  {
    Dispatch(s, e);
  }

  // ---------------------------------------------------------------- runs

  ghost predicate ValidEvents(s: State, events: seq<Event>)
    decreases |events|
  {
    && SlotInv(s)
    && (events == [] || s.terminate || (Ready(s, events[0]) && ValidEvents(Handle(s, events[0]), events[1..])))
  }

  /** The loop over the events, left at the first event of the stop pipe. */
  ghost function HandleAll(s: State, events: seq<Event>): State
    requires ValidEvents(s, events)
    decreases |events|
  {
    if events == [] || s.terminate then s else HandleAll(Handle(s, events[0]), events[1..])
  }

  /** One answer of `epoll_wait`: distinct indices, all reported for the state it was called in. What
      `accept` answers is judged when it is called. */
  ghost predicate Batch(s: State, events: seq<Event>) {
    && (forall i, j :: 0 <= i < j < |events| ==> events[i].index != events[j].index)
    && (forall i :: 0 <= i < |events| ==> Reported(s, events[i]))
  }

  ghost predicate AnswersOk(s: State, events: seq<Event>)
    decreases |events|
  {
    events == [] || s.terminate
    || (SlotInv(s) && Reported(s, events[0]) ==> AnswerOk(s, events[0]) && AnswersOk(Handle(s, events[0]), events[1..]))
  }

  /** A whole batch can be handled although only its first event is fresh. */
  lemma {:induction false} BatchIsValid(s: State, events: seq<Event>)
    requires SlotInv(s) && Batch(s, events) && AnswersOk(s, events)
    ensures ValidEvents(s, events)
    decreases |events|
  {
    if events != [] && !s.terminate {
      var s' := Handle(s, events[0]);
      StepSlotInv(s, events[0]);
      forall i | 0 <= i < |events[1..]| ensures Reported(s', events[1..][i]) {
        assert events[1..][i] == events[i + 1];
        OthersStayReported(s, events[0], events[i + 1]);
      }
      BatchIsValid(s', events[1..]);
    }
  }

  ghost predicate ValidRun(s: State, batches: seq<seq<Event>>)
    decreases |batches|
  {
    && SlotInv(s)
    && (batches == [] || s.terminate
        || (&& Batch(s, batches[0]) && AnswersOk(s, batches[0])
            && (BatchIsValid(s, batches[0]); ValidRun(HandleAll(s, batches[0]), batches[1..]))))
  }

  /** The outer loop: batch after batch until the stop pipe is readable. */
  ghost function Run(s: State, batches: seq<seq<Event>>): State
    requires ValidRun(s, batches)
    decreases |batches|
  {
    if batches == [] || s.terminate then s
    else
      BatchIsValid(s, batches[0]);
      Run(HandleAll(s, batches[0]), batches[1..])
  }

  function Flat(batches: seq<seq<Event>>): seq<Event> {
    if batches == [] then [] else batches[0] + Flat(batches[1..])
  }

  lemma {:induction false} HandleAppended(s: State, events: seq<Event>, more: seq<Event>)
    requires ValidEvents(s, events) && ValidEvents(HandleAll(s, events), more)
    ensures ValidEvents(s, events + more)
    ensures HandleAll(s, events + more) == HandleAll(HandleAll(s, events), more)
    decreases |events|
  {
    if events == [] {
      assert events + more == more;
    } else if !s.terminate {
      assert (events + more)[1..] == events[1..] + more;
      HandleAppended(Handle(s, events[0]), events[1..], more);
    }
  }

  /** A run in batches is the run of its events one after the other. */
  lemma {:induction false} RunIsEvents(s: State, batches: seq<seq<Event>>)
    requires ValidRun(s, batches)
    ensures ValidEvents(s, Flat(batches)) && Run(s, batches) == HandleAll(s, Flat(batches))
    decreases |batches|
  {
    if batches != [] && !s.terminate {
      BatchIsValid(s, batches[0]);
      RunIsEvents(HandleAll(s, batches[0]), batches[1..]);
      HandleAppended(s, batches[0], Flat(batches[1..]));
    }
  }

  lemma {:induction false} EventsSlotInv(s: State, events: seq<Event>)
    requires ValidEvents(s, events)
    ensures var s' := HandleAll(s, events);
            && SlotInv(s') && s'.stopFd == s.stopFd && s'.socketFd == s.socketFd && s.fdsIter <= s'.fdsIter
    decreases |events|
  {
    if events != [] && !s.terminate {
      EventsSlotInv(Handle(s, events[0]), events[1..]);
    }
  }

  /** What the events of slot `i` alone make of its connection, up to the stop. */
  function ConnRun(c: Entity, p: Peer, i: nat, events: seq<Event>): (Entity, Peer)
    decreases |events|
  {
    if events == [] || events[0].index == 0 then (c, p)
    else if events[0].index == i then
      var (c', p') := HandleConn(c, p, events[0]);
      ConnRun(c', p', i, events[1..])
    else ConnRun(c, p, i, events[1..])
  }

  /** Connections do not disturb one another: each ends as its own events alone make it end. */
  lemma {:induction false} Isolation(s: State, events: seq<Event>, i: nat)
    requires ValidEvents(s, events) && !s.terminate && 2 <= i <= s.fdsIter
    ensures var s' := HandleAll(s, events);
            i < |s'.entities| && i < |s'.peers|
            && (s'.entities[i], s'.peers[i]) == ConnRun(s.entities[i], s.peers[i], i, events)
    decreases |events|
  {
    if events != [] {
      var e := events[0];
      Dispatch(s, e);
      var s1 := Handle(s, e);
      if e.index != 0 {
        Isolation(s1, events[1..], i);
      }
    }
  }

  // ---------------------------------------------------------------- the echo over whole runs

  /** How many events of connection `i` lose a byte. */
  ghost function Losses(s: State, events: seq<Event>, i: nat): nat
    requires ValidEvents(s, events)
    decreases |events|
  {
    if events == [] || s.terminate then 0
    else
      var e := events[0];
      (if e.index == i && 2 <= i && Lossy(s.entities[i], s.peers[i], e) then 1 else 0)
      + Losses(Handle(s, e), events[1..], i)
  }

  ghost predicate EchoAt(s: State, i: nat)
    requires SlotInv(s) && 2 <= i <= s.fdsIter
  {
    SlotOk(s, i) && Echo(s.entities[i], s.peers[i])
  }

  ghost function LostAt(s: State, i: nat): int
    requires SlotInv(s) && 2 <= i
  {
    if i <= s.fdsIter then Lost(s.entities[i], s.peers[i]) else 0
  }

  /** Once a byte is lost, the answer never catches up with what was read. */
  lemma {:induction false} LossesAddUp(s: State, events: seq<Event>, i: nat)
    requires ValidEvents(s, events) && 2 <= i
    ensures var s' := HandleAll(s, events);
            SlotInv(s') && (i <= s'.fdsIter ==> LostAt(s', i) == LostAt(s, i) + Losses(s, events, i))
    decreases |events|
  {
    EventsSlotInv(s, events);
    if events != [] && !s.terminate {
      var e := events[0];
      Dispatch(s, e);
      LossesAddUp(Handle(s, e), events[1..], i);
      if e.index == i {
        ConnStep(s.entities[i], s.peers[i], e);
      }
    }
  }

  lemma StepEcho(s: State, e: Event, i: nat)
    requires Ready(s, e) && SlotInv(Handle(s, e)) && 2 <= i <= Handle(s, e).fdsIter
    requires i <= s.fdsIter ==> EchoAt(s, i)
    requires e.index == i ==> !Lossy(s.entities[i], s.peers[i], e)
    ensures EchoAt(Handle(s, e), i)
  {
    Dispatch(s, e);
    assert SlotOk(Handle(s, e), i);
    if e.index == i {
      EchoStepIff(s.entities[i], s.peers[i], e);
    }
  }

  lemma {:induction false} EchoKept(s: State, events: seq<Event>, i: nat)
    requires ValidEvents(s, events) && Losses(s, events, i) == 0 && 2 <= i
    requires i <= s.fdsIter ==> EchoAt(s, i)
    ensures var s' := HandleAll(s, events); SlotInv(s') && (i <= s'.fdsIter ==> EchoAt(s', i))
    decreases |events|
  {
    if events != [] && !s.terminate {
      var s1 := Handle(s, events[0]);
      if i <= s1.fdsIter {
        StepEcho(s, events[0], i);
      }
      EchoKept(s1, events[1..], i);
    }
  }

  /** The state in which the event loop starts. */
  function Init(stopFd: int, socketFd: int): State {
    State(stopFd, socketFd, [stopFd, socketFd] + seq(SLOTS - 2, _ => 0), seq(SLOTS, _ => Entity(0, 0)),
          1, false, [NO_PEER, NO_PEER])
  }

  ghost predicate DescriptorsOk(stopFd: int, socketFd: int) {
    0 <= stopFd && 0 <= socketFd && stopFd != socketFd
  }

  /** In every run each slot is empty or holds the open descriptor accepted into it, no two slots hold the
      same one, and none holds the stop pipe or the listening socket. */
  lemma SlotsInEveryRun(stopFd: int, socketFd: int, batches: seq<seq<Event>>)
    requires DescriptorsOk(stopFd, socketFd) && ValidRun(Init(stopFd, socketFd), batches)
    ensures var s := Run(Init(stopFd, socketFd), batches);
            && SlotInv(s)
            && (forall i :: 2 <= i <= s.fdsIter ==>
                  && s.fds[i] == (if s.peers[i].isOpen then s.peers[i].fd else -1)
                  && s.fds[i] != stopFd && s.fds[i] != socketFd)
            && (forall i, j :: 2 <= i < j <= s.fdsIter && s.fds[i] == s.fds[j] ==> s.fds[i] == -1)
  {
    var s0 := Init(stopFd, socketFd);
    RunIsEvents(s0, batches);
    EventsSlotInv(s0, Flat(batches));
    var s := Run(s0, batches);
    forall i | 2 <= i <= s.fdsIter
      ensures s.fds[i] == (if s.peers[i].isOpen then s.peers[i].fd else -1)
      ensures s.fds[i] != stopFd && s.fds[i] != socketFd {
      assert SlotOk(s, i);
    }
  }

  /** In every run, a connection's output and pending byte are the upper case of what was read from it
      exactly when none of its events lost a byte; a connection is closed only with its whole stream read,
      so a closed connection without losses has been answered in full. */
  lemma EveryRunEchoes(stopFd: int, socketFd: int, batches: seq<seq<Event>>, i: nat)
    requires DescriptorsOk(stopFd, socketFd) && ValidRun(Init(stopFd, socketFd), batches)
    requires 2 <= i <= Run(Init(stopFd, socketFd), batches).fdsIter
    ensures var s0 := Init(stopFd, socketFd);
            var s := Run(s0, batches);
            && SlotInv(s) && ValidEvents(s0, Flat(batches))
            && (EchoAt(s, i) <==> Losses(s0, Flat(batches), i) == 0)
            && (0 <= s.peers[i].fd && !s.peers[i].isOpen ==> s.peers[i].consumed == |s.peers[i].input|)
            && (0 <= s.peers[i].fd && !s.peers[i].isOpen && Losses(s0, Flat(batches), i) == 0
                ==> s.peers[i].output == Upper(s.peers[i].input))
  {
    var s0 := Init(stopFd, socketFd);
    var events := Flat(batches);
    RunIsEvents(s0, batches);
    EventsSlotInv(s0, events);
    var s := HandleAll(s0, events);
    assert SlotOk(s, i);
    LossesAddUp(s0, events, i);
    if Losses(s0, events, i) == 0 {
      EchoKept(s0, events, i);
      assert s.peers[i].input[..|s.peers[i].input|] == s.peers[i].input;
    }
  }

  /** A connection with no hang-up reported for it and no failed write loses nothing. */
  lemma {:induction false} QuietRunsLoseNothing(s: State, events: seq<Event>, i: nat)
    requires ValidEvents(s, events)
    requires forall n :: 0 <= n < |events| && events[n].index == i ==> !events[n].hup && !events[n].writeFails
    ensures Losses(s, events, i) == 0
    decreases |events|
  {
    if events != [] && !s.terminate {
      Dispatch(s, events[0]);
      QuietRunsLoseNothing(Handle(s, events[0]), events[1..], i);
    }
  }

  lemma InitSlotInv(stopFd: int, socketFd: int)
    requires DescriptorsOk(stopFd, socketFd)
    ensures SlotInv(Init(stopFd, socketFd))
  {
  }

  /** A run that loses a byte: a connection is accepted, its first byte is read, and a hang-up is reported
      while the second byte waits to be read. */
  lemma HangupLosesByte() returns (events: seq<Event>)
    ensures ValidEvents(Init(3, 4), events) && Losses(Init(3, 4), events, 2) == 1
  {
    var s0 := Init(3, 4);
    var accept := Event(1, true, false, false, 7, [97, 98], false, false);
    var read := Event(2, true, false, false, 0, [], false, false);
    var hangup := Event(2, false, false, true, 0, [], false, false);
    InitSlotInv(3, 4);
    StepSlotInv(s0, accept);
    var s1 := Handle(s0, accept);
    Dispatch(s0, accept);
    StepSlotInv(s1, read);
    var s2 := Handle(s1, read);
    Dispatch(s1, read);
    StepSlotInv(s2, hangup);
    var s3 := Handle(s2, hangup);
    assert Lossy(s2.entities[2], s2.peers[2], hangup);
    assert ValidEvents(s3, []) && Losses(s3, [], 2) == 0;
    assert [hangup][1..] == [];
    assert ValidEvents(s2, [hangup]) && Losses(s2, [hangup], 2) == 1;
    assert [read, hangup][1..] == [hangup];
    assert ValidEvents(s1, [read, hangup]) && Losses(s1, [read, hangup], 2) == 1;
    events := [accept, read, hangup];
    assert events[1..] == [read, hangup];
  }

  // ---------------------------------------------------------------- progress

  /** An event that reports bytes to read or room to write, and no hang-up, and whose system call works. */
  predicate Quiet(e: Event) {
    !e.hup && !e.readFails && !e.writeFails && (e.readable || e.writable)
  }

  /** An open connection is armed for writing exactly while it has something to do there. */
  ghost predicate Alternates(c: Entity, p: Peer) {
    p.isOpen ==> (p.armed.ForWrite? <==> c.mark != 0)
  }

  /** The quiet events that a connection still needs: a read and a write for every byte, a read that finds
      the end and a write that closes. */
  function Work(c: Entity, p: Peer): int {
    if !p.isOpen then 0
    else 2 * (|p.input| - p.consumed) + if p.armed.ForRead? then 2 else if 0 < c.mark then 3 else 1
  }

  /** Each quiet event takes one off the work left. */
  lemma QuietStep(c: Entity, p: Peer, e: Event)
    requires ConnInv(c, p) && ReportedConn(p, e) && Alternates(c, p) && Quiet(e)
    ensures var (c', p') := HandleConn(c, p, e);
            && Alternates(c', p') && Work(c', p') == Work(c, p) - 1
            && (p'.isOpen ==> p'.armed != p.armed)
  {
  }

  /** While a connection is open, a quiet event for it can be reported. */
  lemma QuietEventDue(s: State, i: nat) returns (e: Event)
    requires SlotInv(s) && 2 <= i <= s.fdsIter && s.peers[i].isOpen
    ensures e.index == i && Quiet(e) && Ready(s, e)
  {
    var reading := s.peers[i].armed.ForRead?;
    e := Event(i, reading, !reading, false, -1, [], false, false);
  }

  /** The events of connection `i` up to the stop. */
  function Handled(events: seq<Event>, i: nat): nat
    decreases |events|
  {
    if events == [] || events[0].index == 0 then 0
    else (if events[0].index == i then 1 else 0) + Handled(events[1..], i)
  }

  ghost function WorkAt(s: State, i: nat): int
    requires SlotInv(s) && i <= s.fdsIter
  {
    Work(s.entities[i], s.peers[i])
  }

  ghost predicate AlternatesAt(s: State, i: nat)
    requires SlotInv(s) && i <= s.fdsIter
  {
    Alternates(s.entities[i], s.peers[i])
  }

  lemma StepWork(s: State, e: Event, i: nat)
    requires Ready(s, e) && e.index != 0 && SlotInv(Handle(s, e)) && 2 <= i <= Handle(s, e).fdsIter
    requires i <= s.fdsIter ==> AlternatesAt(s, i)
    requires e.index == i ==> Quiet(e)
    ensures var s' := Handle(s, e);
            && AlternatesAt(s', i)
            && (i <= s.fdsIter ==> s'.peers[i].input == s.peers[i].input && s'.peers[i].fd == s.peers[i].fd
                                   && WorkAt(s', i) == WorkAt(s, i) - if e.index == i then 1 else 0)
            && (s.fdsIter < i && 0 <= s'.peers[i].fd ==> WorkAt(s', i) == 2 * |s'.peers[i].input| + 2)
            && (s.fdsIter < i ==> e.index != i)
  {
    Dispatch(s, e);
    if e.index == i {
      QuietStep(s.entities[i], s.peers[i], e);
    }
    if s.fdsIter < i {
      assert s.entities[i].mark == 0;
    }
  }

  lemma {:induction false} WorkAddsUp(s: State, events: seq<Event>, i: nat)
    requires ValidEvents(s, events) && !s.terminate && 2 <= i
    requires i <= s.fdsIter ==> AlternatesAt(s, i)
    requires forall n :: 0 <= n < |events| && events[n].index == i ==> Quiet(events[n])
    ensures var s' := HandleAll(s, events);
            && SlotInv(s')
            && (i <= s'.fdsIter && 0 <= s'.peers[i].fd ==>
                  && AlternatesAt(s', i)
                  && (i <= s.fdsIter ==> s'.peers[i].input == s.peers[i].input && s'.peers[i].fd == s.peers[i].fd)
                  && WorkAt(s', i) + Handled(events, i)
                     == if i <= s.fdsIter then WorkAt(s, i) else 2 * |s'.peers[i].input| + 2)
    decreases |events|
  {
    EventsSlotInv(s, events);
    if events != [] {
      var e := events[0];
      Dispatch(s, e);
      var s1 := Handle(s, e);
      if e.index != 0 {
        if i <= s1.fdsIter {
          StepWork(s, e, i);
        }
        WorkAddsUp(s1, events[1..], i);
      }
    }
  }

  lemma EchoedPart(c: Entity, p: Peer)
    requires ConnInv(c, p) && Echo(c, p)
    ensures |p.output| == p.consumed - Pending(c)
    ensures forall m :: 0 <= m < |p.output| ==> p.output[m] == ToUpper(p.input[m])
  {
    var answered := p.output + (if 0 < c.mark then [c.byte] else []);
    assert answered == Upper(p.input[..p.consumed]);
    assert forall m :: 0 <= m < |p.output| ==> p.output[m] == answered[m];
  }

  /** In every run, a connection with quiet events only has used up one of the `2 * |input| + 2` that it
      needs with each; it is closed exactly when it has had them all, and has by then answered its whole
      input, letters in upper case and every other byte as it is. */
  lemma EveryQuietRunAnswers(stopFd: int, socketFd: int, batches: seq<seq<Event>>, i: nat)
    requires DescriptorsOk(stopFd, socketFd) && ValidRun(Init(stopFd, socketFd), batches)
    requires var s := Run(Init(stopFd, socketFd), batches);
             2 <= i <= s.fdsIter && i < |s.peers| && 0 <= s.peers[i].fd
    requires forall n :: 0 <= n < |Flat(batches)| && Flat(batches)[n].index == i ==> Quiet(Flat(batches)[n])
    ensures var p, k := Run(Init(stopFd, socketFd), batches).peers[i], Handled(Flat(batches), i);
            && k <= 2 * |p.input| + 2
            && (k == 2 * |p.input| + 2 <==> !p.isOpen)
            && |p.output| == (if k <= 2 * |p.input| then k / 2 else |p.input|)
            && forall m :: 0 <= m < |p.output| ==>
                 p.output[m] == if 'a' as int <= p.input[m] <= 'z' as int
                                then 'A' as int + (p.input[m] - 'a' as int) else p.input[m]
  {
    var s0 := Init(stopFd, socketFd);
    RunIsEvents(s0, batches);
    WorkAddsUp(s0, Flat(batches), i);
    QuietRunsLoseNothing(s0, Flat(batches), i);
    EveryRunEchoes(stopFd, socketFd, batches, i);
    var s := Run(s0, batches);
    assert SlotOk(s, i);
    EchoedPart(s.entities[i], s.peers[i]);
  }

  /** Armed for writing with nothing to write: no event but a hang-up moves the connection again. */
  predicate Stalled(c: Entity, p: Peer) { p.isOpen && p.armed.ForWrite? && c.mark == 0 }

  /** A connection stalls exactly when a read fails with nothing pending, and stays so without hang-ups. */
  lemma StallsIff(c: Entity, p: Peer, e: Event)
    requires ConnInv(c, p) && ReportedConn(p, e)
    ensures var (c', p') := HandleConn(c, p, e);
            && (Stalled(c', p') <==>
                if e.readable || e.hup then e.readFails && c.mark == 0 else Stalled(c, p))
            && (Stalled(c, p) && !e.hup ==> c' == c && p' == p)
  {
  }

  /** A run that stalls: a connection is accepted and its first read fails. */
  lemma FailedReadStalls() returns (events: seq<Event>)
    ensures ValidEvents(Init(3, 4), events)
    ensures var s := HandleAll(Init(3, 4), events); s.fdsIter == 2 && SlotInv(s) && Stalled(s.entities[2], s.peers[2])
  {
    var s0 := Init(3, 4);
    var accept := Event(1, true, false, false, 7, [97, 98], false, false);
    var read := Event(2, true, false, false, 0, [], true, false);
    InitSlotInv(3, 4);
    StepSlotInv(s0, accept);
    Dispatch(s0, accept);
    var s1 := Handle(s0, accept);
    StepSlotInv(s1, read);
    Dispatch(s1, read);
    var s2 := Handle(s1, read);
    assert ValidEvents(s2, []) && HandleAll(s2, []) == s2;
    assert [read][1..] == [];
    assert ValidEvents(s1, [read]) && HandleAll(s1, [read]) == s2;
    events := [accept, read];
    assert events[1..] == [read];
  }

  // ---------------------------------------------------------------- after the loop

  /** The clean-up loop, whose bound leaves out the last slot. */
  function CleanUp(s: State): State
    requires |s.peers| == s.fdsIter + 1 && |s.fds| == SLOTS && s.fdsIter < SLOTS
  {
    s.(peers := seq(|s.peers|, i requires 0 <= i < |s.peers| =>
                      if 2 <= i < s.fdsIter && s.fds[i] != -1 then s.peers[i].(isOpen := false) else s.peers[i]))
  }

  /** No connection is left open exactly if the last accepted one was already closed. */
  lemma CleanUpClosesAllIff(s: State)
    requires SlotInv(s)
    ensures (forall i :: 2 <= i <= s.fdsIter ==> !CleanUp(s).peers[i].isOpen)
            <==> s.fdsIter == 1 || s.fds[s.fdsIter] == -1
  {
    forall i | 2 <= i <= s.fdsIter
      ensures CleanUp(s).peers[i].isOpen <==> i == s.fdsIter && s.fds[i] != -1 {
      assert SlotOk(s, i);
    }
    if 2 <= s.fdsIter {
      assert CleanUp(s).peers[s.fdsIter].isOpen <==> s.fds[s.fdsIter] != -1;
    }
  }

  /** In every run, whatever is left open is the last connection accepted, and it is left open exactly if
      the run has not closed it. */
  lemma CleanUpInEveryRun(stopFd: int, socketFd: int, batches: seq<seq<Event>>)
    requires DescriptorsOk(stopFd, socketFd) && ValidRun(Init(stopFd, socketFd), batches)
    ensures var s := Run(Init(stopFd, socketFd), batches);
            && SlotInv(s)
            && |CleanUp(s).peers| == |s.peers|
            && (forall i :: 2 <= i < s.fdsIter ==> CleanUp(s).peers[i] == s.peers[i].(isOpen := false))
            && CleanUp(s).peers[s.fdsIter] == s.peers[s.fdsIter]
            && ((forall i :: 2 <= i <= s.fdsIter ==> !CleanUp(s).peers[i].isOpen)
                <==> s.fdsIter == 1 || !s.peers[s.fdsIter].isOpen)
  {
    SlotsInEveryRun(stopFd, socketFd, batches);
    var s := Run(Init(stopFd, socketFd), batches);
    CleanUpClosesAllIff(s);
    forall i | 2 <= i <= s.fdsIter ensures s.fds[i] == -1 <==> !s.peers[i].isOpen {
      assert SlotOk(s, i);
    }
  }

  /** A run that leaves a connection open: it is accepted, and the server is told to stop. */
  lemma LastConnectionLeaks() returns (batches: seq<seq<Event>>)
    ensures ValidRun(Init(3, 4), batches)
    ensures var s := Run(Init(3, 4), batches); s.terminate && s.fdsIter == 2 && SlotInv(s) && CleanUp(s).peers[2].isOpen
  {
    var s0 := Init(3, 4);
    var accept := Event(1, true, false, false, 7, [97, 98], false, false);
    var stop := Event(0, true, false, false, 0, [], false, false);
    InitSlotInv(3, 4);
    StepSlotInv(s0, accept);
    Dispatch(s0, accept);
    var s1 := Handle(s0, accept);
    StepSlotInv(s1, stop);
    Dispatch(s1, stop);
    var s2 := Handle(s1, stop);
    assert [stop][1..] == [] && [accept][1..] == [];
    assert ValidEvents(s2, []) && ValidEvents(s1, []);
    assert ValidEvents(s1, [stop]) && HandleAll(s1, [stop]) == s2;
    assert ValidEvents(s0, [accept]) && HandleAll(s0, [accept]) == s1;
    assert AnswersOk(s1, []) && AnswersOk(s2, []);
    assert AnswersOk(s0, [accept]) && AnswersOk(s1, [stop]);
    assert [[stop]][1..] == [] && [[accept], [stop]][1..] == [[stop]];
    assert ValidRun(s2, []) && Run(s2, []) == s2;
    assert ValidRun(s1, [[stop]]) && Run(s1, [[stop]]) == s2;
    batches := [[accept], [stop]];
    assert ValidRun(s0, batches) && Run(s0, batches) == s2;
  }

  // ---------------------------------------------------------------- the program

  /** The variables of `ServerMain`, changed in place, and the kernel's view of the connections. */
  class Server {
    const stopFd: int
    const socketFd: int
    const fds: array<int>
    const entities: array<Entity>
    var fdsIter: nat
    var toTerminate: bool
    var peers: seq<Peer>

    ghost function View(): State
      reads this, fds, entities
    {
      State(stopFd, socketFd, fds[..], entities[..], fdsIter, toTerminate, peers)
    }

    constructor (stopFd: int, socketFd: int)
      ensures fresh(fds) && fresh(entities) && View() == Init(stopFd, socketFd)
    {
      this.stopFd, this.socketFd := stopFd, socketFd;
      fds := new int[SLOTS](i => if i == 0 then stopFd else if i == 1 then socketFd else 0);
      entities := new Entity[SLOTS](_ => Entity(0, 0));
      fdsIter, toTerminate, peers := 1, false, [NO_PEER, NO_PEER];
    }

    method HandleEvent(e: Event)
      requires Ready(View(), e) && fds[e.index] != stopFd
      modifies this`fdsIter, this`peers, fds, entities
      ensures View() == Handle(old(View()), e)
    {
      Dispatch(View(), e);
      var index := e.index;
      if e.readable || e.hup {
        if fds[index] == socketFd {
          fdsIter := fdsIter + 1;
          fds[fdsIter] := e.accepted;
          peers := peers + [Peer(e.accepted, e.arriving, 0, [], ForRead, e.accepted != -1)];
        } else {
          var p := peers[index];
          if !e.readFails {
            if p.consumed < |p.input| {
              entities[index] := Entity(ToUpper(p.input[p.consumed]), 1);
              p := p.(consumed := p.consumed + 1);
            } else if entities[index].mark == 0 {
              entities[index] := entities[index].(mark := -1);
            }
          }
          peers := peers[index := p.(armed := ForWrite)];
        }
      } else if e.writable {
        var p := peers[index];
        if 0 < entities[index].mark {
          if !e.writeFails {
            p := p.(output := p.output + [entities[index].byte]);
          }
          entities[index] := entities[index].(mark := 0);
          peers := peers[index := p.(armed := ForRead)];
        } else if entities[index].mark == -1 {
          peers := peers[index := p.(isOpen := false)];
          fds[index] := -1;
        }
      }
    }

    /** Handles one answer of `epoll_wait`. */
    method HandleBatch(events: seq<Event>)
      requires !toTerminate && SlotInv(View()) && Batch(View(), events) && AnswersOk(View(), events)
      modifies this, fds, entities
      ensures ValidEvents(old(View()), events) && View() == HandleAll(old(View()), events)
    {
      BatchIsValid(View(), events);
      for i := 0 to |events|
        invariant !toTerminate && ValidEvents(View(), events[i..])
        invariant HandleAll(View(), events[i..]) == HandleAll(old(View()), events)
      {
        ghost var rest := events[i..];
        assert rest[0] == events[i] && rest[1..] == events[i + 1..];
        Dispatch(View(), events[i]);
        if fds[events[i].index] == stopFd {
          toTerminate := true;
          break;
        }
        HandleEvent(events[i]);
      }
    }

    /** The loop of `ServerMain`, for as long as epoll has answers to give. */
    method Serve(batches: seq<seq<Event>>)
      requires !toTerminate && ValidRun(View(), batches)
      modifies this, fds, entities
      ensures View() == Run(old(View()), batches)
    {
      var n := 0;
      while n < |batches| && !toTerminate
        invariant n <= |batches| && ValidRun(View(), batches[n..])
        invariant Run(View(), batches[n..]) == Run(old(View()), batches)
      {
        ghost var rest := batches[n..];
        assert rest[0] == batches[n] && rest[1..] == batches[n + 1..];
        HandleBatch(batches[n]);
        n := n + 1;
      }
    }

    /** The loop after the event loop. */
    method CloseAll()
      requires SlotInv(View())
      modifies this`peers
      ensures View() == CleanUp(old(View()))
    {
      var i := 2;
      while i < fdsIter
        invariant 2 <= i && (i <= fdsIter || i == 2)
        invariant |peers| == |old(peers)|
        invariant forall j :: 0 <= j < |peers| ==>
                    peers[j] == if 2 <= j < i && fds[j] != -1 then old(peers)[j].(isOpen := false) else old(peers)[j]
      {
        if fds[i] != -1 {
          peers := peers[i := peers[i].(isOpen := false)];
        }
        i := i + 1;
      }
      assert peers == CleanUp(old(View())).peers;
    }
  }
}
