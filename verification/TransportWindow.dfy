/** What threads can do while a handler is under way, and what the transport then holds. */
module TransportWindow {
  import opened Sequences
  import opened Framing
  import opened Sizes
  import opened TransportModel
  import opened TransportLists
  import opened TransportInvariant
  import opened TransportSteps
  import opened TransportTheorems
  import opened TransportLimits

  // ----- Inside handleWrite -----

  /** handleWrite has lowered the counter and not stored since; the threads have done this much. */
  function InWrite(m: State, i: nat, between: seq<Step>): State
    requires i < |m.writeOps|
  {
    Between(m.(writeOps := Without(m.writeOps, i), pendingWrites := FetchSub(m.pendingWrites)), between)
  }

  /** A live write handler goes through that state: what it reports and pops, it does from there on. */
  lemma GoesThroughWrite(m: State, i: nat, ec: ErrorCode, between: seq<Step>)
    requires Reachable(m) && i < |m.writeOps| && m.writeOps[i].generation == m.generation
    requires WriteMayReport(m.writeOps[i], ec)
    ensures InWrite(m, i, between).txDeque == m.txDeque != []
    ensures InWrite(m, i, between).log == m.log
    ensures Next(m, CompleteWrite(i, ec, between)) == FinishWrite(InWrite(m, i, between), ec)
  {
    hide Reachable, Inv, Between, Without, FinishWrite, WriteMayReport, Next, InWrite;
    ReachableKeepsInv(m);
    WriteHalf(m, i);
    LiveHere(m, i);
    InWriteKeeps(m, i, between);
    CompletesThrough(m, i, ec, between);
  }

  lemma InWriteKeeps(m: State, i: nat, between: seq<Step>)
    requires i < |m.writeOps|
    ensures InWrite(m, i, between).txDeque == m.txDeque && InWrite(m, i, between).log == m.log
  {
    hide Between, Without;
  }

  lemma CompletesThrough(m: State, i: nat, ec: ErrorCode, between: seq<Step>)
    requires i < |m.writeOps| && m.writeOps[i].generation == m.generation && !Halted(m) && m.txDeque != []
    requires WriteMayReport(m.writeOps[i], ec)
    ensures InWrite(m, i, between).txDeque != []
    ensures Next(m, CompleteWrite(i, ec, between)) == FinishWrite(InWrite(m, i, between), ec)
  {
    hide Between, Without, FinishWrite, HandleWrite, WriteMayReport;
    HandlesThrough(m.(writeOps := Without(m.writeOps, i)), ec, m.generation, between);
  }

  lemma HandlesThrough(m: State, ec: ErrorCode, generation: nat, between: seq<Step>)
    requires !Halted(m) && generation == m.generation && m.txDeque != []
    ensures var t := Between(m.(pendingWrites := FetchSub(m.pendingWrites)), between);
            HandleWrite(m, ec, generation, between) == FinishWrite(t, ec)
  {
    hide Between, FinishWrite;
  }

  lemma LiveHere(m: State, i: nat)
    requires Inv(m) && i < |m.writeOps| && m.writeOps[i].generation == m.generation
    ensures !Halted(m)
  {
    hide WritesInv, OnWire, Framed, Current, Writing;
  }

  /** The octets of that many packets of the largest size. */
  function Room(packets: nat, config: BufferConfig): nat { packets * config.txMaxSizePerElement }

  /** The counter is within its limit and one short of the packets held, which may be one over. */
  ghost predicate OneShort(t: State) {
    var slots: nat := t.config.txMaxElementsInQueue;
    && t.pendingWrites <= slots
    && t.pendingWrites + 1 == |ClaimedIn(t.producers)| + |WaitingIn(t.queue)| + |t.txDeque|
    && |BytesOf(WaitingIn(t.queue))| + |BytesOf(t.txDeque)| <= Room(slots + 1, t.config)
  }

  /**
    * Inside handleWrite the counter keeps its limit, but it is one short: the packet at the front has given up
    * its slot and is still held. So the octets held may exceed the limit by one packet, and by no more.
    */
  lemma HeldInWrite(m: State, i: nat, between: seq<Step>)
    requires Reachable(m) && i < |m.writeOps| && m.writeOps[i].generation == m.generation
    ensures OneShort(InWrite(m, i, between))
  {
    hide Reachable, Inv, Between, OneShort, Without, WritesInv;
    ReachableKeepsInv(m);
    WriteHalf(m, i);
    var v := FrontGone(m, i, between);
    assert m.txDeque == [m.txDeque[0]] + v.txDeque;
    HeldWithFront(v, InWrite(m, i, between), m.txDeque[0]);
  }

  lemma WriteHalf(m: State, i: nat)
    requires Inv(m) && i < |m.writeOps| && m.writeOps[i].generation == m.generation
    ensures WritesInv(m) && !m.stopped && m.txDeque != []
    ensures |m.txDeque[0].bytes| <= m.config.txMaxSizePerElement
  {
    hide StrandInv, Counted, OpenQueued, Ordered, Partitioned;
    LiveWriteIsFront(m, i);
  }

  lemma HeldWithFront(v: State, t: State, front: Packet)
    requires WritesInv(v) && !v.stopped && |front.bytes| <= v.config.txMaxSizePerElement
    requires t.txDeque == [front] + v.txDeque && t.config == v.config
    requires t.queue == v.queue && t.producers == v.producers && t.pendingWrites == v.pendingWrites
    ensures OneShort(t)
  {
    hide OpenQueued, Ordered, Partitioned, Bounded, ClaimedIn, WaitingIn, BytesOf;
    HeldWithin(v);
    BytesConcat([front], v.txDeque);
    OneBytes(front);
  }

  lemma HeldWithin(v: State)
    requires WritesInv(v)
    ensures var slots: nat := v.config.txMaxElementsInQueue;
            && v.pendingWrites <= slots
            && |BytesOf(WaitingIn(v.queue))| + |BytesOf(v.txDeque)| + v.config.txMaxSizePerElement
               <= Room(slots + 1, v.config)
  {
    hide OpenQueued, Ordered, Partitioned, ClaimedIn, WaitingIn, BytesOf, AllFit;
    var slots: nat, size: nat := v.config.txMaxElementsInQueue, v.config.txMaxSizePerElement;
    BytesBound(WaitingIn(v.queue), size);
    BytesBound(v.txDeque, size);
    SlotsTimesSize(|WaitingIn(v.queue)|, |v.txDeque|, slots, size);
    assert (slots + 1) * size == slots * size + size;
  }

  function Largest(config: BufferConfig): (bytes: seq<Octet>)
    ensures |bytes| == config.txMaxSizePerElement
  {
    seq(config.txMaxSizePerElement, i => 1)
  }

  /** The queue can be filled with packets of the largest size. */
  lemma {:induction false} Filled(config: BufferConfig, n: nat) returns (m: State, queued: seq<Packet>)
    requires config.rxBufferMaxSize > 0 && n <= config.txMaxElementsInQueue
    ensures Reachable(m) && Fresh(m, config, queued, queued)
    ensures |queued| == n && |BytesOf(queued)| == Room(n, config)
    decreases n
  {
    hide Reachable, Fresh, BytesOf;
    if n == 0 {
      queued := [];
      m := OpenedFresh(config);
      EmptyLog();
    } else {
      var p, front := Filled(config, n - 1);
      m := QueuedFresh(p, config, front, Largest(config), 0);
      queued := front + [Packet(Largest(config), 0, |front|)];
      BytesSnoc(front, Packet(Largest(config), 0, |front|));
      RoomNext(config, n - 1);
    }
  }

  lemma RoomNext(config: BufferConfig, n: nat)
    ensures Room(n + 1, config) == Room(n, config) + config.txMaxSizePerElement
  {
  }

  /** One thread takes a slot and posts. */
  function OneWrite(bytes: seq<Octet>): seq<Step> {
    [CheckStep(0, bytes, 0), LoadStep(0), ClaimStep(0, false), PostStep(0)]
  }

  /** The bound inside handleWrite is attained, for every configuration with a slot. */
  lemma HeldInWriteAttained(config: BufferConfig) returns (m: State, i: nat, between: seq<Step>)
    requires config.rxBufferMaxSize > 0 && config.txMaxElementsInQueue > 0
    ensures Reachable(m) && m.config == config && i < |m.writeOps| && m.writeOps[i].generation == m.generation
    ensures var t := InWrite(m, i, between); var slots: nat := config.txMaxElementsInQueue;
            |BytesOf(WaitingIn(t.queue))| + |BytesOf(t.txDeque)| == Room(slots + 1, config)
  {
    hide Reachable, Fresh, Between, BytesOf, WaitingIn;
    var queued;
    m, queued := Filled(config, config.txMaxElementsInQueue);
    FreshFacts(m, config, queued);
    SingleOperation(m);
    i :| OneOf(m.writeOps, m.generation, i);
    between := OneWrite(Largest(config));
    var s := m.(writeOps := Without(m.writeOps, i), pendingWrites := FetchSub(m.pendingWrites));
    OneMorePosted(s, config);
    RoomNext(config, config.txMaxElementsInQueue);
    OneWaiting(Between(s, between).queue, Largest(config));
  }

  lemma FreshFacts(m: State, config: BufferConfig, queued: seq<Packet>)
    requires Fresh(m, config, queued, queued)
    ensures !m.stopped && !m.closing && m.config == config && m.queue == [] && m.producers == [Away]
    ensures m.txDeque == queued && m.pendingWrites == |queued|
  {
  }

  lemma OneMorePosted(s: State, config: BufferConfig)
    requires !Halted(s) && s.config == config && s.queue == [] && s.producers == [Away]
    requires s.pendingWrites < config.txMaxElementsInQueue
    ensures var packet := Packet(Largest(config), 0, |s.accepted|);
            Between(s, OneWrite(Largest(config))).queue == [WriteEvent(packet)]
  {
    hide Between, ThreadStep, Largest;
    var bytes := Largest(config);
    BetweenFour(s, CheckStep(0, bytes, 0), LoadStep(0), ClaimStep(0, false), PostStep(0));
    var a := ThreadStep(s, CheckStep(0, bytes, 0));
    assert a == s.(producers := [Checked(bytes, 0)]) by { CheckGoes(s, bytes); }
    var b := ThreadStep(a, LoadStep(0));
    assert b == s.(producers := [Loaded(bytes, 0, s.pendingWrites)]) by { LoadGoes(a, bytes); }
    ClaimPosts(b, bytes);
  }

  lemma CheckGoes(s: State, bytes: seq<Octet>)
    requires !Halted(s) && s.producers == [Away] && |bytes| <= s.config.txMaxSizePerElement
    ensures ThreadStep(s, CheckStep(0, bytes, 0)) == s.(producers := [Checked(bytes, 0)])
  {
  }

  lemma LoadGoes(s: State, bytes: seq<Octet>)
    requires s.producers == [Checked(bytes, 0)]
    ensures ThreadStep(s, LoadStep(0)) == s.(producers := [Loaded(bytes, 0, s.pendingWrites)])
  {
  }

  lemma ClaimPosts(s: State, bytes: seq<Octet>)
    requires s.producers == [Loaded(bytes, 0, s.pendingWrites)] && s.queue == []
    requires s.pendingWrites < s.config.txMaxElementsInQueue
    ensures ThreadStep(ThreadStep(s, ClaimStep(0, false)), PostStep(0)).queue
         == [WriteEvent(Packet(bytes, 0, |s.accepted|))]
  {
    var packet := Packet(bytes, 0, |s.accepted|);
    assert ThreadStep(s, ClaimStep(0, false)).producers == [Claimed(packet)];
  }

  lemma BetweenFour(m: State, a: Step, b: Step, c: Step, d: Step)
    ensures Between(m, [a, b, c, d]) == ThreadStep(ThreadStep(ThreadStep(ThreadStep(m, a), b), c), d)
  {
    hide ThreadStep;
    assert [a, b, c, d][..3] == [a, b, c] && [a, b, c][..2] == [a, b] && [a, b][..1] == [a] && [a][..0] == [];
    assert Between(m, [a]) == ThreadStep(m, a);
    assert Between(m, [a, b]) == ThreadStep(Between(m, [a]), b);
    assert Between(m, [a, b, c]) == ThreadStep(Between(m, [a, b]), c);
  }

  lemma OneWaiting(queue: seq<Event>, bytes: seq<Octet>)
    requires |queue| == 1 && queue[0].WriteEvent? && queue[0].packet.bytes == bytes
    ensures BytesOf(WaitingIn(queue)) == bytes
  {
    assert queue == [queue[0]] + [];
    WaitingCons(queue[0], []);
    assert WaitingIn([]) == [];
    assert WaitingIn(queue) == [queue[0].packet];
    OneBytes(queue[0].packet);
  }

  // ----- Inside the closure of a cancelled write -----

  /** The closure has lowered the counter and still holds its packet; the threads have done this much. */
  function InCancel(m: State, between: seq<Step>): State
    requires m.queue != []
  {
    Between(m.(queue := m.queue[1..], pendingWrites := FetchSub(m.pendingWrites)), between)
  }

  /** There too one packet may be held beyond the limit, and no more. */
  lemma HeldInCancel(m: State, between: seq<Step>)
    requires Reachable(m) && m.stopped && m.queue != [] && m.queue[0].WriteEvent?
    ensures var t := InCancel(m, between); var slots: nat := m.config.txMaxElementsInQueue;
            && t.pendingWrites <= slots && t.txDeque == []
            && |m.queue[0].packet.bytes| + |BytesOf(WaitingIn(t.queue))| <= Room(slots + 1, m.config)
  {
    hide Reachable, StrandInv, WritesInv, Between, WaitingIn, BytesOf, Room;
    ReachableKeepsInv(m);
    StoppedIsEmpty(m);
    HeadFits(m);
    CancelWrites(m);
    var r := RunWrite(m.(queue := m.queue[1..]), m.queue[0].packet);
    BetweenKeepsWrites(r, between);
    ThreadsSee(m.(queue := m.queue[1..], pendingWrites := FetchSub(m.pendingWrites)), r, between);
    HeldWithin(Between(r, between));
  }

  lemma HeadFits(m: State)
    requires WritesInv(m) && m.queue != [] && m.queue[0].WriteEvent?
    ensures |m.queue[0].packet.bytes| <= m.config.txMaxSizePerElement
  {
    hide Counted, OpenQueued, Ordered, Partitioned;
    PopWaiting(m.queue);
    assert WaitingIn(m.queue)[0] == m.queue[0].packet;
  }

  // ----- The other handlers: threads move out of the middle -----

  /** The rest of a stop does not matter to the threads: they might as well come after it. */
  lemma StopMovesOut(m: State, settled: nat, between: seq<Step>)
    requires settled <= |m.txDeque|
    ensures StopAfterIoError(Between(m.(stopped := true), between), settled)
         == Between(StopAfterIoError(m, settled), between)
  {
    hide Between, Cancel;
    ThreadsSee(m.(stopped := true), StopAfterIoError(m, settled), between);
  }

  /** Nor does the rest of a close, whether they act before or after its store to stopped. */
  lemma CloseMovesOut(m: State, first: seq<Step>, second: seq<Step>)
    requires !m.closing
    ensures FinishClose(Between(Between(m.(closing := true), first).(stopped := true), second))
         == Between(Between(CloseOnStrand(m), first), second)
  {
    hide Between, Cancel;
    var a := Between(m.(closing := true), first);
    ThreadsSee(m.(closing := true), CloseOnStrand(m), first);
    ThreadsSee(a.(stopped := true), Between(CloseOnStrand(m), first), second);
  }

  /** Nor does the rest of a cancelled write. */
  lemma CancelMovesOut(m: State, packet: Packet, between: seq<Step>)
    requires Halted(m)
    ensures var t := Between(m.(pendingWrites := FetchSub(m.pendingWrites)), between);
            var notice := WriteNotice(Cancelled, packet, t.handlers.write);
            t.(log := t.log + [notice]) == Between(RunWrite(m, packet), between)
  {
    hide Between;
    ThreadsSee(m.(pendingWrites := FetchSub(m.pendingWrites)), RunWrite(m, packet), between);
  }

  /** A read handler that does not stop is invisible to the threads: they might as well come after it. */
  lemma ReadMovesOut(m: State, ec: ErrorCode, bytesRead: nat, generation: nat, between: seq<Step>)
    requires ec.NoError? || ec.NotFound?
    ensures HandleRead(Between(m, between), ec, bytesRead, generation)
         == Between(HandleRead(m, ec, bytesRead, generation), between)
  {
    hide Between;
    ThreadsSee(m, HandleRead(m, ec, bytesRead, generation), between);
  }

  /** So is a write being queued. */
  lemma QueueMovesOut(m: State, packet: Packet, between: seq<Step>)
    requires !Halted(m)
    ensures RunWrite(Between(m, between), packet) == Between(RunWrite(m, packet), between)
  {
    hide Between;
    ThreadsSee(m, RunWrite(m, packet), between);
  }

  /** So is a handler being set. */
  lemma SetMovesOut(m: State, kind: HandlerKind, present: bool, between: seq<Step>)
    ensures SetHandler(Between(m, between), kind, present) == Between(SetHandler(m, kind, present), between)
  {
    hide Between;
    ThreadsSee(m, SetHandler(m, kind, present), between);
  }

  /** Before an open lets writes in, threads that are all away only get refused. */
  lemma {:induction false} RefusedWhileOpening(m: State, between: seq<Step>)
    requires Halted(m) && AllAway(m.producers)
    ensures Between(m, between) == m.(statuses := Between(m, between).statuses)
    decreases |between|
  {
    if between != [] {
      RefusedWhileOpening(m, between[..|between| - 1]);
    }
  }

  /** So they might as well come before it; and those that come after it has let writes in, after it. */
  lemma OpenMovesOut(m: State, config: BufferConfig, first: seq<Step>, second: seq<Step>)
    requires m.stopped && !m.closing && AllAway(m.producers)
    ensures ResetSession(Between(m, first), config) == Between(ResetSession(m, config), first)
    ensures var opening := ResetSession(m, config);
            var t := Between(opening.(stopped := false), second);
            StartRead(t.(lifecycle := Open, opens := m.opens + 1)) == Between(RunOpen(m, config, true), second)
  {
    hide Between;
    RefusedWhileOpening(m, first);
    RefusedWhileOpening(ResetSession(m, config), first);
    RefusedAlike(m, ResetSession(m, config), first);
    ThreadsSee(ResetSession(m, config).(stopped := false), RunOpen(m, config, true), second);
  }

  lemma {:induction false} RefusedAlike(m: State, n: State, between: seq<Step>)
    requires Halted(m) && Halted(n) && AllAway(m.producers) && m.producers == n.producers && m.statuses == n.statuses
    ensures Between(m, between).statuses == Between(n, between).statuses
    decreases |between|
  {
    if between != [] {
      hide ThreadStep;
      var front := between[..|between| - 1];
      RefusedAlike(m, n, front);
      RefusedWhileOpening(m, front);
      RefusedWhileOpening(n, front);
      RefusedStep(Between(m, front), Between(n, front), between[|between| - 1]);
    }
  }

  lemma RefusedStep(m: State, n: State, step: Step)
    requires Halted(m) && Halted(n) && AllAway(m.producers) && m.producers == n.producers && m.statuses == n.statuses
    ensures ThreadStep(m, step).statuses == ThreadStep(n, step).statuses
  {
  }
}
