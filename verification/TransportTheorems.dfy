/** What the serial transport guarantees over every run that keeps the discipline on open. */
module TransportTheorems {
  import opened Sequences
  import opened Framing
  import opened Sizes
  import opened TransportModel
  import opened TransportLists
  import opened TransportInvariant
  import opened TransportSteps

  // ----- Accepted writes: conservation and backpressure -----

  /**
    * Between two handlers: while open the counter is exact, and it never counts fewer than the writes claimed
    * and posted.
    */
  lemma Conservation(m: State)
    requires Reachable(m)
    ensures !m.stopped ==> m.pendingWrites == |ClaimedIn(m.producers)| + |WaitingIn(m.queue)| + |m.txDeque|
    ensures m.pendingWrites >= |ClaimedIn(m.producers)| + |WaitingIn(m.queue)|
  {
    hide Reachable, StrandInv, OpenQueued, Ordered, Partitioned, Bounded, ClaimedIn, WaitingIn;
    ReachableKeepsInv(m);
  }

  /** The step runs one of the two fetch_sub. */
  predicate Decrements(m: State, step: Step) {
    match step
    case RunNext(_) => m.queue != [] && m.queue[0].WriteEvent? && Halted(m)
    case CompleteWrite(i, ec, _) =>
      i < |m.writeOps| && WriteMayReport(m.writeOps[i], ec) && !Halted(m) && m.writeOps[i].generation == m.generation
    case _ => false
  }

  /**
    * Neither fetch_sub ever meets a zero counter, so neither wraps around: the step lowers the counter by one,
    * less what threads have claimed in the middle of it.
    */
  lemma NoUnderflow(m: State, step: Step)
    requires Reachable(m) && Decrements(m, step)
    ensures m.pendingWrites > 0
    ensures var n := Next(m, step); n.pendingWrites == m.pendingWrites - 1 + |n.accepted| - |m.accepted|
  {
    hide Reachable, Inv, Between, DispatchError;
    ReachableKeepsInv(m);
    if step.RunNext? {
      WaitingWriteIsCounted(m);
    } else {
      LiveWriteIsCounted(m, step.i);
      LiveWriteFront(m, step.i);
      var s := m.(writeOps := Without(m.writeOps, step.i), pendingWrites := m.pendingWrites - 1);
      FinishKeepsCounter(Between(s, step.between), step.ec);
    }
  }

  lemma FinishKeepsCounter(m: State, ec: ErrorCode)
    requires m.txDeque != []
    ensures var n := FinishWrite(m, ec); n.pendingWrites == m.pendingWrites && n.accepted == m.accepted
  {
    hide DispatchError;
    if !ec.NoError? {
      DispatchKeepsCounter(m.(log := m.log + [WriteNotice(Failed, m.txDeque[0], m.handlers.write)]), ec, 1);
    }
  }

  lemma DispatchKeepsCounter(m: State, ec: ErrorCode, settled: nat)
    requires settled <= |m.txDeque|
    ensures var n := DispatchError(m, ec, settled); n.pendingWrites == m.pendingWrites && n.accepted == m.accepted
  {
    hide Cancel;
  }

  lemma WaitingWriteIsCounted(m: State)
    requires Inv(m) && m.queue != [] && m.queue[0].WriteEvent?
    ensures m.pendingWrites > 0
  {
    hide StrandInv, OpenQueued, Ordered, Partitioned, Bounded, ClaimedIn;
    PopWaiting(m.queue);
  }

  lemma LiveWriteIsCounted(m: State, i: nat)
    requires Inv(m) && i < |m.writeOps| && m.writeOps[i].generation == m.generation
    ensures m.pendingWrites > 0
  {
    hide StrandInv, OpenQueued, Ordered, Partitioned, Bounded, ClaimedIn, WaitingIn;
    LiveWriteIsFront(m, i);
  }

  lemma {:induction false} BytesBound(packets: seq<Packet>, limit: nat)
    requires AllFit(packets, limit)
    ensures |BytesOf(packets)| <= |packets| * limit
  {
    if packets != [] {
      var front := packets[..|packets| - 1];
      BytesBound(front, limit);
      assert |packets| * limit == |front| * limit + limit;
    }
  }

  /**
    * Between two handlers, however many threads race, neither the slots nor the octets held exceed the
    * configured bound.
    */
  lemma Backpressure(m: State)
    requires Reachable(m)
    ensures m.pendingWrites <= m.config.txMaxElementsInQueue
    ensures |BytesOf(WaitingIn(m.queue))| + |BytesOf(m.txDeque)|
            <= m.config.txMaxElementsInQueue * m.config.txMaxSizePerElement
  {
    hide Reachable, StrandInv, OpenQueued, Ordered, Partitioned, ClaimedIn, WaitingIn, BytesOf, AllFit;
    ReachableKeepsInv(m);
    var limit := m.config.txMaxSizePerElement;
    BytesBound(WaitingIn(m.queue), limit);
    BytesBound(m.txDeque, limit);
    SlotsTimesSize(|WaitingIn(m.queue)|, |m.txDeque|, m.config.txMaxElementsInQueue, limit);
  }

  lemma SlotsTimesSize(waiting: nat, queued: nat, slots: nat, size: nat)
    requires waiting + queued <= slots
    ensures waiting * size + queued * size <= slots * size
  {
    assert slots * size == waiting * size + queued * size + (slots - waiting - queued) * size;
  }

  // ----- Accepted writes: order -----

  /** The octets already sent of the packet being written. */
  ghost predicate PrefixOfFront(sent: seq<Octet>, txDeque: seq<Packet>) {
    if txDeque == [] then sent == [] else sent <= txDeque[0].bytes
  }

  /**
    * Within a session the posted writes are the written ones, then the queue, then those still on the
    * strand; the wire carries the written packets one after the other and a prefix of the front.
    */
  lemma SessionOrder(m: State)
    requires Reachable(m) && !m.stopped
    ensures m.posted == WrittenIn(m.log) + m.txDeque + WaitingIn(m.queue)
    ensures exists sent :: PrefixOfFront(sent, m.txDeque) && m.wire == BytesOf(WrittenIn(m.log)) + sent
  {
    hide Reachable, ReadsOk, Framed, OpsOk, Counted, OpenQueued, Partitioned, Bounded;
    hide WrittenIn, WaitingIn, BytesOf, Current;
    ReachableKeepsInv(m);
    assert PrefixOfFront(SentOf(Current(m.writeOps, m.generation)), m.txDeque);
  }

  lemma {:induction false} BytesConcat(a: seq<Packet>, b: seq<Packet>)
    ensures BytesOf(a + b) == BytesOf(a) + BytesOf(b)
    decreases |b|
  {
    if b == [] {
      EmptyRight(a);
      EmptyRight(BytesOf(a));
    } else {
      hide BytesOf;
      var front, x := b[..|b| - 1], b[|b| - 1];
      BytesConcat(a, front);
      FrontLast(b);
      Associate(a, front, [x]);
      BytesSnoc(front, x);
      BytesSnoc(a + front, x);
      Associate(BytesOf(a), BytesOf(front), x.bytes);
    }
  }

  /** The session's written packets begin its posted ones, and its wire begins their octets. */
  ghost predicate WireFollows(m: State) {
    WrittenIn(m.log) <= m.posted && m.wire <= BytesOf(m.posted)
  }

  lemma OpenWireFollows(m: State)
    requires Inv(m) && !m.stopped
    ensures WireFollows(m)
  {
    hide ReadsOk, Framed, OpsOk, Counted, OpenQueued, Partitioned, Bounded, WrittenIn, WaitingIn, BytesOf, Current;
    var written, later := WrittenIn(m.log), m.txDeque + WaitingIn(m.queue);
    Associate(written, m.txDeque, WaitingIn(m.queue));
    assert m.posted == written + later;
    BytesConcat(written, later);
    var sent := SentOf(Current(m.writeOps, m.generation));
    if sent != [] {
      var tail := later[1..];
      assert later == [m.txDeque[0]] + tail;
      BytesConcat([m.txDeque[0]], tail);
      OneBytes(m.txDeque[0]);
      PrefixJoin(sent, m.txDeque[0].bytes, BytesOf(tail));
    } else {
      EmptyRight(BytesOf(written));
    }
    PrefixAfter(BytesOf(written), sent, BytesOf(later));
  }

  lemma OneBytes(packet: Packet)
    ensures BytesOf([packet]) == packet.bytes
  {
    EmptyLog();
    assert [packet] == [] + [packet];
    BytesSnoc([], packet);
  }

  lemma PrefixJoin(a: seq<Octet>, b: seq<Octet>, c: seq<Octet>)
    requires a <= b
    ensures a <= b + c
  {
  }

  lemma PrefixAfter(a: seq<Octet>, b: seq<Octet>, c: seq<Octet>)
    requires b <= c
    ensures a + b <= a + c
  {
  }

  predicate IsFailed(notice: Notice) { notice.WriteNotice? && notice.result.Failed? }

  /** A step into a stopped state moves no octets: it leaves the session as it was or starts an empty one. */
  ghost predicate Frozen(m: State, n: State) {
    || (n.wire == m.wire && m.posted <= n.posted && WrittenIn(n.log) == WrittenIn(m.log))
    || (n.wire == [] && n.log == [])
  }

  /** The step runs no handler on the strand. */
  predicate OffStrand(step: Step) {
    !step.RunNext? && !step.CompleteRead? && !step.CompleteWrite?
  }

  /** The user is told nothing and the lifecycle stays. */
  ghost predicate Silent(m: State, n: State) {
    && n.log == m.log && n.earlier == m.earlier && n.opens == m.opens && n.stopped == m.stopped
    && n.closing == m.closing && n.lifecycle == m.lifecycle && n.cancels == m.cancels && n.closes == m.closes
    && n.discarded == m.discarded
  }

  /** Such a step tells the user nothing and leaves the lifecycle alone. */
  lemma OffStrandStep(m: State, step: Step)
    requires OffStrand(step)
    ensures var n := Next(m, step);
            Silent(m, n) && m.posted <= n.posted && (!step.Transmit? ==> n.wire == m.wire)
  {
    hide ThreadStep, LiveRead;
    ThreadStepOnly(m, step);
  }

  lemma StoppedFreezes(m: State, step: Step)
    requires Inv(m) && Next(m, step).stopped
    ensures Frozen(m, Next(m, step))
  {
    hide Inv, Without, ReadSize, HandleRead, HandleWrite, RunEvent, ReadMayReport, WriteMayReport, WrittenIn;
    match step
    case RunNext(openOk) => if m.queue != [] { EventFreezes(m.(queue := m.queue[1..]), m.queue[0], openOk); }
    case CompleteRead(i, ec) =>
      if i < |m.readOps| && ReadMayReport(m, m.readOps[i], ec) {
        ReadFreezes(m.(readOps := Without(m.readOps, i)), ec, ReadSize(m), m.readOps[i].generation);
      }
    case CompleteWrite(i, ec, between) =>
      if i < |m.writeOps| && WriteMayReport(m.writeOps[i], ec) {
        WriteFreezes(m.(writeOps := Without(m.writeOps, i)), ec, m.writeOps[i].generation, between);
      }
    case _ => OffStrandFreezes(m, step);
  }

  lemma OffStrandFreezes(m: State, step: Step)
    requires Inv(m) && OffStrand(step) && Next(m, step).stopped
    ensures Frozen(m, Next(m, step))
  {
    hide Inv, Next, WrittenIn;
    OffStrandStep(m, step);
    if step.Transmit? {
      TransmitNeedsOpen(m, step.i, step.count);
    }
  }

  lemma TransmitNeedsOpen(m: State, i: nat, count: nat)
    requires Inv(m) && m.stopped
    ensures Next(m, Transmit(i, count)) == m
  {
    hide WritesInv, ReadsOk, OnWire, Framed, Current, Writing;
  }

  lemma EventFreezes(m: State, event: Event, openOk: bool)
    requires RunEvent(m, event, openOk).stopped
    ensures Frozen(m, RunEvent(m, event, openOk))
  {
    hide Cancel, WrittenIn, SettledIn, BlocksIn;
    if event.WriteEvent? {
      LogSnoc(m.log, WriteNotice(Cancelled, event.packet, m.handlers.write));
      EmptyRight(WrittenIn(m.log));
    }
  }

  /** log, then at most a fatal error. */
  ghost predicate LogsFatal(log: seq<Notice>, now: seq<Notice>) {
    now == log || (|now| == |log| + 1 && log <= now && now[|log|].FatalNotice?)
  }

  lemma DispatchLogs(m: State, ec: ErrorCode, settled: nat)
    requires settled <= |m.txDeque| && !Halted(m) && DispatchError(m, ec, settled).stopped
    ensures var n := DispatchError(m, ec, settled);
            n.wire == m.wire && n.posted == m.posted && LogsFatal(m.log, n.log)
  {
    hide Cancel;
  }

  lemma FatalWritesNothing(log: seq<Notice>, now: seq<Notice>)
    requires LogsFatal(log, now)
    ensures WrittenIn(now) == WrittenIn(log)
  {
    hide WrittenIn, SettledIn, BlocksIn;
    if now != log {
      assert now == log + [now[|log|]];
      LogSnoc(log, now[|log|]);
      EmptyRight(WrittenIn(log));
    }
  }

  lemma ReadFreezes(m: State, ec: ErrorCode, bytesRead: nat, generation: nat)
    requires HandleRead(m, ec, bytesRead, generation).stopped
    ensures Frozen(m, HandleRead(m, ec, bytesRead, generation))
  {
    hide DispatchError, LogsFatal, WrittenIn;
    var n := HandleRead(m, ec, bytesRead, generation);
    if !Halted(m) && generation == m.generation && !ec.NoError? {
      DispatchLogs(m, ec, 0);
      FatalWritesNothing(m.log, n.log);
    }
  }

  lemma WriteFreezes(m: State, ec: ErrorCode, generation: nat, between: seq<Step>)
    requires HandleWrite(m, ec, generation, between).stopped
    ensures Frozen(m, HandleWrite(m, ec, generation, between))
  {
    hide DispatchError, LogsFatal, WrittenIn, SettledIn, BlocksIn, Between;
    var n := HandleWrite(m, ec, generation, between);
    if !Halted(m) && generation == m.generation && m.txDeque != [] && !ec.NoError? {
      var failed := WriteNotice(Failed, m.txDeque[0], m.handlers.write);
      var s := Between(m.(pendingWrites := FetchSub(m.pendingWrites)), between).(log := m.log + [failed]);
      assert n == DispatchError(s, ec, 1);
      DispatchLogs(s, ec, 1);
      FatalWritesNothing(s.log, n.log);
      LogSnoc(m.log, failed);
      EmptyRight(WrittenIn(m.log));
    }
  }

  lemma FrozenFollows(m: State, n: State)
    requires WireFollows(m) && Frozen(m, n)
    ensures WireFollows(n)
  {
    hide WrittenIn, BytesOf;
    EmptyLog();
    if n.log != [] || n.wire != [] {
      var more := n.posted[|m.posted|..];
      assert n.posted == m.posted + more;
      BytesConcat(m.posted, more);
    }
  }

  /** The same over every run, through failures and closes: what has left is a prefix of what was posted. */
  lemma {:induction false} WireIsPostedPrefix(threads: nat, steps: seq<Step>)
    requires Disciplined(Init(threads), steps)
    ensures var m := After(Init(threads), steps); WrittenIn(m.log) <= m.posted && m.wire <= BytesOf(m.posted)
    decreases |steps|
  {
    hide Inv, Next, Frozen, DisciplinedStep, WrittenIn, BytesOf;
    var m := After(Init(threads), steps);
    RunsKeepInv(threads, steps);
    if steps == [] {
      EmptyLog();
    } else if !m.stopped {
      OpenWireFollows(m);
    } else {
      var front := steps[..|steps| - 1];
      WireIsPostedPrefix(threads, front);
      RunsKeepInv(threads, front);
      StoppedFreezes(After(Init(threads), front), steps[|steps| - 1]);
      FrozenFollows(After(Init(threads), front), m);
    }
  }

  // ----- Accepted writes: outcomes -----

  /** Everything the user was ever told, in order. */
  function Notices(m: State): seq<Notice> {
    m.earlier + m.log
  }

  lemma TicketsAreUnique(accepted: seq<Packet>, packet: Packet)
    requires forall t :: 0 <= t < |accepted| ==> accepted[t].ticket == t
    ensures multiset(accepted)[packet] == if packet in accepted then 1 else 0
  {
    if packet in accepted {
      var t :| 0 <= t < |accepted| && accepted[t] == packet;
      assert accepted == accepted[..t] + [packet] + accepted[t + 1..];
      assert packet !in accepted[..t] && packet !in accepted[t + 1..];
      assert multiset(accepted) == multiset(accepted[..t]) + multiset{packet} + multiset(accepted[t + 1..]);
    }
  }

  /** Every accepted write, and nothing else, is in exactly one place. */
  lemma OutcomePartition(m: State, packet: Packet)
    requires Reachable(m)
    ensures multiset(ClaimedIn(m.producers))[packet] + multiset(WaitingIn(m.queue))[packet]
            + multiset(m.txDeque)[packet] + multiset(m.discarded)[packet] + multiset(SettledIn(Notices(m)))[packet]
            == if packet in m.accepted then 1 else 0
  {
    hide Reachable, StrandInv, Counted, OpenQueued, Ordered, Bounded, ClaimedIn, WaitingIn, SettledIn;
    ReachableKeepsInv(m);
    TicketsAreUnique(m.accepted, packet);
    SettledConcat(m.earlier, m.log);
    assert Places(m)[packet] == multiset(m.accepted)[packet];
  }

  lemma SettledLast(log: seq<Notice>)
    requires log != []
    ensures SettledIn(log) == SettledIn(log[..|log| - 1]) + SettledOf(log[|log| - 1])
  {
  }

  lemma {:induction false} SettledMember(log: seq<Notice>, i: nat)
    requires i < |log| && log[i].WriteNotice?
    ensures multiset(SettledIn(log))[log[i].packet] >= 1
  {
    hide SettledIn;
    SettledLast(log);
    if i < |log| - 1 {
      SettledMember(log[..|log| - 1], i);
    }
  }

  lemma {:induction false} SettledTwice(log: seq<Notice>, i: nat, j: nat)
    requires i < j < |log| && log[i].WriteNotice? && log[j].WriteNotice? && log[i].packet == log[j].packet
    ensures multiset(SettledIn(log))[log[i].packet] >= 2
  {
    hide SettledIn;
    var front := log[..|log| - 1];
    SettledLast(log);
    assert log[i] == front[i];
    if j < |log| - 1 {
      SettledTwice(front, i, j);
    } else {
      SettledMember(front, i);
    }
  }

  /** No write is ever given two outcomes, in one session or in two. */
  lemma OneOutcomeEach(m: State, i: nat, j: nat)
    requires Reachable(m)
    requires var log := Notices(m); i < j < |log| && log[i].WriteNotice? && log[j].WriteNotice?
    ensures var log := Notices(m); log[i].packet != log[j].packet
  {
    hide Reachable, ClaimedIn, WaitingIn, SettledIn;
    var log := Notices(m);
    OutcomePartition(m, log[i].packet);
    if log[i].packet == log[j].packet {
      SettledTwice(log, i, j);
    }
  }

  // ----- Operations -----

  lemma {:induction false} CurrentMember(ops: seq<Op>, generation: nat)
    ensures Current(ops, generation) != [] ==>
              exists i :: 0 <= i < |ops| && ops[i].generation == generation
  {
    if Current(ops, generation) != [] {
      var last := |ops| - 1;
      if ops[last].generation != generation {
        CurrentMember(ops[..last], generation);
        var i :| 0 <= i < last && ops[..last][i].generation == generation;
        assert ops[i].generation == generation;
      }
    }
  }

  /** Two operations of one generation are two current ones. */
  lemma CurrentPair(ops: seq<Op>, i: nat, j: nat, generation: nat)
    requires i < j < |ops| && ops[i].generation == generation && ops[j].generation == generation
    ensures |Current(ops, generation)| >= 2
  {
    hide Current;
    CurrentAround(ops, j, generation);
    CurrentAround(ops[..j], i, generation);
  }

  ghost predicate OneOf(ops: seq<Op>, generation: nat, i: nat) {
    && i < |ops| && ops[i].generation == generation
    && forall j :: 0 <= j < |ops| && ops[j].generation == generation ==> j == i
  }

  lemma ExactlyOne(ops: seq<Op>, generation: nat) returns (i: nat)
    requires |Current(ops, generation)| == 1
    ensures OneOf(ops, generation, i) && Current(ops, generation) == [ops[i]]
  {
    hide Current;
    CurrentMember(ops, generation);
    i :| 0 <= i < |ops| && ops[i].generation == generation;
    forall j | 0 <= j < |ops| && ops[j].generation == generation ensures j == i {
      if i < j {
        CurrentPair(ops, i, j, generation);
      } else if j < i {
        CurrentPair(ops, j, i, generation);
      }
    }
    CurrentAround(ops, i, generation);
  }

  /**
    * While open, exactly one read is under way, and a write is under way exactly when the queue is not
    * empty: one write, of the front packet.
    */
  lemma SingleOperation(m: State)
    requires Reachable(m) && !m.stopped
    ensures exists i: nat :: OneOf(m.readOps, m.generation, i)
    ensures (exists i :: 0 <= i < |m.writeOps| && m.writeOps[i].generation == m.generation) <==> m.txDeque != []
    ensures m.txDeque != [] ==>
              exists i: nat :: OneOf(m.writeOps, m.generation, i) && m.writeOps[i].WriteOp?
                               && m.writeOps[i].packet == m.txDeque[0]
  {
    hide Reachable, Life, OpsOk, WritesInv, OnWire, Framed, Current;
    ReachableKeepsInv(m);
    var r := ExactlyOne(m.readOps, m.generation);
    if m.txDeque != [] {
      var w := ExactlyOne(m.writeOps, m.generation);
    } else if i :| 0 <= i < |m.writeOps| && m.writeOps[i].generation == m.generation {
      CurrentAround(m.writeOps, i, m.generation);
    }
  }

  /**
    * A completion passes the guards exactly when its operation was not cancelled, and then it belongs to
    * this session. Any other completion, whatever its code, only ends its operation. The transport never
    * terminates the process.
    */
  lemma SessionIsolation(m: State, i: nat, ec: ErrorCode, between: seq<Step>)
    requires Reachable(m)
    ensures i < |m.readOps| ==>
              && (m.readOps[i].cancelled <==> Halted(m) || m.readOps[i].generation != m.generation)
              && (!m.readOps[i].cancelled ==> m.readOps[i].session == m.session)
              && (m.readOps[i].cancelled ==>
                   Next(m, CompleteRead(i, ec)) == m.(readOps := Without(m.readOps, i)))
    ensures i < |m.writeOps| ==>
              && (m.writeOps[i].cancelled <==> Halted(m) || m.writeOps[i].generation != m.generation)
              && (!m.writeOps[i].cancelled ==> m.writeOps[i].session == m.session)
              && (m.writeOps[i].cancelled ==>
                   Next(m, CompleteWrite(i, ec, between)) == m.(writeOps := Without(m.writeOps, i)))
    ensures !m.broken
  {
    hide Reachable, WritesInv, OnWire, Framed, Current, Writing, DispatchError;
    ReachableKeepsInv(m);
  }

  /** An operation under way ends with an error of its own. */
  predicate Breaks(m: State, step: Step) {
    match step
    case CompleteRead(i, ec) => i < |m.readOps| && !m.readOps[i].cancelled && Spontaneous(ec)
    case CompleteWrite(i, ec, _) => i < |m.writeOps| && !m.writeOps[i].cancelled && Spontaneous(ec)
    case _ => false
  }

  predicate AllCancelled(ops: seq<Op>) {
    forall i :: 0 <= i < |ops| ==> ops[i].cancelled
  }

  predicate Tells(e: FatalError, ec: ErrorCode) {
    && (e.UnpluggedDevice? <==> ec.Eof?)
    && (e.PermissionDenied? <==> ec.NoPermission?)
    && (e.ExternallyClosedPort? <==> ec.BadDescriptor? || ec.NoSuchDevice?)
  }

  /** The transport has stopped after an error: both buffers are empty and every operation is cancelled. */
  ghost predicate Ended(n: State, operations: int) {
    && n.stopped && n.lifecycle.Faulted? && n.txDeque == [] && n.rxBuffer == []
    && AllCancelled(n.readOps) && AllCancelled(n.writeOps) && |n.readOps| + |n.writeOps| == operations
  }

  /**
    * Such an error ends the session: the port is cancelled and closed once, and with it every other operation;
    * a write that failed is reported first, and then the user is told once what happened. The rest of the queue
    * is discarded.
    */
  lemma ErrorEndsSession(m: State, step: Step) returns (e: FatalError)
    requires Reachable(m) && Breaks(m, step)
    ensures Tells(e, step.ec)
    ensures var n := Next(m, step); var fatal := FatalNotice(e, m.handlers.fatal);
            && Ended(n, |m.readOps| + |m.writeOps| - 1)
            && n.cancels == m.cancels + 1 && n.closes == m.closes + 1
            && if step.CompleteRead? then
                 n.log == m.log + [fatal] && n.pendingWrites == m.pendingWrites
                 && n.discarded == m.discarded + m.txDeque
               else
                 && m.txDeque != [] && n.pendingWrites == m.pendingWrites - 1 + |n.accepted| - |m.accepted|
                 && n.log == m.log + [WriteNotice(Failed, m.txDeque[0], m.handlers.write), fatal]
                 && n.discarded == m.discarded + m.txDeque[1..]
  {
    hide Reachable, Inv, DispatchError, Ended, ReadSize, Between;
    ReachableKeepsInv(m);
    e := ClarifyFatalError(step.ec).value;
    UncancelledIsLive(m, step);
    if step.CompleteRead? {
      DispatchEnds(m.(readOps := Without(m.readOps, step.i)), step.ec, 0);
    } else {
      LiveWriteFront(m, step.i);
      LiveWriteIsCounted(m, step.i);
      var failed := WriteNotice(Failed, m.txDeque[0], m.handlers.write);
      var s := Between(m.(writeOps := Without(m.writeOps, step.i), pendingWrites := m.pendingWrites - 1), step.between);
      FinishKeepsCounter(s, step.ec);
      DispatchEnds(s.(log := m.log + [failed]), step.ec, 1);
    }
  }

  lemma DispatchEnds(m: State, ec: ErrorCode, settled: nat)
    requires settled <= |m.txDeque| && Spontaneous(ec)
    ensures var n := DispatchError(m, ec, settled);
            && Ended(n, |m.readOps| + |m.writeOps|) && n.pendingWrites == m.pendingWrites
            && n.cancels == m.cancels + 1 && n.closes == m.closes + 1
            && n.log == m.log + [FatalNotice(ClarifyFatalError(ec).value, m.handlers.fatal)]
            && n.discarded == m.discarded + m.txDeque[settled..]
  {
  }

  lemma UncancelledIsLive(m: State, step: Step)
    requires Inv(m) && Breaks(m, step)
    ensures !Halted(m)
    ensures step.CompleteRead? ==> m.readOps[step.i].generation == m.generation
    ensures step.CompleteWrite? ==> m.writeOps[step.i].generation == m.generation && m.writeOps[step.i].WriteOp?
  {
    hide WritesInv, OnWire, Framed, Current, Writing;
  }

  // ----- Writes without an outcome -----

  /** The queued writes that a step loses: they get no outcome. */
  function LostBy(m: State, step: Step): seq<Packet> {
    match step
    case RunNext(_) =>
      if m.queue != [] && !m.closing && (m.queue[0].CloseEvent? || m.queue[0].OpenEvent?) then m.txDeque else []
    case CompleteRead(i, ec) => if i < |m.readOps| && !m.readOps[i].cancelled && Spontaneous(ec) then m.txDeque else []
    case CompleteWrite(i, ec, _) =>
      if i < |m.writeOps| && !m.writeOps[i].cancelled && Spontaneous(ec) && m.txDeque != [] then m.txDeque[1..] else []
    case _ => []
  }

  /**
    * The queue is lost whole when the transport closes and when a read fails, all but its front when a write
    * fails, and never otherwise.
    */
  lemma DiscardedExactly(m: State, step: Step)
    requires Reachable(m)
    ensures Next(m, step).discarded == m.discarded + LostBy(m, step)
  {
    hide Reachable, Inv, Next, LostBy;
    ReachableKeepsInv(m);
    match step
    case RunNext(openOk) => RunDiscards(m, openOk);
    case CompleteRead(i, ec) => CompleteReadDiscards(m, i, ec);
    case CompleteWrite(i, ec, between) => CompleteWriteDiscards(m, i, ec, between);
    case _ => OffStrandDiscards(m, step);
  }

  lemma OffStrandDiscards(m: State, step: Step)
    requires OffStrand(step)
    ensures Next(m, step).discarded == m.discarded + LostBy(m, step)
  {
    hide Next;
    OffStrandStep(m, step);
    EmptyRight(m.discarded);
  }

  lemma RunDiscards(m: State, openOk: bool)
    ensures Next(m, RunNext(openOk)).discarded == m.discarded + LostBy(m, RunNext(openOk))
  {
    hide RunEvent;
    EmptyRight(m.discarded);
    if m.queue != [] {
      EventDiscards(m.(queue := m.queue[1..]), m.queue[0], openOk);
    }
  }

  lemma CompleteReadDiscards(m: State, i: nat, ec: ErrorCode)
    requires Inv(m)
    ensures Next(m, CompleteRead(i, ec)).discarded == m.discarded + LostBy(m, CompleteRead(i, ec))
  {
    hide Inv, Without, ReadSize, HandleRead;
    EmptyRight(m.discarded);
    if i < |m.readOps| && ReadMayReport(m, m.readOps[i], ec) {
      GuardsOfRead(m, i);
      ReadDiscards(m.(readOps := Without(m.readOps, i)), ec, ReadSize(m), m.readOps[i].generation);
    }
  }

  lemma CompleteWriteDiscards(m: State, i: nat, ec: ErrorCode, between: seq<Step>)
    requires Inv(m)
    ensures var step := CompleteWrite(i, ec, between); Next(m, step).discarded == m.discarded + LostBy(m, step)
  {
    hide Inv, Without, HandleWrite;
    EmptyRight(m.discarded);
    if i < |m.writeOps| && WriteMayReport(m.writeOps[i], ec) {
      GuardsOfWrite(m, i);
      WriteMayFail(m, i, ec);
      WriteDiscards(m.(writeOps := Without(m.writeOps, i)), ec, m.writeOps[i].generation, between);
    }
  }

  lemma GuardsOfRead(m: State, i: nat)
    requires Inv(m) && i < |m.readOps|
    ensures m.readOps[i].cancelled <==> Halted(m) || m.readOps[i].generation != m.generation
  {
    hide WritesInv, OnWire, Framed, Current, Writing;
  }

  lemma GuardsOfWrite(m: State, i: nat)
    requires Inv(m) && i < |m.writeOps|
    ensures m.writeOps[i].WriteOp?
    ensures m.writeOps[i].cancelled <==> Halted(m) || m.writeOps[i].generation != m.generation
  {
    hide WritesInv, OnWire, Framed, Current, Writing;
  }

  lemma EventDiscards(m: State, event: Event, openOk: bool)
    ensures RunEvent(m, event, openOk).discarded
         == m.discarded + if !m.closing && (event.CloseEvent? || event.OpenEvent?) then m.txDeque else []
  {
    hide Cancel;
    EmptyRight(m.discarded);
  }

  lemma DispatchDiscards(m: State, ec: ErrorCode, settled: nat)
    requires settled <= |m.txDeque|
    ensures DispatchError(m, ec, settled).discarded
         == m.discarded + if ec.NotFound? then [] else m.txDeque[settled..]
  {
    hide Cancel;
    EmptyRight(m.discarded);
  }

  lemma ReadDiscards(m: State, ec: ErrorCode, bytesRead: nat, generation: nat)
    ensures HandleRead(m, ec, bytesRead, generation).discarded
         == m.discarded + if !Halted(m) && generation == m.generation && !ec.NoError? && !ec.NotFound? then m.txDeque
                          else []
  {
    hide DispatchError;
    EmptyRight(m.discarded);
    if !Halted(m) && generation == m.generation && !ec.NoError? {
      DispatchDiscards(m, ec, 0);
    }
  }

  lemma WriteDiscards(m: State, ec: ErrorCode, generation: nat, between: seq<Step>)
    requires generation == m.generation ==> !ec.NotFound?
    ensures HandleWrite(m, ec, generation, between).discarded
         == m.discarded + if !Halted(m) && generation == m.generation && m.txDeque != [] && !ec.NoError?
                          then m.txDeque[1..] else []
  {
    hide DispatchError, Between;
    EmptyRight(m.discarded);
    if !Halted(m) && generation == m.generation && m.txDeque != [] && !ec.NoError? {
      var s := Between(m.(pendingWrites := FetchSub(m.pendingWrites)), between);
      DispatchDiscards(s.(log := m.log + [WriteNotice(Failed, m.txDeque[0], m.handlers.write)]), ec, 1);
    }
  }

  /** The write is claimed, posted or queued. */
  ghost predicate UnderWay(m: State, packet: Packet) {
    packet in ClaimedIn(m.producers) || packet in WaitingIn(m.queue) || packet in m.txDeque
  }

  /** Once it is no longer under way, an accepted write has an outcome exactly if it was not discarded. */
  lemma SettledIffNotDiscarded(m: State, packet: Packet)
    requires Reachable(m) && packet in m.accepted && !UnderWay(m, packet)
    ensures packet in SettledIn(Notices(m)) <==> packet !in m.discarded
  {
    hide Reachable, ClaimedIn, WaitingIn, SettledIn, Notices;
    OutcomePartition(m, packet);
  }

  /** Some step of the run from m lost the write. */
  ghost predicate LostIn(m: State, steps: seq<Step>, packet: Packet) {
    exists k :: 0 <= k < |steps| && packet in LostBy(After(m, steps[..k]), steps[k])
  }

  lemma LostInLast(m: State, front: seq<Step>, step: Step, packet: Packet)
    ensures LostIn(m, front + [step], packet) <==> LostIn(m, front, packet) || packet in LostBy(After(m, front), step)
  {
    hide After, LostBy;
    var steps := front + [step];
    assert steps[..|front|] == front && steps[|front|] == step;
    forall k | 0 <= k < |front| ensures steps[..k] == front[..k] && steps[k] == front[k] {
    }
  }

  /** A write was discarded exactly if some step of the run lost it. */
  lemma {:induction false} DiscardedIff(threads: nat, steps: seq<Step>, packet: Packet)
    requires Disciplined(Init(threads), steps)
    ensures packet in After(Init(threads), steps).discarded <==> LostIn(Init(threads), steps, packet)
    decreases |steps|
  {
    hide After, Next, LostBy, DisciplinedStep, LostIn;
    var m0 := Init(threads);
    if steps == [] {
      NothingLost(threads, packet);
    } else {
      var front, step := steps[..|steps| - 1], steps[|steps| - 1];
      FrontLast(steps);
      DiscardedIff(threads, front, packet);
      assert Reachable(After(m0, front));
      DiscardedExactly(After(m0, front), step);
      AfterSnoc(m0, front, step);
      LostInLast(m0, front, step, packet);
    }
  }

  lemma NothingLost(threads: nat, packet: Packet)
    ensures packet !in After(Init(threads), []).discarded && !LostIn(Init(threads), [], packet)
  {
  }

  /** So, over any run, an accepted write no longer under way has no outcome exactly if some step lost it. */
  lemma NoOutcomeIff(threads: nat, steps: seq<Step>, packet: Packet)
    requires Disciplined(Init(threads), steps)
    requires var m := After(Init(threads), steps); packet in m.accepted && !UnderWay(m, packet)
    ensures packet !in SettledIn(Notices(After(Init(threads), steps))) <==> LostIn(Init(threads), steps, packet)
  {
    hide After, LostIn, SettledIn, Notices, UnderWay, Disciplined;
    assert Reachable(After(Init(threads), steps));
    SettledIffNotDiscarded(After(Init(threads), steps), packet);
    DiscardedIff(threads, steps, packet);
  }

  // ----- Lifecycle -----

  /** Between two handlers isOpen tells exactly whether the transport accepts writes. */
  lemma OpenIffRunning(m: State)
    requires Reachable(m)
    ensures m.lifecycle.Open? <==> !m.stopped && !m.closing
  {
    hide Reachable, WritesInv, ReadsOk, WritesOk, OnWire, Framed;
    ReachableKeepsInv(m);
  }

  /** Between m and n the user is told nothing but Cancelled. */
  ghost predicate Quiet(m: State, n: State) {
    && Notices(m) <= Notices(n)
    && forall k :: |Notices(m)| <= k < |Notices(n)| ==> Notices(n)[k].WriteNotice? && Notices(n)[k].result.Cancelled?
  }

  lemma QuietTrans(m: State, n: State, p: State)
    requires Quiet(m, n) && Quiet(n, p)
    ensures Quiet(m, p)
  {
    hide Notices;
  }

  /** A stopped transport leaves that state only by a successful open, and says only Cancelled. */
  ghost predicate StaysStopped(m: State, n: State) {
    && n.opens >= m.opens
    && (n.opens == m.opens ==> n.stopped && Quiet(m, n))
    && (m.closing ==> n.opens == m.opens && n.closing && n.lifecycle == m.lifecycle
                      && n.cancels == m.cancels && n.closes == m.closes && n.discarded == m.discarded)
  }

  lemma SilentStays(m: State, n: State)
    requires m.stopped && Silent(m, n)
    ensures StaysStopped(m, n)
  {
    QuietSelf(m);
  }

  lemma StoppedEvent(m: State, event: Event, openOk: bool)
    requires m.stopped
    ensures StaysStopped(m, RunEvent(m, event, openOk))
  {
    hide Cancel, DoWrite;
    var n := RunEvent(m, event, openOk);
    match event
    case OpenEvent(config) => EmptyRight(m.earlier + m.log);
    case CloseEvent => QuietSelf(m);
    case SetHandlerEvent(kind, present) => SilentStays(m, n);
    case WriteEvent(packet) => Associate(m.earlier, m.log, [WriteNotice(Cancelled, packet, m.handlers.write)]);
  }

  lemma StaysTrans(m: State, n: State, p: State)
    requires StaysStopped(m, n) && n.opens == m.opens && StaysStopped(n, p)
    ensures StaysStopped(m, p)
  {
    hide Quiet;
    if p.opens == m.opens {
      QuietTrans(m, n, p);
    }
  }

  lemma StoppedStep(m: State, step: Step)
    requires m.stopped
    ensures StaysStopped(m, Next(m, step))
  {
    hide Without, ReadSize, ReadMayReport, WriteMayReport, RunEvent, StaysStopped;
    if OffStrand(step) {
      OffStrandStep(m, step);
      SilentStays(m, Next(m, step));
    } else if step.RunNext? && m.queue != [] {
      var rest := m.(queue := m.queue[1..]);
      SilentStays(m, rest);
      StoppedEvent(rest, m.queue[0], step.openOk);
      StaysTrans(m, rest, Next(m, step));
    } else {
      SilentStays(m, Next(m, step));
    }
  }

  lemma OpensGrow(m: State, steps: seq<Step>)
    ensures After(m, steps).opens >= m.opens
    decreases |steps|
  {
    if steps != [] {
      OpensGrow(m, steps[..|steps| - 1]);
      OpensStep(After(m, steps[..|steps| - 1]), steps[|steps| - 1]);
    }
  }

  lemma OpensStep(m: State, step: Step)
    ensures Next(m, step).opens >= m.opens
  {
    hide Without, ReadSize, ReadMayReport, WriteMayReport, HandleRead, HandleWrite, RunEvent;
    match step
    case RunNext(openOk) => if m.queue != [] { OpensEvent(m.(queue := m.queue[1..]), m.queue[0], openOk); }
    case CompleteRead(i, ec) =>
      if i < |m.readOps| {
        OpensRead(m.(readOps := Without(m.readOps, i)), ec, ReadSize(m), m.readOps[i].generation);
      }
    case CompleteWrite(i, ec, between) =>
      if i < |m.writeOps| {
        OpensWrite(m.(writeOps := Without(m.writeOps, i)), ec, m.writeOps[i].generation, between);
      }
    case _ => OffStrandStep(m, step);
  }

  lemma OpensEvent(m: State, event: Event, openOk: bool)
    ensures RunEvent(m, event, openOk).opens >= m.opens
  {
    hide Cancel;
  }

  lemma OpensRead(m: State, ec: ErrorCode, bytesRead: nat, generation: nat)
    ensures HandleRead(m, ec, bytesRead, generation).opens == m.opens
  {
    hide Cancel;
  }

  lemma OpensWrite(m: State, ec: ErrorCode, generation: nat, between: seq<Step>)
    ensures HandleWrite(m, ec, generation, between).opens == m.opens
  {
    hide Cancel, Between;
  }

  lemma {:induction false} StoppedRun(m: State, steps: seq<Step>)
    requires m.stopped && After(m, steps).opens == m.opens
    ensures After(m, steps).stopped && Quiet(m, After(m, steps))
    decreases |steps|
  {
    hide Next, Quiet;
    if steps == [] {
      QuietSelf(m);
    } else {
      var front := steps[..|steps| - 1];
      var n := After(m, front);
      OpensGrow(m, front);
      OpensStep(n, steps[|steps| - 1]);
      StoppedRun(m, front);
      StoppedStep(n, steps[|steps| - 1]);
      QuietTrans(m, n, After(m, steps));
    }
  }

  lemma QuietSelf(m: State)
    ensures Quiet(m, m)
  {
  }

  /** The step from m to n tells the user that a write failed. */
  ghost predicate Fails(m: State, n: State) {
    exists k :: |Notices(m)| <= k < |Notices(n)| && IsFailed(Notices(n)[k])
  }

  /** After the handler that reports a failed write, nothing but Cancelled follows until the next successful open. */
  lemma FailedThenCancelled(m: State, step: Step, after: seq<Step>)
    requires Reachable(m) && Fails(m, Next(m, step))
    requires After(Next(m, step), after).opens == Next(m, step).opens
    ensures var n := Next(m, step);
            n.stopped && After(n, after).stopped && Quiet(n, After(n, after))
  {
    hide Reachable, After, Inv, Next, Fails, Quiet;
    ReachableKeepsInv(m);
    FailureStops(m, step);
    StoppedRun(Next(m, step), after);
  }

  lemma FailureStops(m: State, step: Step)
    requires Inv(m) && Fails(m, Next(m, step))
    ensures Next(m, step).stopped
  {
    hide Inv, Without, ReadSize, HandleRead, HandleWrite, RunEvent, ReadMayReport, WriteMayReport;
    match step
    case RunNext(openOk) => if m.queue != [] { EventFailsNothing(m.(queue := m.queue[1..]), m.queue[0], openOk); }
    case CompleteRead(i, ec) =>
      if i < |m.readOps| {
        ReadFailsNothing(m.(readOps := Without(m.readOps, i)), ec, ReadSize(m), m.readOps[i].generation);
      }
    case CompleteWrite(i, ec, between) =>
      if i < |m.writeOps| && WriteMayReport(m.writeOps[i], ec) {
        WriteMayFail(m, i, ec);
        FailedWriteStops(m.(writeOps := Without(m.writeOps, i)), ec, m.writeOps[i].generation, between);
      }
    case _ => OffStrandStep(m, step);
  }

  lemma EventFailsNothing(m: State, event: Event, openOk: bool)
    ensures !Fails(m, RunEvent(m, event, openOk))
  {
    hide Cancel;
  }

  lemma ReadFailsNothing(m: State, ec: ErrorCode, bytesRead: nat, generation: nat)
    ensures !Fails(m, HandleRead(m, ec, bytesRead, generation))
  {
    hide Cancel;
  }

  lemma FailedWriteStops(m: State, ec: ErrorCode, generation: nat, between: seq<Step>)
    requires generation == m.generation ==> !ec.NotFound?
    ensures Fails(m, HandleWrite(m, ec, generation, between)) ==> HandleWrite(m, ec, generation, between).stopped
  {
    hide Cancel, Between;
  }

  lemma WriteMayFail(m: State, i: nat, ec: ErrorCode)
    requires Inv(m) && i < |m.writeOps| && WriteMayReport(m.writeOps[i], ec)
    ensures m.writeOps[i].generation == m.generation ==> !ec.NotFound?
  {
    hide Inv;
    if m.writeOps[i].generation == m.generation {
      LiveWriteUncancelled(m, i);
    }
  }

  lemma LiveWriteUncancelled(m: State, i: nat)
    requires Inv(m) && i < |m.writeOps| && m.writeOps[i].generation == m.generation
    ensures !m.writeOps[i].cancelled && m.writeOps[i].WriteOp?
  {
    hide StrandInv, WritesInv;
    LiveWriteNotCancelled(m, i);
    LiveWriteIsFront(m, i);
  }

  /**
    * Once the transport has closed it stays closed: later runs of the close do nothing, and over every
    * continuation, disciplined or not, the user is told nothing but Cancelled.
    */
  lemma {:induction false} CloseIsAbsorbing(m: State, steps: seq<Step>)
    requires !m.closing
    ensures var c := CloseOnStrand(m);
            var n := After(c, steps);
            && n.closing && n.stopped && n.lifecycle == Lifecycle.Closed
            && n.cancels == m.cancels + 1 && n.closes == m.closes + 1 && n.opens == m.opens
            && n.discarded == m.discarded + m.txDeque
            && Quiet(c, n)
    decreases |steps|
  {
    hide Next, Quiet;
    var c := CloseOnStrand(m);
    if steps == [] {
      QuietSelf(c);
    } else {
      var front := steps[..|steps| - 1];
      CloseIsAbsorbing(m, front);
      StoppedStep(After(c, front), steps[|steps| - 1]);
      QuietTrans(c, After(c, front), After(c, steps));
    }
  }

  // ----- Sessions -----

  /** When an open runs, no accepted write is claimed, posted or queued: none reaches the next session. */
  lemma NoWriteSurvivesOpen(m: State)
    requires Reachable(m)
    requires m.queue != [] && m.queue[0].OpenEvent?
    ensures m.stopped && ClaimedIn(m.producers) == [] && WaitingIn(m.queue) == [] && m.txDeque == []
  {
    hide Reachable, Inv, ClaimedIn, WaitingIn;
    ReachableKeepsInv(m);
    OpenMeetsNoWrite(m);
    NoneClaimed(m.producers);
    PopWaiting(m.queue);
    NoneWaiting(m.queue[1..]);
    StoppedIsEmpty(m);
  }

  lemma StoppedIsEmpty(m: State)
    requires Inv(m) && m.stopped
    ensures m.txDeque == [] && m.rxBuffer == []
  {
    hide WritesInv, ReadsOk, WritesOk, OnWire, Framed;
  }
}
