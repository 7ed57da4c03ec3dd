/** Why the discipline on open, and the assumption about not_found, are needed. */
module TransportLimits {
  import opened Sequences
  import opened Framing
  import opened Sizes
  import opened TransportModel
  import opened TransportLists
  import opened TransportInvariant
  import opened TransportSteps
  import opened TransportTheorems

  /** The counter counts the writes under way. */
  ghost predicate Conserves(m: State) {
    m.pendingWrites == |ClaimedIn(m.producers)| + |WaitingIn(m.queue)| + |m.txDeque|
  }

  /** open sets the counter to zero, so it conserves exactly when nothing is claimed or posted by then. */
  lemma OpenConservesIff(m: State, config: BufferConfig, ok: bool)
    requires !m.closing
    ensures Conserves(RunOpen(m, config, ok))
        <==> (forall p :: 0 <= p < |m.producers| ==> !m.producers[p].Claimed?)
             && (forall k :: 0 <= k < |m.queue| ==> !m.queue[k].WriteEvent?)
  {
    hide ClaimedIn, WaitingIn;
    NoClaims(m.producers);
    NoWaits(m.queue);
  }

  lemma NoClaims(producers: seq<Producer>)
    ensures ClaimedIn(producers) == [] <==> forall p :: 0 <= p < |producers| ==> !producers[p].Claimed?
  {
    hide ClaimedIn;
    forall p | 0 <= p < |producers| && producers[p].Claimed? ensures ClaimedIn(producers) != [] {
      ClaimedMember(producers, producers[p].packet);
    }
    if ClaimedIn(producers) != [] {
      ClaimedMember(producers, ClaimedIn(producers)[0]);
    }
  }

  lemma {:induction false} NoWaits(queue: seq<Event>)
    ensures WaitingIn(queue) == [] <==> forall k :: 0 <= k < |queue| ==> !queue[k].WriteEvent?
  {
    if queue != [] {
      NoWaits(queue[1..]);
      assert queue == [queue[0]] + queue[1..];
    }
  }

  // ----- A write posted behind a queued open -----

  /** The counter has wrapped around, though no write is posted or queued. */
  predicate Wrapped(m: State) { m.pendingWrites == SIZE_RANGE - 1 && m.queue == [] && m.txDeque == [] }

  /** Every open that these steps run has this outcome. */
  ghost predicate OpensGo(steps: seq<Step>, ok: bool) {
    forall i :: 0 <= i < |steps| && steps[i].RunNext? ==> steps[i].openOk == ok
  }

  function Behind(m: State, p: nat, ok: bool): (steps: seq<Step>)
    requires p < |m.producers| && m.producers[p].Claimed?
    ensures OpensGo(steps, ok)
  {
    [PostStep(p), RunNext(ok)]
    + if ok then
        [RunNext(true), Transmit(|m.writeOps|, |m.producers[p].packet.bytes|)]
        + [CompleteWrite(|m.writeOps|, NoError, [])]
      else [RunNext(false)]
  }

  /**
    * A write claimed while an open is queued is posted behind it. If the open succeeds, the write is written
    * uncounted; if it fails, the write is cancelled uncounted.
    */
  lemma BehindOpenWraps(m: State, p: nat, config: BufferConfig, ok: bool)
    requires !m.closing && m.queue == [OpenEvent(config)] && p < |m.producers| && m.producers[p].Claimed?
    ensures Wrapped(After(m, Behind(m, p, ok)))
  {
    hide After, Next;
    var packet := m.producers[p].packet;
    var k := |m.writeOps|;
    var first := [PostStep(p), RunNext(ok)];
    var n := After(m, first);
    if ok {
      var second, third := [RunNext(true), Transmit(k, |packet.bytes|)], [CompleteWrite(k, NoError, [])];
      PostAndOpen(m, p, config);
      WriteAndTransmit(n, packet);
      var w := After(n, second);
      CompleteUncounted(w, k, packet);
      AfterConcat(n, second, third);
      AfterConcat(m, first, second + third);
    } else {
      PostAndFail(m, p, config);
      CancelUncounted(n, packet);
      AfterConcat(m, first, [RunNext(false)]);
    }
  }

  /** A transport whose open has just failed, with one write posted behind it. */
  predicate Refused(n: State, packet: Packet) {
    n.stopped && n.txDeque == [] && n.pendingWrites == 0 && n.queue == [WriteEvent(packet)]
  }

  lemma PostAndFail(m: State, p: nat, config: BufferConfig)
    requires !m.closing && m.queue == [OpenEvent(config)] && p < |m.producers| && m.producers[p].Claimed?
    ensures Refused(After(m, [PostStep(p), RunNext(false)]), m.producers[p].packet)
  {
    hide After;
    AfterTwo(m, PostStep(p), RunNext(false));
    var packet := m.producers[p].packet;
    var a := Next(m, PostStep(p));
    assert a.queue == [OpenEvent(config), WriteEvent(packet)] && !a.closing;
    assert a.queue[1..] == [WriteEvent(packet)];
  }

  lemma CancelUncounted(n: State, packet: Packet)
    requires Refused(n, packet)
    ensures Wrapped(After(n, [RunNext(false)]))
  {
    hide After;
    AfterOne(n, RunNext(false));
  }

  /** A session just opened, with one write posted behind the open. */
  predicate Uncounted(n: State, packet: Packet, ops: nat) {
    !Halted(n) && n.txDeque == [] && n.pendingWrites == 0 && n.queue == [WriteEvent(packet)] && |n.writeOps| == ops
  }

  lemma PostAndOpen(m: State, p: nat, config: BufferConfig)
    requires !m.closing && m.queue == [OpenEvent(config)] && p < |m.producers| && m.producers[p].Claimed?
    ensures Uncounted(After(m, [PostStep(p), RunNext(true)]), m.producers[p].packet, |m.writeOps|)
  {
    hide After;
    AfterTwo(m, PostStep(p), RunNext(true));
    var packet := m.producers[p].packet;
    var a := Next(m, PostStep(p));
    assert a.queue == [OpenEvent(config), WriteEvent(packet)] && a.writeOps == m.writeOps && !a.closing;
    assert a.queue[1..] == [WriteEvent(packet)];
  }

  lemma WriteAndTransmit(n: State, packet: Packet)
    requires Uncounted(n, packet, |n.writeOps|)
    ensures var k := |n.writeOps|;
            var w := After(n, [RunNext(true), Transmit(k, |packet.bytes|)]);
            && !Halted(w) && w.txDeque == [packet] && w.pendingWrites == 0 && w.queue == []
            && w.writeOps == n.writeOps + [WriteOp(w.generation, w.session, false, packet, |packet.bytes|)]
  {
    hide After;
    var k := |n.writeOps|;
    AfterTwo(n, RunNext(true), Transmit(k, |packet.bytes|));
    var a := Next(n, RunNext(true));
    assert a.txDeque == [packet];
    assert a.writeOps == n.writeOps + [WriteOp(n.generation, n.session, false, packet, 0)];
  }

  lemma CompleteUncounted(w: State, k: nat, packet: Packet)
    requires !Halted(w) && w.txDeque == [packet] && w.pendingWrites == 0 && w.queue == [] && k < |w.writeOps|
    requires w.writeOps[k] == WriteOp(w.generation, w.session, false, packet, |packet.bytes|)
    ensures Wrapped(After(w, [CompleteWrite(k, NoError, [])]))
  {
    hide After, Without;
    AfterOne(w, CompleteWrite(k, NoError, []));
  }

  /** A thread that is past asyncWrite's check can claim a slot. */
  lemma ClaimsSlot(m: State, p: nat)
    requires p < |m.producers| && m.producers[p].Checked? && m.pendingWrites < m.config.txMaxElementsInQueue
    ensures var n := After(m, [LoadStep(p), ClaimStep(p, false)]);
            && p < |n.producers| && n.producers[p].Claimed? && n.queue == m.queue && n.closing == m.closing
  {
    hide After, Next;
    AfterTwo(m, LoadStep(p), ClaimStep(p, false));
    LoadsCounter(m, p);
    ClaimsLoaded(Next(m, LoadStep(p)), p);
  }

  lemma LoadsCounter(m: State, p: nat)
    requires p < |m.producers| && m.producers[p].Checked?
    ensures var loaded := Loaded(m.producers[p].bytes, m.producers[p].packetId, m.pendingWrites);
            Next(m, LoadStep(p)) == m.(producers := m.producers[p := loaded])
  {
  }

  lemma ClaimsLoaded(m: State, p: nat)
    requires p < |m.producers| && m.producers[p].Loaded? && m.producers[p].observed == m.pendingWrites
    requires m.pendingWrites < m.config.txMaxElementsInQueue
    ensures var n := Next(m, ClaimStep(p, false));
            && p < |n.producers| && n.producers[p].Claimed? && n.queue == m.queue && n.closing == m.closing
  {
  }

  /** Whenever a thread is past the check while an open is queued, some continuation wraps the counter around. */
  lemma ThreadPastCheckWraps(m: State, p: nat, config: BufferConfig, ok: bool) returns (steps: seq<Step>)
    requires !m.closing && m.queue == [OpenEvent(config)] && p < |m.producers| && m.producers[p].Checked?
    requires m.pendingWrites < m.config.txMaxElementsInQueue
    ensures OpensGo(steps, ok) && Wrapped(After(m, steps))
  {
    hide After, Next, Wrapped, Behind;
    ClaimsSlot(m, p);
    var first := [LoadStep(p), ClaimStep(p, false)];
    var n := After(m, first);
    BehindOpenWraps(n, p, config, ok);
    steps := first + Behind(n, p, ok);
    AfterConcat(m, first, Behind(n, p, ok));
  }

  /**
    * First clause: an open requested while open, with room for a write and a thread to send one. It wraps the
    * counter around if the port takes the second open, and if it refuses it.
    */
  lemma OpenWhileOpenWraps(m: State, p: nat, config: BufferConfig, ok: bool) returns (steps: seq<Step>)
    requires Inv(m) && !m.stopped && m.queue == [] && p < |m.producers| && m.producers[p].Away?
    requires m.pendingWrites < m.config.txMaxElementsInQueue
    ensures OpensGo(steps, ok) && Wrapped(After(m, [Request(OpenEvent(config))] + steps))
  {
    hide After, Wrapped, StrandInv, WritesInv;
    StrandFacts(m);
    var first := [Request(OpenEvent(config)), CheckStep(p, [], 0)];
    AfterTwo(m, first[0], first[1]);
    var n := After(m, first);
    var rest := ThreadPastCheckWraps(n, p, config, ok);
    steps := [first[1]] + rest;
    AfterConcat(m, first, rest);
    assert [first[0]] + steps == first + rest;
  }

  /** Second clause: an open requested behind another one that will succeed, whatever becomes of the second. */
  lemma OpenBehindOpenWraps(m: State, p: nat, config: BufferConfig, config': BufferConfig, ok: bool)
    returns (steps: seq<Step>)
    requires m.stopped && !m.closing && m.queue == [OpenEvent(config)] && p < |m.producers| && m.producers[p].Away?
    requires config.txMaxElementsInQueue > 0
    ensures steps != [] && steps[0] == RunNext(true) && OpensGo(steps[1..], ok)
    ensures Wrapped(After(m, [Request(OpenEvent(config'))] + steps))
  {
    hide After, Wrapped;
    var first, second := [Request(OpenEvent(config')), RunNext(true)], [CheckStep(p, [], 0)];
    AfterTwo(m, first[0], first[1]);
    var a := Next(m, first[0]);
    assert a.queue == [OpenEvent(config), OpenEvent(config')] && a.queue[1..] == [OpenEvent(config')];
    var n := After(m, first);
    AfterOne(n, second[0]);
    var c := After(n, second);
    assert c.queue == [OpenEvent(config')] && c.producers[p].Checked? && c.pendingWrites == 0 && c.config == config;
    var rest := ThreadPastCheckWraps(c, p, config', ok);
    steps := [first[1]] + second + rest;
    AfterConcat(m, first, second);
    AfterConcat(m, first + second, rest);
    assert [first[0]] + steps == first + second + rest;
    assert steps[1..] == second + rest;
  }

  /** Third clause: an open requested while a thread is past the check, whatever becomes of it. */
  lemma OpenPastCheckWraps(m: State, p: nat, config: BufferConfig, ok: bool) returns (steps: seq<Step>)
    requires !m.closing && m.queue == [] && p < |m.producers| && m.producers[p].Checked?
    requires m.pendingWrites < m.config.txMaxElementsInQueue
    ensures OpensGo(steps, ok) && Wrapped(After(m, [Request(OpenEvent(config))] + steps))
  {
    hide After, Wrapped;
    var first := [Request(OpenEvent(config))];
    AfterOne(m, first[0]);
    steps := ThreadPastCheckWraps(After(m, first), p, config, ok);
    AfterConcat(m, first, steps);
  }

  // ----- Fourth clause: a receive buffer that can hold nothing -----

  /**
    * With no room, a read under way never receives an octet, and can end in two ways only: with a fatal error,
    * or with a recoverable report of an empty block, after which the same holds of the next read.
    */
  lemma NoRoomToReceive(m: State, i: nat, ec: ErrorCode, chunk: seq<Octet>)
    requires m.config.rxBufferMaxSize == 0 && m.rxBuffer == [] && !Halted(m)
    requires i < |m.readOps| && !m.readOps[i].cancelled && m.readOps[i].generation == m.generation
    ensures ReceiveChunk(m, chunk) == m
    ensures ReadMayReport(m, m.readOps[i], ec) <==> ec.NotFound? || Spontaneous(ec)
    ensures ec.NotFound? ==>
              Next(m, CompleteRead(i, ec))
              == m.(readOps := Without(m.readOps, i) + [ReadOp(m.generation, m.session, false)],
                    log := m.log + [RecoverableNotice(RxBufferFull, [], m.handlers.recuperable)])
  {
    hide Without;
    EmptyRight(m.rxBuffer);
    EmptyRight(m.received);
  }

  /** A read that has nothing yet can receive something exactly if the buffer has room. */
  lemma CanReceiveIff(m: State)
    requires LiveRead(m) && m.rxBuffer == []
    ensures (exists chunk :: chunk != [] && ReceiveChunk(m, chunk) != m) <==> m.config.rxBufferMaxSize > 0
  {
    if m.config.rxBufferMaxSize > 0 {
      assert ReceiveChunk(m, [1]).rxBuffer == [1];
    }
  }

  // ----- not_found from a write -----

  /**
    * Were a live write to report not_found, its packet would be called failed and stay at the front of the
    * queue with no write under way, next to two reads.
    */
  lemma NotFoundFromWrite(m: State, i: nat, between: seq<Step>)
    requires Inv(m) && i < |m.writeOps| && m.writeOps[i].generation == m.generation
    ensures var n := HandleWrite(m.(writeOps := Without(m.writeOps, i)), NotFound, m.generation, between);
            && !n.stopped && n.txDeque == m.txDeque && n.txDeque != []
            && Current(n.writeOps, n.generation) == [] && |Current(n.readOps, n.generation)| == 2
            && WriteNotice(Failed, n.txDeque[0], m.handlers.write) in n.log
  {
    hide WritesInv, OpsOk, OnWire, Framed, Current, Writing, Between;
    LiveWriteIsFront(m, i);
    CurrentSnoc(m.readOps, ReadOp(m.generation, m.session, false), m.generation);
    var failed := WriteNotice(Failed, m.txDeque[0], m.handlers.write);
    assert (m.log + [failed])[|m.log|] == failed;
  }

  // ----- An error code nobody expects -----

  /** An error that is neither recoverable nor one that clarifyFatalError tells apart. */
  predicate Unclassified(ec: ErrorCode) {
    !ec.NoError? && !ec.NotFound? && ClarifyFatalError(ec).None?
  }

  /** What dispatchError does with such a code: it stops, and terminates exactly if there is a handler to tell. */
  ghost predicate StopsAndMayTerminate(m: State, n: State) {
    && n.stopped && n.lifecycle.Faulted? && AllCancelled(n.readOps) && AllCancelled(n.writeOps)
    && (n.broken <==> m.handlers.fatal)
  }

  /**
    * Were a live operation to report an unclassified code, the transport would stop, and the process would
    * be terminated if and only if the fatal error handler is set.
    */
  lemma UnclassifiedError(m: State, i: nat, ec: ErrorCode, between: seq<Step>)
    requires Inv(m) && Unclassified(ec)
    ensures i < |m.readOps| && m.readOps[i].generation == m.generation ==>
              StopsAndMayTerminate(m, HandleRead(m.(readOps := Without(m.readOps, i)), ec, ReadSize(m), m.generation))
    ensures i < |m.writeOps| && m.writeOps[i].generation == m.generation ==>
              StopsAndMayTerminate(m, HandleWrite(m.(writeOps := Without(m.writeOps, i)), ec, m.generation, between))
  {
    hide StrandInv, WritesInv, StopsAndMayTerminate, DispatchError, ReadSize, Between;
    StrandFacts(m);
    if i < |m.readOps| && m.readOps[i].generation == m.generation {
      LiveReadIsOnly(m, i);
      UnclassifiedDispatch(m.(readOps := Without(m.readOps, i)), m, ec, 0);
    }
    if i < |m.writeOps| && m.writeOps[i].generation == m.generation {
      LiveWriteIsFront(m, i);
      var s := Between(m.(writeOps := Without(m.writeOps, i), pendingWrites := FetchSub(m.pendingWrites)), between);
      UnclassifiedDispatch(s.(log := m.log + [WriteNotice(Failed, m.txDeque[0], m.handlers.write)]), m, ec, 1);
    }
  }

  lemma UnclassifiedDispatch(s: State, m: State, ec: ErrorCode, settled: nat)
    requires settled <= |s.txDeque| && !s.broken && s.handlers == m.handlers && Unclassified(ec)
    ensures StopsAndMayTerminate(m, DispatchError(s, ec, settled))
  {
  }

  // ----- A write without an outcome -----

  /** One thread, away; one read under way; nothing said; these writes accepted, of which these are queued. */
  predicate Fresh(m: State, config: BufferConfig, accepted: seq<Packet>, txDeque: seq<Packet>) {
    && !Halted(m) && m.config == config && m.queue == [] && m.producers == [Away]
    && m.readOps == [ReadOp(m.generation, m.session, false)] && m.accepted == accepted && m.txDeque == txDeque
    && m.pendingWrites == |txDeque| && m.discarded == [] && m.earlier == [] && m.log == []
    && m.statuses == seq(|accepted|, i => Scheduled)
  }

  lemma OpenedFresh(config: BufferConfig) returns (m: State)
    requires config.rxBufferMaxSize > 0
    ensures Reachable(m) && Fresh(m, config, [], [])
  {
    hide Reachable;
    var a := Init(1);
    var b := Next(a, Request(OpenEvent(config)));
    m := Next(b, RunNext(true));
    ReachableInit(1);
    ReachableNext(a, Request(OpenEvent(config)));
    ReachableNext(b, RunNext(true));
    assert b.queue == [OpenEvent(config)];
  }

  lemma ClaimedFresh(m: State, config: BufferConfig, queued: seq<Packet>, bytes: seq<Octet>, packetId: SizeT)
    returns (n: State)
    requires Reachable(m) && Fresh(m, config, queued, queued)
    requires |queued| < config.txMaxElementsInQueue && |bytes| <= config.txMaxSizePerElement
    ensures Reachable(n)
    ensures var packet := Packet(bytes, packetId, |queued|);
            n == m.(producers := [Claimed(packet)], accepted := queued + [packet], pendingWrites := |queued| + 1)
  {
    hide Reachable;
    var a := Next(m, CheckStep(0, bytes, packetId));
    var b := Next(a, LoadStep(0));
    n := Next(b, ClaimStep(0, false));
    ReachableNext(m, CheckStep(0, bytes, packetId));
    ReachableNext(a, LoadStep(0));
    ReachableNext(b, ClaimStep(0, false));
    assert a.producers == [Checked(bytes, packetId)];
    assert b.producers == [Loaded(bytes, packetId, |queued|)];
  }

  lemma QueuedFresh(m: State, config: BufferConfig, queued: seq<Packet>, bytes: seq<Octet>, packetId: SizeT)
    returns (n: State)
    requires Reachable(m) && Fresh(m, config, queued, queued)
    requires |queued| < config.txMaxElementsInQueue && |bytes| <= config.txMaxSizePerElement
    ensures var more := queued + [Packet(bytes, packetId, |queued|)]; Reachable(n) && Fresh(n, config, more, more)
  {
    hide Reachable;
    var packet := Packet(bytes, packetId, |queued|);
    var a := ClaimedFresh(m, config, queued, bytes, packetId);
    var b := Next(a, PostStep(0));
    n := Next(b, RunNext(true));
    ReachableNext(a, PostStep(0));
    ReachableNext(b, RunNext(true));
    assert b.queue == [WriteEvent(packet)];
    assert m.statuses + [Scheduled] == seq(|queued| + 1, i => Scheduled);
  }

  /**
    * Any write that asyncWrite accepts can end without an outcome: if the read fails while it is queued, it is
    * discarded, with nothing under way and no write handler ever called.
    */
  lemma ScheduledWithoutOutcome(config: BufferConfig, bytes: seq<Octet>, packetId: SizeT) returns (m: State)
    requires config.rxBufferMaxSize > 0
    requires config.txMaxElementsInQueue > 0 && |bytes| <= config.txMaxSizePerElement
    ensures var packet := Packet(bytes, packetId, 0);
            && Reachable(m) && m.accepted == [packet] && m.statuses == [Scheduled]
            && m.discarded == [packet] && SettledIn(Notices(m)) == []
            && ClaimedIn(m.producers) == [] && WaitingIn(m.queue) == [] && m.txDeque == []
  {
    hide Reachable, Fresh;
    var a := OpenedFresh(config);
    var b := QueuedFresh(a, config, [], bytes, packetId);
    assert [] + [Packet(bytes, packetId, 0)] == [Packet(bytes, packetId, 0)];
    m := Next(b, CompleteRead(0, Eof));
    ReachableNext(b, CompleteRead(0, Eof));
    ReadFailsFresh(b, config, Packet(bytes, packetId, 0));
  }

  lemma ReadFailsFresh(m: State, config: BufferConfig, packet: Packet)
    requires Fresh(m, config, [packet], [packet])
    ensures var n := Next(m, CompleteRead(0, Eof));
            && n.accepted == [packet] && n.statuses == [Scheduled] && n.discarded == [packet]
            && SettledIn(Notices(n)) == []
            && ClaimedIn(n.producers) == [] && WaitingIn(n.queue) == [] && n.txDeque == []
  {
    hide SettledIn, ClaimedIn, WrittenIn, BlocksIn, ReadSize;
    var n := Next(m, CompleteRead(0, Eof));
    var fatal := FatalNotice(UnpluggedDevice, m.handlers.fatal);
    assert n.earlier + n.log == [] + [fatal];
    LogSnoc([], fatal);
    EmptyLog();
    NoneClaimed(n.producers);
    assert m.statuses == [Scheduled];
  }
}
