/** Every step of the serial transport keeps its invariant, and so does every disciplined run. */
module TransportSteps {
  import opened Sequences
  import opened Framing
  import opened TransportModel
  import opened TransportLists
  import opened TransportInvariant

  // ----- The closure asyncWrite posts -----

  lemma RunWriteKeepsInv(m: State)
    requires Inv(m) && m.queue != [] && m.queue[0].WriteEvent?
    ensures Inv(RunWrite(m.(queue := m.queue[1..]), m.queue[0].packet))
  {
    hide StrandInv, WritesInv;
    StrandFacts(m);
    if Halted(m) {
      CancelStrand(m);
      CancelWrites(m);
    } else {
      EnqueueStrand(m);
      EnqueueWrites(m);
    }
  }

  lemma CancelStrand(m: State)
    requires StrandInv(m) && m.stopped && m.queue != [] && m.queue[0].WriteEvent?
    ensures StrandInv(RunWrite(m.(queue := m.queue[1..]), m.queue[0].packet))
  {
    hide Current, WrittenIn, BlocksIn, BytesOf, Joined;
  }

  lemma CancelWrites(m: State)
    requires WritesInv(m) && m.stopped && m.queue != [] && m.queue[0].WriteEvent?
    ensures WritesInv(RunWrite(m.(queue := m.queue[1..]), m.queue[0].packet))
  {
    hide ClaimedIn, WaitingIn, WrittenIn, SettledIn, BlocksIn, Ticketed, Places, OpenQueued, AllFit;
    var packet := m.queue[0].packet;
    var n := RunWrite(m.(queue := m.queue[1..]), packet);
    PopWaiting(m.queue);
    PopOpenQueued(m);
    OpenQueuedSame(m.(queue := m.queue[1..]), n);
    CancelPlaces(m, n, packet);
    AllFitTail(WaitingIn(m.queue), m.config.txMaxSizePerElement);
    assert WaitingIn(m.queue)[1..] == WaitingIn(n.queue);
  }

  lemma OpenQueuedSame(m: State, n: State)
    requires OpenQueued(m) && n.queue == m.queue && n.stopped == m.stopped && n.producers == m.producers
    ensures OpenQueued(n)
  {
  }

  lemma AllFitTail(packets: seq<Packet>, limit: nat)
    requires AllFit(packets, limit) && packets != []
    ensures |packets[0].bytes| <= limit && AllFit(packets[1..], limit)
  {
  }

  lemma AllFitSnoc(packets: seq<Packet>, packet: Packet, limit: nat)
    requires AllFit(packets, limit) && |packet.bytes| <= limit
    ensures AllFit(packets + [packet], limit)
  {
  }

  lemma CancelPlaces(m: State, n: State, packet: Packet)
    requires m.queue != [] && m.queue[0] == WriteEvent(packet)
    requires n.queue == m.queue[1..] && n.producers == m.producers && n.txDeque == m.txDeque
    requires n.discarded == m.discarded && n.earlier == m.earlier
    requires n.log == m.log + [WriteNotice(Cancelled, packet, m.handlers.write)]
    ensures Places(n) == Places(m)
  {
    hide ClaimedIn, WaitingIn, SettledIn, WrittenIn, BlocksIn;
    PopWaiting(m.queue);
    LogSnoc(m.log, WriteNotice(Cancelled, packet, m.handlers.write));
    assert multiset(SettledIn(n.log)) == multiset(SettledIn(m.log)) + multiset{packet};
    assert multiset(WaitingIn(m.queue)) == multiset{packet} + multiset(WaitingIn(n.queue));
  }

  lemma EnqueueStrand(m: State)
    requires StrandInv(m) && !m.stopped && !m.closing && m.queue != [] && m.queue[0].WriteEvent?
    ensures StrandInv(RunWrite(m.(queue := m.queue[1..]), m.queue[0].packet))
  {
    hide Current, WrittenIn, BlocksIn, BytesOf, Joined;
    CurrentSnoc(m.writeOps, WriteOp(m.generation, m.session, false, m.queue[0].packet, 0), m.generation);
  }

  lemma EnqueueWrites(m: State)
    requires WritesInv(m) && !m.stopped && !m.closing && m.queue != [] && m.queue[0].WriteEvent?
    ensures WritesInv(RunWrite(m.(queue := m.queue[1..]), m.queue[0].packet))
  {
    hide ClaimedIn, WaitingIn, WrittenIn, SettledIn, BlocksIn, Ticketed, Places, OpenQueued, AllFit;
    var packet := m.queue[0].packet;
    var n := RunWrite(m.(queue := m.queue[1..]), packet);
    var rest := WaitingIn(n.queue);
    PopWaiting(m.queue);
    PopOpenQueued(m);
    OpenQueuedSame(m.(queue := m.queue[1..]), n);
    Associate(WrittenIn(m.log) + m.txDeque, [packet], rest);
    Associate(WrittenIn(m.log), m.txDeque, [packet]);
    EnqueuePlaces(m, n, packet);
    AllFitTail(WaitingIn(m.queue), m.config.txMaxSizePerElement);
    assert WaitingIn(m.queue)[1..] == rest;
    AllFitSnoc(m.txDeque, packet, m.config.txMaxSizePerElement);
  }

  lemma EnqueuePlaces(m: State, n: State, packet: Packet)
    requires m.queue != [] && m.queue[0] == WriteEvent(packet)
    requires n.queue == m.queue[1..] && n.producers == m.producers && n.txDeque == m.txDeque + [packet]
    requires n.discarded == m.discarded && n.earlier == m.earlier && n.log == m.log
    ensures Places(n) == Places(m)
  {
    hide ClaimedIn, WaitingIn, SettledIn;
    PopWaiting(m.queue);
    assert multiset(n.txDeque) == multiset(m.txDeque) + multiset{packet};
    assert multiset(WaitingIn(m.queue)) == multiset{packet} + multiset(WaitingIn(n.queue));
  }

  // ----- The stream -----

  /** A live read means an open transport; it is the one of the current generation. */
  lemma LiveReadIsOpen(m: State)
    requires StrandInv(m) && LiveRead(m)
    ensures !m.stopped && !m.closing
  {
    hide Current, WrittenIn, BlocksIn, BytesOf, Joined;
  }

  lemma ReceiveKeepsInv(m: State, chunk: seq<Octet>)
    requires Inv(m)
    ensures Inv(ReceiveChunk(m, chunk))
  {
    hide WritesInv, Current, WrittenIn, BlocksIn, BytesOf, Joined;
    var n := ReceiveChunk(m, chunk);
    WritesFrame(m, n);
    if n != m {
      LiveReadIsOpen(m);
      Associate(Joined(BlocksIn(m.log)), m.rxBuffer, chunk);
    }
  }

  /** A live write means an open transport, and it is the only one. */
  lemma LiveWriteIsFront(m: State, i: nat)
    requires StrandInv(m) && i < |m.writeOps| && m.writeOps[i].generation == m.generation
    ensures !m.stopped && !m.closing && m.writeOps[i].WriteOp? && m.txDeque != []
    ensures m.writeOps[i].packet == m.txDeque[0] && m.writeOps[i].sent <= |m.txDeque[0].bytes|
    ensures Current(m.writeOps, m.generation) == [m.writeOps[i]]
    ensures Current(m.writeOps[..i], m.generation) == [] && Current(m.writeOps[i + 1..], m.generation) == []
    ensures Current(Without(m.writeOps, i), m.generation) == []
  {
    hide Current, WrittenIn, BlocksIn, BytesOf, Joined, Framed, OnWire, ReadsOk;
    CurrentAround(m.writeOps, i, m.generation);
  }

  lemma TransmitKeepsInv(m: State, i: nat, count: nat)
    requires Inv(m)
    ensures Inv(TransmitOctets(m, i, count))
  {
    hide StrandInv, WritesInv;
    WritesFrame(m, TransmitOctets(m, i, count));
    TransmitStrand(m, i, count);
  }

  lemma TransmitStrand(m: State, i: nat, count: nat)
    requires StrandInv(m)
    ensures StrandInv(TransmitOctets(m, i, count))
  {
    hide Current, WrittenIn, BlocksIn, BytesOf, Joined, OpsOk, WritesOk;
    var n := TransmitOctets(m, i, count);
    if n != m {
      LiveOp(m, i);
      TransmitOps(m, i, n);
      var op := m.writeOps[i];
      Portion(op.packet.bytes, op.sent, count);
      Associate(BytesOf(WrittenIn(m.log)), op.packet.bytes[..op.sent], op.packet.bytes[op.sent..op.sent + count]);
    }
  }

  lemma LiveOp(m: State, i: nat)
    requires StrandInv(m) && i < |m.writeOps| && !m.writeOps[i].cancelled
    ensures m.writeOps[i].generation == m.generation
  {
    hide Current, ReadsOk, OnWire, Framed, Writing;
  }

  /** The live write has sent more. */
  lemma TransmitOps(m: State, i: nat, n: State)
    requires StrandInv(m) && i < |m.writeOps| && m.writeOps[i].WriteOp? && m.writeOps[i].generation == m.generation
    requires exists sent: nat :: sent <= |m.writeOps[i].packet.bytes|
                                 && n.writeOps == m.writeOps[i := m.writeOps[i].(sent := sent)]
    requires n == m.(writeOps := n.writeOps, wire := n.wire)
    ensures WritesOk(n)
    ensures Current(m.writeOps, m.generation) == [m.writeOps[i]] && Current(n.writeOps, n.generation) == [n.writeOps[i]]
  {
    hide Current, ReadsOk, OnWire, Framed, WrittenIn;
    LiveWriteIsFront(m, i);
    CurrentUpdate(m.writeOps, i, n.writeOps[i], m.generation);
  }

  lemma Portion(bytes: seq<Octet>, sent: nat, count: nat)
    requires sent + count <= |bytes|
    ensures bytes[..sent + count] == bytes[..sent] + bytes[sent..sent + count]
  {
  }

  // ----- Completions -----

  lemma WithoutOk(ops: seq<Op>, i: nat, generation: nat, session: nat, stopped: bool)
    requires i < |ops| && OpsOk(ops, generation, session, stopped)
    ensures OpsOk(Without(ops, i), generation, session, stopped)
  {
  }

  lemma StaleRead(m: State, i: nat)
    requires StrandInv(m) && i < |m.readOps| && m.readOps[i].generation != m.generation
    ensures StrandInv(m.(readOps := Without(m.readOps, i)))
  {
    hide Current, WrittenIn, BlocksIn, BytesOf, Joined;
    CurrentAround(m.readOps, i, m.generation);
    EmptyRight(Current(m.readOps[..i], m.generation));
    WithoutOk(m.readOps, i, m.generation, m.session, m.stopped);
  }

  lemma StaleWrite(m: State, i: nat)
    requires StrandInv(m) && i < |m.writeOps| && m.writeOps[i].generation != m.generation
    ensures StrandInv(m.(writeOps := Without(m.writeOps, i)))
  {
    hide Current, WrittenIn, BlocksIn, BytesOf, Joined;
    CurrentAround(m.writeOps, i, m.generation);
    EmptyRight(Current(m.writeOps[..i], m.generation));
    WithoutOk(m.writeOps, i, m.generation, m.session, m.stopped);
  }

  /** A read of the current generation is the only one, in an open transport. */
  lemma LiveReadIsOnly(m: State, i: nat)
    requires StrandInv(m) && i < |m.readOps| && m.readOps[i].generation == m.generation
    ensures !m.stopped && !m.closing && !m.readOps[i].cancelled && m.readOps[i].session == m.session
    ensures Current(Without(m.readOps, i), m.generation) == []
  {
    hide Current, WrittenIn, BlocksIn, BytesOf, Joined, Framed, OnWire, WritesOk;
    CurrentAround(m.readOps, i, m.generation);
  }

  lemma CompleteReadKeepsInv(m: State, i: nat, ec: ErrorCode)
    requires Inv(m)
    ensures Inv(Next(m, CompleteRead(i, ec)))
  {
    hide StrandInv, WritesInv, DispatchError, ReadSize;
    if i < |m.readOps| && ReadMayReport(m, m.readOps[i], ec) {
      if m.readOps[i].generation == m.generation {
        LiveReadIsOnly(m, i);
        if ec.NoError? {
          FrameDelivered(m, i);
        } else {
          ReadError(m, i, ec);
        }
      } else {
        var n := m.(readOps := Without(m.readOps, i));
        StaleRead(m, i);
        WritesFrame(m, n);
      }
    }
  }

  /** What a read delivers is a whole frame at the head of the buffer. */
  lemma FrameCut(rxBuffer: seq<Octet>, limit: nat)
    requires DELIMITER in rxBuffer && |rxBuffer| <= limit
    ensures FirstDelimiter(rxBuffer) + 1 <= |rxBuffer|
    ensures WellFormed(Delivered(rxBuffer[..FirstDelimiter(rxBuffer) + 1]), limit)
  {
    hide FirstDelimiter, WellFormed;
    HeadFrame(rxBuffer, FirstDelimiter(rxBuffer), limit);
  }

  lemma HeadFrame(rxBuffer: seq<Octet>, last: nat, limit: nat)
    requires last < |rxBuffer| <= limit && rxBuffer[last] == DELIMITER && DELIMITER !in rxBuffer[..last]
    ensures WellFormed(Delivered(rxBuffer[..last + 1]), limit)
  {
    var frame := rxBuffer[..last + 1];
    assert |frame| == last + 1 && frame[last] == DELIMITER;
    assert frame[..last] == rxBuffer[..last];
  }

  lemma AllWellFormedSnoc(blocks: seq<Block>, block: Block, limit: nat)
    requires AllWellFormed(blocks, limit) && WellFormed(block, limit)
    ensures AllWellFormed(blocks + [block], limit)
  {
  }

  lemma FrameDelivered(m: State, i: nat)
    requires Inv(m) && !m.closing && !m.stopped
    requires i < |m.readOps| && m.readOps[i].generation == m.generation && DELIMITER in m.rxBuffer
    ensures Inv(HandleRead(m.(readOps := Without(m.readOps, i)), NoError, ReadSize(m), m.generation))
  {
    hide StrandInv, WritesInv;
    hide FirstDelimiter;
    var size := ReadSize(m);
    var n := m.(readOps := Without(m.readOps, i) + [ReadOp(m.generation, m.session, false)],
                log := m.log + [FrameNotice(m.rxBuffer[..size], m.handlers.frame)], rxBuffer := m.rxBuffer[size..]);
    assert n == HandleRead(m.(readOps := Without(m.readOps, i)), NoError, size, m.generation);
    FrameStrand(m, i, n);
    NoWriteLogged(m, n, FrameNotice(m.rxBuffer[..size], m.handlers.frame));
  }

  lemma FrameStrand(m: State, i: nat, n: State)
    requires StrandInv(m) && !m.stopped
    requires i < |m.readOps| && m.readOps[i].generation == m.generation && DELIMITER in m.rxBuffer
    requires n == m.(readOps := Without(m.readOps, i) + [ReadOp(m.generation, m.session, false)],
                     log := m.log + [FrameNotice(m.rxBuffer[..ReadSize(m)], m.handlers.frame)],
                     rxBuffer := m.rxBuffer[ReadSize(m)..])
    ensures StrandInv(n)
  {
    hide Current, WrittenIn, BlocksIn, BytesOf, Joined, FirstDelimiter, WellFormed;
    RestartRead(m, i, n);
    var frame := m.rxBuffer[..ReadSize(m)];
    FrameCut(m.rxBuffer, m.config.rxBufferMaxSize);
    LogSnoc(m.log, FrameNotice(frame, m.handlers.frame));
    EmptyRight(WrittenIn(m.log));
    JoinedSnoc(BlocksIn(m.log), Delivered(frame));
    assert m.rxBuffer == frame + n.rxBuffer;
    Associate(Joined(BlocksIn(m.log)), frame, n.rxBuffer);
    AllWellFormedSnoc(BlocksIn(m.log), Delivered(frame), m.config.rxBufferMaxSize);
  }

  /** The completed read is replaced by a new one. */
  lemma RestartRead(m: State, i: nat, n: State)
    requires StrandInv(m) && i < |m.readOps| && m.readOps[i].generation == m.generation
    requires n.readOps == Without(m.readOps, i) + [ReadOp(m.generation, m.session, false)]
    requires n.generation == m.generation && n.session == m.session && n.stopped == m.stopped
    ensures ReadsOk(n) && !n.stopped
  {
    hide Current, WrittenIn, BlocksIn, BytesOf, Joined, Framed, OnWire, WritesOk;
    LiveReadIsOnly(m, i);
    WithoutOk(m.readOps, i, m.generation, m.session, m.stopped);
    CurrentSnoc(Without(m.readOps, i), ReadOp(m.generation, m.session, false), m.generation);
  }

  /** A notice that is not about a write leaves the accepted writes where they are. */
  lemma NoWriteLogged(m: State, n: State, notice: Notice)
    requires WritesInv(m) && !notice.WriteNotice?
    requires n == m.(readOps := n.readOps, log := m.log + [notice], rxBuffer := n.rxBuffer)
    ensures WritesInv(n)
  {
    hide ClaimedIn, WaitingIn, WrittenIn, SettledIn, BlocksIn, Ticketed, AllFit;
    LogSnoc(m.log, notice);
    EmptyRight(WrittenIn(m.log));
    EmptyRight(SettledIn(m.log));
    assert Places(n) == Places(m);
  }

  lemma ReadError(m: State, i: nat, ec: ErrorCode)
    requires Inv(m) && !m.closing && !m.stopped
    requires i < |m.readOps| && m.readOps[i].generation == m.generation
    requires Spontaneous(ec)
          || (ec.NotFound? && DELIMITER !in m.rxBuffer && |m.rxBuffer| >= m.config.rxBufferMaxSize)
    ensures Inv(DispatchError(m.(readOps := Without(m.readOps, i)), ec, 0))
  {
    hide StrandInv, WritesInv;
    var n := DispatchError(m.(readOps := Without(m.readOps, i)), ec, 0);
    if ec.NotFound? {
      RecoverStrand(m, i, n);
      NoWriteLogged(m, n, RecoverableNotice(RxBufferFull, m.rxBuffer, m.handlers.recuperable));
    } else {
      StrandFacts(m);
      OldGenerations(m);
      OldWithout(m.readOps, i, m.generation);
      HaltStrand(m.(readOps := Without(m.readOps, i)), n);
      FatalSettlesNothing(m.log, FatalNotice(ClarifyFatalError(ec).value, m.handlers.fatal));
      StopWrites(m, n);
    }
  }

  lemma OldWithout(ops: seq<Op>, i: nat, generation: nat)
    requires i < |ops| && forall k :: 0 <= k < |ops| ==> ops[k].generation <= generation
    ensures var w := Without(ops, i); forall k :: 0 <= k < |w| ==> w[k].generation <= generation
  {
  }

  lemma RecoverStrand(m: State, i: nat, n: State)
    requires StrandInv(m) && !m.stopped
    requires i < |m.readOps| && m.readOps[i].generation == m.generation
    requires DELIMITER !in m.rxBuffer && |m.rxBuffer| >= m.config.rxBufferMaxSize
    requires n == m.(readOps := Without(m.readOps, i) + [ReadOp(m.generation, m.session, false)],
                     log := m.log + [RecoverableNotice(RxBufferFull, m.rxBuffer, m.handlers.recuperable)],
                     rxBuffer := [])
    ensures StrandInv(n)
  {
    hide Current, WrittenIn, BlocksIn, BytesOf, Joined;
    RestartRead(m, i, n);
    LogSnoc(m.log, RecoverableNotice(RxBufferFull, m.rxBuffer, m.handlers.recuperable));
    EmptyRight(WrittenIn(m.log));
    JoinedSnoc(BlocksIn(m.log), Dropped(m.rxBuffer));
    EmptyRight(Joined(BlocksIn(n.log)));
    AllWellFormedSnoc(BlocksIn(m.log), Dropped(m.rxBuffer), m.config.rxBufferMaxSize);
  }

  /** A stop leaks the whole queue. */
  lemma StopWrites(m: State, n: State)
    requires WritesInv(m) && !m.stopped && n.stopped && n.txDeque == []
    requires n.discarded == m.discarded + m.txDeque && n.leaked == m.leaked + |m.txDeque|
    requires SettledIn(n.log) == SettledIn(m.log)
    requires n.queue == m.queue && n.producers == m.producers && n.pendingWrites == m.pendingWrites
    requires n.config == m.config && n.accepted == m.accepted && n.earlier == m.earlier
    ensures WritesInv(n)
  {
    hide ClaimedIn, WaitingIn, WrittenIn, SettledIn, BlocksIn, Ticketed;
    assert multiset(n.discarded) == multiset(m.discarded) + multiset(m.txDeque);
    assert Places(n) == Places(m);
  }

  lemma FatalSettlesNothing(log: seq<Notice>, fatal: Notice)
    requires fatal.FatalNotice?
    ensures SettledIn(log + [fatal]) == SettledIn(log)
  {
    hide WrittenIn, SettledIn, BlocksIn;
    LogSnoc(log, fatal);
    EmptyRight(SettledIn(log));
  }

  lemma CompleteWriteKeepsInv(m: State, i: nat, ec: ErrorCode, between: seq<Step>)
    requires Inv(m)
    ensures Inv(Next(m, CompleteWrite(i, ec, between)))
  {
    hide StrandInv, WritesInv, FinishWrite, Between;
    if i < |m.writeOps| && WriteMayReport(m.writeOps[i], ec) {
      if m.writeOps[i].generation == m.generation {
        LiveWriteIsFront(m, i);
        LiveWriteNotCancelled(m, i);
        if ec.NoError? {
          PacketWritten(m, i, between);
        } else {
          WriteError(m, i, ec, between);
        }
      } else {
        var n := m.(writeOps := Without(m.writeOps, i));
        StaleWrite(m, i);
        WritesFrame(m, n);
      }
    }
  }

  lemma LiveWriteNotCancelled(m: State, i: nat)
    requires StrandInv(m) && i < |m.writeOps| && m.writeOps[i].generation == m.generation
    ensures !m.writeOps[i].cancelled && m.writeOps[i].session == m.session
  {
    hide Current, WrittenIn, BlocksIn, BytesOf, Joined, Framed, OnWire, ReadsOk;
  }

  lemma PacketWritten(m: State, i: nat, between: seq<Step>)
    requires Inv(m) && !m.closing && !m.stopped && i < |m.writeOps| && m.writeOps[i].generation == m.generation
    requires m.writeOps[i].WriteOp? && m.writeOps[i].sent == |m.writeOps[i].packet.bytes|
    ensures Inv(HandleWrite(m.(writeOps := Without(m.writeOps, i)), NoError, m.generation, between))
  {
    hide StrandInv, WritesInv, Between, FinishWrite;
    LiveWriteIsFront(m, i);
    var s := m.(writeOps := Without(m.writeOps, i), pendingWrites := FetchSub(m.pendingWrites));
    var w := FinishWrite(s, NoError);
    FrontIsWritten(m, i);
    WrittenStrand(m, i, w);
    WrittenWrites(m, w);
    FinishLater(s, between);
    StrandFrame(w, Between(w, between));
    BetweenKeepsWrites(w, between);
  }

  lemma FrontIsWritten(m: State, i: nat)
    requires !Halted(m) && m.txDeque != [] && i < |m.writeOps|
    ensures var s := m.(writeOps := Without(m.writeOps, i), pendingWrites := FetchSub(m.pendingWrites));
            var w := FinishWrite(s, NoError);
            FrontWritten(m, i, w) && w.pendingWrites == FetchSub(m.pendingWrites)
  {
    hide Without;
  }

  /** A write that succeeds looks as if the threads had waited for its handler to end. */
  lemma FinishLater(s: State, between: seq<Step>)
    requires s.txDeque != []
    ensures FinishWrite(Between(s, between), NoError) == Between(FinishWrite(s, NoError), between)
  {
    hide Between;
    ThreadsSee(s, FinishWrite(s, NoError), between);
  }

  /** n is m with its front packet written and the next one, if there is one, under way. */
  ghost predicate FrontWritten(m: State, i: nat, n: State) {
    && m.txDeque != [] && i < |m.writeOps|
    && n == m.(pendingWrites := n.pendingWrites, log := m.log + [WriteNotice(Written, m.txDeque[0], m.handlers.write)],
               txDeque := m.txDeque[1..],
               writeOps := if m.txDeque[1..] == [] then Without(m.writeOps, i)
                           else Without(m.writeOps, i) + [WriteOp(m.generation, m.session, false, m.txDeque[1], 0)])
  }

  lemma WrittenStrand(m: State, i: nat, n: State)
    requires StrandInv(m) && !m.stopped && FrontWritten(m, i, n)
    requires m.writeOps[i].generation == m.generation
    requires m.writeOps[i].WriteOp? && m.writeOps[i].sent == |m.writeOps[i].packet.bytes|
    ensures StrandInv(n)
  {
    hide Current, WrittenIn, BlocksIn, BytesOf, Joined, OpsOk, WritesOk, Without;
    LiveWriteIsFront(m, i);
    WrittenOps(m, i, n);
    var front := m.txDeque[0];
    LogSnoc(m.log, WriteNotice(Written, front, m.handlers.write));
    BytesSnoc(WrittenIn(m.log), front);
    EmptyRight(BlocksIn(m.log));
    EmptyRight(BytesOf(WrittenIn(n.log)));
  }

  lemma WrittenOps(m: State, i: nat, n: State)
    requires StrandInv(m) && !m.stopped && FrontWritten(m, i, n) && m.writeOps[i].generation == m.generation
    ensures WritesOk(n) && SentOf(Current(n.writeOps, n.generation)) == []
  {
    hide Current, ReadsOk, OnWire, Framed, WrittenIn;
    LiveWriteIsFront(m, i);
    WithoutOk(m.writeOps, i, m.generation, m.session, m.stopped);
    if n.txDeque != [] {
      CurrentSnoc(Without(m.writeOps, i), WriteOp(m.generation, m.session, false, n.txDeque[0], 0), m.generation);
    }
  }

  lemma WrittenWrites(m: State, n: State)
    requires WritesInv(m) && !m.stopped && m.txDeque != []
    requires n == m.(pendingWrites := FetchSub(m.pendingWrites), txDeque := m.txDeque[1..],
                     log := m.log + [WriteNotice(Written, m.txDeque[0], m.handlers.write)], writeOps := n.writeOps)
    ensures WritesInv(n)
  {
    hide ClaimedIn, WaitingIn, WrittenIn, SettledIn, BlocksIn, Ticketed, Places, OpenQueued, AllFit;
    var front := m.txDeque[0];
    LogSnoc(m.log, WriteNotice(Written, front, m.handlers.write));
    OpenQueuedSame(m, n);
    assert m.txDeque == [front] + n.txDeque;
    Associate(WrittenIn(m.log), [front], n.txDeque);
    AllFitTail(m.txDeque, m.config.txMaxSizePerElement);
    WrittenPlaces(m, n, front);
  }

  lemma WrittenPlaces(m: State, n: State, front: Packet)
    requires m.txDeque == [front] + n.txDeque
    requires n.queue == m.queue && n.producers == m.producers && n.discarded == m.discarded && n.earlier == m.earlier
    requires n.log == m.log + [WriteNotice(Written, front, m.handlers.write)]
    ensures Places(n) == Places(m)
  {
    hide ClaimedIn, WaitingIn, SettledIn, WrittenIn, BlocksIn;
    LogSnoc(m.log, WriteNotice(Written, front, m.handlers.write));
    assert multiset(SettledIn(n.log)) == multiset(SettledIn(m.log)) + multiset{front};
    assert multiset(m.txDeque) == multiset{front} + multiset(n.txDeque);
  }

  lemma WriteError(m: State, i: nat, ec: ErrorCode, between: seq<Step>)
    requires Inv(m) && !m.closing && !m.stopped && Spontaneous(ec)
    requires i < |m.writeOps| && m.writeOps[i].generation == m.generation
    ensures Inv(HandleWrite(m.(writeOps := Without(m.writeOps, i)), ec, m.generation, between))
  {
    hide Inv, Between;
    LiveWriteFront(m, i);
    var s := Between(m.(writeOps := Without(m.writeOps, i), pendingWrites := FetchSub(m.pendingWrites)), between);
    var n := FinishWrite(s, ec);
    WriteErrorStops(m, i, between, s, n, FatalNotice(ClarifyFatalError(ec).value, m.handlers.fatal));
  }

  lemma LiveWriteFront(m: State, i: nat)
    requires Inv(m) && i < |m.writeOps| && m.writeOps[i].generation == m.generation
    ensures m.txDeque != []
  {
    hide StrandInv, WritesInv;
    LiveWriteIsFront(m, i);
  }

  lemma WriteErrorStops(m: State, i: nat, between: seq<Step>, s: State, n: State, fatal: Notice)
    requires Inv(m) && !m.closing && !m.stopped && m.txDeque != [] && i < |m.writeOps| && fatal.FatalNotice?
    requires s == Between(m.(writeOps := Without(m.writeOps, i), pendingWrites := FetchSub(m.pendingWrites)), between)
    requires n == s.(
      stopped := true, lifecycle := Faulted,
      generation := m.generation + 1, rxBuffer := [], txDeque := [],
      readOps := Cancel(m.readOps), writeOps := Cancel(Without(m.writeOps, i)),
      cancels := m.cancels + 1, closes := m.closes + 1,
      discarded := m.discarded + m.txDeque[1..], leaked := m.leaked + |m.txDeque| - 1,
      log := m.log + [WriteNotice(Failed, m.txDeque[0], m.handlers.write)] + [fatal])
    ensures Inv(n)
  {
    hide StrandInv, WritesInv, Between;
    StrandFacts(m);
    OldGenerations(m);
    OldWithout(m.writeOps, i, m.generation);
    HaltStrand(m.(writeOps := Without(m.writeOps, i)), n);
    var v := FrontGone(m, i, between);
    SettlesAlike(m.log, m.txDeque[0], m.handlers.write, fatal);
    StopWrites(v, n);
  }

  /** To the threads a failing write looks as if its packet had been written; with that, the writes' half holds. */
  lemma FrontGone(m: State, i: nat, between: seq<Step>) returns (v: State)
    requires WritesInv(m) && !m.stopped && m.txDeque != [] && i < |m.writeOps|
    ensures WritesInv(v)
    ensures var lowered := m.(writeOps := Without(m.writeOps, i), pendingWrites := FetchSub(m.pendingWrites));
            var s := Between(lowered, between);
            v == s.(txDeque := m.txDeque[1..], log := m.log + [WriteNotice(Written, m.txDeque[0], m.handlers.write)])
  {
    hide WritesInv, Between;
    var s := m.(writeOps := Without(m.writeOps, i), pendingWrites := FetchSub(m.pendingWrites));
    var w := s.(txDeque := m.txDeque[1..], log := m.log + [WriteNotice(Written, m.txDeque[0], m.handlers.write)]);
    WrittenWrites(m, w);
    v := Between(w, between);
    BetweenKeepsWrites(w, between);
    ThreadsSee(s, w, between);
  }

  lemma SettlesAlike(log: seq<Notice>, packet: Packet, called: bool, fatal: Notice)
    requires fatal.FatalNotice?
    ensures SettledIn(log + [WriteNotice(Failed, packet, called)] + [fatal])
         == SettledIn(log + [WriteNotice(Written, packet, called)])
  {
    hide WrittenIn, SettledIn, BlocksIn;
    LogSnoc(log, WriteNotice(Failed, packet, called));
    LogSnoc(log, WriteNotice(Written, packet, called));
    FatalSettlesNothing(log + [WriteNotice(Failed, packet, called)], fatal);
  }

  // ----- Any step, any run -----

  lemma RunNextKeepsInv(m: State, openOk: bool)
    requires Inv(m) && m.queue != []
    ensures Inv(RunEvent(m.(queue := m.queue[1..]), m.queue[0], openOk))
  {
    hide Inv, RunOpen, CloseOnStrand, SetHandler, RunWrite;
    if m.queue[0].WriteEvent? {
      RunWriteKeepsInv(m);
    } else {
      PopKeepsInv(m);
      var n := m.(queue := m.queue[1..]);
      match m.queue[0]
      case OpenEvent(config) =>
        OpenMeetsNoWrite(m);
        OpenKeepsInv(n, config, openOk);
      case CloseEvent => CloseKeepsInv(n);
      case SetHandlerEvent(kind, present) => SetHandlerKeepsInv(n, kind, present);
    }
  }

  /** When an open runs, nothing accepted is still on its way. */
  lemma OpenMeetsNoWrite(m: State)
    requires Inv(m) && m.queue != [] && m.queue[0].OpenEvent?
    ensures m.stopped && AllAway(m.producers) && m.queue[0].config.rxBufferMaxSize > 0
    ensures var rest := m.queue[1..];
            forall k :: 0 <= k < |rest| ==> !rest[k].WriteEvent? && !rest[k].OpenEvent?
  {
    hide StrandInv, Counted, Ordered, Partitioned, Bounded;
  }

  lemma NextKeepsInv(m: State, step: Step)
    requires Inv(m) && DisciplinedStep(m, step)
    ensures Inv(Next(m, step))
  {
    hide Inv, RunEvent, HandleRead, HandleWrite, ReceiveChunk, TransmitOctets, ThreadStep;
    match step
    case Request(event) => if !event.WriteEvent? { RequestKeepsInv(m, event); }
    case RunNext(openOk) => if m.queue != [] { RunNextKeepsInv(m, openOk); }
    case CheckStep(_, _, _) => ThreadKeepsInv(m, step);
    case LoadStep(_) => ThreadKeepsInv(m, step);
    case ClaimStep(_, _) => ThreadKeepsInv(m, step);
    case PostStep(_) => ThreadKeepsInv(m, step);
    case Receive(chunk) => ReceiveKeepsInv(m, chunk);
    case Transmit(i, count) => TransmitKeepsInv(m, i, count);
    case CompleteRead(i, ec) => CompleteReadKeepsInv(m, i, ec);
    case CompleteWrite(i, ec, between) => CompleteWriteKeepsInv(m, i, ec, between);
  }

  /** The invariant holds after every run from the start that keeps the discipline on open. */
  lemma {:induction false} RunsKeepInv(threads: nat, steps: seq<Step>)
    requires Disciplined(Init(threads), steps)
    ensures Inv(After(Init(threads), steps))
    decreases |steps|
  {
    hide Inv, Next, DisciplinedStep;
    if steps == [] {
      InitKeepsInv(threads);
    } else {
      var front := steps[..|steps| - 1];
      RunsKeepInv(threads, front);
      NextKeepsInv(After(Init(threads), front), steps[|steps| - 1]);
    }
  }

  /** Some disciplined run of some number of threads leads to m. */
  ghost predicate Reachable(m: State) {
    exists threads: nat, steps: seq<Step> :: Disciplined(Init(threads), steps) && After(Init(threads), steps) == m
  }

  lemma ReachableKeepsInv(m: State)
    requires Reachable(m)
    ensures Inv(m)
  {
    hide Inv, Disciplined, After;
    var threads: nat, steps: seq<Step> :| Disciplined(Init(threads), steps) && After(Init(threads), steps) == m;
    RunsKeepInv(threads, steps);
  }

  lemma ReachableInit(threads: nat)
    ensures Reachable(Init(threads))
  {
    hide Init;
    assert Disciplined(Init(threads), []) && After(Init(threads), []) == Init(threads);
  }

  lemma ReachableNext(m: State, step: Step)
    requires Reachable(m) && DisciplinedStep(m, step)
    ensures Reachable(Next(m, step))
  {
    hide After, Next, DisciplinedStep, Init;
    var threads: nat, steps: seq<Step> :| Disciplined(Init(threads), steps) && After(Init(threads), steps) == m;
    var longer := steps + [step];
    AfterSnoc(Init(threads), steps, step);
    DisciplinedSnoc(Init(threads), steps, step);
    assert Disciplined(Init(threads), longer) && After(Init(threads), longer) == Next(m, step);
  }

  lemma DisciplinedSnoc(m: State, steps: seq<Step>, step: Step)
    requires Disciplined(m, steps) && DisciplinedStep(After(m, steps), step)
    ensures Disciplined(m, steps + [step])
  {
    hide After, DisciplinedStep;
    assert (steps + [step])[..|steps|] == steps;
  }
}
