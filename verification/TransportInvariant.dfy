/** One inductive invariant of the serial transport, kept by every step under the discipline on open. */
module TransportInvariant {
  import opened Sequences
  import opened Framing
  import opened Sizes
  import opened TransportModel
  import opened TransportLists

  // ----- Lifecycle -----

  predicate Life(m: State) {
    && (m.lifecycle.Open? || m.lifecycle.Closed? || m.lifecycle.Faulted?)
    && (m.lifecycle.Open? <==> !m.stopped)
    && (m.closing ==> m.stopped && m.lifecycle.Closed?)
    && (m.stopped ==> m.txDeque == [] && m.rxBuffer == [])
  }

  // ----- Operations -----

  /** An operation is of the current generation exactly while it is live, and then of this session. */
  ghost predicate OpsOk(ops: seq<Op>, generation: nat, session: nat, stopped: bool) {
    forall i :: 0 <= i < |ops| ==>
      && ops[i].generation <= generation
      && (ops[i].cancelled <==> ops[i].generation < generation)
      && (ops[i].generation == generation ==> ops[i].session == session && !stopped)
  }

  /** While open, exactly one read is live. */
  ghost predicate ReadsOk(m: State) {
    && OpsOk(m.readOps, m.generation, m.session, m.stopped)
    && |Current(m.readOps, m.generation)| == if m.stopped then 0 else 1
  }

  /** The live write, if the queue is not empty, writes its front. */
  ghost predicate Writing(current: seq<Op>, txDeque: seq<Packet>) {
    if txDeque == [] then current == []
    else
      && |current| == 1 && current[0].WriteOp?
      && current[0].packet == txDeque[0] && current[0].sent <= |txDeque[0].bytes|
  }

  ghost predicate WritesOk(m: State) {
    && OpsOk(m.writeOps, m.generation, m.session, m.stopped)
    && (forall i :: 0 <= i < |m.writeOps| ==> m.writeOps[i].WriteOp?)
    && Writing(Current(m.writeOps, m.generation), m.txDeque)
  }

  // ----- Accepted writes -----

  /** Conservation: the counter counts the writes under way, and those a stop has leaked. */
  ghost predicate Counted(m: State) {
    && m.pendingWrites == |ClaimedIn(m.producers)| + |WaitingIn(m.queue)| + |m.txDeque| + m.leaked
    && (!m.stopped ==> m.leaked == 0)
  }

  /** A queued open meets no accepted write. */
  ghost predicate OpenQueued(m: State) {
    forall k :: 0 <= k < |m.queue| && m.queue[k].OpenEvent? ==>
      && m.stopped
      && m.queue[k].config.rxBufferMaxSize > 0
      && AllAway(m.producers)
      && (forall j :: k < j < |m.queue| ==> !m.queue[j].WriteEvent? && !m.queue[j].OpenEvent?)
  }

  ghost predicate AllAway(producers: seq<Producer>) {
    forall p :: 0 <= p < |producers| ==> producers[p].Away?
  }

  /** Session order: what was posted is what was written, then the queue, then what waits on the strand. */
  ghost predicate Ordered(m: State) {
    !m.stopped ==> m.posted == WrittenIn(m.log) + m.txDeque + WaitingIn(m.queue)
  }

  function SentOf(current: seq<Op>): seq<Octet> {
    if current != [] && current[0].WriteOp? && current[0].sent <= |current[0].packet.bytes|
    then current[0].packet.bytes[..current[0].sent] else []
  }

  /** The wire carries the written packets and a prefix of the front one. */
  ghost predicate OnWire(m: State) {
    !m.stopped ==> m.wire == BytesOf(WrittenIn(m.log)) + SentOf(Current(m.writeOps, m.generation))
  }

  /** Where the accepted writes are. */
  ghost function Places(m: State): multiset<Packet> {
    multiset(ClaimedIn(m.producers)) + multiset(WaitingIn(m.queue)) + multiset(m.txDeque)
    + multiset(m.discarded) + multiset(SettledIn(m.earlier)) + multiset(SettledIn(m.log))
  }

  /** Tickets number the accepted writes, and each is in one place. */
  ghost predicate Ticketed(accepted: seq<Packet>, places: multiset<Packet>) {
    (forall t :: 0 <= t < |accepted| ==> accepted[t].ticket == t) && places == multiset(accepted)
  }

  ghost predicate Partitioned(m: State) {
    Ticketed(m.accepted, Places(m))
  }

  lemma TicketedGrows(accepted: seq<Packet>, places: multiset<Packet>, packet: Packet)
    requires Ticketed(accepted, places) && packet.ticket == |accepted|
    ensures Ticketed(accepted + [packet], places + multiset{packet})
  {
  }

  // ----- Bounds -----

  ghost predicate AllFit(packets: seq<Packet>, limit: nat) {
    forall i :: 0 <= i < |packets| ==> |packets[i].bytes| <= limit
  }

  ghost predicate CallersFit(producers: seq<Producer>, limit: nat) {
    forall p :: 0 <= p < |producers| ==>
      && (producers[p].Checked? || producers[p].Loaded? ==> |producers[p].bytes| <= limit)
      && (producers[p].Claimed? ==> |producers[p].packet.bytes| <= limit)
  }

  ghost predicate Bounded(m: State) {
    && m.pendingWrites <= m.config.txMaxElementsInQueue
    && CallersFit(m.producers, m.config.txMaxSizePerElement)
    && AllFit(WaitingIn(m.queue), m.config.txMaxSizePerElement)
    && AllFit(m.txDeque, m.config.txMaxSizePerElement)
  }

  // ----- The received stream -----

  /** A delivered frame ends in its only delimiter and fits; a dropped block is full and has none. */
  predicate WellFormed(block: Block, limit: nat) {
    match block
    case Delivered(s) => 0 < |s| <= limit && s[|s| - 1] == DELIMITER && DELIMITER !in s[..|s| - 1]
    case Dropped(s) => |s| == limit && DELIMITER !in s
  }

  ghost predicate AllWellFormed(blocks: seq<Block>, limit: nat) {
    forall i :: 0 <= i < |blocks| ==> WellFormed(blocks[i], limit)
  }

  function Joined(blocks: seq<Block>): seq<Octet> {
    if blocks == [] then [] else Joined(blocks[..|blocks| - 1]) + blocks[|blocks| - 1].octets
  }

  lemma JoinedSnoc(blocks: seq<Block>, block: Block)
    ensures Joined(blocks + [block]) == Joined(blocks) + block.octets
  {
    assert (blocks + [block])[..|blocks|] == blocks;
  }

  ghost predicate Framed(m: State) {
    !m.stopped ==>
      && |m.rxBuffer| <= m.config.rxBufferMaxSize && m.config.rxBufferMaxSize > 0
      && m.received == Joined(BlocksIn(m.log)) + m.rxBuffer
      && AllWellFormed(BlocksIn(m.log), m.config.rxBufferMaxSize)
  }

  /** The strand's half of the invariant: lifecycle, operations, wire and received stream. */
  ghost predicate StrandInv(m: State) {
    Life(m) && ReadsOk(m) && WritesOk(m) && OnWire(m) && Framed(m) && !m.broken
  }

  /** The accepted writes' half of the invariant. */
  ghost predicate WritesInv(m: State) {
    Counted(m) && OpenQueued(m) && Ordered(m) && Partitioned(m) && Bounded(m)
  }

  ghost predicate Inv(m: State) {
    StrandInv(m) && WritesInv(m)
  }

  /** The strand's half does not see the queue, the threads and the counter. */
  lemma StrandFrame(m: State, n: State)
    requires StrandInv(m)
    requires n == m.(queue := n.queue, producers := n.producers, pendingWrites := n.pendingWrites,
                     accepted := n.accepted, posted := n.posted, statuses := n.statuses)
    ensures StrandInv(n)
  {
    hide ClaimedIn, WaitingIn, Current, WrittenIn, SettledIn, BlocksIn, BytesOf, Joined;
  }

  /** The accepted writes' half does not see the operations and the octets. */
  lemma WritesFrame(m: State, n: State)
    requires WritesInv(m)
    requires n == m.(readOps := n.readOps, writeOps := n.writeOps, rxBuffer := n.rxBuffer, received := n.received,
                     wire := n.wire, handlers := n.handlers, statuses := n.statuses)
    ensures WritesInv(n)
  {
    hide ClaimedIn, WaitingIn, Current, WrittenIn, SettledIn, BlocksIn, BytesOf, Joined;
  }

  lemma {:induction false} InitKeepsInv(threads: nat)
    ensures Inv(Init(threads))
  {
    hide ClaimedIn, WaitingIn, Current, WrittenIn, SettledIn, BlocksIn, BytesOf, Joined;
    NoneClaimed(Init(threads).producers);
    NoneWaiting([]);
    NoneCurrent([], 0);
    EmptyLog();
  }

  // ----- Requests -----

  lemma RequestKeepsInv(m: State, event: Event)
    requires Inv(m) && !event.WriteEvent? && DisciplinedStep(m, Request(event))
    ensures Inv(m.(queue := m.queue + [event]))
  {
    hide StrandInv, ClaimedIn, WaitingIn, Current, WrittenIn, SettledIn, BlocksIn, BytesOf, Joined;
    StrandFrame(m, m.(queue := m.queue + [event]));
    WaitingSnoc(m.queue, event);
    EmptyRight(WaitingIn(m.queue));
  }

  // ----- Threads inside asyncWrite -----

  /** A thread moves inside asyncWrite without claiming or posting. */
  lemma MoveKeepsWrites(m: State, p: nat, now: Producer, statuses: seq<WriteStatus>)
    requires WritesInv(m) && p < |m.producers| && !m.producers[p].Claimed? && !now.Claimed?
    requires m.producers[p].Away? ==> !m.stopped
    requires now.Checked? || now.Loaded? ==> |now.bytes| <= m.config.txMaxSizePerElement
    ensures WritesInv(m.(producers := m.producers[p := now], statuses := statuses))
  {
    hide ClaimedIn, WaitingIn, Current, WrittenIn, SettledIn, BlocksIn, BytesOf, Joined;
    ClaimedUnmoved(m.producers, p, now);
  }

  lemma CheckKeepsWrites(m: State, p: nat, bytes: seq<Octet>, packetId: SizeT)
    requires WritesInv(m) && p < |m.producers| && m.producers[p].Away?
    ensures WritesInv(Check(m, p, bytes, packetId))
  {
    hide WritesInv;
    var n := Check(m, p, bytes, packetId);
    if n.producers[p].Checked? {
      MoveKeepsWrites(m, p, Checked(bytes, packetId), m.statuses);
    } else {
      WritesFrame(m, n);
    }
  }

  lemma CallerFits(m: State, p: nat)
    requires WritesInv(m) && p < |m.producers| && (m.producers[p].Checked? || m.producers[p].Loaded?)
    ensures |m.producers[p].bytes| <= m.config.txMaxSizePerElement
  {
    hide Counted, OpenQueued, Ordered, Partitioned;
  }

  lemma LoadKeepsWrites(m: State, p: nat)
    requires WritesInv(m) && p < |m.producers| && m.producers[p].Checked?
    ensures WritesInv(Load(m, p))
  {
    hide WritesInv;
    CallerFits(m, p);
    MoveKeepsWrites(m, p, Loaded(m.producers[p].bytes, m.producers[p].packetId, m.pendingWrites), m.statuses);
  }

  lemma ClaimKeepsWrites(m: State, p: nat, spurious: bool)
    requires WritesInv(m) && p < |m.producers| && m.producers[p].Loaded?
    ensures WritesInv(TryClaim(m, p, spurious))
  {
    hide WritesInv;
    var n := TryClaim(m, p, spurious);
    CallerFits(m, p);
    if n.producers[p].Claimed? {
      ClaimSucceeds(m, p, n.producers[p].packet);
    } else {
      MoveKeepsWrites(m, p, n.producers[p], n.statuses);
    }
  }

  lemma ClaimSucceeds(m: State, p: nat, packet: Packet)
    requires WritesInv(m) && p < |m.producers| && m.producers[p].Loaded?
    requires packet.ticket == |m.accepted| && |packet.bytes| <= m.config.txMaxSizePerElement
    requires m.pendingWrites < m.config.txMaxElementsInQueue
    ensures WritesInv(m.(pendingWrites := m.pendingWrites + 1, producers := m.producers[p := Claimed(packet)],
                         accepted := m.accepted + [packet]))
  {
    hide Counted, OpenQueued, Ordered, Bounded, Ticketed, Places;
    var n := m.(pendingWrites := m.pendingWrites + 1, producers := m.producers[p := Claimed(packet)],
                accepted := m.accepted + [packet]);
    ClaimCounts(m, n, p, packet);
    ClaimPlaces(m, n, p, packet);
    TicketedGrows(m.accepted, Places(m), packet);
  }

  lemma ClaimCounts(m: State, n: State, p: nat, packet: Packet)
    requires p < |m.producers| && m.producers[p].Loaded? && |packet.bytes| <= m.config.txMaxSizePerElement
    requires m.pendingWrites < m.config.txMaxElementsInQueue
    requires n == m.(pendingWrites := m.pendingWrites + 1, producers := m.producers[p := Claimed(packet)],
                     accepted := n.accepted)
    requires Counted(m) && OpenQueued(m) && Ordered(m) && Bounded(m)
    ensures Counted(n) && OpenQueued(n) && Ordered(n) && Bounded(n)
  {
    hide ClaimedIn, WaitingIn, WrittenIn;
    assert !AllAway(m.producers);
    ClaimedTaken(m.producers, p, packet);
  }

  lemma ClaimPlaces(m: State, n: State, p: nat, packet: Packet)
    requires p < |m.producers| && !m.producers[p].Claimed?
    requires n.producers == m.producers[p := Claimed(packet)] && n.queue == m.queue && n.txDeque == m.txDeque
    requires n.discarded == m.discarded && n.earlier == m.earlier && n.log == m.log
    ensures Places(n) == Places(m) + multiset{packet}
  {
    hide ClaimedIn, WaitingIn, SettledIn;
    ClaimedTaken(m.producers, p, packet);
    var rest := Places(m) - multiset(ClaimedIn(m.producers));
    assert Places(m) == multiset(ClaimedIn(m.producers)) + rest;
    assert Places(n) == multiset(ClaimedIn(n.producers)) + rest;
  }

  lemma PostKeepsWrites(m: State, p: nat)
    requires WritesInv(m) && p < |m.producers| && m.producers[p].Claimed?
    ensures WritesInv(Post(m, p))
  {
    hide Counted, OpenQueued, Ordered, Bounded, Ticketed, Places;
    PostCounts(m, p);
    PostPlaces(m, p);
  }

  lemma PostCounts(m: State, p: nat)
    requires p < |m.producers| && m.producers[p].Claimed?
    requires Counted(m) && OpenQueued(m) && Ordered(m) && Bounded(m)
    ensures var n := Post(m, p); Counted(n) && OpenQueued(n) && Ordered(n) && Bounded(n)
  {
    hide ClaimedIn, WaitingIn, WrittenIn;
    var packet := m.producers[p].packet;
    assert !AllAway(m.producers);
    ClaimedReleased(m.producers, p);
    WaitingSnoc(m.queue, WriteEvent(packet));
    Associate(WrittenIn(m.log) + m.txDeque, WaitingIn(m.queue), [packet]);
  }

  lemma PostPlaces(m: State, p: nat)
    requires p < |m.producers| && m.producers[p].Claimed?
    ensures Places(Post(m, p)) == Places(m)
  {
    hide ClaimedIn, WaitingIn, SettledIn;
    var n, packet := Post(m, p), m.producers[p].packet;
    ClaimedReleased(m.producers, p);
    WaitingSnoc(m.queue, WriteEvent(packet));
    assert multiset(WaitingIn(n.queue)) == multiset(WaitingIn(m.queue)) + multiset{packet};
  }

  lemma ThreadKeepsWrites(m: State, step: Step)
    requires WritesInv(m)
    ensures WritesInv(ThreadStep(m, step))
  {
    hide WritesInv, Check, Load, TryClaim, Post;
    match step
    case CheckStep(p, bytes, packetId) =>
      if p < |m.producers| && m.producers[p].Away? { CheckKeepsWrites(m, p, bytes, packetId); }
    case LoadStep(p) => if p < |m.producers| && m.producers[p].Checked? { LoadKeepsWrites(m, p); }
    case ClaimStep(p, spurious) => if p < |m.producers| && m.producers[p].Loaded? { ClaimKeepsWrites(m, p, spurious); }
    case PostStep(p) => if p < |m.producers| && m.producers[p].Claimed? { PostKeepsWrites(m, p); }
    case _ =>
  }

  lemma ThreadKeepsInv(m: State, step: Step)
    requires Inv(m)
    ensures Inv(ThreadStep(m, step))
  {
    hide StrandInv, WritesInv, ThreadStep;
    ThreadStepOnly(m, step);
    StrandFrame(m, ThreadStep(m, step));
    ThreadKeepsWrites(m, step);
  }

  /** The threads keep the accepted writes' half in the middle of a handler too. */
  lemma {:induction false} BetweenKeepsWrites(m: State, steps: seq<Step>)
    requires WritesInv(m)
    ensures WritesInv(Between(m, steps))
    decreases |steps|
  {
    hide WritesInv, ThreadStep;
    if steps != [] {
      BetweenKeepsWrites(m, steps[..|steps| - 1]);
      ThreadKeepsWrites(Between(m, steps[..|steps| - 1]), steps[|steps| - 1]);
    }
  }

  // ----- What the threads see -----

  /** m and n look the same to the threads in asyncWrite. */
  predicate LooksLike(m: State, n: State) {
    && Halted(m) == Halted(n) && m.config == n.config && m.pendingWrites == n.pendingWrites
    && m.producers == n.producers && m.queue == n.queue && m.accepted == n.accepted
    && m.posted == n.posted && m.statuses == n.statuses
  }

  lemma ThreadSees(m: State, n: State, step: Step)
    requires LooksLike(m, n)
    ensures LooksLike(ThreadStep(m, step), ThreadStep(n, step))
  {
    hide Check, Load, TryClaim, Post, Halted;
    match step
    case CheckStep(p, bytes, packetId) => if p < |m.producers| { CheckSees(m, n, p, bytes, packetId); }
    case LoadStep(p) => if p < |m.producers| && m.producers[p].Checked? { LoadSees(m, n, p); }
    case ClaimStep(p, spurious) => if p < |m.producers| && m.producers[p].Loaded? { ClaimSees(m, n, p, spurious); }
    case PostStep(p) => if p < |m.producers| && m.producers[p].Claimed? { PostSees(m, n, p); }
    case _ =>
  }

  lemma HaltedSame(m: State, n: State)
    requires OnlyThreads(m, n)
    ensures Halted(n) == Halted(m)
  {
  }

  lemma CheckSees(m: State, n: State, p: nat, bytes: seq<Octet>, packetId: SizeT)
    requires LooksLike(m, n) && p < |m.producers|
    ensures LooksLike(Check(m, p, bytes, packetId), Check(n, p, bytes, packetId))
  {
  }

  lemma LoadSees(m: State, n: State, p: nat)
    requires LooksLike(m, n) && p < |m.producers| && m.producers[p].Checked?
    ensures LooksLike(Load(m, p), Load(n, p))
  {
  }

  lemma ClaimSees(m: State, n: State, p: nat, spurious: bool)
    requires LooksLike(m, n) && p < |m.producers| && m.producers[p].Loaded?
    ensures LooksLike(TryClaim(m, p, spurious), TryClaim(n, p, spurious))
  {
    hide Halted;
    var mc, nc := TryClaim(m, p, spurious), TryClaim(n, p, spurious);
    ClaimOnly(m, p, spurious);
    ClaimOnly(n, p, spurious);
    HaltedSame(m, mc);
    HaltedSame(n, nc);
    var c := m.producers[p];
    if c.observed >= m.config.txMaxElementsInQueue {
      assert mc == m.(producers := m.producers[p := Away], statuses := m.statuses + [QueueFull]);
      assert nc == n.(producers := m.producers[p := Away], statuses := m.statuses + [QueueFull]);
    } else if m.pendingWrites == c.observed && !spurious {
      assert mc.producers == nc.producers && mc.accepted == nc.accepted;
    } else {
      assert mc == m.(producers := m.producers[p := Loaded(c.bytes, c.packetId, m.pendingWrites)]);
      assert nc == n.(producers := m.producers[p := Loaded(c.bytes, c.packetId, m.pendingWrites)]);
    }
  }

  lemma PostSees(m: State, n: State, p: nat)
    requires LooksLike(m, n) && p < |m.producers| && m.producers[p].Claimed?
    ensures LooksLike(Post(m, p), Post(n, p))
  {
  }

  /** So they do the same to both. */
  lemma {:induction false} ThreadsSee(m: State, n: State, steps: seq<Step>)
    requires LooksLike(m, n)
    ensures LooksLike(Between(m, steps), Between(n, steps))
    decreases |steps|
  {
    hide ThreadStep, LooksLike;
    if steps != [] {
      ThreadsSee(m, n, steps[..|steps| - 1]);
      ThreadSees(Between(m, steps[..|steps| - 1]), Between(n, steps[..|steps| - 1]), steps[|steps| - 1]);
    }
  }

  // ----- Taking an event off the strand -----

  lemma PopWaiting(queue: seq<Event>)
    requires queue != []
    ensures WaitingIn(queue) == WaitOf(queue[0]) + WaitingIn(queue[1..])
  {
  }

  /** An event that is not a write leaves the accepted writes where they are. */
  lemma PopKeepsInv(m: State)
    requires Inv(m) && m.queue != [] && !m.queue[0].WriteEvent?
    ensures Inv(m.(queue := m.queue[1..]))
  {
    hide StrandInv, ClaimedIn, WaitingIn, Current, WrittenIn, SettledIn, BlocksIn, BytesOf, Joined, Ticketed;
    StrandFrame(m, m.(queue := m.queue[1..]));
    PopWaiting(m.queue);
    assert WaitingIn(m.queue) == WaitingIn(m.queue[1..]);
    PopOpenQueued(m);
  }

  lemma PopOpenQueued(m: State)
    requires OpenQueued(m) && m.queue != []
    ensures OpenQueued(m.(queue := m.queue[1..]))
  {
    var rest := m.queue[1..];
    forall k | 0 <= k < |rest| && rest[k].OpenEvent?
      ensures m.stopped && rest[k].config.rxBufferMaxSize > 0 && AllAway(m.producers)
      ensures forall j :: k < j < |rest| ==> !rest[j].WriteEvent? && !rest[j].OpenEvent?
    {
      assert rest[k] == m.queue[k + 1];
      forall j | k < j < |rest| ensures !rest[j].WriteEvent? && !rest[j].OpenEvent? {
        assert rest[j] == m.queue[j + 1];
      }
    }
  }

  // ----- Stopping, closing, opening -----

  /** Raising the generation and cancelling leaves no operation live. */
  lemma CancelledOps(ops: seq<Op>, generation: nat, session: nat)
    requires forall i :: 0 <= i < |ops| ==> ops[i].generation <= generation
    ensures OpsOk(Cancel(ops), generation + 1, session, true)
    ensures Current(Cancel(ops), generation + 1) == []
  {
    NoneCurrent(Cancel(ops), generation + 1);
  }

  /** n is m with the port shut and both buffers cleared. */
  ghost predicate HaltedFrom(m: State, n: State) {
    && n.stopped && n.generation == m.generation + 1 && n.txDeque == [] && n.rxBuffer == []
    && n.readOps == Cancel(m.readOps) && n.writeOps == Cancel(m.writeOps)
    && ((n.lifecycle.Faulted? && !n.closing) || n.lifecycle.Closed?)
    && n.broken == m.broken
  }

  lemma HaltStrand(m: State, n: State)
    requires HaltedFrom(m, n) && !m.broken
    requires forall i :: 0 <= i < |m.readOps| ==> m.readOps[i].generation <= m.generation
    requires forall i :: 0 <= i < |m.writeOps| ==> m.writeOps[i].generation <= m.generation && m.writeOps[i].WriteOp?
    ensures StrandInv(n)
  {
    hide Current, WrittenIn, BlocksIn, BytesOf, Joined;
    CancelledOps(m.readOps, m.generation, n.session);
    CancelledOps(m.writeOps, m.generation, n.session);
  }

  lemma OldGenerations(m: State)
    requires StrandInv(m)
    ensures forall i :: 0 <= i < |m.readOps| ==> m.readOps[i].generation <= m.generation
    ensures forall i :: 0 <= i < |m.writeOps| ==> m.writeOps[i].generation <= m.generation && m.writeOps[i].WriteOp?
  {
    hide Current, WrittenIn, BlocksIn, BytesOf, Joined;
  }

  lemma CloseKeepsInv(m: State)
    requires Inv(m)
    ensures Inv(CloseOnStrand(m))
  {
    if !m.closing {
      hide StrandInv, WritesInv;
      StrandFacts(m);
      OldGenerations(m);
      HaltStrand(m, CloseOnStrand(m));
      CloseWrites(m);
    }
  }

  lemma StrandFacts(m: State)
    requires StrandInv(m)
    ensures Life(m) && !m.broken
  {
  }

  lemma CloseWrites(m: State)
    requires WritesInv(m) && !m.closing
    ensures WritesInv(CloseOnStrand(m))
  {
    hide ClaimedIn, WaitingIn, WrittenIn, SettledIn, Ticketed;
    var n := CloseOnStrand(m);
    assert multiset(n.discarded) == multiset(m.discarded) + multiset(m.txDeque);
    assert Places(n) == Places(m);
  }

  lemma OpenKeepsInv(m: State, config: BufferConfig, ok: bool)
    requires Inv(m)
    requires m.stopped && AllAway(m.producers) && config.rxBufferMaxSize > 0
    requires forall k :: 0 <= k < |m.queue| ==> !m.queue[k].WriteEvent? && !m.queue[k].OpenEvent?
    ensures Inv(RunOpen(m, config, ok))
  {
    if !m.closing {
      hide StrandInv, WritesInv;
      OpenStrand(m, config, ok);
      OpenWrites(m, config, ok);
    }
  }

  lemma OpenStrand(m: State, config: BufferConfig, ok: bool)
    requires StrandInv(m) && m.stopped && !m.closing && config.rxBufferMaxSize > 0
    ensures StrandInv(RunOpen(m, config, ok))
  {
    hide Current, WrittenIn, BlocksIn, BytesOf, Joined;
    var n := RunOpen(m, config, ok);
    var g := m.generation + 1;
    NoneCurrent(m.readOps, g);
    NoneCurrent(m.writeOps, g);
    CurrentSnoc(m.readOps, ReadOp(g, m.session + 1, false), g);
    EmptyLog();
  }

  lemma EmptyLog()
    ensures WrittenIn([]) == [] && SettledIn([]) == [] && BlocksIn([]) == [] && BytesOf([]) == [] && Joined([]) == []
  {
  }

  lemma OpenWrites(m: State, config: BufferConfig, ok: bool)
    requires WritesInv(m) && m.stopped && !m.closing && AllAway(m.producers) && config.rxBufferMaxSize > 0
    requires forall k :: 0 <= k < |m.queue| ==> !m.queue[k].WriteEvent? && !m.queue[k].OpenEvent?
    ensures WritesInv(RunOpen(m, config, ok))
  {
    hide ClaimedIn, WaitingIn, WrittenIn, SettledIn, Ticketed, Places;
    NoneClaimed(m.producers);
    NoneWaiting(m.queue);
    EmptyLog();
    OpenPlaces(m, RunOpen(m, config, ok));
  }

  lemma OpenPlaces(m: State, n: State)
    requires n.producers == m.producers && n.queue == m.queue && n.txDeque == []
    requires n.discarded == m.discarded + m.txDeque && n.earlier == m.earlier + m.log && n.log == []
    ensures Places(n) == Places(m)
  {
    hide ClaimedIn, WaitingIn, WrittenIn, SettledIn;
    EmptyLog();
    SettledConcat(m.earlier, m.log);
    assert multiset(n.discarded) == multiset(m.discarded) + multiset(m.txDeque);
    assert multiset(SettledIn(n.earlier)) == multiset(SettledIn(m.earlier)) + multiset(SettledIn(m.log));
  }

  lemma SetHandlerKeepsInv(m: State, kind: HandlerKind, present: bool)
    requires Inv(m)
    ensures Inv(SetHandler(m, kind, present))
  {
    hide WritesInv, ClaimedIn, WaitingIn, Current, WrittenIn, SettledIn, BlocksIn, BytesOf, Joined;
    WritesFrame(m, SetHandler(m, kind, present));
  }
}
