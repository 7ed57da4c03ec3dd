/** The serial transport's session as a state machine: what each handler does, on values. */
module TransportModel {
  import opened Framing
  import opened Sequences
  import opened Sizes

  datatype Option<+T> = None | Some(value: T)

  datatype BufferConfig = BufferConfig(rxBufferMaxSize: SizeT, txMaxElementsInQueue: SizeT, txMaxSizePerElement: SizeT)

  datatype WriteStatus = Scheduled | Closed | QueueFull | MessageTooLong

  datatype WriteResult = Written | Failed | Cancelled

  datatype FatalError = UnpluggedDevice | PermissionDenied | ExternallyClosedPort

  datatype RecoverableError = RxBufferFull

  datatype Lifecycle = Open | Opening | Closed | Closing | Faulted

  /** The error codes the transport tells apart, and one for all others. */
  datatype ErrorCode =
    | NoError | NotFound | Eof | BadDescriptor | NoSuchDevice | NoPermission | OperationAborted | OtherError

  function ClarifyFatalError(ec: ErrorCode): Option<FatalError> {
    match ec
    case Eof => Some(UnpluggedDevice)
    case BadDescriptor => Some(ExternallyClosedPort)
    case NoSuchDevice => Some(ExternallyClosedPort)
    case NoPermission => Some(PermissionDenied)
    case _ => None  // throws
  }

  /** An accepted write. The ticket is its place in the order of acceptance, kept for the history only. */
  datatype Packet = Packet(bytes: seq<Octet>, packetId: SizeT, ticket: nat)

  datatype HandlerKind = FrameHandler | FatalErrorHandler | RecuperableErrorHandler | WriteHandler

  /** Which handlers are set. */
  datatype Handlers = Handlers(frame: bool, fatal: bool, recuperable: bool, write: bool)

  /** A closure posted to the strand. */
  datatype Event =
    | OpenEvent(config: BufferConfig)
    | CloseEvent
    | SetHandlerEvent(kind: HandlerKind, present: bool)
    | WriteEvent(packet: Packet)

  /** An asynchronous operation whose handler has not run yet. */
  datatype Op =
    | ReadOp(generation: nat, session: nat, cancelled: bool)
    | WriteOp(generation: nat, session: nat, cancelled: bool, packet: Packet, sent: nat)

  /** Where a thread stands inside asyncWrite. */
  datatype Producer =
    | Away
    | Checked(bytes: seq<Octet>, packetId: SizeT)
    | Loaded(bytes: seq<Octet>, packetId: SizeT, observed: nat)
    | Claimed(packet: Packet)

  /** A point where the user is told something, if the handler is set. */
  datatype Notice =
    | FrameNotice(frame: seq<Octet>, called: bool)
    | RecoverableNotice(recoverable: RecoverableError, dropped: seq<Octet>, called: bool)
    | FatalNotice(fatal: FatalError, called: bool)
    | WriteNotice(result: WriteResult, packet: Packet, called: bool)

  datatype State = State(
    // The transport's fields.
    config: BufferConfig,
    rxBuffer: seq<Octet>,
    txDeque: seq<Packet>,
    handlers: Handlers,
    closing: bool,
    stopped: bool,
    generation: nat,
    pendingWrites: SizeT,
    lifecycle: Lifecycle,
    // The strand, the stream and the threads inside asyncWrite.
    queue: seq<Event>,
    readOps: seq<Op>,
    writeOps: seq<Op>,
    producers: seq<Producer>,
    cancels: nat,
    closes: nat,
    // History. The sequences posted, received, wire and log start afresh with each session.
    session: nat,
    opens: nat,
    accepted: seq<Packet>,
    posted: seq<Packet>,
    discarded: seq<Packet>,
    leaked: nat,
    received: seq<Octet>,
    wire: seq<Octet>,
    earlier: seq<Notice>,
    log: seq<Notice>,
    statuses: seq<WriteStatus>,
    broken: bool  // terminate, or undefined behaviour
  )

  const DEFAULT_CONFIG := BufferConfig(1024, 10, 512)

  function Init(threads: nat): State {
    State(DEFAULT_CONFIG, [], [], Handlers(false, false, false, false), false, true, 0, 0, Lifecycle.Closed,
          [], [], [], seq(threads, i => Away), 0, 0,
          0, 0, [], [], [], 0, [], [], [], [], [], false)
  }

  /** fetch_sub(1) on size_t. */
  function FetchSub(n: SizeT): SizeT {
    if n == 0 then SIZE_RANGE - 1 else n - 1
  }

  predicate Halted(m: State) { m.closing || m.stopped }

  // ----- Reading -----

  function StartRead(m: State): State {
    if Halted(m) then m else m.(readOps := m.readOps + [ReadOp(m.generation, m.session, false)])
  }

  /** The position of the first delimiter. */
  function FirstDelimiter(stream: seq<Octet>): (i: nat)
    requires DELIMITER in stream
    ensures i < |stream| && stream[i] == DELIMITER && DELIMITER !in stream[..i]
  {
    if stream[0] == DELIMITER then 0
    else
      var i := FirstDelimiter(stream[1..]) + 1;
      assert stream[..i] == [stream[0]] + stream[1..][..i - 1];
      i
  }

  function Cancel(ops: seq<Op>): (r: seq<Op>)
    ensures |r| == |ops| && forall i :: 0 <= i < |r| ==> r[i] == ops[i].(cancelled := true)
  {
    seq(|ops|, i requires 0 <= i < |ops| => ops[i].(cancelled := true))
  }

  /** serial.cancel and serial.close. */
  function ShutPort(m: State): State {
    m.(readOps := Cancel(m.readOps), writeOps := Cancel(m.writeOps), cancels := m.cancels + 1, closes := m.closes + 1)
  }

  /** The first `settled` queued writes have already been given an outcome. */
  function StopAfterIoError(m: State, settled: nat): State
    requires settled <= |m.txDeque|
  {
    ShutPort(m.(
      stopped := true, lifecycle := Faulted, generation := m.generation + 1, rxBuffer := [], txDeque := [],
      discarded := m.discarded + m.txDeque[settled..], leaked := m.leaked + |m.txDeque| - settled))
  }

  function RecoverFromError(m: State): State {
    StartRead(m.(rxBuffer := []))
  }

  function DispatchError(m: State, ec: ErrorCode, settled: nat): State
    requires settled <= |m.txDeque|
  {
    if ec.NotFound? then
      var r := RecoverFromError(m);
      r.(log := r.log + [RecoverableNotice(RxBufferFull, m.rxBuffer, m.handlers.recuperable)])
    else
      var s := StopAfterIoError(m, settled);
      match ClarifyFatalError(ec)
      case Some(e) => s.(log := s.log + [FatalNotice(e, m.handlers.fatal)])
      case None => s.(broken := s.broken || m.handlers.fatal)
  }

  function HandleRead(m: State, ec: ErrorCode, bytesRead: nat, generation: nat): State {
    if Halted(m) || generation != m.generation then m
    else if !ec.NoError? then DispatchError(m, ec, 0)
    else if bytesRead > |m.rxBuffer| then m.(broken := true)
    else
      StartRead(m.(log := m.log + [FrameNotice(m.rxBuffer[..bytesRead], m.handlers.frame)],
                   rxBuffer := m.rxBuffer[bytesRead..]))
  }

  // ----- Writing -----

  function DoWrite(m: State): State {
    if Halted(m) || m.txDeque == [] then m
    else m.(writeOps := m.writeOps + [WriteOp(m.generation, m.session, false, m.txDeque[0], 0)])
  }

  /** handleWrite lowers the counter first; until it stores again, the threads in asyncWrite go on as they like. */
  function HandleWrite(m: State, ec: ErrorCode, generation: nat, between: seq<Step>): State {
    if Halted(m) || generation != m.generation then m
    else if m.txDeque == [] then m.(broken := true)  // front() of an empty queue
    else FinishWrite(Between(m.(pendingWrites := FetchSub(m.pendingWrites)), between), ec)
  }

  /** handleWrite from its fetch_sub on. */
  function FinishWrite(m: State, ec: ErrorCode): State
    requires m.txDeque != []
  {
    if !ec.NoError? then
      DispatchError(m.(log := m.log + [WriteNotice(Failed, m.txDeque[0], m.handlers.write)]), ec, 1)
    else
      DoWrite(m.(log := m.log + [WriteNotice(Written, m.txDeque[0], m.handlers.write)], txDeque := m.txDeque[1..]))
  }

  /** The closure asyncWrite posts. */
  function RunWrite(m: State, packet: Packet): State {
    if Halted(m) then
      m.(pendingWrites := FetchSub(m.pendingWrites),
         log := m.log + [WriteNotice(Cancelled, packet, m.handlers.write)])
    else
      var s := m.(txDeque := m.txDeque + [packet]);
      if m.txDeque == [] then DoWrite(s) else s
  }

  // ----- Opening and closing -----

  /** The new session: every field reset, nothing drained. */
  function ResetSession(m: State, config: BufferConfig): State {
    m.(generation := m.generation + 1, stopped := true, lifecycle := Opening, rxBuffer := [], txDeque := [],
       pendingWrites := 0, config := config,
       session := m.session + 1, posted := [], discarded := m.discarded + m.txDeque, leaked := 0,
       received := [], wire := [], earlier := m.earlier + m.log, log := [])
  }

  /** ok: the port opened and took its options. */
  function RunOpen(m: State, config: BufferConfig, ok: bool): State {
    if m.closing then m
    else
      var s := ResetSession(m, config);
      if ok then StartRead(s.(stopped := false, lifecycle := Open, opens := m.opens + 1))
      else s.(lifecycle := Faulted)
  }

  function CloseOnStrand(m: State): State {
    if m.closing then m else FinishClose(m.(closing := true))
  }

  /** closeOnStrand from its exchange of closing on. */
  function FinishClose(m: State): State {
    ShutPort(m.(
      stopped := true, lifecycle := Lifecycle.Closed, generation := m.generation + 1,
      rxBuffer := [], txDeque := [], discarded := m.discarded + m.txDeque, leaked := m.leaked + |m.txDeque|))
  }

  function SetHandler(m: State, kind: HandlerKind, present: bool): State {
    if m.closing then m
    else
      match kind
      case FrameHandler => m.(handlers := m.handlers.(frame := present))
      case FatalErrorHandler => m.(handlers := m.handlers.(fatal := present))
      case RecuperableErrorHandler => m.(handlers := m.handlers.(recuperable := present))
      case WriteHandler => m.(handlers := m.handlers.(write := present))
  }

  function RunEvent(m: State, event: Event, openOk: bool): State {
    match event
    case OpenEvent(config) => RunOpen(m, config, openOk)
    case CloseEvent => CloseOnStrand(m)
    case SetHandlerEvent(kind, present) => SetHandler(m, kind, present)
    case WriteEvent(packet) => RunWrite(m, packet)
  }

  // ----- asyncWrite, one shared access at a time -----

  function Check(m: State, p: nat, bytes: seq<Octet>, packetId: SizeT): State
    requires p < |m.producers|
  {
    if Halted(m) then m.(statuses := m.statuses + [WriteStatus.Closed])
    else if |bytes| > m.config.txMaxSizePerElement then m.(statuses := m.statuses + [MessageTooLong])
    else m.(producers := m.producers[p := Checked(bytes, packetId)])
  }

  function Load(m: State, p: nat): State
    requires p < |m.producers| && m.producers[p].Checked?
  {
    var c := m.producers[p];
    m.(producers := m.producers[p := Loaded(c.bytes, c.packetId, m.pendingWrites)])
  }

  /** One turn of the loop around compare_exchange_weak, which may fail for no reason. */
  function TryClaim(m: State, p: nat, spurious: bool): State
    requires p < |m.producers| && m.producers[p].Loaded?
  {
    var c := m.producers[p];
    if c.observed >= m.config.txMaxElementsInQueue then
      m.(producers := m.producers[p := Away], statuses := m.statuses + [QueueFull])
    else if m.pendingWrites == c.observed && !spurious then
      var packet := Packet(c.bytes, c.packetId, |m.accepted|);
      m.(pendingWrites := m.pendingWrites + 1, producers := m.producers[p := Claimed(packet)],
         accepted := m.accepted + [packet])
    else
      m.(producers := m.producers[p := Loaded(c.bytes, c.packetId, m.pendingWrites)])
  }

  function Post(m: State, p: nat): State
    requires p < |m.producers| && m.producers[p].Claimed?
  {
    var packet := m.producers[p].packet;
    m.(producers := m.producers[p := Away], queue := m.queue + [WriteEvent(packet)], posted := m.posted + [packet],
       statuses := m.statuses + [Scheduled])
  }

  predicate IsThreadStep(step: Step) { step.CheckStep? || step.LoadStep? || step.ClaimStep? || step.PostStep? }

  /** n differs from m only in what the threads in asyncWrite change; each new packet has taken one slot. */
  ghost predicate OnlyThreads(m: State, n: State) {
    && n == m.(pendingWrites := n.pendingWrites, producers := n.producers, queue := n.queue,
               accepted := n.accepted, posted := n.posted, statuses := n.statuses)
    && |n.producers| == |m.producers| && m.posted <= n.posted && m.accepted <= n.accepted
    && n.pendingWrites - m.pendingWrites == |n.accepted| - |m.accepted|
  }

  /** One shared access of a thread, if the step is one and can happen. */
  function ThreadStep(m: State, step: Step): State {
    match step
    case CheckStep(p, bytes, packetId) =>
      if p < |m.producers| && m.producers[p].Away? then Check(m, p, bytes, packetId) else m
    case LoadStep(p) => if p < |m.producers| && m.producers[p].Checked? then Load(m, p) else m
    case ClaimStep(p, spurious) => if p < |m.producers| && m.producers[p].Loaded? then TryClaim(m, p, spurious) else m
    case PostStep(p) => if p < |m.producers| && m.producers[p].Claimed? then Post(m, p) else m
    case _ => m
  }

  lemma ThreadStepOnly(m: State, step: Step)
    ensures OnlyThreads(m, ThreadStep(m, step))
  {
    hide Check, Load, TryClaim, Post;
    match step
    case CheckStep(p, bytes, packetId) => if p < |m.producers| { CheckOnly(m, p, bytes, packetId); }
    case LoadStep(p) => if p < |m.producers| && m.producers[p].Checked? { LoadOnly(m, p); }
    case ClaimStep(p, spurious) => if p < |m.producers| && m.producers[p].Loaded? { ClaimOnly(m, p, spurious); }
    case PostStep(p) => if p < |m.producers| && m.producers[p].Claimed? { PostOnly(m, p); }
    case _ =>
  }

  lemma CheckOnly(m: State, p: nat, bytes: seq<Octet>, packetId: SizeT)
    requires p < |m.producers|
    ensures OnlyThreads(m, Check(m, p, bytes, packetId))
  {
  }

  lemma LoadOnly(m: State, p: nat)
    requires p < |m.producers| && m.producers[p].Checked?
    ensures OnlyThreads(m, Load(m, p))
  {
  }

  lemma ClaimOnly(m: State, p: nat, spurious: bool)
    requires p < |m.producers| && m.producers[p].Loaded?
    ensures OnlyThreads(m, TryClaim(m, p, spurious))
  {
  }

  lemma PostOnly(m: State, p: nat)
    requires p < |m.producers| && m.producers[p].Claimed?
    ensures OnlyThreads(m, Post(m, p))
  {
  }

  lemma OnlyThreadsTrans(m: State, n: State, p: State)
    requires OnlyThreads(m, n) && OnlyThreads(n, p)
    ensures OnlyThreads(m, p)
  {
  }

  /** What the threads do in the middle of a handler. */
  function Between(m: State, steps: seq<Step>): (n: State)
    ensures OnlyThreads(m, n)
    decreases |steps|
  {
    if steps == [] then m
    else
      var p := Between(m, steps[..|steps| - 1]);
      ThreadStepOnly(p, steps[|steps| - 1]);
      OnlyThreadsTrans(m, p, ThreadStep(p, steps[|steps| - 1]));
      ThreadStep(p, steps[|steps| - 1])
  }

  // ----- Steps -----

  datatype Step =
    | Request(event: Event)                                        // open, close, set a handler
    | RunNext(openOk: bool)                                        // the strand runs its oldest closure
    | CheckStep(p: nat, bytes: seq<Octet>, packetId: SizeT)
    | LoadStep(p: nat)
    | ClaimStep(p: nat, spurious: bool)
    | PostStep(p: nat)
    | Receive(chunk: seq<Octet>)                                   // octets reach the pending read
    | Transmit(i: nat, count: nat)                                 // octets leave through a pending write
    | CompleteRead(i: nat, ec: ErrorCode)
    | CompleteWrite(i: nat, ec: ErrorCode, between: seq<Step>)

  function Without(ops: seq<Op>, i: nat): seq<Op>
    requires i < |ops|
  {
    ops[..i] + ops[i + 1..]
  }

  predicate LiveRead(m: State) { exists i :: 0 <= i < |m.readOps| && !m.readOps[i].cancelled }

  /** An error an operation may report by itself. */
  predicate Spontaneous(ec: ErrorCode) {
    ec.Eof? || ec.BadDescriptor? || ec.NoSuchDevice? || ec.NoPermission?
  }

  /** What async_read_until may report: anything once cancelled, otherwise as documented. */
  predicate ReadMayReport(m: State, op: Op, ec: ErrorCode) {
    op.cancelled || Spontaneous(ec)
    || (ec.NoError? && DELIMITER in m.rxBuffer)
    || (ec.NotFound? && DELIMITER !in m.rxBuffer && |m.rxBuffer| >= m.config.rxBufferMaxSize)
  }

  /** What async_write may report; never not_found by itself. */
  predicate WriteMayReport(op: Op, ec: ErrorCode) {
    op.ReadOp? || op.cancelled || Spontaneous(ec) || (ec.NoError? && op.sent == |op.packet.bytes|)
  }

  function ReadSize(m: State): nat {
    if DELIMITER in m.rxBuffer then FirstDelimiter(m.rxBuffer) + 1 else 0
  }

  /** A step that cannot happen in the current state changes nothing. */
  function Next(m: State, step: Step): State {
    match step
    case Request(event) => if event.WriteEvent? then m else m.(queue := m.queue + [event])
    case RunNext(openOk) => if m.queue == [] then m else RunEvent(m.(queue := m.queue[1..]), m.queue[0], openOk)
    case CheckStep(_, _, _) => ThreadStep(m, step)
    case LoadStep(_) => ThreadStep(m, step)
    case ClaimStep(_, _) => ThreadStep(m, step)
    case PostStep(_) => ThreadStep(m, step)
    case Receive(chunk) => ReceiveChunk(m, chunk)
    case Transmit(i, count) => TransmitOctets(m, i, count)
    case CompleteRead(i, ec) =>
      if i < |m.readOps| && ReadMayReport(m, m.readOps[i], ec) then
        HandleRead(m.(readOps := Without(m.readOps, i)), ec, ReadSize(m), m.readOps[i].generation)
      else m
    case CompleteWrite(i, ec, between) =>
      if i < |m.writeOps| && WriteMayReport(m.writeOps[i], ec) then
        HandleWrite(m.(writeOps := Without(m.writeOps, i)), ec, m.writeOps[i].generation, between)
      else m
  }

  /** async_read_until goes on reading only while it has no delimiter and room for more. */
  function ReceiveChunk(m: State, chunk: seq<Octet>): State {
    if LiveRead(m) && DELIMITER !in m.rxBuffer && |m.rxBuffer| + |chunk| <= m.config.rxBufferMaxSize then
      m.(rxBuffer := m.rxBuffer + chunk, received := m.received + chunk)
    else m
  }

  /** async_write moves its octets in any number of portions; a cancelled operation moves no more. */
  function TransmitOctets(m: State, i: nat, count: nat): State {
    if i < |m.writeOps| && m.writeOps[i].WriteOp? && !m.writeOps[i].cancelled
       && m.writeOps[i].sent + count <= |m.writeOps[i].packet.bytes| then
      var op := m.writeOps[i];
      m.(writeOps := m.writeOps[i := op.(sent := op.sent + count)],
         wire := m.wire + op.packet.bytes[op.sent..op.sent + count])
    else m
  }

  function After(m: State, steps: seq<Step>): State
    decreases |steps|
  {
    if steps == [] then m else Next(After(m, steps[..|steps| - 1]), steps[|steps| - 1])
  }

  /**
    * The discipline on open: only while stopped, with no other open queued and no thread between
    * asyncWrite's check and its post; and a receive buffer that can hold something.
    */
  predicate DisciplinedStep(m: State, step: Step) {
    step.Request? && step.event.OpenEvent? ==>
      && m.stopped
      && (forall k :: 0 <= k < |m.queue| ==> !m.queue[k].OpenEvent?)
      && (forall p :: 0 <= p < |m.producers| ==> m.producers[p].Away?)
      && step.event.config.rxBufferMaxSize > 0
  }

  predicate Disciplined(m: State, steps: seq<Step>)
    decreases |steps|
  {
    steps == []
    || (Disciplined(m, steps[..|steps| - 1])
        && DisciplinedStep(After(m, steps[..|steps| - 1]), steps[|steps| - 1]))
  }

  // ----- Runs -----

  lemma AfterSnoc(m: State, steps: seq<Step>, step: Step)
    ensures After(m, steps + [step]) == Next(After(m, steps), step)
  {
    assert (steps + [step])[..|steps|] == steps;
  }

  lemma {:induction false} AfterConcat(m: State, a: seq<Step>, b: seq<Step>)
    ensures After(m, a + b) == After(After(m, a), b)
    decreases |b|
  {
    if b == [] {
      EmptyRight(a);
    } else {
      hide After, Next;
      var front, x := b[..|b| - 1], b[|b| - 1];
      FrontLast(b);
      AfterConcat(m, a, front);
      Associate(a, front, [x]);
      AfterSnoc(m, a + front, x);
      AfterSnoc(After(m, a), front, x);
    }
  }

  lemma AfterOne(m: State, step: Step)
    ensures After(m, [step]) == Next(m, step)
  {
    assert [step] == [] + [step];
    AfterSnoc(m, [], step);
  }

  lemma AfterTwo(m: State, a: Step, b: Step)
    ensures After(m, [a, b]) == Next(Next(m, a), b)
  {
    hide Next, After;
    AfterOne(m, a);
    AfterSnoc(m, [a], b);
    assert [a] + [b] == [a, b];
  }
}
